/** What every event of the kernel keeps: each thread in exactly one place, the queues in order of
    arrival, the semaphores, the mutex protocol and who is waiting for what. */
module Invariantes {
  import opened Listas
  import opened Opcion
  import opened Planificacion
  import opened Kernel

  // ---- Lists ----

  lemma {:induction false} QuitarDe<T(!new)>(s: seq<T>, x: T)
    requires SinDup(s)
    ensures SinDup(Quitar(s, x)) && forall y :: y in Quitar(s, x) <==> y in s && y != x
  {
    if s == [] {
    } else {
      QuitarDe(s[1..], x);
      assert s == [s[0]] + s[1..];
      assert s[0] !in s[1..];
      if s[0] != x {
        var r := Quitar(s[1..], x);
        assert s[0] !in r;
        assert Quitar(s, x) == [s[0]] + r;
      }
    }
  }

  lemma {:induction false} QuitarAjeno<T>(s: seq<T>, x: T)
    requires x !in s
    ensures Quitar(s, x) == s
  {
    if s == [] {
    } else {
      QuitarAjeno(s[1..], x);
    }
  }

  lemma AgregarA<T(!new)>(s: seq<T>, x: T)
    requires SinDup(s) && x !in s
    ensures SinDup(s + [x]) && forall y :: y in s + [x] <==> y in s || y == x
  {
  }

  lemma SinDe<T(!new)>(s: seq<T>, i: nat)
    requires SinDup(s) && i < |s|
    ensures SinDup(Sin(s, i)) && forall y :: y in Sin(s, i) <==> y in s && y != s[i]
  {
    forall y | y in s && y != s[i]
      ensures y in Sin(s, i)
    {
      var j :| 0 <= j < |s| && s[j] == y;
      assert Sin(s, i)[if j < i then j else j - 1] == y;
    }
  }

  // ---- The invariant ----

  ghost predicate Vivo(k: K, h: Hilo) {
    h.pid in k.procesos && h.tid in k.procesos[h.pid].threads
  }

  /** A live thread of a process that has left NEW. */
  ghost predicate Activo(k: K, h: Hilo) {
    Vivo(k, h) && h.pid !in k.colaNew
  }

  /** The thread is in the place its record says, and only there. */
  ghost predicate EnSuLugar(k: K, h: Hilo) {
    && (h in k.colaReady <==> Activo(k, h) && Ficha(k, h).estado == READY)
    && (h in k.colaBlocked <==> Activo(k, h) && Ficha(k, h).estado == BLOCKED)
    && (k.exec == Some(h) <==> Activo(k, h) && Ficha(k, h).estado == EXEC)
  }

  ghost predicate Lugares(k: K) {
    SinDup(k.colaReady) && SinDup(k.colaBlocked) && forall h :: EnSuLugar(k, h)
  }

  ghost predicate PcbBien(k: K, pid: nat)
    requires pid in k.procesos
  {
    var p := k.procesos[pid];
    && pid < k.pidCounter && SinDup(p.threads) && 0 in p.threads
    && forall t :: t in p.threads ==> t < p.tidContador && Hilo(pid, t) in k.tcbs
  }

  ghost predicate EsNuevo(k: K, pid: nat) {
    pid in k.procesos && k.procesos[pid].threads == [0] && k.procesos[pid].mutex == []
    && Ficha(k, Hilo(pid, 0)).estado == READY
  }

  /** The process table and the NEW queue, which is in order of creation. */
  ghost predicate Tabla(k: K) {
    && SinDup(k.sistema) && (forall p: nat :: p in k.sistema <==> p in k.procesos)
    && (forall p :: p in k.procesos ==> PcbBien(k, p))
    && Creciente(k.colaNew) && (forall p :: p in k.colaNew ==> EsNuevo(k, p))
    && k.semNew == |k.colaNew|
  }

  /** The ready queue is in order of arrival, and the semaphore has a token for each of its threads. */
  ghost predicate Cola(k: K) {
    && Ordenada(Listos(k)) && (forall i :: 0 <= i < |k.colaReady| ==> Listos(k)[i].desde <= k.reloj)
    && k.semReady >= |k.colaReady|
  }

  ghost predicate Esperando(k: K, h: Hilo) {
    Vivo(k, h) && Ficha(k, h).estado == BLOCKED && Ficha(k, h).motivo == MUTEX && h !in k.pendientes
  }

  ghost predicate RecursoBien(k: K, pid: nat, r: Recurso) {
    && r.owner >= -1 && (r.owner == -1 ==> r.hilos == [])
    && SinDup(r.hilos) && forall t :: t in r.hilos ==> Esperando(k, Hilo(pid, t))
  }

  ghost predicate Ajenos(a: Recurso, b: Recurso) {
    forall t :: t in a.hilos ==> t !in b.hilos
  }

  ghost predicate MutexBien(k: K, pid: nat)
    requires pid in k.procesos
  {
    var ms := k.procesos[pid].mutex;
    && (forall i :: 0 <= i < |ms| ==> RecursoBien(k, pid, ms[i]))
    && (forall i, j :: 0 <= i < j < |ms| ==> Ajenos(ms[i], ms[j]))
  }

  /** A free mutex has no waiters, and every waiter is blocked for it, once, in one list. */
  ghost predicate Protocolo(k: K) {
    forall p :: p in k.procesos ==> MutexBien(k, p)
  }

  ghost predicate DuenioVivo(k: K, pid: nat, r: Recurso)
    requires pid in k.procesos
  {
    r.owner == -1 || (r.owner >= 0 && r.owner as nat in k.procesos[pid].threads)
  }

  /** A mutex that is taken belongs to a live thread of its process. */
  ghost predicate Duenios(k: K) {
    forall p, i :: p in k.procesos && 0 <= i < |k.procesos[p].mutex| ==> DuenioVivo(k, p, k.procesos[p].mutex[i])
  }

  ghost predicate EnLista(k: K, h: Hilo) {
    h.pid in k.procesos && exists i :: 0 <= i < |k.procesos[h.pid].mutex| && h.tid in k.procesos[h.pid].mutex[i].hilos
  }

  /** A blocked thread waits for a thread to end, for a mutex, or for a handler to come back. */
  ghost predicate Clasificado(k: K, h: Hilo) {
    && (h in k.pendientes ==> h in k.colaBlocked)
    && (h in k.colaBlocked ==>
          match Ficha(k, h).motivo
          case THREAD_JOIN => h !in k.pendientes && !EnLista(k, h)
          case IO => h in k.pendientes && !EnLista(k, h)
          case MUTEX => h in k.pendientes <==> !EnLista(k, h)
          case _ => false)
  }

  ghost predicate Bloqueados(k: K) {
    forall h :: Clasificado(k, h)
  }

  ghost predicate Inv(k: K) {
    Tabla(k) && Lugares(k) && Cola(k) && Protocolo(k) && Duenios(k) && Bloqueados(k)
  }

  // ---- Moving one thread ----

  /** Everything but the places, one record, the ready semaphore and the pending set is the same. */
  ghost predicate Mueve(k: K, k': K, h: Hilo) {
    && k'.procesos == k.procesos && k'.colaNew == k.colaNew && k'.sistema == k.sistema
    && k'.pidCounter == k.pidCounter && k'.semNew == k.semNew && k'.reloj == k.reloj && k'.largoPlazo == k.largoPlazo
    && (forall x :: x != h ==> Ficha(k', x) == Ficha(k, x))
    && (forall x :: x in k.tcbs ==> x in k'.tcbs)
    && Ficha(k', h).prioridad == Ficha(k, h).prioridad
  }

  lemma MueveTabla(k: K, k': K, h: Hilo)
    requires Tabla(k) && Mueve(k, k', h) && Activo(k, h)
    ensures Tabla(k')
  {
    hide SinDup, Creciente;
    forall p | p in k'.procesos
      ensures PcbBien(k', p)
    {
      assert PcbBien(k, p);
    }
    forall p | p in k'.colaNew
      ensures EsNuevo(k', p)
    {
      assert EsNuevo(k, p);
    }
  }

  /** Taking a thread out of its place, wherever that is. */
  lemma SacarDeSuLugar(k: K, h: Hilo)
    requires Lugares(k) && Activo(k, h)
    ensures var d := Desencolar(k, h);
            && d == k.(colaReady := d.colaReady, colaBlocked := d.colaBlocked, exec := d.exec)
            && SinDup(d.colaReady) && (forall x :: x in d.colaReady <==> x in k.colaReady && x != h)
            && SinDup(d.colaBlocked) && (forall x :: x in d.colaBlocked <==> x in k.colaBlocked && x != h)
            && d.exec == (if k.exec == Some(h) then None else k.exec)
            && (h !in k.colaReady ==> d.colaReady == k.colaReady)
  {
    hide SinDup, Activo, Quitar;
    assert EnSuLugar(k, h);
    QuitarDe(k.colaReady, h);
    QuitarDe(k.colaBlocked, h);
  }

  /** The places after moving h to where e says. */
  lemma MueveLugares(k: K, k': K, h: Hilo, e: Estado)
    requires Lugares(k) && Activo(k, h) && Mueve(k, k', h) && Ficha(k', h).estado == e
    requires SinDup(k'.colaReady) && forall x :: x in k'.colaReady <==>
               (x in k.colaReady && x != h) || (x == h && e == READY)
    requires SinDup(k'.colaBlocked) && forall x :: x in k'.colaBlocked <==>
               (x in k.colaBlocked && x != h) || (x == h && e == BLOCKED)
    requires e == EXEC ==> k.exec == None && k'.exec == Some(h)
    requires e != EXEC ==> k'.exec == if k.exec == Some(h) then None else k.exec
    ensures Lugares(k')
  {
    hide SinDup;
    forall x
      ensures EnSuLugar(k', x)
    {
      assert EnSuLugar(k, x);
    }
  }

  /** Nobody else's mutex is touched by moving a thread that waits for none. */
  lemma MueveProtocolo(k: K, k': K, h: Hilo)
    requires Protocolo(k) && Mueve(k, k', h) && !EnLista(k, h)
    requires forall x :: x in k'.pendientes ==> x in k.pendientes || x == h
    ensures Protocolo(k')
  {
    hide SinDup;
    forall p | p in k'.procesos
      ensures MutexBien(k', p)
    {
      assert MutexBien(k, p);
      var ms := k.procesos[p].mutex;
      forall i | 0 <= i < |ms|
        ensures RecursoBien(k', p, ms[i])
      {
        assert RecursoBien(k, p, ms[i]);
        forall t | t in ms[i].hilos
          ensures Esperando(k', Hilo(p, t))
        {
          assert Esperando(k, Hilo(p, t));
          assert EnLista(k, Hilo(p, t));
        }
      }
    }
  }

  lemma MueveDuenios(k: K, k': K)
    requires Duenios(k) && k'.procesos == k.procesos
    ensures Duenios(k')
  {
    forall p, i | p in k'.procesos && 0 <= i < |k'.procesos[p].mutex|
      ensures DuenioVivo(k', p, k'.procesos[p].mutex[i])
    {
      assert DuenioVivo(k, p, k.procesos[p].mutex[i]);
    }
  }

  lemma MueveBloqueados(k: K, k': K, h: Hilo)
    requires Bloqueados(k) && Mueve(k, k', h) && Clasificado(k', h)
    requires forall x :: x != h ==>
               (x in k'.pendientes <==> x in k.pendientes) && (x in k'.colaBlocked <==> x in k.colaBlocked)
    ensures Bloqueados(k')
  {
    forall x
      ensures Clasificado(k', x)
    {
      assert Clasificado(k, x);
      assert EnLista(k', x) == EnLista(k, x);
    }
  }

  /** Appending to the ready queue keeps it in order of arrival. */
  lemma ColaAlAgregar(k: K, k': K, h: Hilo)
    requires Cola(k) && k'.colaReady == k.colaReady + [h] && h !in k.colaReady && k'.reloj == k.reloj
    requires (forall x :: x != h ==> Ficha(k', x) == Ficha(k, x)) && Ficha(k', h).desde == k.reloj
    requires k'.semReady == k.semReady + 1
    ensures Cola(k')
  {
    forall i | 0 <= i < |k.colaReady|
      ensures Listos(k')[i] == Listos(k)[i]
    {
      assert k.colaReady[i] != h;
    }
  }

  lemma ColaIgual(k: K, k': K)
    requires Cola(k) && k'.colaReady == k.colaReady && k'.reloj >= k.reloj && k'.semReady == k.semReady
    requires forall x :: x in k.colaReady ==> Ficha(k', x) == Ficha(k, x)
    ensures Cola(k')
  {
    assert Listos(k') == Listos(k);
  }

  // ---- Moves ----

  /** A thread that is executing or blocked goes to the end of the ready queue. */
  lemma AReady(k: K, h: Hilo)
    requires Tabla(k) && Lugares(k) && Cola(k) && Activo(k, h) && Ficha(k, h).estado != READY
    ensures var k' := EncolarReady(Desencolar(k, h), h);
            && Mueve(k, k', h) && Tabla(k') && Lugares(k') && Cola(k')
            && k'.colaReady == k.colaReady + [h] && k'.pendientes == k.pendientes
            && (forall x :: x in k'.colaBlocked <==> x in k.colaBlocked && x != h)
            && k'.exec == (if k.exec == Some(h) then None else k.exec)
            && Ficha(k', h) == Ficha(k, h).(estado := READY, desde := k.reloj)
  {
    hide Tabla, Cola, SinDup, Activo, Desencolar;
    SacarDeSuLugar(k, h);
    assert EnSuLugar(k, h);
    var d := Desencolar(k, h);
    var k' := EncolarReady(d, h);
    AgregarA(k.colaReady, h);
    MueveTabla(k, k', h);
    MueveLugares(k, k', h, READY);
    ColaAlAgregar(k, k', h);
  }

  /** The executing thread blocks. */
  lemma ABlocked(k: K, h: Hilo, k0: K, motivo: MotivoBloqueo)
    requires Tabla(k) && Lugares(k) && Cola(k) && k.exec == Some(h)
    requires exists b :: k0 == ConFicha(Desencolar(k, h), h, Ficha(k, h).(bloqueador := b))
    ensures var k' := EncolarBlocked(k0, h, motivo);
            && Mueve(k, k', h) && Tabla(k') && Lugares(k') && Cola(k') && Activo(k, h)
            && k'.colaBlocked == k.colaBlocked + [h] && k'.pendientes == k.pendientes
            && k'.exec == None && Ficha(k', h).estado == BLOCKED && Ficha(k', h).motivo == motivo
            && h !in k.colaReady && h !in k.colaBlocked
  {
    hide Tabla, Cola, SinDup, Activo;
    assert EnSuLugar(k, h);
    SacarDeSuLugar(k, h);
    var k' := EncolarBlocked(k0, h, motivo);
    AgregarA(k.colaBlocked, h);
    MueveTabla(k, k', h);
    MueveLugares(k, k', h, BLOCKED);
    ColaIgual(k, k');
  }

  // ---- Scheduling ----

  lemma EnEjecucion(k: K, h: Hilo)
    requires Lugares(k) && k.exec == Some(h)
    ensures Activo(k, h) && Ficha(k, h).estado == EXEC && h !in k.colaReady && h !in k.colaBlocked
  {
    assert EnSuLugar(k, h);
  }

  /** Only a thread blocked for a mutex is in the list of one. */
  lemma FueraDeListas(k: K, h: Hilo)
    requires Protocolo(k)
    ensures EnLista(k, h) ==> Esperando(k, h)
  {
    if EnLista(k, h) {
      var i :| 0 <= i < |k.procesos[h.pid].mutex| && h.tid in k.procesos[h.pid].mutex[i].hilos;
      assert MutexBien(k, h.pid) && RecursoBien(k, h.pid, k.procesos[h.pid].mutex[i]);
      assert Esperando(k, Hilo(h.pid, h.tid));
    }
  }

  lemma DespachoConserva(k: K, alg: Algoritmo)
    requires Inv(k) && k.exec == None && k.semReady > 0
    ensures Inv(Despachar(k, alg))
  {
    hide SinDup, Activo, Esperando, Eleccion, Tabla, Lugares, Bloqueados, Protocolo, Duenios, EnLista, Cola;
    var k' := Despachar(k, alg);
    if k.colaReady == [] {
      SinCambios(k, k');
    } else {
      var m := Eleccion(alg, Listos(k), k.reloj);
      var h := k.colaReady[m];
      EnSitio(k, h);
      SinDe(k.colaReady, m);
      NoEspera(k, h);
      FueraDeListas(k, h);
      MueveTabla(k, k', h);
      MueveLugares(k, k', h, EXEC);
      MueveProtocolo(k, k', h);
      MueveDuenios(k, k');
      MueveBloqueados(k, k', h);
      ColaAlDespachar(k, alg);
    }
  }

  lemma ColaAlDespachar(k: K, alg: Algoritmo)
    requires Cola(k) && Lugares(k) && k.exec == None && k.semReady > 0 && k.colaReady != []
    ensures Cola(Despachar(k, alg))
  {
    hide Eleccion, Activo;
    var m := Eleccion(alg, Listos(k), k.reloj);
    assert SinDup(k.colaReady) && EnSuLugar(k, k.colaReady[m]) && k.colaReady[m] in k.colaReady;
    hide Lugares, EnSuLugar, SinDup;
    SinDe(k.colaReady, m);
    assert Listos(Despachar(k, alg)) == Sin(Listos(k), m);
  }

  lemma EnSitio(k: K, h: Hilo)
    requires Lugares(k) && Bloqueados(k)
    ensures EnSuLugar(k, h) && Clasificado(k, h) && SinDup(k.colaReady) && SinDup(k.colaBlocked)
  {
  }

  lemma NoEspera(k: K, h: Hilo)
    requires Ficha(k, h).estado != BLOCKED || Ficha(k, h).motivo != MUTEX || h in k.pendientes
    ensures !Esperando(k, h)
  {
  }

  /** Spending a token on an empty queue, or letting time pass. */
  lemma SinCambios(k: K, k': K)
    requires Inv(k) && k' == k.(semReady := k'.semReady, reloj := k'.reloj)
    requires k'.semReady >= |k.colaReady| && k'.reloj >= k.reloj
    ensures Inv(k')
  {
    hide SinDup, Ajenos, Ordenada, Creciente;
    assert Listos(k') == Listos(k);
    forall h
      ensures EnSuLugar(k', h) && Clasificado(k', h)
    {
      assert EnSuLugar(k, h) && Clasificado(k, h);
    }
    forall p | p in k'.procesos
      ensures PcbBien(k', p) && MutexBien(k', p)
    {
      assert PcbBien(k, p) && MutexBien(k, p);
      RecursosIguales(k, k', p);
    }
    forall p | p in k'.colaNew
      ensures EsNuevo(k', p)
    {
      assert EsNuevo(k, p);
    }
    MueveDuenios(k, k');
  }

  lemma RecursosIguales(k: K, k': K, p: nat)
    requires p in k.procesos && MutexBien(k, p) && k'.procesos == k.procesos && k'.tcbs == k.tcbs
    requires k'.pendientes == k.pendientes
    ensures MutexBien(k', p)
  {
    hide SinDup, Ajenos;
    var ms := k.procesos[p].mutex;
    forall i | 0 <= i < |ms|
      ensures RecursoBien(k', p, ms[i])
    {
      assert RecursoBien(k, p, ms[i]);
      forall t | t in ms[i].hilos
        ensures Esperando(k', Hilo(p, t))
      {
        assert Esperando(k, Hilo(p, t));
      }
    }
  }

  /** A thread that was executing goes back to the end of the queue, and nobody else notices. */
  lemma InterrupcionConserva(k: K, h: Hilo)
    requires Inv(k) && k.exec == Some(h)
    ensures Inv(Interrumpir(k, h))
    ensures var k' := Interrumpir(k, h);
            && Mueve(k, k', h) && Ficha(k', h).estado == READY && k'.pendientes == k.pendientes
            && k'.exec == None && k'.colaReady == k.colaReady + [h] && h !in k.colaReady
            && k'.colaBlocked == k.colaBlocked && h !in k.colaBlocked
  {
    hide Tabla, Cola, Protocolo, Duenios, Activo, EnLista, Esperando;
    EnEjecucion(k, h);
    var k' := Interrumpir(k, h);
    AReady(k, h);
    NoEspera(k, h);
    FueraDeListas(k, h);
    MueveProtocolo(k, k', h);
    MueveDuenios(k, k');
    assert Clasificado(k, h);
    MueveBloqueados(k, k', h);
  }

  /** IO and dumps: the thread blocks, once, and its handler is pending; nobody else notices. */
  lemma EsperaConserva(k: K, h: Hilo, motivo: MotivoBloqueo)
    requires Inv(k) && k.exec == Some(h) && (motivo == IO || motivo == BLOQUEO_POR_DUMP)
    ensures Inv(Bloquear(k, h, motivo).(pendientes := k.pendientes + {h}))
    ensures var k' := Bloquear(k, h, motivo).(pendientes := k.pendientes + {h});
            && Mueve(k, k', h) && Ficha(k', h).estado == BLOCKED && Ficha(k', h).motivo == motivo
            && k'.exec == None && k'.colaBlocked == k.colaBlocked + [h] && h !in k.colaBlocked
            && k'.colaReady == k.colaReady && h !in k.colaReady && h in k'.pendientes && h !in k.pendientes
  {
    hide Tabla, Cola, Protocolo, Duenios, Activo, EnLista, Esperando, Desencolar;
    EnEjecucion(k, h);
    var d := Desencolar(k, h);
    SacarDeSuLugar(k, h);
    MismaFicha(k, d, h);
    ABlocked(k, h, d, motivo);
    var k1 := EncolarBlocked(d, h, motivo);
    var k' := k1.(pendientes := k.pendientes + {h});
    NoEspera(k, h);
    FueraDeListas(k, h);
    SoloPendientes(k1, k');
    MueveProtocolo(k, k', h);
    MueveDuenios(k, k');
    assert Clasificado(k, h);
    assert EnLista(k', h) == EnLista(k, h) by { EnListaIgual(k, k', h); }
    MueveBloqueados(k, k', h);
  }

  lemma EnListaIgual(k: K, k': K, h: Hilo)
    requires k'.procesos == k.procesos
    ensures EnLista(k', h) == EnLista(k, h)
  {
  }

  lemma MismaFicha(k: K, d: K, h: Hilo)
    requires d.tcbs == k.tcbs && h in k.tcbs
    ensures d == ConFicha(d, h, Ficha(k, h).(bloqueador := Ficha(k, h).bloqueador))
  {
  }

  lemma SoloPendientes(k: K, k': K)
    requires Tabla(k) && Lugares(k) && Cola(k) && k' == k.(pendientes := k'.pendientes)
    ensures Tabla(k') && Lugares(k') && Cola(k')
  {
    hide SinDup, Ordenada, Creciente;
    assert Listos(k') == Listos(k);
    forall h
      ensures EnSuLugar(k', h)
    {
      assert EnSuLugar(k, h);
    }
    forall p | p in k'.procesos
      ensures PcbBien(k', p)
    {
      assert PcbBien(k, p);
    }
    forall p | p in k'.colaNew
      ensures EsNuevo(k', p)
    {
      assert EsNuevo(k, p);
    }
  }

  /** The handler of an IO or of a dump that went well takes its thread from the blocked queue to the end
      of the ready one, and nobody else notices. */
  lemma VolverConserva(k: K, h: Hilo)
    requires Inv(k) && h in k.pendientes
    ensures Inv(Volver(k, h))
    ensures var k' := Volver(k, h);
            && Mueve(k, k', h) && Ficha(k', h).estado == READY && k'.pendientes == k.pendientes - {h}
            && k'.exec == k.exec && k'.colaReady == k.colaReady + [h] && h !in k.colaReady
            && h in k.colaBlocked && k'.colaBlocked == Quitar(k.colaBlocked, h) && h !in k'.colaBlocked
  {
    hide Tabla, Cola, Protocolo, Duenios, Activo, EnLista, Esperando, Desencolar;
    assert Clasificado(k, h) && EnSuLugar(k, h);
    AReady(k, h);
    DesencolarBloqueado(k, h);
    var k1 := EncolarReady(Desencolar(k, h), h);
    var k' := Volver(k, h);
    NoEspera(k, h);
    FueraDeListas(k, h);
    SoloPendientes(k1, k');
    MueveProtocolo(k, k', h);
    MueveDuenios(k, k');
    MueveBloqueados(k, k', h);
  }

  lemma DesencolarBloqueado(k: K, h: Hilo)
    requires Ficha(k, h).estado == BLOCKED
    ensures Desencolar(k, h) == k.(colaBlocked := Quitar(k.colaBlocked, h))
  {
  }

  // ---- Creating processes, threads and mutexes ----

  lemma ListasConProceso(k: K, k': K, x: Hilo)
    requires forall p :: p in k.procesos ==> p in k'.procesos && k'.procesos[p].mutex == k.procesos[p].mutex
    requires forall p :: p in k'.procesos && p !in k.procesos ==> k'.procesos[p].mutex == []
    ensures EnLista(k', x) == EnLista(k, x)
  {
  }

  /** A process is born with a new pid and one thread, at the end of the NEW queue and in no other; nobody
      else notices. */
  lemma IniciarConserva(k: K, tamanio: nat, prioridad: nat)
    requires Inv(k)
    ensures Inv(IniciarProceso(k, tamanio, prioridad))
    ensures var k', p, h := IniciarProceso(k, tamanio, prioridad), k.pidCounter, Hilo(k.pidCounter, 0);
            && p !in k.procesos && k'.colaNew == k.colaNew + [p] && p !in k.colaNew
            && k'.procesos == k.procesos[p := Pcb([0], [], tamanio, 1)]
            && (forall x :: Vivo(k', x) <==> Vivo(k, x) || x == h) && (forall x :: Activo(k', x) <==> Activo(k, x))
            && (forall x :: x != h ==> Ficha(k', x) == Ficha(k, x)) && Ficha(k', h).prioridad == prioridad
            && k'.colaReady == k.colaReady && k'.colaBlocked == k.colaBlocked && k'.exec == k.exec
            && h !in k.colaReady && h !in k.colaBlocked && k.exec != Some(h)
  {
    var k' := IniciarProceso(k, tamanio, prioridad);
    PidsMenores(k, k.pidCounter);
    IniciarUno(k, tamanio, prioridad);
    IniciarTabla(k, tamanio, prioridad);
    IniciarLugares(k, tamanio, prioridad);
    IniciarProtocolo(k, tamanio, prioridad);
    hide Tabla, Lugares, Protocolo, Duenios, Bloqueados;
    assert forall x :: x in k.colaReady ==> x.pid != k.pidCounter by {
      forall x | x in k.colaReady
        ensures x.pid != k.pidCounter
      {
        PidsConocidos(k, x);
      }
    }
    ColaIgual(k, k');
  }

  lemma IniciarUno(k: K, tamanio: nat, prioridad: nat)
    requires Tabla(k) && Lugares(k)
    ensures var k', h := IniciarProceso(k, tamanio, prioridad), Hilo(k.pidCounter, 0);
            && (forall x :: Vivo(k', x) <==> Vivo(k, x) || x == h) && (forall x :: Activo(k', x) <==> Activo(k, x))
            && h !in k.colaReady && h !in k.colaBlocked && k.exec != Some(h) && k.pidCounter !in k.colaNew
  {
    PidsConocidos(k, Hilo(k.pidCounter, 0));
    hide Tabla, Lugares;
  }

  lemma PidsMenores(k: K, p: nat)
    requires Tabla(k)
    ensures p in k.procesos ==> p < k.pidCounter
    ensures p in k.colaNew ==> p in k.procesos
  {
    if p in k.procesos {
      assert PcbBien(k, p);
    }
    if p in k.colaNew {
      assert EsNuevo(k, p);
    }
  }

  lemma PidsConocidos(k: K, x: Hilo)
    requires Tabla(k) && Lugares(k)
    ensures k.pidCounter !in k.procesos && k.pidCounter !in k.colaNew
    ensures Activo(k, x) ==> x.pid != k.pidCounter
    ensures x in k.colaReady || x in k.colaBlocked || k.exec == Some(x) ==> Activo(k, x)
  {
    assert EnSuLugar(k, x);
    PidsMenores(k, k.pidCounter);
  }

  lemma IniciarTabla(k: K, tamanio: nat, prioridad: nat)
    requires Tabla(k) && k.pidCounter !in k.procesos
    ensures Tabla(IniciarProceso(k, tamanio, prioridad))
  {
    var k' := IniciarProceso(k, tamanio, prioridad);
    AgregarA(k.sistema, k.pidCounter);
    forall p | p in k'.procesos
      ensures PcbBien(k', p)
    {
      if p in k.procesos { assert PcbBien(k, p); }
    }
    forall p | p in k'.colaNew
      ensures EsNuevo(k', p)
    {
      if p in k.colaNew { assert EsNuevo(k, p) && PcbBien(k, p); }
    }
    forall i, j | 0 <= i < j < |k'.colaNew|
      ensures k'.colaNew[i] < k'.colaNew[j]
    {
      var p := k'.colaNew[i];
      assert p in k.colaNew;
      assert EsNuevo(k, p) && PcbBien(k, p);
    }
  }

  lemma IniciarLugares(k: K, tamanio: nat, prioridad: nat)
    requires Tabla(k) && Lugares(k) && k.pidCounter !in k.procesos
    ensures Lugares(IniciarProceso(k, tamanio, prioridad))
  {
    hide SinDup, Tabla;
    var k' := IniciarProceso(k, tamanio, prioridad);
    forall x
      ensures EnSuLugar(k', x)
    {
      assert EnSuLugar(k, x);
      PidsConocidos(k, x);
    }
  }

  lemma IniciarProtocolo(k: K, tamanio: nat, prioridad: nat)
    requires Tabla(k) && Lugares(k) && Protocolo(k) && Duenios(k) && Bloqueados(k) && k.pidCounter !in k.procesos
    ensures var k' := IniciarProceso(k, tamanio, prioridad); Protocolo(k') && Duenios(k') && Bloqueados(k')
  {
    hide SinDup, Tabla, Ajenos;
    var k' := IniciarProceso(k, tamanio, prioridad);
    forall p | p in k'.procesos
      ensures MutexBien(k', p)
    {
      if p in k.procesos {
        assert MutexBien(k, p);
        MutexSinTocar(k, k', p);
      }
    }
    forall p, i | p in k'.procesos && 0 <= i < |k'.procesos[p].mutex|
      ensures DuenioVivo(k', p, k'.procesos[p].mutex[i])
    {
      assert DuenioVivo(k, p, k.procesos[p].mutex[i]);
    }
    forall x
      ensures Clasificado(k', x)
    {
      assert Clasificado(k, x);
      PidsConocidos(k, x);
      ListasConProceso(k, k', x);
    }
  }

  /** The mutexes of a process depend on its own threads only. */
  lemma MutexSinTocar(k: K, k': K, p: nat)
    requires p in k.procesos && MutexBien(k, p) && p in k'.procesos && k'.procesos[p].mutex == k.procesos[p].mutex
    requires forall t :: t in k.procesos[p].threads ==> t in k'.procesos[p].threads
    requires forall x :: Esperando(k, x) && x.pid == p ==> Ficha(k', x) == Ficha(k, x)
    requires forall x :: x in k'.pendientes && x.pid == p ==> x in k.pendientes
    ensures MutexBien(k', p)
  {
    hide SinDup, Ajenos;
    var ms := k.procesos[p].mutex;
    forall i | 0 <= i < |ms|
      ensures RecursoBien(k', p, ms[i])
    {
      assert RecursoBien(k, p, ms[i]);
      forall t | t in ms[i].hilos
        ensures Esperando(k', Hilo(p, t))
      {
        assert Esperando(k, Hilo(p, t));
      }
    }
  }

  /** thread_create: the new thread is ready and everybody else stays where they were. */
  lemma CrearHiloConserva(k: K, h: Hilo, prioridad: nat)
    requires Inv(k) && k.exec == Some(h)
    ensures Inv(CrearHilo(k, h, prioridad))
    ensures var k', n := CrearHilo(k, h, prioridad), Hilo(h.pid, Proceso(k, h.pid).tidContador);
            && !Vivo(k, n) && (forall x :: Vivo(k', x) <==> Vivo(k, x) || x == n)
            && (forall x :: x != n ==> Ficha(k', x) == Ficha(k, x))
            && Ficha(k', n).estado == READY && Ficha(k', n).prioridad == prioridad
            && k'.colaReady == k.colaReady + [n] && n !in k.colaReady
            && k'.colaBlocked == k.colaBlocked && k'.exec == k.exec && k'.colaNew == k.colaNew
            && k'.pendientes == k.pendientes
            && (forall q :: q in k'.procesos <==> q in k.procesos)
            && (forall q :: q in k.procesos ==> k'.procesos[q].mutex == k.procesos[q].mutex)
  {
    EnEjecucion(k, h);
    NuevoNoVive(k, h);
    CrearUno(k, h, prioridad);
    CrearTabla(k, h, prioridad);
    CrearLugares(k, h, prioridad);
    CrearProtocolo(k, h, prioridad);
    hide Tabla, Lugares, Protocolo, Duenios, Bloqueados, Activo;
    ColaAlAgregar(k, CrearHilo(k, h, prioridad), Hilo(h.pid, Proceso(k, h.pid).tidContador));
  }

  lemma CrearUno(k: K, h: Hilo, prioridad: nat)
    requires Tabla(k) && Activo(k, h)
    ensures var k', n := CrearHilo(k, h, prioridad), Hilo(h.pid, Proceso(k, h.pid).tidContador);
            !Vivo(k, n) && forall x :: Vivo(k', x) <==> Vivo(k, x) || x == n
  {
    assert PcbBien(k, h.pid);
    hide Tabla, PcbBien;
  }

  lemma NuevoNoVive(k: K, h: Hilo)
    requires Tabla(k) && Lugares(k) && Activo(k, h)
    ensures var n := Hilo(h.pid, Proceso(k, h.pid).tidContador);
            !Activo(k, n) && n !in k.colaReady && n !in k.colaBlocked && n != h && k.exec != Some(n)
  {
    hide SinDup;
    var n := Hilo(h.pid, Proceso(k, h.pid).tidContador);
    assert PcbBien(k, h.pid);
    assert EnSuLugar(k, n);
  }

  lemma CrearTabla(k: K, h: Hilo, prioridad: nat)
    requires Tabla(k) && Activo(k, h)
    ensures Tabla(CrearHilo(k, h, prioridad))
  {
    hide Creciente;
    var k', p := CrearHilo(k, h, prioridad), Proceso(k, h.pid);
    assert PcbBien(k, h.pid);
    AgregarA(p.threads, p.tidContador);
    hide SinDup;
    forall q | q in k'.procesos
      ensures PcbBien(k', q)
    {
      assert PcbBien(k, q);
    }
    forall q | q in k'.colaNew
      ensures EsNuevo(k', q)
    {
      assert EsNuevo(k, q);
    }
  }

  lemma CrearLugares(k: K, h: Hilo, prioridad: nat)
    requires Tabla(k) && Lugares(k) && Activo(k, h)
    ensures Lugares(CrearHilo(k, h, prioridad))
  {
    hide SinDup, Tabla;
    var k', n := CrearHilo(k, h, prioridad), Hilo(h.pid, Proceso(k, h.pid).tidContador);
    NuevoNoVive(k, h);
    AgregarA(k.colaReady, n);
    forall x
      ensures EnSuLugar(k', x)
    {
      assert EnSuLugar(k, x);
      assert Vivo(k', x) <==> Vivo(k, x) || x == n;
    }
  }

  lemma CrearProtocolo(k: K, h: Hilo, prioridad: nat)
    requires Tabla(k) && Lugares(k) && Protocolo(k) && Duenios(k) && Bloqueados(k) && Activo(k, h)
    ensures var k' := CrearHilo(k, h, prioridad); Protocolo(k') && Duenios(k') && Bloqueados(k')
  {
    hide SinDup, Tabla, Ajenos;
    var k', n := CrearHilo(k, h, prioridad), Hilo(h.pid, Proceso(k, h.pid).tidContador);
    NuevoNoVive(k, h);
    NuevoNoEspera(k, h);
    forall p | p in k'.procesos
      ensures MutexBien(k', p)
    {
      assert MutexBien(k, p);
      MutexSinTocar(k, k', p);
    }
    forall p, i | p in k'.procesos && 0 <= i < |k'.procesos[p].mutex|
      ensures DuenioVivo(k', p, k'.procesos[p].mutex[i])
    {
      assert DuenioVivo(k, p, k.procesos[p].mutex[i]);
    }
    forall x
      ensures Clasificado(k', x)
    {
      assert Clasificado(k, x);
      ListasConProceso(k, k', x);
    }
  }

  lemma NuevoNoEspera(k: K, h: Hilo)
    requires Tabla(k) && Activo(k, h)
    ensures !Vivo(k, Hilo(h.pid, Proceso(k, h.pid).tidContador))
    ensures !Esperando(k, Hilo(h.pid, Proceso(k, h.pid).tidContador))
  {
    assert PcbBien(k, h.pid);
  }

  lemma TicConserva(k: K, n: nat)
    requires Inv(k)
    ensures Inv(k.(reloj := k.reloj + n))
  {
    SinCambios(k, k.(reloj := k.reloj + n));
  }
}
