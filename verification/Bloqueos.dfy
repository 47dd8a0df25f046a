/** Joins and mutexes: the system calls that block a thread or hand it a mutex keep the invariant of
    the kernel, and waiters are served in the order they came.
    Sources: kernel/src/syscalls.c and kernel/src/utils.c. */
module Bloqueos {
  import opened Listas
  import opened Opcion
  import opened Planificacion
  import opened Kernel
  import opened Invariantes

  /** A join on a live thread blocks the caller until it ends; any other join changes nothing. */
  lemma JoinConserva(k: K, h: Hilo, tid: nat)
    requires Inv(k) && k.exec == Some(h)
    ensures Inv(ThreadJoin(k, h, tid))
    ensures var k' := ThreadJoin(k, h, tid);
            if !Vivo(k, Hilo(h.pid, tid)) then k' == k
            else
              && Mueve(k, k', h) && EsperaA(k', h, Hilo(h.pid, tid)) && Ficha(k', h).estado == BLOCKED
              && k'.exec == None && k'.colaBlocked == k.colaBlocked + [h] && h !in k.colaBlocked
              && k'.colaReady == k.colaReady && k'.pendientes == k.pendientes
  {
    hide Tabla, Cola, Protocolo, Duenios, Activo, EnLista, Esperando, Desencolar;
    EnEjecucion(k, h);
    if tid in Proceso(k, h.pid).threads {
      SacarDeSuLugar(k, h);
      var d := Desencolar(k, h);
      var k0 := ConFicha(d, h, Ficha(d, h).(bloqueador := tid));
      assert Ficha(d, h) == Ficha(k, h);
      ABlocked(k, h, k0, THREAD_JOIN);
      var k' := ThreadJoin(k, h, tid);
      NoEspera(k, h);
      FueraDeListas(k, h);
      MueveProtocolo(k, k', h);
      MueveDuenios(k, k');
      assert Clasificado(k, h);
      EnListaIgual(k, k', h);
      MueveBloqueados(k, k', h);
    }
  }

  // ---- Changing the mutexes of one process ----

  ghost function ConLista(k: K, p: nat, ms: seq<Recurso>): K {
    ConProceso(k, p, Proceso(k, p).(mutex := ms))
  }

  lemma ListaConserva(k: K, p: nat, ms: seq<Recurso>)
    requires Tabla(k) && Lugares(k) && Cola(k) && p in k.procesos && p !in k.colaNew
    ensures var k' := ConLista(k, p, ms); Tabla(k') && Lugares(k') && Cola(k')
  {
    hide SinDup, Creciente;
    var k' := ConLista(k, p, ms);
    forall q | q in k'.procesos
      ensures PcbBien(k', q)
    {
      assert PcbBien(k, q);
    }
    forall q | q in k'.colaNew
      ensures EsNuevo(k', q)
    {
      assert EsNuevo(k, q);
    }
    forall x
      ensures EnSuLugar(k', x)
    {
      assert EnSuLugar(k, x);
      assert Activo(k', x) == Activo(k, x);
    }
    assert Listos(k') == Listos(k);
  }

  /** The mutexes of the other processes do not notice. */
  lemma ProtocoloConLista(k: K, p: nat, ms: seq<Recurso>)
    requires Protocolo(k) && p in k.procesos && MutexBien(ConLista(k, p, ms), p)
    ensures Protocolo(ConLista(k, p, ms))
  {
    hide MutexBien, Esperando;
    var k' := ConLista(k, p, ms);
    forall q | q in k'.procesos
      ensures MutexBien(k', q)
    {
      if q != p { MutexSinTocar(k, k', q); }
    }
  }

  lemma DueniosConLista(k: K, p: nat, ms: seq<Recurso>)
    requires Duenios(k) && p in k.procesos
    requires forall i :: 0 <= i < |ms| ==> ms[i] in k.procesos[p].mutex || DuenioVivo(k, p, ms[i])
    ensures Duenios(ConLista(k, p, ms))
  {
    var k' := ConLista(k, p, ms);
    forall q, i | q in k'.procesos && 0 <= i < |k'.procesos[q].mutex|
      ensures DuenioVivo(k', q, k'.procesos[q].mutex[i])
    {
      if q != p {
        assert DuenioVivo(k, q, k.procesos[q].mutex[i]);
      } else if ms[i] in k.procesos[p].mutex {
        var j :| 0 <= j < |k.procesos[p].mutex| && k.procesos[p].mutex[j] == ms[i];
        assert DuenioVivo(k, p, k.procesos[p].mutex[j]);
      }
    }
  }

  /** Who waits in the lists of process p after they change. */
  lemma EnListaCon(k: K, p: nat, ms: seq<Recurso>, x: Hilo)
    requires p in k.procesos
    ensures x.pid != p ==> EnLista(ConLista(k, p, ms), x) == EnLista(k, x)
    ensures x.pid == p ==> (EnLista(ConLista(k, p, ms), x) <==> exists i :: 0 <= i < |ms| && x.tid in ms[i].hilos)
  {
    var k' := ConLista(k, p, ms);
    if x.pid == p {
      assert k'.procesos[p].mutex == ms;
    } else {
      assert x.pid in k'.procesos <==> x.pid in k.procesos;
      assert x.pid in k.procesos ==> k'.procesos[x.pid].mutex == k.procesos[x.pid].mutex;
    }
  }

  lemma BloqueadosConLista(k: K, p: nat, ms: seq<Recurso>)
    requires Bloqueados(k) && p in k.procesos
    requires forall x :: EnLista(ConLista(k, p, ms), x) == EnLista(k, x)
    ensures Bloqueados(ConLista(k, p, ms))
  {
    hide EnLista;
    forall x
      ensures Clasificado(ConLista(k, p, ms), x)
    {
      assert Clasificado(k, x);
    }
  }

  /** Replacing one mutex by one with the same waiters. */
  lemma MismosHilos(k: K, p: nat, i: nat, r: Recurso)
    requires p in k.procesos && i < |k.procesos[p].mutex| && r.hilos == k.procesos[p].mutex[i].hilos
    ensures forall x :: EnLista(ConLista(k, p, k.procesos[p].mutex[i := r]), x) == EnLista(k, x)
  {
    var ms := k.procesos[p].mutex;
    forall x
      ensures EnLista(ConLista(k, p, ms[i := r]), x) == EnLista(k, x)
    {
      EnListaCon(k, p, ms[i := r], x);
      assert forall j :: 0 <= j < |ms| ==> ms[i := r][j].hilos == ms[j].hilos;
    }
  }

  /** Changing the owner of one mutex, as long as a free one has no waiters. */
  lemma OtroDuenio(k: K, p: nat, i: nat, owner: int)
    requires Inv(k) && p in k.procesos && p !in k.colaNew && i < |k.procesos[p].mutex|
    requires owner == -1 || (owner >= 0 && owner as nat in k.procesos[p].threads)
    requires owner == -1 ==> k.procesos[p].mutex[i].hilos == []
    ensures Inv(ConMutex(k, p, i, k.procesos[p].mutex[i].(owner := owner)))
  {
    var ms := k.procesos[p].mutex;
    var r := ms[i].(owner := owner);
    var k' := ConLista(k, p, ms[i := r]);
    assert k' == ConMutex(k, p, i, r);
    assert MutexBien(k, p);
    assert MutexBien(k', p) by {
      OtroDuenioBien(k, p, i, owner);
    }
    hide MutexBien, EnLista, Esperando, Tabla, Lugares, Cola, PcbBien;
    ListaConserva(k, p, ms[i := r]);
    ProtocoloConLista(k, p, ms[i := r]);
    DueniosConLista(k, p, ms[i := r]);
    MismosHilos(k, p, i, r);
    BloqueadosConLista(k, p, ms[i := r]);
  }

  lemma OtroDuenioBien(k: K, p: nat, i: nat, owner: int)
    requires p in k.procesos && MutexBien(k, p) && i < |k.procesos[p].mutex| && owner >= -1
    requires owner == -1 ==> k.procesos[p].mutex[i].hilos == []
    ensures var r := k.procesos[p].mutex[i].(owner := owner);
            MutexBien(ConLista(k, p, k.procesos[p].mutex[i := r]), p)
  {
    hide SinDup;
    var ms := k.procesos[p].mutex;
    var r := ms[i].(owner := owner);
    var ns := ms[i := r];
    var k' := ConLista(k, p, ns);
    forall j | 0 <= j < |ms|
      ensures RecursoBien(k', p, ns[j])
    {
      assert RecursoBien(k, p, ms[j]);
      forall t | t in ms[j].hilos
        ensures Esperando(k', Hilo(p, t))
      {
        assert Esperando(k, Hilo(p, t));
      }
    }
    forall a, b | 0 <= a < b < |ms|
      ensures Ajenos(ns[a], ns[b])
    {
      assert Ajenos(ms[a], ms[b]);
    }
  }

  // ---- Create, lock, unlock ----

  /** A new mutex is free and without waiters, at the end of the list of its process; nothing else
      changes. */
  lemma MutexCreateConserva(k: K, h: Hilo, nombre: string)
    requires Inv(k) && k.exec == Some(h)
    ensures Inv(MutexCreate(k, h, nombre))
    ensures MutexCreate(k, h, nombre) == ConLista(k, h.pid, Proceso(k, h.pid).mutex + [Recurso(nombre, -1, [])])
  {
    EnEjecucion(k, h);
    var p, ms := h.pid, k.procesos[h.pid].mutex;
    var nuevo := Recurso(nombre, -1, []);
    var k' := ConLista(k, p, ms + [nuevo]);
    assert k' == MutexCreate(k, h, nombre);
    assert MutexBien(k', p) by {
      assert MutexBien(k, p);
      UnoMas(k, p, nuevo);
    }
    forall x
      ensures EnLista(k', x) == EnLista(k, x)
    {
      EnListaCon(k, p, ms + [nuevo], x);
      UnoMasEnLista(ms, nuevo, x.tid);
    }
    hide MutexBien, EnLista, Esperando, Tabla, Lugares, Cola, PcbBien;
    ListaConserva(k, p, ms + [nuevo]);
    ProtocoloConLista(k, p, ms + [nuevo]);
    DueniosConLista(k, p, ms + [nuevo]);
    BloqueadosConLista(k, p, ms + [nuevo]);
  }

  lemma UnoMasEnLista(ms: seq<Recurso>, r: Recurso, t: nat)
    requires r.hilos == []
    ensures (exists i :: 0 <= i < |ms + [r]| && t in (ms + [r])[i].hilos) <==> exists i ::
              0 <= i < |ms| && t in ms[i].hilos
  {
    if i :| 0 <= i < |ms| && t in ms[i].hilos {
      assert t in (ms + [r])[i].hilos;
    }
  }

  lemma UnoMas(k: K, p: nat, r: Recurso)
    requires p in k.procesos && MutexBien(k, p) && r.owner == -1 && r.hilos == []
    ensures MutexBien(ConLista(k, p, k.procesos[p].mutex + [r]), p)
  {
    hide SinDup;
    var ms := k.procesos[p].mutex;
    var k' := ConLista(k, p, ms + [r]);
    forall j | 0 <= j < |ms + [r]|
      ensures RecursoBien(k', p, (ms + [r])[j])
    {
      if j < |ms| {
        assert RecursoBien(k, p, ms[j]);
        forall t | t in ms[j].hilos
          ensures Esperando(k', Hilo(p, t))
        {
          assert Esperando(k, Hilo(p, t));
        }
      } else {
        VacioSinDup();
      }
    }
    forall a, b | 0 <= a < b < |ms + [r]|
      ensures Ajenos((ms + [r])[a], (ms + [r])[b])
    {
      if b < |ms| { assert Ajenos(ms[a], ms[b]); }
    }
  }

  lemma VacioSinDup()
    ensures SinDup<nat>([])
  {
  }

  /** A new waiter goes to the end of one list. */
  lemma UnoMasEspera(k: K, p: nat, i: nat, t: nat)
    requires p in k.procesos && MutexBien(k, p) && i < |k.procesos[p].mutex| && k.procesos[p].mutex[i].owner != -1
    requires Esperando(k, Hilo(p, t)) && !EnLista(k, Hilo(p, t))
    ensures var r := k.procesos[p].mutex[i];
            MutexBien(ConLista(k, p, k.procesos[p].mutex[i := r.(hilos := r.hilos + [t])]), p)
  {
    var ms := k.procesos[p].mutex;
    var r := ms[i].(hilos := ms[i].hilos + [t]);
    var ns := ms[i := r];
    var k' := ConLista(k, p, ns);
    assert forall j :: 0 <= j < |ms| ==> t !in ms[j].hilos;
    assert RecursoBien(k, p, ms[i]);
    AgregarA(ms[i].hilos, t);
    hide SinDup, EnLista;
    forall j | 0 <= j < |ms|
      ensures RecursoBien(k', p, ns[j])
    {
      assert RecursoBien(k, p, ms[j]);
      forall u | u in ns[j].hilos
        ensures Esperando(k', Hilo(p, u))
      {
        assert Esperando(k, Hilo(p, u));
      }
    }
    forall a, b | 0 <= a < b < |ms|
      ensures Ajenos(ns[a], ns[b])
    {
      assert Ajenos(ms[a], ms[b]);
    }
  }

  /** Only the record of h and the mutexes of its process may differ, besides the queues. */
  ghost predicate SoloMutex(k: K, k': K, h: Hilo, ms: seq<Recurso>) {
    && k'.procesos == (if h.pid in k.procesos then k.procesos[h.pid := k.procesos[h.pid].(mutex := ms)] else k.procesos)
    && (forall x :: x != h ==> Ficha(k', x) == Ficha(k, x))
    && k'.colaNew == k.colaNew && k'.pendientes == k.pendientes
  }

  /** The executing thread h becomes the last waiter of mutex i, where it was not waiting, and the last of
      the blocked queue. */
  ghost predicate SeSuma(k: K, k': K, h: Hilo, i: nat) {
    var ms := Proceso(k, h.pid).mutex;
    && i < |ms| && h.tid !in ms[i].hilos
    && SoloMutex(k, k', h, ms[i := ms[i].(hilos := ms[i].hilos + [h.tid])])
    && Ficha(k', h).estado == BLOCKED && Ficha(k', h).motivo == MUTEX
    && k'.exec == None && k'.colaBlocked == k.colaBlocked + [h] && h !in k.colaBlocked && k'.colaReady == k.colaReady
  }

  /** The first waiter of mutex i becomes its owner, stops waiting and goes to the end of the ready queue. */
  ghost predicate SeEntrega(k: K, k': K, p: nat, i: nat) {
    var ms := Proceso(k, p).mutex;
    && i < |ms| && ms[i].hilos != []
    && (var n := Hilo(p, ms[i].hilos[0]);
        && SoloMutex(k, k', n, ms[i := ms[i].(owner := n.tid, hilos := ms[i].hilos[1..])]) && n.tid !in ms[i].hilos[1..]
        && Ficha(k, n).motivo == MUTEX && Ficha(k', n).estado == READY
        && k'.colaReady == k.colaReady + [n] && n !in k.colaReady
        && n in k.colaBlocked && k'.colaBlocked == Quitar(k.colaBlocked, n) && n !in k'.colaBlocked
        && k'.exec == k.exec)
  }

  /** mutex_lock: takes a free mutex, or blocks at the end of the list of a taken one. A name nobody
      created means the last mutex of the list. */
  lemma LockConserva(k: K, h: Hilo, nombre: string)
    requires Inv(k) && k.exec == Some(h)
    ensures Inv(MutexLock(k, h, nombre))
    ensures var ms := Proceso(k, h.pid).mutex;
            match BuscarRecurso(ms, nombre)
            case None => ms == [] && MutexLock(k, h, nombre) == k
            case Some(i) =>
              if ms[i].owner == -1 then MutexLock(k, h, nombre) == ConLista(k, h.pid, ms[i := ms[i].(owner := h.tid)])
              else SeSuma(k, MutexLock(k, h, nombre), h, i)
  {
    EnEjecucion(k, h);
    hide Inv, SeSuma, EncolarBlocked, Desencolar, BuscarRecurso;
    var p, ms := h.pid, k.procesos[h.pid].mutex;
    var b := BuscarRecurso(ms, nombre);
    if b.Some? {
      var i := b.value;
      if ms[i].owner == -1 {
        OtroDuenio(k, p, i, h.tid);
      } else {
        LockDeja(k, h, i);
        LockBloquea(k, h, i);
      }
    }
  }

  lemma LockDeja(k: K, h: Hilo, i: nat)
    requires Inv(k) && k.exec == Some(h) && h.pid in k.procesos && i < |k.procesos[h.pid].mutex|
    ensures var r := k.procesos[h.pid].mutex[i];
            SeSuma(k, ConMutex(Bloquear(k, h, MUTEX), h.pid, i, r.(hilos := r.hilos + [h.tid])), h, i)
  {
    EnEjecucion(k, h);
    if h.tid in k.procesos[h.pid].mutex[i].hilos {
      assert EnLista(k, h);
      FueraDeListas(k, h);
    }
    hide Inv;
  }

  lemma LockBloquea(k: K, h: Hilo, i: nat)
    requires Inv(k) && k.exec == Some(h) && Activo(k, h) && i < |k.procesos[h.pid].mutex|
    requires k.procesos[h.pid].mutex[i].owner != -1
    ensures var r := k.procesos[h.pid].mutex[i];
            Inv(ConMutex(Bloquear(k, h, MUTEX), h.pid, i, r.(hilos := r.hilos + [h.tid])))
  {
    hide Tabla, Lugares, Cola, Protocolo, Duenios, EnLista, Esperando, Desencolar, MutexBien, SinDup;
    var p, ms := h.pid, k.procesos[h.pid].mutex;
    SacarDeSuLugar(k, h);
    EnEjecucion(k, h);
    var d := Desencolar(k, h);
    assert h in k.tcbs by { ActivoConocido(k, h); }
    MismaFicha(k, d, h);
    ABlocked(k, h, d, MUTEX);
    var k1 := EncolarBlocked(d, h, MUTEX);
    NoEspera(k, h);
    FueraDeListas(k, h);
    MueveProtocolo(k, k1, h);
    MueveDuenios(k, k1);
    EnListaIgual(k, k1, h);
    var r := ms[i].(hilos := ms[i].hilos + [h.tid]);
    var k' := ConLista(k1, p, ms[i := r]);
    assert h !in k1.pendientes by { assert Clasificado(k, h); }
    EsperaNueva(k1, h);
    assert MutexBien(k1, p) by { ProtocoloDe(k1, p); }
    UnoMasEspera(k1, p, i, h.tid);
    ListaConserva(k1, p, ms[i := r]);
    ProtocoloConLista(k1, p, ms[i := r]);
    DueniosConMas(k1, p, i, r);
    forall x
      ensures Clasificado(k', x)
    {
      assert Clasificado(k, x);
      EnListaIgual(k, k1, x);
      EnListaConMas(k1, p, i, h.tid, x);
    }
  }

  lemma ActivoConocido(k: K, h: Hilo)
    requires Tabla(k) && Activo(k, h)
    ensures h in k.tcbs
  {
    assert PcbBien(k, h.pid);
  }

  lemma ProtocoloDe(k: K, p: nat)
    requires Protocolo(k) && p in k.procesos
    ensures MutexBien(k, p)
  {
  }

  lemma EsperaNueva(k: K, h: Hilo)
    requires Vivo(k, h) && Ficha(k, h).estado == BLOCKED && Ficha(k, h).motivo == MUTEX && h !in k.pendientes
    ensures Esperando(k, h)
  {
  }

  lemma DueniosConMas(k: K, p: nat, i: nat, r: Recurso)
    requires Duenios(k) && p in k.procesos && i < |k.procesos[p].mutex| && r.owner == k.procesos[p].mutex[i].owner
    ensures Duenios(ConLista(k, p, k.procesos[p].mutex[i := r]))
  {
    assert DuenioVivo(k, p, k.procesos[p].mutex[i]);
    DueniosConLista(k, p, k.procesos[p].mutex[i := r]);
  }

  lemma EnListaConMas(k: K, p: nat, i: nat, t: nat, x: Hilo)
    requires p in k.procesos && i < |k.procesos[p].mutex|
    ensures var r := k.procesos[p].mutex[i];
            EnLista(ConLista(k, p, k.procesos[p].mutex[i := r.(hilos := r.hilos + [t])]), x) <==>
              EnLista(k, x) || x == Hilo(p, t)
  {
    var ms := k.procesos[p].mutex;
    var r := ms[i].(hilos := ms[i].hilos + [t]);
    EnListaCon(k, p, ms[i := r], x);
    if x.pid == p {
      if x.tid == t {
        assert x.tid in ms[i := r][i].hilos;
      }
      if j :| 0 <= j < |ms| && x.tid in ms[j].hilos {
        assert x.tid in ms[i := r][j].hilos;
      }
    }
  }

  /** mutex_unlock by the owner: the mutex is freed, or goes to the waiter that came first, who
      becomes ready. Anybody else changes nothing. */
  lemma UnlockConserva(k: K, h: Hilo, nombre: string)
    requires Inv(k) && k.exec == Some(h)
    ensures Inv(MutexUnlock(k, h, nombre))
    ensures var ms := Proceso(k, h.pid).mutex;
            match BuscarRecurso(ms, nombre)
            case None => ms == [] && MutexUnlock(k, h, nombre) == k
            case Some(i) =>
              if ms[i].owner != h.tid then MutexUnlock(k, h, nombre) == k
              else if ms[i].hilos == [] then MutexUnlock(k, h, nombre)
                == ConLista(k, h.pid, ms[i := ms[i].(owner := -1)])
              else SeEntrega(k, MutexUnlock(k, h, nombre), h.pid, i)
  {
    EnEjecucion(k, h);
    hide Inv, SeEntrega, EncolarReady, Desencolar, BuscarRecurso;
    var p, ms := h.pid, k.procesos[h.pid].mutex;
    var b := BuscarRecurso(ms, nombre);
    if b.Some? && ms[b.value].owner == h.tid {
      if ms[b.value].hilos == [] {
        OtroDuenio(k, p, b.value, -1);
      } else {
        UnlockDeja(k, p, b.value);
        UnlockEntrega(k, p, b.value);
      }
    }
  }

  /** The list of one mutex loses its head. */
  lemma UnaEsperaMenos(k: K, p: nat, i: nat)
    requires p in k.procesos && MutexBien(k, p) && i < |k.procesos[p].mutex| && k.procesos[p].mutex[i].hilos != []
    ensures var r := k.procesos[p].mutex[i];
            var k' := ConLista(k, p, k.procesos[p].mutex[i := r.(owner := r.hilos[0], hilos := r.hilos[1..])]);
            && MutexBien(k', p) && Esperando(k, Hilo(p, r.hilos[0]))
            && forall x :: EnLista(k', x) <==> EnLista(k, x) && x != Hilo(p, r.hilos[0])
  {
    var ms := k.procesos[p].mutex;
    var n := ms[i].hilos[0];
    var r := ms[i].(owner := n, hilos := ms[i].hilos[1..]);
    var ns := ms[i := r];
    var k' := ConLista(k, p, ns);
    assert RecursoBien(k, p, ms[i]) && n in ms[i].hilos;
    forall j | 0 <= j < |ms|
      ensures RecursoBien(k', p, ns[j])
      ensures forall t :: t in ns[j].hilos <==> t in ms[j].hilos && t != n
    {
      assert RecursoBien(k, p, ms[j]);
      if j < i { assert Ajenos(ms[j], ms[i]); } else if i < j { assert Ajenos(ms[i], ms[j]); }
      ColaDe(ms[i].hilos);
      forall t | t in ms[j].hilos
        ensures Esperando(k, Hilo(p, t)) && Esperando(k', Hilo(p, t))
      {
        assert Esperando(k, Hilo(p, t));
      }
    }
    forall a, b | 0 <= a < b < |ms|
      ensures Ajenos(ns[a], ns[b])
    {
      assert Ajenos(ms[a], ms[b]);
    }
    forall x
      ensures EnLista(k', x) <==> EnLista(k, x) && x != Hilo(p, n)
    {
      EnListaCon(k, p, ns, x);
    }
  }

  lemma ColaDe(s: seq<nat>)
    requires SinDup(s) && s != []
    ensures SinDup(s[1..]) && forall t :: t in s[1..] <==> t in s && t != s[0]
  {
    assert s == [s[0]] + s[1..];
  }

  lemma UnlockDeja(k: K, p: nat, i: nat)
    requires Inv(k) && p in k.procesos && p !in k.colaNew && i < |k.procesos[p].mutex|
    requires k.procesos[p].mutex[i].hilos != []
    ensures var r := k.procesos[p].mutex[i];
            var n := Hilo(p, r.hilos[0]);
            var k1 := ConMutex(k, p, i, r.(owner := n.tid, hilos := r.hilos[1..]));
            SeEntrega(k, EncolarReady(Desencolar(k1, n), n), p, i)
  {
    var hilos := k.procesos[p].mutex[i].hilos;
    var n := Hilo(p, hilos[0]);
    assert MutexBien(k, p) && RecursoBien(k, p, k.procesos[p].mutex[i]) && hilos[0] in hilos;
    assert Esperando(k, n) && EnSuLugar(k, n);
    QuitarDe(k.colaBlocked, n);
    hide Inv, Quitar, EnSuLugar;
  }

  lemma UnlockEntrega(k: K, p: nat, i: nat)
    requires Inv(k) && p in k.procesos && p !in k.colaNew && i < |k.procesos[p].mutex|
    requires k.procesos[p].mutex[i].hilos != []
    ensures var r := k.procesos[p].mutex[i];
            var n := Hilo(p, r.hilos[0]);
            var k1 := ConMutex(k, p, i, r.(owner := n.tid, hilos := r.hilos[1..]));
            Inv(EncolarReady(Desencolar(k1, n), n))
  {
    hide Tabla, Lugares, Cola, Protocolo, Duenios, EnLista, Desencolar, MutexBien, SinDup, EncolarReady;
    var ms := k.procesos[p].mutex;
    var r := ms[i].(owner := ms[i].hilos[0], hilos := ms[i].hilos[1..]);
    var n := Hilo(p, ms[i].hilos[0]);
    var k1 := ConLista(k, p, ms[i := r]);
    assert k1 == ConMutex(k, p, i, r);
    ProtocoloDe(k, p);
    UnaEsperaMenos(k, p, i);
    ListaConserva(k, p, ms[i := r]);
    ProtocoloConLista(k, p, ms[i := r]);
    DueniosConLista(k, p, ms[i := r]);
    assert Activo(k1, n) && Ficha(k1, n) == Ficha(k, n);
    AReady(k1, n);
    var k' := EncolarReady(Desencolar(k1, n), n);
    MueveProtocolo(k1, k', n);
    MueveDuenios(k1, k');
    forall x
      ensures Clasificado(k', x)
    {
      assert Clasificado(k, x);
      EnListaIgual(k1, k', x);
    }
  }
}
