/** The end of threads and processes: who is woken, who gets a mutex and what is left in the queues.
    Sources: kernel/src/utils.c (liberar_hilo, liberar_pcb) and kernel/src/syscalls.c. */
module Salidas {
  import opened Listas
  import opened Opcion
  import opened Planificacion
  import opened Kernel
  import opened Invariantes
  import opened Bloqueos

  // ---- Removing by position ----

  lemma {:induction false} QuitarIndice<T(!new)>(s: seq<T>, i: nat)
    requires SinDup(s) && i < |s|
    ensures Quitar(s, s[i]) == Sin(s, i)
  {
    if i == 0 {
    } else {
      assert s[1..][i - 1] == s[i] && s[0] != s[i];
      QuitarIndice(s[1..], i - 1);
      assert [s[0]] + Sin(s[1..], i - 1) == Sin(s, i);
    }
  }

  // ---- Joiners ----

  /** The blocked queue as the loop of liberar_hilo needs it: everybody in it is blocked, once. */
  ghost predicate SoloBloqueados(k: K) {
    SinDup(k.colaBlocked) && forall x :: x in k.colaBlocked ==> Ficha(k, x).estado == BLOCKED
  }

  /** Waking the thread at index i takes it out of the blocked queue and changes nobody else. */
  lemma DespertarUno(k: K, i: nat)
    requires SoloBloqueados(k) && i < |k.colaBlocked|
    ensures var h := k.colaBlocked[i];
            var k' := Despertar(k, h);
            && SoloBloqueados(k') && k'.colaBlocked == Sin(k.colaBlocked, i) && h !in k'.colaBlocked
            && (forall x :: x != h ==> Ficha(k', x) == Ficha(k, x))
            && k'.colaReady == k.colaReady + [h] && Ficha(k', h).estado == READY
  {
    QuitarIndice(k.colaBlocked, i);
    SinDe(k.colaBlocked, i);
    var h := k.colaBlocked[i];
    assert h in k.colaBlocked;
    hide SinDup, Quitar, Sin;
    var k1 := ConFicha(k, h, Ficha(k, h).(bloqueador := -1, motivo := NONE));
    assert Desencolar(k1, h).colaBlocked == Quitar(k.colaBlocked, h);
  }

  /** Threads that are not joiners of the dead one keep their records. */
  lemma {:induction false} DespertarDesdeAjenos(k: K, muerto: Hilo, i: nat, x: Hilo)
    requires !EsperaA(k, x, muerto)
    ensures Ficha(DespertarDesde(k, muerto, i), x) == Ficha(k, x)
    decreases |k.colaBlocked| - i
  {
    if i < |k.colaBlocked| {
      var h := k.colaBlocked[i];
      DespertarDesdeAjenos(if EsperaA(k, h, muerto) then Despertar(k, h) else k, muerto, i + 1, x);
    }
  }

  lemma DesencolarBloqueados(k: K, n: Hilo)
    requires SoloBloqueados(k)
    ensures var d := Desencolar(k, n);
            && SinDup(d.colaBlocked) && (forall x :: x in d.colaBlocked <==> x in k.colaBlocked && x != n)
            && d.tcbs == k.tcbs && d.reloj == k.reloj
  {
    QuitarDe(k.colaBlocked, n);
    hide SinDup, Quitar;
  }

  /** Wherever it was, the thread ends in the ready queue and out of the blocked one. */
  lemma ReponerUno(k: K, n: Hilo)
    requires SoloBloqueados(k)
    ensures var k' := EncolarReady(Desencolar(k, n), n);
            && SoloBloqueados(k') && (forall x :: x in k'.colaBlocked <==> x in k.colaBlocked && x != n)
            && (forall x :: x != n ==> Ficha(k', x) == Ficha(k, x))
            && Ficha(k', n) == Ficha(k, n).(estado := READY, desde := k.reloj) && n in k'.colaReady
  {
    DesencolarBloqueados(k, n);
    hide SinDup, Desencolar;
  }

  /** Handing mutex i over: the first waiter goes from the blocked queue to the ready one, and the
      lists of waiters stay as they were. */
  lemma EntregaUno(k: K, muerto: Hilo, i: nat)
    requires SoloBloqueados(k) && i < |Proceso(k, muerto.pid).mutex|
    requires var r := Proceso(k, muerto.pid).mutex[i]; r.owner == muerto.tid && r.hilos != []
    ensures var n := Hilo(muerto.pid, Proceso(k, muerto.pid).mutex[i].hilos[0]);
            var k' := Soltar(k, muerto, i);
            && SoloBloqueados(k') && (forall x :: x in k'.colaBlocked <==> x in k.colaBlocked && x != n)
            && (forall x :: x != n ==> Ficha(k', x) == Ficha(k, x))
            && Ficha(k', n) == Ficha(k, n).(estado := READY, desde := k.reloj) && n in k'.colaReady
  {
    var r := Proceso(k, muerto.pid).mutex[i];
    var n := Hilo(muerto.pid, r.hilos[0]);
    var k1 := ConMutex(k, muerto.pid, i, r.(owner := n.tid));
    assert k1 == k.(procesos := k1.procesos);
    assert SoloBloqueados(k1);
    assert Soltar(k, muerto, i) == EncolarReady(Desencolar(k1, n), n);
    hide SoloBloqueados, Soltar, Desencolar, EncolarReady, ConMutex, Proceso;
    ReponerUno(k1, n);
  }

  lemma MismosHilosAlSoltar(k: K, muerto: Hilo, i: nat)
    requires i < |Proceso(k, muerto.pid).mutex|
    ensures var k' := Soltar(k, muerto, i);
            |Proceso(k', muerto.pid).mutex| == |Proceso(k, muerto.pid).mutex|
    ensures var k' := Soltar(k, muerto, i);
            forall j :: 0 <= j < |Proceso(k, muerto.pid).mutex| ==>
              Proceso(k', muerto.pid).mutex[j].hilos == Proceso(k, muerto.pid).mutex[j].hilos
  {
    hide Quitar;
  }

  /** A mutex that is not contended is handed to nobody: only its owner may change. */
  lemma SoltarSinDisputa(k: K, muerto: Hilo, i: nat)
    requires i < |Proceso(k, muerto.pid).mutex| && !Disputado(Proceso(k, muerto.pid).mutex[i], muerto.tid)
    ensures var k' := Soltar(k, muerto, i); k' == k.(procesos := k'.procesos)
  {
    hide EncolarReady, Desencolar;
  }

  lemma MismosSolos(k: K, k1: K)
    requires SoloBloqueados(k) && k1.colaBlocked == k.colaBlocked && k1.tcbs == k.tcbs
    ensures SoloBloqueados(k1)
  {
  }

  lemma BloqueadosSolos(k: K)
    requires Lugares(k)
    ensures SoloBloqueados(k)
  {
    forall x | x in k.colaBlocked
      ensures Ficha(k, x).estado == BLOCKED
    {
      assert EnSuLugar(k, x);
    }
  }

  /** The state in which the loops of liberar_hilo start for a thread that was executing. */
  ghost function Muerto(k: K, h: Hilo): K {
    var p := Proceso(k, h.pid);
    ConProceso(k.(exec := None), h.pid, p.(threads := Quitar(p.threads, h.tid)))
  }

  lemma ThreadExitPorPartes(k: K, h: Hilo)
    requires Lugares(k) && k.exec == Some(h)
    ensures var k3 := SoltarDesde(DespertarDesde(Muerto(k, h), h, 0), h, 0);
            ThreadExit(k, h) == k3.(tcbs := k3.tcbs - {h})
  {
    EnEjecucion(k, h);
  }

  // ---- Nobody executes after a thread has ended ----

  lemma {:induction false} NadieTrasDespertar(k: K, h: Hilo, i: nat)
    requires k.exec == None
    ensures DespertarDesde(k, h, i).exec == None
    decreases |k.colaBlocked| - i
  {
    if i < |k.colaBlocked| {
      var x := k.colaBlocked[i];
      NadieTrasDespertar(if EsperaA(k, x, h) then Despertar(k, x) else k, h, i + 1);
    }
  }

  lemma {:induction false} NadieTrasSoltar(k: K, h: Hilo, i: nat)
    requires k.exec == None
    ensures SoltarDesde(k, h, i).exec == None
    decreases |Proceso(k, h.pid).mutex| - i
  {
    hide Quitar;
    if i < |Proceso(k, h.pid).mutex| {
      NadieTrasSoltar(Soltar(k, h, i), h, i + 1);
    }
  }

  lemma NadieTrasFin(k: K, h: Hilo)
    requires Inv(k) && k.exec == Some(h)
    ensures ThreadExit(k, h).exec == None
  {
    ThreadExitPorPartes(k, h);
    NadieTrasDespertar(Muerto(k, h), h, 0);
    NadieTrasSoltar(DespertarDesde(Muerto(k, h), h, 0), h, 0);
  }

  lemma {:induction false} SoltarNoEncola(k: K, h: Hilo, i: nat)
    ensures SoltarDesde(k, h, i).colaNew == k.colaNew && SoltarDesde(k, h, i).pidCounter == k.pidCounter
    decreases |Proceso(k, h.pid).mutex| - i
  {
    hide Quitar;
    if i < |Proceso(k, h.pid).mutex| {
      SoltarNoEncola(Soltar(k, h, i), h, i + 1);
    }
  }

  // ---- Who stays asleep ----

  /** How many joiners of the dead thread sit side by side right before place j, counting from place i. */
  ghost function Racha(k: K, c: seq<Hilo>, muerto: Hilo, i: nat, j: nat): nat
    requires j <= |c|
    decreases j
  {
    if j <= i || !EsperaA(k, c[j - 1], muerto) then 0 else 1 + Racha(k, c, muerto, i, j - 1)
  }

  /** Taking out the joiner at place i shifts the count by two. */
  lemma {:induction false} RachaAlQuitar(k: K, k': K, c: seq<Hilo>, muerto: Hilo, i: nat, j: nat)
    requires i + 2 <= j <= |c| && SinDup(c) && EsperaA(k, c[i], muerto)
    requires forall x :: x != c[i] ==> EsperaA(k', x, muerto) == EsperaA(k, x, muerto)
    ensures Racha(k', Sin(c, i), muerto, i + 1, j - 1) % 2 == Racha(k, c, muerto, i, j) % 2
    decreases j
  {
    hide EsperaA;
    if j > i + 2 {
      RachaAlQuitar(k, k', c, muerto, i, j - 1);
      assert Sin(c, i)[j - 2] == c[j - 1] != c[i];
    } else {
      assert Racha(k, c, muerto, i, i) == 0 && Racha(k, c, muerto, i, i + 1) == 1;
    }
  }

  lemma {:induction false} RachaAlPasar(k: K, c: seq<Hilo>, muerto: Hilo, i: nat, j: nat)
    requires i < j <= |c| && !EsperaA(k, c[i], muerto)
    ensures Racha(k, c, muerto, i + 1, j) == Racha(k, c, muerto, i, j)
    decreases j
  {
    if j > i + 1 {
      RachaAlPasar(k, c, muerto, i, j - 1);
    }
  }

  /** The loop does not touch who is not blocked. */
  lemma {:induction false} DespertarDesdeFuera(k: K, muerto: Hilo, i: nat, x: Hilo)
    requires SoloBloqueados(k) && x !in k.colaBlocked
    ensures var r := DespertarDesde(k, muerto, i);
            Ficha(r, x) == Ficha(k, x) && x !in r.colaBlocked && (x in r.colaReady <==> x in k.colaReady)
    decreases |k.colaBlocked| - i
  {
    if i < |k.colaBlocked| {
      DespertarUno(k, i);
      SinDe(k.colaBlocked, i);
      assert k.colaBlocked[i] in k.colaBlocked;
      hide SoloBloqueados, Despertar, Sin;
      DespertarDesdeFuera(if EsperaA(k, k.colaBlocked[i], muerto) then Despertar(k, k.colaBlocked[i])
                          else k, muerto, i + 1, x);
    }
  }

  lemma {:induction false} DespertarDesdeSolos(k: K, muerto: Hilo, i: nat)
    requires SoloBloqueados(k)
    ensures SoloBloqueados(DespertarDesde(k, muerto, i))
    decreases |k.colaBlocked| - i
  {
    hide SoloBloqueados, Despertar;
    if i < |k.colaBlocked| {
      DespertarUno(k, i);
      DespertarDesdeSolos(if EsperaA(k, k.colaBlocked[i], muerto) then Despertar(k, k.colaBlocked[i])
                          else k, muerto, i + 1);
    }
  }

  ghost predicate SigueDormido(k: K, k': K, x: Hilo) {
    x in k'.colaBlocked && Ficha(k', x) == Ficha(k, x)
  }

  ghost predicate Desperto(k': K, x: Hilo) {
    && x in k'.colaReady && x !in k'.colaBlocked
    && Ficha(k', x).estado == READY && Ficha(k', x).motivo == NONE && Ficha(k', x).bloqueador == -1
  }

  lemma DespertarUnoMismo(k: K, h: Hilo)
    requires Ficha(k, h).estado == BLOCKED
    ensures Ficha(Despertar(k, h), h).motivo == NONE && Ficha(Despertar(k, h), h).bloqueador == -1
  {
  }

  /** The joiner at place j is one the loop from index i leaves asleep: it has passed it, or an odd number of
      joiners sit right before it. */
  ghost predicate Duerme(k: K, c: seq<Hilo>, muerto: Hilo, i: nat, j: nat)
    requires j < |c|
  {
    j < i || Racha(k, c, muerto, i, j) % 2 == 1
  }

  lemma DuermeAlQuitar(k: K, k': K, c: seq<Hilo>, muerto: Hilo, i: nat, j: nat)
    requires i < |c| && j < |c| && j != i && SinDup(c) && EsperaA(k, c[i], muerto)
    requires forall x :: x != c[i] ==> EsperaA(k', x, muerto) == EsperaA(k, x, muerto)
    ensures var n := if j < i then j else j - 1;
            && c[j] != c[i] && Sin(c, i)[n] == c[j]
            && Duerme(k', Sin(c, i), muerto, i + 1, n) == Duerme(k, c, muerto, i, j)
  {
    hide EsperaA;
    if j > i + 1 {
      RachaAlQuitar(k, k', c, muerto, i, j);
    } else if j == i + 1 {
      assert Racha(k, c, muerto, i, i) == 0 && Racha(k, c, muerto, i, j) == 1;
    }
  }

  lemma DuermeAlPasar(k: K, c: seq<Hilo>, muerto: Hilo, i: nat, j: nat)
    requires i < |c| && j < |c| && j != i && !EsperaA(k, c[i], muerto)
    ensures Duerme(k, c, muerto, i + 1, j) == Duerme(k, c, muerto, i, j)
  {
    if j > i {
      RachaAlPasar(k, c, muerto, i, j);
    }
  }

  lemma NoDuermeDonde(k: K, c: seq<Hilo>, muerto: Hilo, i: nat)
    requires i < |c|
    ensures !Duerme(k, c, muerto, i, i)
  {
  }

  lemma UnPasoDespertar(k: K, muerto: Hilo, i: nat)
    ensures i >= |k.colaBlocked| ==> DespertarDesde(k, muerto, i) == k
    ensures i < |k.colaBlocked| && EsperaA(k, k.colaBlocked[i], muerto) ==>
      DespertarDesde(k, muerto, i) == DespertarDesde(Despertar(k, k.colaBlocked[i]), muerto, i + 1)
    ensures i < |k.colaBlocked| && !EsperaA(k, k.colaBlocked[i], muerto) ==>
      DespertarDesde(k, muerto, i) == DespertarDesde(k, muerto, i + 1)
  {
    hide Despertar, EsperaA;
  }

  lemma AlDespertar(k: K, i: nat, muerto: Hilo)
    requires SoloBloqueados(k) && i < |k.colaBlocked|
    ensures var h := k.colaBlocked[i];
            var k' := Despertar(k, h);
            && SinDup(k.colaBlocked) && SoloBloqueados(k') && k'.colaBlocked == Sin(k.colaBlocked, i)
            && (forall x :: x != h ==> EsperaA(k', x, muerto) == EsperaA(k, x, muerto))
            && (forall x :: x != h ==> Ficha(k', x) == Ficha(k, x)) && Desperto(k', h)
  {
    assert k.colaBlocked[i] in k.colaBlocked;
    DespertarUno(k, i);
    DespertarUnoMismo(k, k.colaBlocked[i]);
    hide SoloBloqueados, Despertar, Sin, SinDup;
  }

  lemma SigueDespierto(k: K, muerto: Hilo, i: nat, x: Hilo)
    requires SoloBloqueados(k) && Desperto(k, x)
    ensures Desperto(DespertarDesde(k, muerto, i), x)
  {
    DespertarDesdeFuera(k, muerto, i, x);
    hide DespertarDesde, SoloBloqueados;
  }

  lemma MismoDormido(k: K, k': K, r: K, x: Hilo)
    requires Ficha(k', x) == Ficha(k, x)
    ensures SigueDormido(k', r, x) == SigueDormido(k, r, x)
  {
  }

  lemma Dormido(k: K, x: Hilo)
    requires x in k.colaBlocked
    ensures SigueDormido(k, k, x)
  {
  }

  /** Whom the loop from index i leaves asleep. */
  lemma {:induction false} DespertarDesdeAQuien(k: K, muerto: Hilo, i: nat, j: nat)
    requires SoloBloqueados(k) && j < |k.colaBlocked| && EsperaA(k, k.colaBlocked[j], muerto)
    ensures var r, x := DespertarDesde(k, muerto, i), k.colaBlocked[j];
            if Duerme(k, k.colaBlocked, muerto, i, j) then SigueDormido(k, r, x) else Desperto(r, x)
    decreases |k.colaBlocked| - i
  {
    hide *;
    var c, x := k.colaBlocked, k.colaBlocked[j];
    UnPasoDespertar(k, muerto, i);
    if i >= |c| {
      Dormido(k, x);
      PasadoDuerme(k, c, muerto, i, j);
    } else if EsperaA(k, c[i], muerto) {
      var k' := Despertar(k, c[i]);
      AlDespertar(k, i, muerto);
      if i == j {
        NoDuermeDonde(k, c, muerto, i);
        SigueDespierto(k', muerto, i + 1, x);
      } else {
        DuermeAlQuitar(k, k', c, muerto, i, j);
        DespertarDesdeAQuien(k', muerto, i + 1, if j < i then j else j - 1);
        MismoDormido(k, k', DespertarDesde(k', muerto, i + 1), x);
      }
    } else {
      DuermeAlPasar(k, c, muerto, i, j);
      DespertarDesdeAQuien(k, muerto, i + 1, j);
    }
  }

  lemma PasadoDuerme(k: K, c: seq<Hilo>, muerto: Hilo, i: nat, j: nat)
    requires j < |c| <= i
    ensures Duerme(k, c, muerto, i, j)
  {
  }

  ghost predicate NoListado(k: K, x: Hilo) {
    forall j :: 0 <= j < |Proceso(k, x.pid).mutex| ==> x.tid !in Proceso(k, x.pid).mutex[j].hilos
  }

  lemma {:induction false} QuitarOtro<T(!new)>(s: seq<T>, x: T, y: T)
    requires x != y
    ensures y in Quitar(s, x) <==> y in s
  {
    if s != [] && s[0] != x {
      QuitarOtro(s[1..], x, y);
    }
  }

  /** Same record, same places. */
  ghost predicate Igual(k: K, k': K, x: Hilo) {
    && Ficha(k', x) == Ficha(k, x) && (x in k'.colaBlocked <==> x in k.colaBlocked)
    && (x in k'.colaReady <==> x in k.colaReady)
  }

  lemma DesencolarOtro(k: K, n: Hilo, x: Hilo)
    requires x != n
    ensures Igual(k, Desencolar(k, n), x)
  {
    QuitarOtro(k.colaBlocked, n, x);
    QuitarOtro(k.colaReady, n, x);
    hide Quitar;
  }

  lemma ReponerOtro(k: K, n: Hilo, x: Hilo)
    requires x != n
    ensures Igual(k, EncolarReady(Desencolar(k, n), n), x)
  {
    DesencolarOtro(k, n, x);
    hide Desencolar;
  }

  /** Handing the mutexes over touches nobody that waits for none. */
  lemma {:induction false} SoltarDesdeFuera(k: K, muerto: Hilo, i: nat, x: Hilo)
    requires NoListado(k, x) && x.pid == muerto.pid
    ensures Igual(k, SoltarDesde(k, muerto, i), x)
    decreases |Proceso(k, muerto.pid).mutex| - i
  {
    if i < |Proceso(k, muerto.pid).mutex| {
      var r, k' := Proceso(k, muerto.pid).mutex[i], Soltar(k, muerto, i);
      if r.owner == muerto.tid && r.hilos != [] {
        assert r.hilos[0] in r.hilos;
        ReponerOtro(ConMutex(k, muerto.pid, i, r.(owner := r.hilos[0])), Hilo(muerto.pid, r.hilos[0]), x);
      }
      MismosHilosAlSoltar(k, muerto, i);
      hide EncolarReady, Desencolar;
      assert Igual(k, k', x);
      hide Soltar;
      SoltarDesdeFuera(k', muerto, i + 1, x);
    }
  }

  lemma JoinerNoListado(k: K, x: Hilo)
    requires Bloqueados(k) && x in k.colaBlocked && Ficha(k, x).motivo == THREAD_JOIN
    ensures NoListado(k, x)
  {
    assert Clasificado(k, x);
  }

  /** Which threads thread_exit leaves waiting for the dead one: each that sits in the blocked queue behind
      an odd number of threads, side by side, that wait for it too. The others wake up and wait for
      nothing. */
  lemma QuienSigueDormido(k: K, h: Hilo, j: nat)
    requires Inv(k) && k.exec == Some(h) && j < |k.colaBlocked| && EsperaA(k, k.colaBlocked[j], h)
    ensures var k', x := ThreadExit(k, h), k.colaBlocked[j];
            if Racha(k, k.colaBlocked, h, 0, j) % 2 == 1 then SigueDormido(k, k', x) else Desperto(k', x)
  {
    ThreadExitPorPartes(k, h);
    EnEjecucion(k, h);
    BloqueadosSolos(k);
    var c, x := k.colaBlocked, k.colaBlocked[j];
    assert x in c && x != h;
    JoinerNoListado(k, x);
    var k1 := Muerto(k, h);
    assert SoloBloqueados(k1) && NoListado(k1, x);
    hide Inv, SoloBloqueados, ThreadExit, DespertarDesde, SoltarDesde;
    DespertarDesdeAQuien(k1, h, 0, j);
    RachaIgual(k, k1, c, h, j);
    var k2 := DespertarDesde(k1, h, 0);
    assert k2.procesos == k1.procesos by { MismosProcesosAlDespertar(k1, h); }
    SoltarDesdeFuera(k2, h, 0, x);
  }

  lemma MismosProcesosAlDespertar(k: K, h: Hilo)
    ensures DespertarDesde(k, h, 0).procesos == k.procesos
  {
  }

  lemma {:induction false} RachaIgual(k: K, k': K, c: seq<Hilo>, muerto: Hilo, j: nat)
    requires j <= |c| && k'.tcbs == k.tcbs
    ensures Racha(k', c, muerto, 0, j) == Racha(k, c, muerto, 0, j)
    decreases j
  {
    if j == 0 {
    } else {
      RachaIgual(k, k', c, muerto, j - 1);
    }
  }

  // ---- When everybody wakes up ----

  /** Two waiting joiners of the dead thread sit side by side. */
  ghost predicate Contiguos(k: K, c: seq<Hilo>, muerto: Hilo) {
    exists j :: 0 <= j < |c| - 1 && EsperaA(k, c[j], muerto) && EsperaA(k, c[j + 1], muerto)
  }

  lemma {:induction false} QuitarIncluido<T>(s: seq<T>, x: T, y: T)
    ensures y in Quitar(s, x) ==> y in s
  {
    if s == [] {
    } else {
      QuitarIncluido(s[1..], x, y);
    }
  }

  /** Nobody begins to wait, and nobody begins to be blocked. */
  ghost predicate NoSuma(k: K, k': K, x: Hilo, muerto: Hilo) {
    (x in k'.colaBlocked ==> x in k.colaBlocked) && (EsperaA(k', x, muerto) ==> EsperaA(k, x, muerto))
  }

  lemma DesencolarNoSuma(k: K, n: Hilo, x: Hilo)
    ensures var d := Desencolar(k, n); (x in d.colaBlocked ==> x in k.colaBlocked) && d.tcbs == k.tcbs
  {
    QuitarIncluido(k.colaBlocked, n, x);
    hide Quitar;
  }

  lemma SoltarNoSuma(k: K, muerto: Hilo, i: nat, x: Hilo)
    requires i < |Proceso(k, muerto.pid).mutex|
    ensures NoSuma(k, Soltar(k, muerto, i), x, muerto)
  {
    var r := Proceso(k, muerto.pid).mutex[i];
    if Disputado(r, muerto.tid) {
      DesencolarNoSuma(ConMutex(k, muerto.pid, i, r.(owner := r.hilos[0])), Hilo(muerto.pid, r.hilos[0]), x);
      hide Desencolar;
    } else {
      SoltarSinDisputa(k, muerto, i);
      hide Soltar;
    }
  }

  lemma {:induction false} SoltarDesdeNoSuma(k: K, muerto: Hilo, i: nat, x: Hilo)
    ensures NoSuma(k, SoltarDesde(k, muerto, i), x, muerto)
    decreases |Proceso(k, muerto.pid).mutex| - i
  {
    hide Soltar;
    if i < |Proceso(k, muerto.pid).mutex| {
      SoltarNoSuma(k, muerto, i, x);
      SoltarDesdeNoSuma(Soltar(k, muerto, i), muerto, i + 1, x);
    }
  }

  /** Whoever waits for the dead thread once it has ended was already waiting for it. */
  lemma YaEsperaba(k: K, h: Hilo, x: Hilo)
    requires Inv(k) && k.exec == Some(h)
    ensures var k' := ThreadExit(k, h);
            x in k'.colaBlocked && EsperaA(k', x, h) ==> x in k.colaBlocked && EsperaA(k, x, h)
  {
    ThreadExitPorPartes(k, h);
    EnEjecucion(k, h);
    BloqueadosSolos(k);
    var k1 := Muerto(k, h);
    var k2 := DespertarDesde(k1, h, 0);
    assert SoloBloqueados(k1) by { MismosSolos(k, k1); }
    if !EsperaA(k1, x, h) { DespertarDesdeAjenos(k1, h, 0, x); }
    if x !in k1.colaBlocked { DespertarDesdeFuera(k1, h, 0, x); }
    SoltarDesdeNoSuma(k2, h, 0, x);
    hide Inv, ThreadExit, DespertarDesde, SoltarDesde, SoloBloqueados, Activo;
  }

  lemma DormidoEspera(k: K, k': K, x: Hilo, h: Hilo)
    requires SigueDormido(k, k', x) && EsperaA(k, x, h)
    ensures x in k'.colaBlocked && EsperaA(k', x, h)
  {
  }

  /** A joiner left behind sits right after another one. */
  lemma DormidoTrasOtro(k: K, h: Hilo, x: Hilo)
    requires Inv(k) && k.exec == Some(h) && x in ThreadExit(k, h).colaBlocked && EsperaA(ThreadExit(k, h), x, h)
    ensures Contiguos(k, k.colaBlocked, h)
  {
    hide Inv, ThreadExit, EsperaA, SigueDormido;
    var c := k.colaBlocked;
    YaEsperaba(k, h, x);
    var j :| 0 <= j < |c| && c[j] == x;
    QuienSigueDormido(k, h, j);
    assert Racha(k, c, h, 0, j) > 0 && EsperaA(k, c[j - 1], h) && EsperaA(k, c[j - 1 + 1], h);
  }

  /** Of two joiners side by side one is left behind. */
  lemma UnoDeDosDuerme(k: K, h: Hilo, j: nat) returns (x: Hilo)
    requires Inv(k) && k.exec == Some(h) && j < |k.colaBlocked| - 1
    requires EsperaA(k, k.colaBlocked[j], h) && EsperaA(k, k.colaBlocked[j + 1], h)
    ensures x in ThreadExit(k, h).colaBlocked && EsperaA(ThreadExit(k, h), x, h)
  {
    hide Inv, ThreadExit, EsperaA, SigueDormido, Desperto;
    var c := k.colaBlocked;
    QuienSigueDormido(k, h, j);
    QuienSigueDormido(k, h, j + 1);
    assert Racha(k, c, h, 0, j + 1) == Racha(k, c, h, 0, j) + 1;
    x := if Racha(k, c, h, 0, j) % 2 == 1 then c[j] else c[j + 1];
    DormidoEspera(k, ThreadExit(k, h), x, h);
  }

  /** thread_exit wakes every thread that waits for the dead one exactly when no two of them are side
      by side in the blocked queue: the loop skips whoever follows the one it takes out. */
  lemma TodosDespiertanSiYSoloSi(k: K, h: Hilo)
    requires Inv(k) && k.exec == Some(h)
    ensures var k' := ThreadExit(k, h);
            (forall x :: x in k'.colaBlocked ==> !EsperaA(k', x, h)) <==> !Contiguos(k, k.colaBlocked, h)
  {
    hide Inv, ThreadExit, EsperaA;
    var k', c := ThreadExit(k, h), k.colaBlocked;
    if x :| x in k'.colaBlocked && EsperaA(k', x, h) {
      DormidoTrasOtro(k, h, x);
    }
    if j :| 0 <= j < |c| - 1 && EsperaA(k, c[j], h) && EsperaA(k, c[j + 1], h) {
      var x := UnoDeDosDuerme(k, h, j);
    }
  }

  // ---- The mutexes of a dead thread ----

  /** The thread owns a mutex somebody waits for. */
  ghost predicate DuenioDisputado(k: K, h: Hilo) {
    exists i :: 0 <= i < |Proceso(k, h.pid).mutex| && Disputado(Proceso(k, h.pid).mutex[i], h.tid)
  }

  predicate Disputado(r: Recurso, t: nat) {
    r.owner == t && r.hilos != []
  }

  /** The mutexes with those of thread t freed. */
  ghost function Liberados(ms: seq<Recurso>, t: nat): (r: seq<Recurso>)
    ensures |r| == |ms|
    ensures forall i :: 0 <= i < |ms| ==> r[i] == if ms[i].owner == t then ms[i].(owner := -1) else ms[i]
  {
    seq(|ms|, i requires 0 <= i < |ms| => if ms[i].owner == t then ms[i].(owner := -1) else ms[i])
  }

  lemma ListaDeAntes(k: K, p: nat, a: seq<Recurso>, b: seq<Recurso>)
    requires p in k.procesos
    ensures ConLista(ConLista(k, p, a), p, b) == ConLista(k, p, b) && ConLista(k, p, k.procesos[p].mutex) == k
    ensures p in ConLista(k, p, a).procesos && ConLista(k, p, a).procesos[p].mutex == a
  {
    assert k.procesos[p := k.procesos[p]] == k.procesos;
  }

  ghost function SinDuenio(r: Recurso, t: nat): Recurso {
    if r.owner == t then r.(owner := -1) else r
  }

  lemma SoltarUnoLibre(k: K, h: Hilo, i: nat)
    requires h.pid in k.procesos && i < |k.procesos[h.pid].mutex| && !Disputado(k.procesos[h.pid].mutex[i], h.tid)
    ensures var ms := k.procesos[h.pid].mutex;
            Soltar(k, h, i) == ConLista(k, h.pid, ms[i := SinDuenio(ms[i], h.tid)])
  {
    var ms := k.procesos[h.pid].mutex;
    assert ms[i := ms[i]] == ms;
    ListaDeAntes(k, h.pid, ms, ms);
    hide EncolarReady, Desencolar;
  }

  lemma NadaDisputado(k: K, h: Hilo, j: nat)
    requires !DuenioDisputado(k, h) && j < |Proceso(k, h.pid).mutex|
    ensures !Disputado(Proceso(k, h.pid).mutex[j], h.tid)
  {
  }

  lemma SinDisputaAlLiberar(k: K, h: Hilo, i: nat)
    requires h.pid in k.procesos && !DuenioDisputado(k, h) && i < |k.procesos[h.pid].mutex|
    ensures var ms := k.procesos[h.pid].mutex;
            !DuenioDisputado(ConLista(k, h.pid, ms[i := SinDuenio(ms[i], h.tid)]), h)
  {
    forall j | 0 <= j < |k.procesos[h.pid].mutex|
      ensures !Disputado(k.procesos[h.pid].mutex[j], h.tid)
    {
      NadaDisputado(k, h, j);
    }
  }

  lemma LiberadosAlLiberar(ms: seq<Recurso>, i: nat, t: nat)
    requires i < |ms|
    ensures Liberados(ms[i := SinDuenio(ms[i], t)], t) == Liberados(ms, t)
  {
  }

  lemma LiberadosIgual(ms: seq<Recurso>, t: nat)
    requires forall j :: 0 <= j < |ms| ==> ms[j].owner != t
    ensures Liberados(ms, t) == ms
  {
  }

  lemma UnPasoSoltar(k: K, h: Hilo, i: nat)
    ensures i >= |Proceso(k, h.pid).mutex| ==> SoltarDesde(k, h, i) == k
    ensures i < |Proceso(k, h.pid).mutex| ==> SoltarDesde(k, h, i) == SoltarDesde(Soltar(k, h, i), h, i + 1)
  {
    hide Soltar;
  }

  /** Without contention the loop over the mutexes only clears owners. */
  lemma {:induction false} SoltarLibres(k: K, h: Hilo, i: nat)
    requires h.pid in k.procesos && !DuenioDisputado(k, h) && i <= |k.procesos[h.pid].mutex|
    requires forall j :: 0 <= j < i ==> k.procesos[h.pid].mutex[j].owner != h.tid
    ensures SoltarDesde(k, h, i) == ConLista(k, h.pid, Liberados(k.procesos[h.pid].mutex, h.tid))
    decreases |Proceso(k, h.pid).mutex| - i
  {
    hide SoltarDesde, Soltar, DuenioDisputado, ConLista, Liberados;
    var ms := k.procesos[h.pid].mutex;
    UnPasoSoltar(k, h, i);
    ListaDeAntes(k, h.pid, ms, ms);
    if i >= |ms| {
      LiberadosIgual(ms, h.tid);
    } else {
      var ms1 := ms[i := SinDuenio(ms[i], h.tid)];
      NadaDisputado(k, h, i);
      SoltarUnoLibre(k, h, i);
      SinDisputaAlLiberar(k, h, i);
      LiberadosAlLiberar(ms, i, h.tid);
      ListaDeAntes(k, h.pid, ms1, Liberados(ms, h.tid));
      SoltarLibres(ConLista(k, h.pid, ms1), h, i + 1);
    }
  }

  /** Mutex j has waiters; the first one has it already and is ready, or the loop will give it to it. */
  ghost predicate Marcado(k: K, h: Hilo, i: nat, j: nat, hilos: seq<nat>) {
    && h.pid in k.procesos && j < |k.procesos[h.pid].mutex| && k.procesos[h.pid].mutex[j].hilos == hilos != []
    && (j < i ==> Ficha(k, Hilo(h.pid, hilos[0])).estado == READY)
    && (i <= j ==> Disputado(k.procesos[h.pid].mutex[j], h.tid))
  }

  lemma MarcadoSigue(k: K, h: Hilo, i: nat, j: nat, hilos: seq<nat>)
    requires SoloBloqueados(k) && Marcado(k, h, i, j, hilos) && i < |Proceso(k, h.pid).mutex|
    ensures Marcado(Soltar(k, h, i), h, i + 1, j, hilos) && SoloBloqueados(Soltar(k, h, i))
  {
    MismosHilosAlSoltar(k, h, i);
    OtroAlSoltar(k, h, i, j);
    hide SoloBloqueados, Soltar;
    if Disputado(k.procesos[h.pid].mutex[i], h.tid) {
      EntregaUno(k, h, i);
    } else {
      SoltarSolos(k, h, i);
    }
  }

  /** A contended mutex is handed to a waiter who stays in its list and is no longer blocked. */
  lemma {:induction false} SoltarDisputado(k: K, h: Hilo, i: nat, j: nat, hilos: seq<nat>)
    requires SoloBloqueados(k) && Marcado(k, h, i, j, hilos)
    ensures var k' := SoltarDesde(k, h, i);
            && h.pid in k'.procesos && j < |k'.procesos[h.pid].mutex|
            && k'.procesos[h.pid].mutex[j].hilos == hilos != [] && Ficha(k', Hilo(h.pid, hilos[0])).estado == READY
    decreases |Proceso(k, h.pid).mutex| - i
  {
    hide SoloBloqueados, SoltarDesde, Soltar;
    UnPasoSoltar(k, h, i);
    if i < |Proceso(k, h.pid).mutex| {
      hide Marcado;
      MarcadoSigue(k, h, i, j, hilos);
      SoltarDisputado(Soltar(k, h, i), h, i + 1, j, hilos);
    }
  }

  lemma OtroAlSoltar(k: K, h: Hilo, i: nat, j: nat)
    requires i < |Proceso(k, h.pid).mutex| && j < |Proceso(k, h.pid).mutex| && h.pid in k.procesos
    ensures var k' := Soltar(k, h, i);
            && h.pid in k'.procesos && (j != i ==> k'.procesos[h.pid].mutex[j] == k.procesos[h.pid].mutex[j])
            && (!Disputado(k.procesos[h.pid].mutex[i], h.tid) ==> k'.tcbs == k.tcbs)
  {
    hide Quitar;
  }

  lemma SoltarSolos(k: K, h: Hilo, i: nat)
    requires SoloBloqueados(k) && i < |Proceso(k, h.pid).mutex|
    ensures SoloBloqueados(Soltar(k, h, i))
  {
    if Disputado(Proceso(k, h.pid).mutex[i], h.tid) {
      EntregaUno(k, h, i);
    }
  }

  // ---- thread_exit keeps the invariant ----

  ghost predicate InvSinDuenios(k: K) {
    Tabla(k) && Lugares(k) && Cola(k) && Protocolo(k) && Bloqueados(k)
  }

  /** Every owner is alive, or is the thread that is dying. */
  ghost predicate DueniosSalvo(k: K, h: Hilo) {
    forall p, i :: p in k.procesos && 0 <= i < |k.procesos[p].mutex| ==>
      DuenioVivo(k, p, k.procesos[p].mutex[i]) || (p == h.pid && k.procesos[p].mutex[i].owner == h.tid)
  }

  lemma MuertoConserva(k: K, h: Hilo)
    requires Inv(k) && k.exec == Some(h) && h.tid != 0
    ensures var k1 := Muerto(k, h);
            InvSinDuenios(k1) && DueniosSalvo(k1, h) && !Vivo(k1, h)
  {
    EnEjecucion(k, h);
    MuertoTabla(k, h);
    MuertoLugares(k, h);
    MuertoProtocolo(k, h);
    hide Tabla, Lugares, Protocolo, Bloqueados, Duenios, SinDup;
    assert Listos(Muerto(k, h)) == Listos(k);
  }

  lemma MuertoTabla(k: K, h: Hilo)
    requires Tabla(k) && Activo(k, h) && h.tid != 0
    ensures Tabla(Muerto(k, h)) && !Vivo(Muerto(k, h), h)
    ensures forall x :: Vivo(Muerto(k, h), x) <==> Vivo(k, x) && x != h
  {
    hide Creciente;
    var k' := Muerto(k, h);
    assert PcbBien(k, h.pid);
    QuitarDe(k.procesos[h.pid].threads, h.tid);
    hide SinDup, Quitar;
    forall q | q in k'.procesos
      ensures PcbBien(k', q)
    {
      assert PcbBien(k, q);
    }
    forall q | q in k'.colaNew
      ensures EsNuevo(k', q)
    {
      assert EsNuevo(k, q);
    }
  }

  lemma MuertoLugares(k: K, h: Hilo)
    requires Tabla(k) && Lugares(k) && k.exec == Some(h) && h.tid != 0
    ensures Lugares(Muerto(k, h))
  {
    EnEjecucion(k, h);
    MuertoTabla(k, h);
    hide SinDup, Tabla, Vivo, Quitar;
    forall x
      ensures EnSuLugar(Muerto(k, h), x)
    {
      assert EnSuLugar(k, x);
    }
  }

  lemma MuertoProtocolo(k: K, h: Hilo)
    requires Tabla(k) && Lugares(k) && Protocolo(k) && Duenios(k) && Bloqueados(k) && k.exec == Some(h) && h.tid != 0
    ensures var k' := Muerto(k, h); Protocolo(k') && DueniosSalvo(k', h) && Bloqueados(k')
  {
    EnEjecucion(k, h);
    MuertoTabla(k, h);
    hide *;
    MuertoMutex(k, h);
    MuertoDuenios(k, h);
    MuertoBloqueados(k, h);
  }

  lemma MuertoMutex(k: K, h: Hilo)
    requires Protocolo(k) && Ficha(k, h).estado == EXEC && h.pid in k.procesos
    requires forall x :: Vivo(Muerto(k, h), x) <==> Vivo(k, x) && x != h
    ensures Protocolo(Muerto(k, h))
  {
    hide MutexBien, Vivo, Quitar;
    var k' := Muerto(k, h);
    forall p | p in k'.procesos
      ensures MutexBien(k', p)
    {
      assert MutexBien(k, p);
      MutexSinElla(k, k', p, h);
    }
  }

  lemma MuertoDuenios(k: K, h: Hilo)
    requires Duenios(k) && h.pid in k.procesos
    requires forall x :: Vivo(Muerto(k, h), x) <==> Vivo(k, x) && x != h
    ensures DueniosSalvo(Muerto(k, h), h)
  {
    hide Quitar;
    var k' := Muerto(k, h);
    forall p, i | p in k'.procesos && 0 <= i < |k'.procesos[p].mutex|
      ensures DuenioVivo(k', p, k'.procesos[p].mutex[i]) || (p == h.pid && k'.procesos[p].mutex[i].owner == h.tid)
    {
      assert DuenioVivo(k, p, k.procesos[p].mutex[i]);
      var o := k.procesos[p].mutex[i].owner;
      if o >= 0 { assert Vivo(k, Hilo(p, o)); }
    }
  }

  lemma MuertoBloqueados(k: K, h: Hilo)
    requires Bloqueados(k) && h.pid in k.procesos
    ensures Bloqueados(Muerto(k, h))
  {
    hide Quitar, EnLista;
    var k' := Muerto(k, h);
    forall x
      ensures Clasificado(k', x)
    {
      assert Clasificado(k, x);
      ListasConProceso(k, k', x);
    }
  }

  /** The lists of a process do not mention a thread that was executing. */
  lemma MutexSinElla(k: K, k': K, p: nat, h: Hilo)
    requires p in k.procesos && MutexBien(k, p) && p in k'.procesos && k'.procesos[p].mutex == k.procesos[p].mutex
    requires forall x :: Vivo(k', x) <==> Vivo(k, x) && x != h
    requires Ficha(k, h).estado == EXEC && k'.tcbs == k.tcbs && k'.pendientes == k.pendientes
    ensures MutexBien(k', p)
  {
    hide SinDup, Ajenos, Vivo;
    var ms := k.procesos[p].mutex;
    forall i | 0 <= i < |ms|
      ensures RecursoBien(k', p, ms[i])
    {
      assert RecursoBien(k, p, ms[i]);
      forall t | t in ms[i].hilos
        ensures Esperando(k', Hilo(p, t))
      {
        assert Esperando(k, Hilo(p, t));
      }
    }
  }

  /** Changing fields of a record that no place and no mutex looks at. */
  lemma FichaConserva(k: K, h: Hilo, t: Tcb)
    requires Tabla(k) && Lugares(k) && Cola(k) && h in k.tcbs && t.estado == Ficha(k, h).estado
    requires t.desde == Ficha(k, h).desde && t.prioridad == Ficha(k, h).prioridad
    ensures var k' := ConFicha(k, h, t); Tabla(k') && Lugares(k') && Cola(k')
  {
    hide SinDup, Creciente, Ordenada;
    var k' := ConFicha(k, h, t);
    assert Listos(k') == Listos(k);
    forall x
      ensures EnSuLugar(k', x)
    {
      assert EnSuLugar(k, x);
    }
    forall p | p in k'.procesos
      ensures PcbBien(k', p)
    {
      assert PcbBien(k, p);
    }
    forall p | p in k'.colaNew
      ensures EsNuevo(k', p)
    {
      assert EsNuevo(k, p);
    }
  }

  /** Waking a joiner: it leaves the blocked queue, its reason is gone, and nobody else notices. */
  lemma DespertarConserva(k: K, h: Hilo, muerto: Hilo)
    requires InvSinDuenios(k) && h in k.colaBlocked && EsperaA(k, h, muerto)
    ensures InvSinDuenios(Despertar(k, h))
  {
    hide Tabla, Cola, Protocolo, Activo, EnLista, Esperando, Desencolar, SinDup, EncolarReady;
    assert EnSuLugar(k, h);
    assert h in k.tcbs by { ActivoConocido(k, h); }
    var t := Ficha(k, h).(bloqueador := -1, motivo := NONE);
    var k1 := ConFicha(k, h, t);
    FichaConserva(k, h, t);
    assert Activo(k1, h) by { ActivoIgual(k, k1, h); }
    AReady(k1, h);
    var k' := Despertar(k, h);
    NoEspera(k, h);
    FueraDeListas(k, h);
    MueveProtocolo(k, k', h);
    assert Clasificado(k, h);
    MueveBloqueados(k, k', h);
  }

  lemma ActivoIgual(k: K, k': K, h: Hilo)
    requires Activo(k, h) && k'.procesos == k.procesos && k'.colaNew == k.colaNew
    ensures Activo(k', h)
  {
  }

  lemma {:induction false} DespertarDesdeConserva(k: K, muerto: Hilo, i: nat)
    requires InvSinDuenios(k)
    ensures InvSinDuenios(DespertarDesde(k, muerto, i))
    decreases |k.colaBlocked| - i
  {
    hide InvSinDuenios;
    if i < |k.colaBlocked| {
      var h := k.colaBlocked[i];
      if EsperaA(k, h, muerto) {
        DespertarConserva(k, h, muerto);
        DespertarDesdeConserva(Despertar(k, h), muerto, i + 1);
      } else {
        DespertarDesdeConserva(k, muerto, i + 1);
      }
    }
  }

  lemma LiberadosBien(k: K, p: nat, t: nat)
    requires p in k.procesos && MutexBien(k, p) && !DuenioDisputado(k, Hilo(p, t))
    ensures MutexBien(ConLista(k, p, Liberados(k.procesos[p].mutex, t)), p)
    ensures forall x :: EnLista(ConLista(k, p, Liberados(k.procesos[p].mutex, t)), x) == EnLista(k, x)
  {
    var ms, ns := k.procesos[p].mutex, Liberados(k.procesos[p].mutex, t);
    var k' := ConLista(k, p, ns);
    forall x
      ensures EnLista(k', x) == EnLista(k, x)
    {
      EnListaCon(k, p, ns, x);
    }
    hide SinDup, EnLista;
    forall i | 0 <= i < |ns|
      ensures RecursoBien(k', p, ns[i])
    {
      assert RecursoBien(k, p, ms[i]) && !Disputado(ms[i], t);
      forall u | u in ms[i].hilos
        ensures Esperando(k', Hilo(p, u))
      {
        assert Esperando(k, Hilo(p, u));
      }
    }
    forall a, b | 0 <= a < b < |ns|
      ensures Ajenos(ns[a], ns[b])
    {
      assert Ajenos(ms[a], ms[b]);
    }
  }

  /** Freeing the mutexes of the dead thread gives every taken mutex a live owner again. */
  lemma LiberadosConserva(k: K, h: Hilo)
    requires InvSinDuenios(k) && DueniosSalvo(k, h) && h.pid in k.procesos && h.pid !in k.colaNew
    requires !DuenioDisputado(k, h)
    ensures Inv(ConLista(k, h.pid, Liberados(k.procesos[h.pid].mutex, h.tid)))
  {
    var p, ns := h.pid, Liberados(k.procesos[h.pid].mutex, h.tid);
    var k' := ConLista(k, p, ns);
    ProtocoloDe(k, p);
    LiberadosBien(k, p, h.tid);
    hide Tabla, Lugares, Cola, Protocolo, MutexBien, EnLista;
    ListaConserva(k, p, ns);
    ProtocoloConLista(k, p, ns);
    BloqueadosConLista(k, p, ns);
    forall q, i | q in k'.procesos && 0 <= i < |k'.procesos[q].mutex|
      ensures DuenioVivo(k', q, k'.procesos[q].mutex[i])
    {
      assert DuenioVivo(k, q, k.procesos[q].mutex[i]) || (q == h.pid && k.procesos[q].mutex[i].owner == h.tid);
    }
  }

  /** Dropping the record of a thread nobody lists. */
  lemma BorrarFicha(k: K, k': K, dead: set<Hilo>)
    requires Inv(k) && k' == k.(tcbs := k.tcbs - dead) && forall x :: x in dead ==> !Vivo(k, x)
    ensures Inv(k')
  {
    assert forall x :: Vivo(k', x) == Vivo(k, x);
    assert forall x :: Vivo(k, x) ==> Ficha(k', x) == Ficha(k, x);
    BorrarTabla(k, k', dead);
    BorrarLugares(k, k', dead);
    BorrarProtocolo(k, k', dead);
  }

  lemma BorrarTabla(k: K, k': K, dead: set<Hilo>)
    requires Tabla(k) && k' == k.(tcbs := k.tcbs - dead) && forall x :: x in dead ==> !Vivo(k, x)
    ensures Tabla(k')
  {
    hide SinDup, Creciente;
    forall p | p in k'.procesos
      ensures PcbBien(k', p)
    {
      assert PcbBien(k, p);
      forall t | t in k.procesos[p].threads
        ensures Hilo(p, t) in k'.tcbs
      {
        assert Vivo(k, Hilo(p, t));
      }
    }
    forall p | p in k'.colaNew
      ensures EsNuevo(k', p)
    {
      assert EsNuevo(k, p) && Vivo(k, Hilo(p, 0));
    }
  }

  lemma BorrarLugares(k: K, k': K, dead: set<Hilo>)
    requires Lugares(k) && Cola(k) && k' == k.(tcbs := k.tcbs - dead) && forall x :: x in dead ==> !Vivo(k, x)
    ensures Lugares(k') && Cola(k')
  {
    hide SinDup, Ordenada;
    forall x
      ensures EnSuLugar(k', x)
    {
      assert EnSuLugar(k, x);
    }
    forall i | 0 <= i < |k.colaReady|
      ensures Listos(k')[i] == Listos(k)[i]
    {
      assert EnSuLugar(k, k.colaReady[i]) && k.colaReady[i] in k.colaReady;
    }
    assert Listos(k') == Listos(k);
  }

  lemma BorrarProtocolo(k: K, k': K, dead: set<Hilo>)
    requires Lugares(k) && Protocolo(k) && Duenios(k) && Bloqueados(k)
    requires k' == k.(tcbs := k.tcbs - dead) && forall x :: x in dead ==> !Vivo(k, x)
    ensures Protocolo(k') && Duenios(k') && Bloqueados(k')
  {
    hide SinDup, Ajenos;
    forall p | p in k'.procesos
      ensures MutexBien(k', p)
    {
      assert MutexBien(k, p);
      MutexSinTocar(k, k', p);
    }
    forall x
      ensures Clasificado(k', x)
    {
      assert Clasificado(k, x) && EnSuLugar(k, x);
      ListasConProceso(k, k', x);
    }
    MueveDuenios(k, k');
  }
}
