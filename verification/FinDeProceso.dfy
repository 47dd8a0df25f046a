/** What is left after a thread or a process ends, and exactly when the kernel cleans up after it.
    Sources: kernel/src/syscalls.c and kernel/src/utils.c. */
module FinDeProceso {
  import opened Listas
  import opened Opcion
  import opened Planificacion
  import opened Kernel
  import opened Invariantes
  import opened Bloqueos
  import opened Salidas

  // ---- thread_exit ----

  /** The state in which the loop over the mutexes starts for a thread that was executing. */
  lemma MuertoYDespiertos(k: K, h: Hilo)
    requires Inv(k) && k.exec == Some(h) && h.tid != 0 && !DuenioDisputado(k, h)
    ensures var k2 := DespertarDesde(Muerto(k, h), h, 0);
            && InvSinDuenios(k2) && DueniosSalvo(k2, h) && !Vivo(k2, h)
            && h.pid in k2.procesos && h.pid !in k2.colaNew && !DuenioDisputado(k2, h)
  {
    EnEjecucion(k, h);
    MuertoConserva(k, h);
    var k1 := Muerto(k, h);
    var k2 := DespertarDesde(k1, h, 0);
    DespertarDesdeConserva(k1, h, 0);
    MismaTablaAlDespertar(k1, h);
    assert !DuenioDisputado(k2, h) by { MismosDisputados(k, k2, h); }
    hide Inv, InvSinDuenios, DuenioDisputado, DespertarDesde;
  }

  lemma MismaTablaAlDespertar(k: K, h: Hilo)
    ensures DespertarDesde(k, h, 0).procesos == k.procesos && DespertarDesde(k, h, 0).colaNew == k.colaNew
  {
  }

  lemma SoltarYBorrar(k: K, h: Hilo)
    requires InvSinDuenios(k) && DueniosSalvo(k, h) && !Vivo(k, h)
    requires h.pid in k.procesos && h.pid !in k.colaNew && !DuenioDisputado(k, h)
    ensures var k3 := SoltarDesde(k, h, 0); Inv(k3.(tcbs := k3.tcbs - {h}))
  {
    hide Inv, InvSinDuenios, DuenioDisputado, DueniosSalvo, SoltarDesde, Liberados;
    SoltarLibres(k, h, 0);
    LiberadosConserva(k, h);
    var k3 := SoltarDesde(k, h, 0);
    assert !Vivo(k3, h);
    BorrarFicha(k3, k3.(tcbs := k3.tcbs - {h}), {h});
  }

  lemma ThreadExitConserva(k: K, h: Hilo)
    requires Inv(k) && k.exec == Some(h) && h.tid != 0 && !DuenioDisputado(k, h)
    ensures Inv(ThreadExit(k, h))
  {
    assert Lugares(k);
    hide *;
    ThreadExitPorPartes(k, h);
    MuertoYDespiertos(k, h);
    SoltarYBorrar(DespertarDesde(Muerto(k, h), h, 0), h);
  }

  lemma MismosDisputados(k: K, k2: K, h: Hilo)
    requires Proceso(k2, h.pid).mutex == Proceso(k, h.pid).mutex
    ensures DuenioDisputado(k2, h) == DuenioDisputado(k, h)
  {
  }

  lemma DisputadoMarca(k: K, h: Hilo) returns (j: nat, hilos: seq<nat>)
    requires Inv(k) && k.exec == Some(h) && DuenioDisputado(k, h)
    ensures var k2 := DespertarDesde(Muerto(k, h), h, 0); SoloBloqueados(k2) && Marcado(k2, h, 0, j, hilos)
  {
    EnEjecucion(k, h);
    BloqueadosSolos(k);
    var k1 := Muerto(k, h);
    assert SoloBloqueados(k1) by { MismosSolos(k, k1); }
    DespertarDesdeSolos(k1, h, 0);
    MismaTablaAlDespertar(k1, h);
    j :| 0 <= j < |Proceso(k, h.pid).mutex| && Disputado(Proceso(k, h.pid).mutex[j], h.tid);
    hilos := k.procesos[h.pid].mutex[j].hilos;
    hide Inv, SoloBloqueados, DespertarDesde, Quitar, Activo;
  }

  lemma ThreadExitRompe(k: K, h: Hilo)
    requires Inv(k) && k.exec == Some(h) && DuenioDisputado(k, h)
    ensures !Protocolo(ThreadExit(k, h))
  {
    ThreadExitPorPartes(k, h);
    hide Inv, DespertarDesde, SoltarDesde, ThreadExit, SoloBloqueados, DuenioDisputado, Muerto, Marcado, Protocolo;
    var j, hilos := DisputadoMarca(k, h);
    SoltarDisputado(DespertarDesde(Muerto(k, h), h, 0), h, 0, j, hilos);
    var k' := ThreadExit(k, h);
    assert hilos[0] in k'.procesos[h.pid].mutex[j].hilos;
    ListadoEspera(k', h.pid, j, hilos[0]);
  }

  lemma ListadoEspera(k: K, p: nat, j: nat, t: nat)
    requires p in k.procesos && j < |k.procesos[p].mutex| && t in k.procesos[p].mutex[j].hilos
    ensures Protocolo(k) ==> Esperando(k, Hilo(p, t))
  {
    if Protocolo(k) {
      assert MutexBien(k, p) && RecursoBien(k, p, k.procesos[p].mutex[j]);
    }
  }

  /** thread_exit keeps the invariant of the kernel exactly when the thread owns no mutex that others
      are waiting for. */
  lemma ThreadExitConservaSiYSoloSi(k: K, h: Hilo)
    requires Inv(k) && k.exec == Some(h) && h.tid != 0
    ensures Inv(ThreadExit(k, h)) <==> !DuenioDisputado(k, h)
    ensures DuenioDisputado(k, h) ==> !Protocolo(ThreadExit(k, h))
  {
    if DuenioDisputado(k, h) {
      ThreadExitRompe(k, h);
    } else {
      ThreadExitConserva(k, h);
    }
  }

  // ---- process_exit: the queues ----

  function SinPid(s: seq<Hilo>, pid: nat): (r: seq<Hilo>)
    ensures forall x :: x in r <==> x in s && x.pid != pid
  {
    if s == [] then [] else (if s[0].pid == pid then [] else [s[0]]) + SinPid(s[1..], pid)
  }

  lemma {:induction false} SinPidNada(s: seq<Hilo>, pid: nat)
    requires forall x :: x in s ==> x.pid != pid
    ensures SinPid(s, pid) == s
  {
    if s == [] {
    } else {
      assert s[0] in s;
      SinPidNada(s[1..], pid);
    }
  }

  lemma {:induction false} SinPidQuitar(s: seq<Hilo>, x: Hilo)
    ensures SinPid(Quitar(s, x), x.pid) == SinPid(s, x.pid)
  {
    if s != [] && s[0] != x {
      SinPidQuitar(s[1..], x);
      var r := Quitar(s[1..], x);
      assert ([s[0]] + r)[1..] == r;
    }
  }

  /** The threads of process p are where their records say; nothing is asked of the others. */
  ghost predicate Localizados(k: K, p: nat) {
    && SinDup(k.colaReady) && SinDup(k.colaBlocked)
    && (forall x :: x in k.colaReady && x.pid == p ==> x.tid in Proceso(k, p).threads && Ficha(k, x).estado == READY)
    && (forall x :: x in k.colaBlocked && x.pid == p ==>
          x.tid in Proceso(k, p).threads && Ficha(k, x).estado == BLOCKED)
    && (k.exec.Some? && k.exec.value.pid == p ==>
          k.exec.value.tid in Proceso(k, p).threads && Ficha(k, k.exec.value).estado == EXEC)
    && (forall t :: t in Proceso(k, p).threads && Ficha(k, Hilo(p, t)).estado == EXEC ==>
          k.exec == None || k.exec == Some(Hilo(p, t)))
  }

  ghost predicate EnCola(k: K, x: Hilo) {
    x in k.colaReady || x in k.colaBlocked || k.exec == Some(x)
  }

  lemma DesencolarUno(k: K, p: nat, x: Hilo)
    requires Localizados(k, p) && x.pid == p && x.tid in Proceso(k, p).threads
    ensures var d := Desencolar(k, x);
            && Localizados(d, p) && !EnCola(d, x) && (forall y :: EnCola(d, y) ==> EnCola(k, y))
            && SinPid(d.colaReady, p) == SinPid(k.colaReady, p) && SinPid(d.colaBlocked, p) == SinPid(k.colaBlocked, p)
            && d == k.(colaReady := d.colaReady, colaBlocked := d.colaBlocked, exec := d.exec)
            && (d.exec == k.exec || (d.exec == None && k.exec == Some(x)))
  {
    hide SinDup, Quitar, SinPid;
    QuitarDe(k.colaReady, x);
    QuitarDe(k.colaBlocked, x);
    SinPidQuitar(k.colaReady, x);
    SinPidQuitar(k.colaBlocked, x);
  }

  lemma EnColaConocido(k: K, p: nat, x: Hilo)
    requires Localizados(k, p) && x.pid == p
    ensures EnCola(k, x) ==> exists j :: 0 <= j < |Proceso(k, p).threads| && x == Hilo(p, Proceso(k, p).threads[j])
  {
  }

  /** The first loop takes every thread of the process out, and nobody else. */
  lemma {:induction false} DesencolarTodos(k: K, p: nat, i: nat)
    requires Localizados(k, p) && i <= |Proceso(k, p).threads|
    requires forall j :: 0 <= j < i ==> !EnCola(k, Hilo(p, Proceso(k, p).threads[j]))
    ensures var d := DesencolarDesde(k, p, i);
            && (forall x :: EnCola(d, x) ==> EnCola(k, x)) && (forall x: Hilo :: x.pid == p ==> !EnCola(d, x))
            && SinPid(d.colaReady, p) == SinPid(k.colaReady, p) && SinPid(d.colaBlocked, p) == SinPid(k.colaBlocked, p)
            && d == k.(colaReady := d.colaReady, colaBlocked := d.colaBlocked, exec := d.exec)
            && (d.exec == k.exec || (d.exec == None && k.exec.Some? && k.exec.value.pid == p))
    decreases |Proceso(k, p).threads| - i
  {
    hide Localizados, SinPid, Desencolar, EnCola;
    var ts := Proceso(k, p).threads;
    if i < |ts| {
      DesencolarUno(k, p, Hilo(p, ts[i]));
      var d := Desencolar(k, Hilo(p, ts[i]));
      assert Proceso(d, p).threads == ts;
      DesencolarTodos(d, p, i + 1);
    } else {
      forall x: Hilo | x.pid == p
        ensures !EnCola(k, x)
      {
        EnColaConocido(k, p, x);
      }
    }
  }

  // ---- process_exit: freeing the threads ----

  ghost predicate NadieBloqueado(k: K, p: nat) {
    forall x :: x in k.colaBlocked ==> x.pid != p
  }

  /** The thread at place j of the list of its process owns a mutex somebody waits for. */
  ghost predicate Libra(k: K, p: nat, j: nat) {
    j < |Proceso(k, p).threads| && DuenioDisputado(k, Hilo(p, Proceso(k, p).threads[j]))
  }

  /** The second loop, from index i, frees such a thread. From 0, those are the even places. */
  ghost predicate PurgaDisputada(k: K, p: nat, i: nat) {
    exists j: nat :: i <= j && (j - i) % 2 == 0 && Libra(k, p, j)
  }

  lemma {:induction false} DespertarNadie(k: K, h: Hilo, i: nat)
    requires NadieBloqueado(k, h.pid)
    ensures DespertarDesde(k, h, i) == k
    decreases |k.colaBlocked| - i
  {
    if i < |k.colaBlocked| {
      assert k.colaBlocked[i] in k.colaBlocked;
      DespertarNadie(k, h, i + 1);
    }
  }

  ghost function SinHilo(k: K, h: Hilo): K {
    ConProceso(k, h.pid, Proceso(k, h.pid).(threads := Quitar(Proceso(k, h.pid).threads, h.tid)))
  }

  /** Freeing an uncontended thread of a process with nobody blocked: its record and its mutexes go. */
  lemma LiberarHiloLimpio(k: K, h: Hilo)
    requires h.pid in k.procesos && NadieBloqueado(k, h.pid) && !DuenioDisputado(k, h)
    ensures var k1 := ConLista(SinHilo(k, h), h.pid, Liberados(k.procesos[h.pid].mutex, h.tid));
            LiberarHilo(k, h) == k1.(tcbs := k1.tcbs - {h})
  {
    var k1 := SinHilo(k, h);
    DespertarNadie(k1, h, 0);
    assert !DuenioDisputado(k1, h) by { MismosDisputados(k, k1, h); }
    hide DuenioDisputado, DespertarDesde, SoltarDesde, NadieBloqueado, Quitar;
    SoltarLibres(k1, h, 0);
  }

  /** Everything but the records and the entry of process p is the same. */
  ghost predicate SoloProceso(k: K, k': K, p: nat) {
    && k' == k.(procesos := k'.procesos, tcbs := k'.tcbs)
    && (forall q :: q != p ==> (q in k'.procesos <==> q in k.procesos))
    && (forall q :: q != p && q in k.procesos ==> k'.procesos[q] == k.procesos[q])
    && (forall x: Hilo :: x.pid != p ==> (x in k'.tcbs <==> x in k.tcbs))
    && (forall x: Hilo :: x.pid != p ==> Ficha(k', x) == Ficha(k, x))
  }

  /** Freeing one mutex owner leaves the contention of the others as it was. */
  lemma OtrosDisputados(k: K, h: Hilo, x: Hilo)
    requires h.pid in k.procesos && x.pid == h.pid && !DuenioDisputado(k, h) && NadieBloqueado(k, h.pid)
    ensures DuenioDisputado(LiberarHilo(k, h), x) == (DuenioDisputado(k, x) && x != h)
  {
    LiberarHiloLimpio(k, h);
    hide LiberarHilo;
    var ms, k' := k.procesos[h.pid].mutex, LiberarHilo(k, h);
    var ns := Liberados(ms, h.tid);
    assert Proceso(k', h.pid).mutex == ns && Proceso(k, h.pid).mutex == ms;
    if i :| 0 <= i < |ms| && Disputado(Proceso(k, h.pid).mutex[i], x.tid) {
      assert !Disputado(Proceso(k, h.pid).mutex[i], h.tid);
      assert Disputado(Proceso(k', h.pid).mutex[i], x.tid);
    }
  }

  /** Freeing index i and going on at i + 1 skips one: the rest of the walk is two places further in
      the old list. */
  lemma PurgaCorrida(k: K, k': K, p: nat, i: nat)
    requires SinDup(Proceso(k, p).threads) && i < |Proceso(k, p).threads|
    requires Proceso(k', p).threads == Sin(Proceso(k, p).threads, i)
    requires var h := Hilo(p, Proceso(k, p).threads[i]);
             && !DuenioDisputado(k, h)
             && forall x: Hilo :: x.pid == p ==> DuenioDisputado(k', x) == (DuenioDisputado(k, x) && x != h)
    ensures PurgaDisputada(k', p, i + 1) <==> PurgaDisputada(k, p, i)
  {
    hide DuenioDisputado, Proceso;
    forall j: nat | j > i
      ensures Libra(k', p, j - 1) == Libra(k, p, j)
    {
    }
    assert !Libra(k, p, i);
    hide Libra, SinDup;
    if PurgaDisputada(k, p, i) {
      var j: nat :| i <= j && (j - i) % 2 == 0 && Libra(k, p, j);
      assert (j - 1 - (i + 1)) % 2 == 0 && Libra(k', p, j - 1);
    }
    if PurgaDisputada(k', p, i + 1) {
      var j: nat :| i + 1 <= j && (j - (i + 1)) % 2 == 0 && Libra(k', p, j);
      assert (j + 1 - i) % 2 == 0 && Libra(k, p, j + 1) == Libra(k', p, j + 1 - 1);
    }
  }

  lemma SiguienteHilo(k: K, p: nat, i: nat)
    requires p in k.procesos && SinDup(k.procesos[p].threads) && i < |k.procesos[p].threads|
    requires var h := Hilo(p, k.procesos[p].threads[i]); !DuenioDisputado(k, h) && NadieBloqueado(k, p)
    ensures var k' := LiberarHilo(k, Hilo(p, k.procesos[p].threads[i]));
            && p in k'.procesos && k'.procesos[p].threads == Sin(k.procesos[p].threads, i)
            && SinDup(k'.procesos[p].threads)
            && SoloProceso(k, k', p) && NadieBloqueado(k', p)
            && (PurgaDisputada(k', p, i + 1) <==> PurgaDisputada(k, p, i))
  {
    hide DuenioDisputado, Liberados, Quitar, SinDup, Sin;
    var ts := k.procesos[p].threads;
    var h := Hilo(p, ts[i]);
    var k' := LiberarHilo(k, h);
    QuitarIndice(ts, i);
    SinDe(ts, i);
    forall x: Hilo | x.pid == p
      ensures DuenioDisputado(k', x) == (DuenioDisputado(k, x) && x != h)
    {
      OtrosDisputados(k, h, x);
    }
    LiberarHiloLimpio(k, h);
    hide LiberarHilo, PurgaDisputada;
    PurgaCorrida(k, k', p, i);
  }

  lemma PurgaAqui(k: K, p: nat, i: nat)
    requires i < |Proceso(k, p).threads| && DuenioDisputado(k, Hilo(p, Proceso(k, p).threads[i]))
    ensures PurgaDisputada(k, p, i)
  {
    assert Libra(k, p, i);
  }

  lemma SoloProcesoSeguido(a: K, b: K, c: K, p: nat)
    requires SoloProceso(a, b, p) && SoloProceso(b, c, p)
    ensures SoloProceso(a, c, p)
  {
  }

  /** Without contention the second loop only drops records and entries of the process. */
  lemma {:induction false} LiberarDesdeLimpio(k: K, p: nat, i: nat)
    requires p in k.procesos && SinDup(k.procesos[p].threads) && NadieBloqueado(k, p) && !PurgaDisputada(k, p, i)
    ensures SoloProceso(k, LiberarDesde(k, p, i), p)
    decreases |Proceso(k, p).threads| - i
  {
    hide SinDup, NadieBloqueado, PurgaDisputada, LiberarHilo, DuenioDisputado, SoloProceso;
    if i < |Proceso(k, p).threads| {
      var h := Hilo(p, Proceso(k, p).threads[i]);
      if DuenioDisputado(k, h) {
        PurgaAqui(k, p, i);
      }
      SiguienteHilo(k, p, i);
      var k' := LiberarHilo(k, h);
      LiberarDesdeLimpio(k', p, i + 1);
      SoloProcesoSeguido(k, k', LiberarDesde(k', p, i + 1), p);
    } else {
      MismoProceso(k, p);
    }
  }

  lemma MismoProceso(k: K, p: nat)
    ensures SoloProceso(k, k, p)
  {
  }

  ghost predicate HayDe(k: K, p: nat) {
    exists x :: x in k.colaReady && x.pid == p
  }

  /** Once a thread of the process is in the ready queue, handing mutexes over keeps one there. */
  lemma {:induction false} SoltarHay(k: K, h: Hilo, i: nat)
    requires SoloBloqueados(k) && NadieBloqueado(k, h.pid)
    requires HayDe(k, h.pid) || exists j ::
               i <= j < |Proceso(k, h.pid).mutex| && Disputado(Proceso(k, h.pid).mutex[j], h.tid)
    ensures var k' := SoltarDesde(k, h, i); HayDe(k', h.pid) && NadieBloqueado(k', h.pid) && SoloBloqueados(k')
    decreases |Proceso(k, h.pid).mutex| - i
  {
    if i < |Proceso(k, h.pid).mutex| {
      var ms := Proceso(k, h.pid).mutex;
      var k1 := Soltar(k, h, i);
      SoltarSolos(k, h, i);
      if Disputado(ms[i], h.tid) {
        EntregaUno(k, h, i);
        assert Hilo(h.pid, ms[i].hilos[0]) in k1.colaReady;
      } else {
        assert k1.colaReady == k.colaReady && k1.colaBlocked == k.colaBlocked;
        if !HayDe(k, h.pid) {
          var j :| i <= j < |ms| && Disputado(ms[j], h.tid);
          OtroAlSoltarTotal(k, h, i, j);
          assert Disputado(Proceso(k1, h.pid).mutex[j], h.tid);
        }
      }
      hide SoloBloqueados, Soltar, HayDe;
      SoltarHay(k1, h, i + 1);
    }
  }

  lemma OtroAlSoltarTotal(k: K, h: Hilo, i: nat, j: nat)
    requires i < |Proceso(k, h.pid).mutex| && j < |Proceso(k, h.pid).mutex| && j != i
    ensures Proceso(Soltar(k, h, i), h.pid).mutex[j] == Proceso(k, h.pid).mutex[j]
  {
    hide Quitar;
  }

  lemma LiberarHiloHay(k: K, h: Hilo)
    requires h.pid in k.procesos && SoloBloqueados(k) && NadieBloqueado(k, h.pid)
    requires (HayDe(k, h.pid) || DuenioDisputado(k, h))
    ensures var k' := LiberarHilo(k, h); HayDe(k', h.pid) && NadieBloqueado(k', h.pid)
  {
    var k1 := SinHilo(k, h);
    DespertarNadie(k1, h, 0);
    assert SoloBloqueados(k1);
    if DuenioDisputado(k, h) {
      var j :| 0 <= j < |Proceso(k, h.pid).mutex| && Disputado(Proceso(k, h.pid).mutex[j], h.tid);
      assert Disputado(Proceso(k1, h.pid).mutex[j], h.tid);
    }
    hide SoloBloqueados, DespertarDesde, SoltarDesde, Quitar;
    SoltarHay(k1, h, 0);
  }

  /** With contention somebody of the process ends up in the ready queue. */
  lemma {:induction false} LiberarDesdeHay(k: K, p: nat, i: nat)
    requires p in k.procesos && SinDup(k.procesos[p].threads) && SoloBloqueados(k) && NadieBloqueado(k, p)
    requires HayDe(k, p) || PurgaDisputada(k, p, i)
    ensures HayDe(LiberarDesde(k, p, i), p)
    decreases |Proceso(k, p).threads| - i
  {
    hide Quitar, DuenioDisputado;
    var ts := Proceso(k, p).threads;
    if i < |ts| {
      var h := Hilo(p, ts[i]);
      var k' := LiberarHilo(k, h);
      QuitarDe(ts, h.tid);
      if HayDe(k, p) || DuenioDisputado(k, h) {
        LiberarHiloHay(k, h);
      } else {
        SiguienteHilo(k, p, i);
      }
      LiberarHiloSolos(k, h);
      hide SinDup, SoloBloqueados, NadieBloqueado, PurgaDisputada, LiberarHilo, HayDe;
      assert p in k'.procesos && k'.procesos[p].threads == Quitar(ts, h.tid) by { LiberarHiloProceso(k, h); }
      LiberarDesdeHay(k', p, i + 1);
    }
  }

  lemma {:induction false} SoltarDesdeProceso(k: K, h: Hilo, i: nat)
    requires h.pid in k.procesos
    ensures h.pid in SoltarDesde(k, h, i).procesos
    decreases |Proceso(k, h.pid).mutex| - i
  {
    if i < |Proceso(k, h.pid).mutex| {
      OtroAlSoltar(k, h, i, i);
      SoltarDesdeProceso(Soltar(k, h, i), h, i + 1);
    }
  }

  lemma LiberarHiloProceso(k: K, h: Hilo)
    requires h.pid in k.procesos
    ensures h.pid in LiberarHilo(k, h).procesos
    ensures LiberarHilo(k, h).procesos[h.pid].threads == Quitar(k.procesos[h.pid].threads, h.tid)
  {
    SoltarDesdeProceso(DespertarDesde(SinHilo(k, h), h, 0), h, 0);
  }

  lemma {:induction false} SoltarDesdeSolos(k: K, h: Hilo, i: nat)
    requires SoloBloqueados(k) && NadieBloqueado(k, h.pid)
    ensures SoloBloqueados(SoltarDesde(k, h, i)) && NadieBloqueado(SoltarDesde(k, h, i), h.pid)
    decreases |Proceso(k, h.pid).mutex| - i
  {
    if i < |Proceso(k, h.pid).mutex| {
      SoltarSolos(k, h, i);
      if Disputado(Proceso(k, h.pid).mutex[i], h.tid) {
        EntregaUno(k, h, i);
      }
      SoltarDesdeSolos(Soltar(k, h, i), h, i + 1);
    }
  }

  lemma LiberarHiloSolos(k: K, h: Hilo)
    requires h.pid in k.procesos && SoloBloqueados(k) && NadieBloqueado(k, h.pid)
    ensures SoloBloqueados(LiberarHilo(k, h)) && NadieBloqueado(LiberarHilo(k, h), h.pid)
  {
    var k1 := SinHilo(k, h);
    DespertarNadie(k1, h, 0);
    assert SoloBloqueados(k1);
    SoltarDesdeSolos(k1, h, 0);
    hide SinDup;
    var k3 := SoltarDesde(k1, h, 0);
    assert LiberarHilo(k, h) == k3.(tcbs := k3.tcbs - {h});
    assert h !in k3.colaBlocked;
  }

  // ---- process_exit ----

  lemma InvLocaliza(k: K, p: nat)
    requires Tabla(k) && Lugares(k)
    ensures Localizados(k, p)
  {
    hide SinDup;
    forall x: Hilo | x.pid == p
      ensures x in k.colaReady ==> x.tid in Proceso(k, p).threads && Ficha(k, x).estado == READY
      ensures x in k.colaBlocked ==> x.tid in Proceso(k, p).threads && Ficha(k, x).estado == BLOCKED
      ensures k.exec == Some(x) ==> x.tid in Proceso(k, p).threads && Ficha(k, x).estado == EXEC
    {
      assert EnSuLugar(k, x);
    }
    forall t | t in Proceso(k, p).threads && Ficha(k, Hilo(p, t)).estado == EXEC
      ensures k.exec == Some(Hilo(p, t))
    {
      assert EnSuLugar(k, Hilo(p, t));
      assert p in k.colaNew ==> EsNuevo(k, p);
    }
  }

  /** What process_exit and the failed admissions leave: the threads of the process out of every queue,
      the rest of each queue in the same order, and nothing else touched. */
  ghost predicate Purgado(k: K, k': K, p: nat) {
    && k'.colaReady == SinPid(k.colaReady, p) && k'.colaBlocked == SinPid(k.colaBlocked, p)
    && k'.exec == (if k.exec.Some? && k.exec.value.pid == p then None else k.exec)
    && k'.procesos == k.procesos - {p} && k'.sistema == Quitar(k.sistema, p)
    && k' == k.(colaReady := k'.colaReady, colaBlocked := k'.colaBlocked, exec := k'.exec, procesos := k'.procesos,
                sistema := k'.sistema, tcbs := k'.tcbs)
    && (forall x: Hilo :: x.pid != p ==> (x in k'.tcbs <==> x in k.tcbs))
    && (forall x: Hilo :: x.pid != p ==> Ficha(k', x) == Ficha(k, x))
  }

  lemma LiberarPcbEs(k: K, p: nat)
    ensures var k1 := LiberarDesde(DesencolarDesde(k, p, 0), p, 0);
            LiberarPcb(k, p) == k1.(procesos := k1.procesos - {p}, sistema := Quitar(k1.sistema, p))
  {
    hide LiberarDesde, DesencolarDesde, Quitar;
  }

  /** The queues as the first loop leaves them, and only process p touched by the second. */
  lemma PurgaArmada(k: K, d: K, k1: K, p: nat)
    requires d == k.(colaReady := d.colaReady, colaBlocked := d.colaBlocked, exec := d.exec) && SoloProceso(d, k1, p)
    requires d.colaReady == SinPid(k.colaReady, p) && d.colaBlocked == SinPid(k.colaBlocked, p)
    requires d.exec == (if k.exec.Some? && k.exec.value.pid == p then None else k.exec)
    ensures Purgado(k, k1.(procesos := k1.procesos - {p}, sistema := Quitar(k1.sistema, p)), p)
  {
    hide SinPid, Quitar;
    assert k1.procesos - {p} == k.procesos - {p};
  }

  lemma LiberarPcbPurga(k: K, p: nat)
    requires Localizados(k, p) && p in k.procesos && SinDup(k.procesos[p].threads) && !PurgaDisputada(k, p, 0)
    ensures Purgado(k, LiberarPcb(k, p), p)
  {
    hide *;
    var d := DesencolarDesde(k, p, 0);
    DesencolarTodos(k, p, 0);
    MismaPurga(k, d, p);
    ColasDeOtros(k, d, p);
    LiberarDesdeLimpio(d, p, 0);
    LiberarPcbEs(k, p);
    PurgaArmada(k, d, LiberarDesde(d, p, 0), p);
  }

  lemma MismaPurga(k: K, d: K, p: nat)
    requires d.procesos == k.procesos
    ensures PurgaDisputada(d, p, 0) == PurgaDisputada(k, p, 0)
  {
    forall j: nat
      ensures Libra(d, p, j) == Libra(k, p, j)
    {
      if j < |Proceso(k, p).threads| {
        MismosDisputados(k, d, Hilo(p, Proceso(k, p).threads[j]));
      }
    }
    hide Libra;
  }

  lemma ColasDeOtros(k: K, d: K, p: nat)
    requires forall x: Hilo :: x.pid == p ==> !EnCola(d, x)
    requires SinPid(d.colaReady, p) == SinPid(k.colaReady, p) && SinPid(d.colaBlocked, p) == SinPid(k.colaBlocked, p)
    requires d.exec == k.exec || (d.exec == None && k.exec.Some? && k.exec.value.pid == p)
    ensures d.colaReady == SinPid(k.colaReady, p) && d.colaBlocked == SinPid(k.colaBlocked, p) && NadieBloqueado(d, p)
    ensures d.exec == (if k.exec.Some? && k.exec.value.pid == p then None else k.exec)
  {
    assert forall x: Hilo :: x in d.colaReady || x in d.colaBlocked ==> EnCola(d, x);
    SinPidNada(d.colaReady, p);
    SinPidNada(d.colaBlocked, p);
    if d.exec.Some? {
      assert EnCola(d, d.exec.value);
    }
  }

  lemma DespuesDeDesencolar(k: K, h: Hilo)
    requires Tabla(k) && Lugares(k) && Activo(k, h)
    ensures var d := Desencolar(k, h);
            && Localizados(d, h.pid) && (forall y :: EnCola(d, y) ==> EnCola(k, y))
            && SinPid(d.colaReady, h.pid) == SinPid(k.colaReady, h.pid)
            && SinPid(d.colaBlocked, h.pid) == SinPid(k.colaBlocked, h.pid)
            && d == k.(colaReady := d.colaReady, colaBlocked := d.colaBlocked, exec := d.exec)
            && (d.exec == k.exec || (d.exec == None && k.exec == Some(h)))
    ensures h.pid in k.procesos && SinDup(k.procesos[h.pid].threads) && h.pid !in k.colaNew
  {
    assert PcbBien(k, h.pid);
    InvLocaliza(k, h.pid);
    DesencolarUno(k, h.pid, h);
    hide SinDup, Localizados, EnCola, SinPid, Quitar;
  }

  /** The purge is the same seen from before its first thread was taken out. */
  lemma PurgadoDesdeAntes(k: K, d: K, k': K, p: nat)
    requires Purgado(d, k', p) && SinPid(d.colaReady, p) == SinPid(k.colaReady, p)
    requires SinPid(d.colaBlocked, p) == SinPid(k.colaBlocked, p)
    requires d == k.(colaReady := d.colaReady, colaBlocked := d.colaBlocked, exec := d.exec)
    requires d.exec == k.exec || (d.exec == None && k.exec.Some? && k.exec.value.pid == p)
    ensures Purgado(k, k', p) && forall x: Hilo :: x.pid == p ==> !EnCola(k', x)
  {
    PurgadoNoDeja(d, k', p);
    hide Quitar, SinPid, EnCola, Ficha;
  }

  lemma PurgadoNoDeja(k: K, k': K, p: nat)
    requires Purgado(k, k', p)
    ensures forall x: Hilo :: x.pid == p ==> !EnCola(k', x)
  {
    hide Quitar, Ficha;
  }

  /** Without contention, ending a process from any of its threads empties the queues of all of them, opens
      the admission gate and leaves every other process as it was. */
  lemma FinPurga(k: K, h: Hilo)
    requires Tabla(k) && Lugares(k) && Activo(k, h) && !PurgaDisputada(k, h.pid, 0)
    ensures var k' := ProcessExit(k, h);
            k'.largoPlazo && Purgado(k, k'.(largoPlazo := k.largoPlazo), h.pid) && forall x: Hilo :: x.pid == h.pid ==>
              !EnCola(k', x)
  {
    DespuesDeDesencolar(k, h);
    var d := Desencolar(k, h);
    MismaPurga(k, d, h.pid);
    hide Tabla, Lugares, Localizados, SinDup, PurgaDisputada, Desencolar, LiberarPcb, SinPid, Purgado, EnCola;
    LiberarPcbPurga(d, h.pid);
    PurgadoDesdeAntes(k, d, LiberarPcb(d, h.pid), h.pid);
    ConLaPuerta(k, LiberarPcb(d, h.pid), h.pid);
  }

  lemma ConLaPuerta(k: K, k': K, p: nat)
    requires Purgado(k, k', p)
    ensures Purgado(k, k'.(largoPlazo := true).(largoPlazo := k.largoPlazo), p)
    ensures forall x :: EnCola(k'.(largoPlazo := true), x) == EnCola(k', x)
  {
    hide SinPid, Quitar;
  }

  lemma ProcessExitPurga(k: K, h: Hilo)
    requires Tabla(k) && Lugares(k) && k.exec == Some(h) && !PurgaDisputada(k, h.pid, 0)
    ensures var k' := ProcessExit(k, h);
            k'.largoPlazo && Purgado(k, k'.(largoPlazo := k.largoPlazo), h.pid) && forall x: Hilo :: x.pid == h.pid ==>
              !EnCola(k', x)
  {
    EnEjecucion(k, h);
    FinPurga(k, h);
  }

  lemma FinDeja(k: K, h: Hilo)
    requires Tabla(k) && Lugares(k) && Activo(k, h) && PurgaDisputada(k, h.pid, 0)
    ensures HayDe(ProcessExit(k, h), h.pid)
  {
    hide Tabla, Lugares, Localizados, SinDup, PurgaDisputada, SoloBloqueados, NadieBloqueado, DesencolarDesde,
      LiberarDesde, Desencolar, SinPid, EnCola, Activo;
    DespuesDeDesencolar(k, h);
    var d0 := Desencolar(k, h);
    SolosTrasUno(k, h);
    SolosTrasTodos(d0, h.pid);
    MismaPurga(k, DesencolarDesde(d0, h.pid, 0), h.pid);
    LiberarDesdeHay(DesencolarDesde(d0, h.pid, 0), h.pid, 0);
  }

  lemma SolosTrasUno(k: K, h: Hilo)
    requires Tabla(k) && Lugares(k) && Activo(k, h)
    ensures SoloBloqueados(Desencolar(k, h))
  {
    BloqueadosSolos(k);
    QuitarDe(k.colaBlocked, h);
    hide Tabla, Lugares;
  }

  lemma SolosTrasTodos(k: K, p: nat)
    requires Localizados(k, p) && SoloBloqueados(k)
    ensures var d := DesencolarDesde(k, p, 0);
            d.procesos == k.procesos && SoloBloqueados(d) && NadieBloqueado(d, p)
  {
    hide SoloBloqueados, NadieBloqueado, DesencolarDesde, SinPid;
    DesencolarTodos(k, p, 0);
    SolosTrasDesencolar(k, DesencolarDesde(k, p, 0), p);
  }

  lemma SolosTrasDesencolar(k: K, d: K, p: nat)
    requires SoloBloqueados(k) && d == k.(colaReady := d.colaReady, colaBlocked := d.colaBlocked, exec := d.exec)
    requires (forall x :: EnCola(d, x) ==> EnCola(k, x)) && (forall x: Hilo :: x.pid == p ==> !EnCola(d, x))
    requires SinPid(d.colaBlocked, p) == SinPid(k.colaBlocked, p)
    ensures SoloBloqueados(d) && NadieBloqueado(d, p)
  {
    assert forall x :: x in d.colaBlocked ==> EnCola(d, x);
    SinPidNada(d.colaBlocked, p);
    SinPidSinDup(k.colaBlocked, p);
    hide SinDup;
  }

  lemma {:induction false} SinPidSinDup(s: seq<Hilo>, p: nat)
    requires SinDup(s)
    ensures SinDup(SinPid(s, p))
  {
    if s == [] {
    } else {
      SinPidSinDup(s[1..], p);
      var r := SinPid(s[1..], p);
      assert s[0] !in s[1..];
      assert s[0] !in r;
    }
  }

  /** The purge of a process is complete exactly when no thread at an even place of its list owns a
      mutex that others wait for: those are the threads the second loop of liberar_pcb frees, and
      freeing them hands their mutexes to threads of the process being destroyed. There the C code goes
      on through records it has freed; here the blank record of such a thread ends up in a queue. */
  lemma PurgaSiYSoloSi(k: K, h: Hilo)
    requires Tabla(k) && Lugares(k) && Activo(k, h)
    ensures (forall x: Hilo :: x.pid == h.pid ==> !EnCola(ProcessExit(k, h), x)) <==> !PurgaDisputada(k, h.pid, 0)
  {
    if PurgaDisputada(k, h.pid, 0) {
      FinDeja(k, h);
      var x :| x in ProcessExit(k, h).colaReady && x.pid == h.pid;
      assert EnCola(ProcessExit(k, h), x);
    } else {
      FinPurga(k, h);
    }
  }

  // ---- The invariant after a purge ----

  lemma {:induction false} SinPidOrdenada(k: K, k': K, s: seq<Hilo>, p: nat)
    requires (forall x: Hilo :: x.pid != p ==> Ficha(k', x) == Ficha(k, x)) && k'.reloj == k.reloj
    requires EnOrdenDeLlegada(k, s)
    ensures EnOrdenDeLlegada(k', SinPid(s, p)) && |SinPid(s, p)| <= |s|
  {
    hide Ficha;
    if s == [] {
    } else {
      SinPidOrdenada(k, k', s[1..], p);
      SinPidPrimero(k, k', s, p);
    }
  }

  lemma PrimeroAntes(k: K, s: seq<Hilo>, y: Hilo)
    requires s != [] && EnOrdenDeLlegada(k, s) && y in s[1..]
    ensures Ficha(k, s[0]).desde <= Ficha(k, y).desde
  {
    hide Ficha;
    var i :| 0 <= i < |s[1..]| && s[1..][i] == y;
    assert s[i + 1] == y;
  }

  lemma OrdenConPrimero(k: K, x: Hilo, r: seq<Hilo>)
    requires EnOrdenDeLlegada(k, r) && Ficha(k, x).desde <= k.reloj && forall y :: y in r ==>
               Ficha(k, x).desde <= Ficha(k, y).desde
    ensures EnOrdenDeLlegada(k, [x] + r)
  {
    hide Ficha;
    assert forall j :: 0 <= j < |r| ==> r[j] in r;
  }

  lemma SinPidPrimero(k: K, k': K, s: seq<Hilo>, p: nat)
    requires (forall x: Hilo :: x.pid != p ==> Ficha(k', x) == Ficha(k, x)) && k'.reloj == k.reloj
    requires s != [] && EnOrdenDeLlegada(k, s) && EnOrdenDeLlegada(k', SinPid(s[1..], p))
    ensures EnOrdenDeLlegada(k', SinPid(s, p))
  {
    var r := SinPid(s[1..], p);
    SinPidCons(s, p);
    assert Ficha(k, s[0]).desde <= k.reloj;
    SinPidDentro(s[1..], p);
    hide Ficha, SinPid, EnOrdenDeLlegada;
    if s[0].pid != p {
      forall y | y in r
        ensures Ficha(k', s[0]).desde <= Ficha(k', y).desde
      {
        PrimeroAntes(k, s, y);
      }
      OrdenConPrimero(k', s[0], r);
    }
  }

  lemma SinPidDentro(s: seq<Hilo>, p: nat)
    ensures forall y :: y in SinPid(s, p) ==> y in s && y.pid != p
  {
  }

  lemma SinPidCons(s: seq<Hilo>, p: nat)
    requires s != []
    ensures SinPid(s, p) == if s[0].pid == p then SinPid(s[1..], p) else [s[0]] + SinPid(s[1..], p)
  {
    assert [] + SinPid(s[1..], p) == SinPid(s[1..], p);
  }

  lemma PurgaTabla(k: K, k': K, p: nat)
    requires Tabla(k) && Purgado(k, k', p) && p !in k.colaNew
    ensures Tabla(k')
  {
    PurgaSistema(k, k', p);
    hide SinDup, Quitar, Creciente, SinPid, PcbBien, EsNuevo;
    forall q | q in k'.procesos
      ensures PcbBien(k', q)
    {
      PurgaPcb(k, k', p, q);
    }
    forall q | q in k'.colaNew
      ensures EsNuevo(k', q)
    {
      PurgaNuevo(k, k', p, q);
    }
  }

  lemma PurgaSistema(k: K, k': K, p: nat)
    requires Tabla(k) && Purgado(k, k', p)
    ensures SinDup(k'.sistema) && forall q: nat :: q in k'.sistema <==> q in k'.procesos
  {
    QuitarDe(k.sistema, p);
    hide SinDup, Quitar, Creciente, SinPid, PcbBien, EsNuevo;
  }

  lemma PurgaPcb(k: K, k': K, p: nat, q: nat)
    requires Purgado(k, k', p) && q in k'.procesos && (q in k.procesos ==> PcbBien(k, q))
    ensures PcbBien(k', q)
  {
    hide SinDup, Quitar, SinPid;
  }

  lemma PurgaNuevo(k: K, k': K, p: nat, q: nat)
    requires Purgado(k, k', p) && EsNuevo(k, q) && q != p
    ensures EsNuevo(k', q)
  {
    hide Quitar, SinPid;
  }

  lemma PurgaLugares(k: K, k': K, p: nat)
    requires Lugares(k) && Purgado(k, k', p)
    ensures Lugares(k')
  {
    SinPidSinDup(k.colaReady, p);
    SinPidSinDup(k.colaBlocked, p);
    hide SinDup, Quitar;
    forall x
      ensures EnSuLugar(k', x)
    {
      assert EnSuLugar(k, x);
    }
  }

  /** The ready queue seen through the arrival times of its threads. */
  ghost predicate EnOrdenDeLlegada(k: K, s: seq<Hilo>) {
    && (forall i, j :: 0 <= i < j < |s| ==> Ficha(k, s[i]).desde <= Ficha(k, s[j]).desde)
    && (forall i :: 0 <= i < |s| ==> Ficha(k, s[i]).desde <= k.reloj)
  }

  lemma ColaEsOrden(k: K)
    ensures Cola(k) <==> EnOrdenDeLlegada(k, k.colaReady) && k.semReady >= |k.colaReady|
  {
    assert forall i :: 0 <= i < |k.colaReady| ==> Listos(k)[i].desde == Ficha(k, k.colaReady[i]).desde;
    hide Ficha, Listos;
  }

  lemma PurgaCola(k: K, k': K, p: nat)
    requires Cola(k) && Purgado(k, k', p)
    ensures Cola(k')
  {
    ColaEsOrden(k);
    ColaEsOrden(k');
    hide Quitar, SinPid, Cola;
    SinPidOrdenada(k, k', k.colaReady, p);
  }

  lemma PurgaProtocolo(k: K, k': K, p: nat)
    requires Protocolo(k) && Duenios(k) && Purgado(k, k', p)
    requires forall x :: x in k.pendientes ==> x.pid != p
    requires forall x: Hilo :: x.pid != p ==> Clasificado(k, x)
    ensures Protocolo(k') && Duenios(k') && Bloqueados(k')
  {
    PurgaMutex(k, k', p);
    hide Protocolo, Duenios, EnLista, SinPid, Quitar;
    forall x
      ensures Clasificado(k', x)
    {
      if x.pid != p {
        assert Clasificado(k, x);
        assert EnLista(k', x) == EnLista(k, x) by { ListaDeOtro(k, k', p, x); }
      }
    }
  }

  lemma PurgaMutex(k: K, k': K, p: nat)
    requires Protocolo(k) && Duenios(k) && Purgado(k, k', p)
    ensures Protocolo(k') && Duenios(k')
  {
    hide SinDup, Ajenos, Quitar, SinPid;
    forall q | q in k'.procesos
      ensures MutexBien(k', q)
    {
      assert MutexBien(k, q);
      MutexSinTocar(k, k', q);
    }
    forall q, i | q in k'.procesos && 0 <= i < |k'.procesos[q].mutex|
      ensures DuenioVivo(k', q, k'.procesos[q].mutex[i])
    {
      assert DuenioVivo(k, q, k.procesos[q].mutex[i]);
    }
  }

  lemma ListaDeOtro(k: K, k': K, p: nat, x: Hilo)
    requires k'.procesos == k.procesos - {p} && x.pid != p
    ensures EnLista(k', x) == EnLista(k, x)
  {
  }

  /** The invariant, but for how the threads of process p wait. */
  ghost predicate InvSalvo(k: K, p: nat) {
    Tabla(k) && Lugares(k) && Cola(k) && Protocolo(k) && Duenios(k) && forall x: Hilo :: x.pid != p ==>
      Clasificado(k, x)
  }

  lemma PurgaConserva(k: K, k': K, p: nat)
    requires InvSalvo(k, p) && Purgado(k, k', p) && p !in k.colaNew && forall x :: x in k.pendientes ==> x.pid != p
    ensures Inv(k')
  {
    hide Purgado, Tabla, Lugares, Cola, Protocolo, Duenios, Bloqueados, Clasificado;
    PurgaTabla(k, k', p);
    PurgaLugares(k, k', p);
    PurgaCola(k, k', p);
    PurgaProtocolo(k, k', p);
  }

  lemma PuertaConserva(k: K, b: bool)
    requires Inv(k)
    ensures Inv(k.(largoPlazo := b))
  {
    hide SinDup, Ajenos, Ordenada, Creciente;
    var k' := k.(largoPlazo := b);
    assert Listos(k') == Listos(k);
    forall h
      ensures EnSuLugar(k', h) && Clasificado(k', h)
    {
      assert EnSuLugar(k, h) && Clasificado(k, h);
    }
    forall p | p in k'.procesos
      ensures PcbBien(k', p) && MutexBien(k', p)
    {
      assert PcbBien(k, p) && MutexBien(k, p);
      RecursosIguales(k, k', p);
    }
    forall p | p in k'.colaNew
      ensures EsNuevo(k', p)
    {
      assert EsNuevo(k, p);
    }
    MueveDuenios(k, k');
  }

  /** Ending a process from one of its threads, with nothing of it pending and no contention at an even
      place, keeps the invariant. */
  lemma FinConserva(k: K, h: Hilo)
    requires InvSalvo(k, h.pid) && Activo(k, h) && !PurgaDisputada(k, h.pid, 0)
    requires forall x :: x in k.pendientes ==> x.pid != h.pid
    ensures Inv(ProcessExit(k, h))
  {
    FinPurga(k, h);
    DespuesDeDesencolar(k, h);
    hide InvSalvo, Inv, ProcessExit, PurgaDisputada, Purgado, Localizados, SinDup, EnCola;
    var k' := ProcessExit(k, h);
    PurgaConserva(k, k'.(largoPlazo := k.largoPlazo), h.pid);
    PuertaConserva(k'.(largoPlazo := k.largoPlazo), true);
  }

  lemma ProcessExitConserva(k: K, h: Hilo)
    requires Inv(k) && k.exec == Some(h) && !PurgaDisputada(k, h.pid, 0)
    requires forall x :: x in k.pendientes ==> x.pid != h.pid
    ensures Inv(ProcessExit(k, h))
  {
    EnEjecucion(k, h);
    assert InvSalvo(k, h.pid);
    hide Inv, InvSalvo, ProcessExit, PurgaDisputada;
    FinConserva(k, h);
  }

  // ---- A dump that fails ----

  lemma PendienteActivo(k: K, h: Hilo)
    requires Lugares(k) && Bloqueados(k) && h in k.pendientes
    ensures Activo(k, h) && h in k.colaBlocked && k.exec != Some(h)
  {
    assert Clasificado(k, h) && EnSuLugar(k, h);
  }

  /** The handler of thread h no longer counts. */
  lemma SinSuManejador(k: K, h: Hilo)
    requires Inv(k)
    ensures InvSalvo(k.(pendientes := k.pendientes - {h}), h.pid)
  {
    var k0 := k.(pendientes := k.pendientes - {h});
    SoloPendientes(k, k0);
    MueveDuenios(k, k0);
    SinManejadorProtocolo(k, k0);
    hide Tabla, Lugares, Cola, Protocolo, Duenios, EnLista;
    forall x: Hilo | x.pid != h.pid
      ensures Clasificado(k0, x)
    {
      assert Clasificado(k, x);
      EnListaIgual(k, k0, x);
    }
  }

  lemma SinManejadorProtocolo(k: K, k0: K)
    requires Protocolo(k) && k0 == k.(pendientes := k0.pendientes) && k0.pendientes <= k.pendientes
    ensures Protocolo(k0)
  {
    hide MutexBien, Esperando;
    forall p | p in k0.procesos
      ensures MutexBien(k0, p)
    {
      assert MutexBien(k, p);
      MutexSinTocar(k, k0, p);
    }
  }

  /** The handler of a dump that fails ends the whole process: its threads leave every queue, the gate
      opens and nobody else notices. */
  lemma DumpFallidoConserva(k: K, h: Hilo)
    requires Inv(k) && h in k.pendientes && !PurgaDisputada(k, h.pid, 0)
    requires forall x :: x in k.pendientes && x.pid == h.pid ==> x == h
    ensures var k' := FallarDump(k, h);
            && Inv(k') && k'.largoPlazo && k'.pendientes == k.pendientes - {h}
            && Purgado(k.(pendientes := k'.pendientes, largoPlazo := true), k', h.pid)
            && (forall x: Hilo :: x.pid == h.pid ==> !EnCola(k', x))
  {
    PendienteActivo(k, h);
    SinSuManejador(k, h);
    var k0 := k.(pendientes := k.pendientes - {h});
    MismaPurga(k, k0, h.pid);
    assert Activo(k0, h);
    hide Inv, PurgaDisputada, ProcessExit, Activo;
    FinConserva(k0, h);
    FinPurga(k0, h);
    hide InvSalvo, EnCola;
    PurgadoAbierto(k0, ProcessExit(k0, h), h.pid);
  }

  lemma PurgadoAbierto(k: K, k': K, p: nat)
    requires k'.largoPlazo && Purgado(k, k'.(largoPlazo := k.largoPlazo), p)
    ensures Purgado(k.(largoPlazo := true), k', p) && k'.pendientes == k.pendientes
  {
    hide SinPid, Quitar;
  }

  // ---- A thread the memory refuses ----

  lemma NuevoLocaliza(k: K, h: Hilo, prioridad: nat)
    requires Tabla(k) && Lugares(k) && k.exec == Some(h)
    ensures var k1, n := NuevoHilo(k, h, prioridad), Hilo(h.pid, Proceso(k, h.pid).tidContador);
            && Localizados(k1, h.pid) && Desencolar(k1, n) == k1
            && h.pid in k1.procesos && SinDup(k1.procesos[h.pid].threads)
  {
    EnEjecucion(k, h);
    NuevoNoVive(k, h);
    InvLocaliza(k, h.pid);
    assert PcbBien(k, h.pid);
    var n := Hilo(h.pid, Proceso(k, h.pid).tidContador);
    AgregarA(k.procesos[h.pid].threads, n.tid);
    QuitarAjeno(k.colaReady, n);
    hide *;
    LocalizadosConNuevo(k, h, prioridad);
    NadaQueDesencolar(k, h, prioridad);
  }

  lemma LocalizadosConNuevo(k: K, h: Hilo, prioridad: nat)
    requires var n := Hilo(h.pid, Proceso(k, h.pid).tidContador);
             n !in k.colaReady && n !in k.colaBlocked && k.exec != Some(n)
    requires Localizados(k, h.pid)
    ensures Localizados(NuevoHilo(k, h, prioridad), h.pid)
  {
    hide SinDup;
  }

  lemma NadaQueDesencolar(k: K, h: Hilo, prioridad: nat)
    requires h.pid in k.procesos && Quitar(k.colaReady, Hilo(h.pid, Proceso(k, h.pid).tidContador)) == k.colaReady
    requires SinDup(k.procesos[h.pid].threads + [Proceso(k, h.pid).tidContador])
    ensures var k1, n := NuevoHilo(k, h, prioridad), Hilo(h.pid, Proceso(k, h.pid).tidContador);
            Desencolar(k1, n) == k1 && h.pid in k1.procesos && SinDup(k1.procesos[h.pid].threads)
  {
    hide Quitar, SinDup;
  }

  /** The new thread owns nothing, and the others stay at their places of the list. */
  lemma NuevoNoDisputa(k: K, h: Hilo, prioridad: nat)
    requires Tabla(k) && Duenios(k) && Activo(k, h)
    ensures PurgaDisputada(NuevoHilo(k, h, prioridad), h.pid, 0) == PurgaDisputada(k, h.pid, 0)
  {
    var k1, p := NuevoHilo(k, h, prioridad), h.pid;
    var ts := Proceso(k, p).threads;
    assert PcbBien(k, p);
    forall j: nat
      ensures Libra(k1, p, j) == Libra(k, p, j)
    {
      if j < |ts| {
        MismosDisputados(k, k1, Hilo(p, ts[j]));
      } else if j == |ts| {
        assert forall i :: 0 <= i < |k.procesos[p].mutex| ==> DuenioVivo(k, p, k.procesos[p].mutex[i]);
      }
    }
    hide Libra;
  }

  /** What the end of a process leaves to the others. */
  ghost predicate SoloSin(k: K, k': K, p: nat) {
    && k'.exec == None && k'.largoPlazo && p !in k'.procesos
    && k'.colaReady == SinPid(k.colaReady, p) && k'.colaBlocked == SinPid(k.colaBlocked, p)
    && (forall q :: q != p ==> (q in k'.procesos <==> q in k.procesos))
    && (forall x: Hilo :: x.pid != p ==> Ficha(k', x) == Ficha(k, x))
  }

  lemma RechazoDeja(k: K, h: Hilo, prioridad: nat, k': K)
    requires Purgado(NuevoHilo(k, h, prioridad), k', h.pid) && k.exec == Some(h)
    ensures SoloSin(k, k'.(largoPlazo := true), h.pid)
  {
    hide SinPid, Quitar;
  }

  /** A refused thread ends its whole process, the executing thread included: without contention nothing
      of it is left in any queue, and the other processes are as they were. */
  lemma HiloRechazado(k: K, h: Hilo, prioridad: nat)
    requires Inv(k) && k.exec == Some(h) && !PurgaDisputada(k, h.pid, 0)
    ensures SoloSin(k, RechazarHilo(k, h, prioridad), h.pid)
  {
    EnEjecucion(k, h);
    NuevoLocaliza(k, h, prioridad);
    NuevoNoDisputa(k, h, prioridad);
    hide Inv, PurgaDisputada, Localizados, LiberarPcb, SinDup, SinPid, Desencolar, Quitar, NuevoHilo, Purgado, SoloSin;
    LiberarPcbPurga(NuevoHilo(k, h, prioridad), h.pid);
    RechazoDeja(k, h, prioridad, LiberarPcb(NuevoHilo(k, h, prioridad), h.pid));
  }

  // ---- Nobody executes after a process has ended ----

  lemma NadieTrasLiberarHilo(k: K, h: Hilo)
    requires k.exec == None
    ensures LiberarHilo(k, h).exec == None
  {
    hide DespertarDesde, SoltarDesde, Quitar;
    var k1 := if h.pid in k.procesos then SinHilo(k, h) else k;
    NadieTrasDespertar(k1, h, 0);
    NadieTrasSoltar(DespertarDesde(k1, h, 0), h, 0);
  }

  lemma {:induction false} NadieTrasLiberarDesde(k: K, p: nat, i: nat)
    requires k.exec == None
    ensures LiberarDesde(k, p, i).exec == None
    decreases |Proceso(k, p).threads| - i
  {
    hide LiberarHilo;
    if i < |Proceso(k, p).threads| {
      var h := Hilo(p, Proceso(k, p).threads[i]);
      NadieTrasLiberarHilo(k, h);
      NadieTrasLiberarDesde(LiberarHilo(k, h), p, i + 1);
    }
  }

  /** Whatever else is left of a process that ends, its threads no longer execute. */
  lemma NadieTrasLiberarPcb(k: K, p: nat)
    requires Localizados(k, p) && (k.exec.Some? ==> k.exec.value.pid == p)
    ensures LiberarPcb(k, p).exec == None
  {
    DesencolarTodos(k, p, 0);
    var d := DesencolarDesde(k, p, 0);
    assert k.exec.Some? ==> !EnCola(d, k.exec.value);
    assert d.exec == None;
    hide LiberarDesde, DesencolarDesde, Localizados, SinPid, Quitar;
    NadieTrasLiberarDesde(d, p, 0);
  }

  /** After thread_create the caller goes on executing exactly when the memory accepts the thread, or
      refuses to end its process as well. Otherwise nobody executes, while the code goes on to send the
      caller to the processor. */
  lemma SigueTrasCrearSiYSoloSi(k: K, h: Hilo, prioridad: nat, resp: Respuesta, fin: Respuesta)
    requires Inv(k) && k.exec == Some(h)
    ensures var k' := CrearHiloSegun(k, h, prioridad, resp, fin);
            && (k'.exec == Some(h) <==> resp == SUCCESS || fin != SUCCESS)
            && (k'.exec == None <==> resp != SUCCESS && fin == SUCCESS)
  {
    hide Inv, Desencolar, LiberarPcb, CrearHilo, NuevoHilo, Localizados, SinDup;
    InvDe(k);
    if resp == SUCCESS {
      CrearHiloConserva(k, h, prioridad);
    } else {
      NuevoLocaliza(k, h, prioridad);
      NuevoSigue(k, h, prioridad);
      NadieTrasLiberarPcb(NuevoHilo(k, h, prioridad), h.pid);
    }
  }

  lemma InvDe(k: K)
    requires Inv(k)
    ensures Tabla(k) && Lugares(k)
  {
  }

  lemma NuevoSigue(k: K, h: Hilo, prioridad: nat)
    ensures NuevoHilo(k, h, prioridad).exec == k.exec
  {
  }
}
