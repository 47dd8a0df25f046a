/** Bounded bypass in the kernel: over any run in which no more urgent thread becomes ready, a ready
    thread is dispatched within as many dispatches as its rank says.
    Sources: kernel/src/algoritmos_planificacion.c, kernel/src/planificador_corto_plazo.c and
    kernel/src/utils.c. */
module Inanicion {
  import opened Listas
  import opened Opcion
  import opened Planificacion
  import opened Kernel
  import opened Invariantes
  import opened Bloqueos
  import opened Salidas
  import opened FinDeProceso
  import opened Corridas

  // ---- Events that only add to the ready queue ----

  /** Those that were ready are still there, in the same places, with the same priority and arrival. */
  ghost predicate Extiende(k: K, k': K) {
    && k.colaReady <= k'.colaReady
    && forall y :: y in k.colaReady ==>
      Ficha(k', y).prioridad == Ficha(k, y).prioridad && Ficha(k', y).desde == Ficha(k, y).desde
  }

  lemma ExtiendeSeguido(a: K, b: K, c: K)
    requires Extiende(a, b) && Extiende(b, c)
    ensures Extiende(a, c)
  {
    assert forall y :: y in a.colaReady ==> y in b.colaReady;
  }

  /** The blocked queue and the ready queue have nobody in common. */
  ghost predicate Separadas(k: K) {
    SoloBloqueados(k) && forall y :: y in k.colaReady ==> y !in k.colaBlocked
  }

  lemma {:induction false} DespertarExtiende(k: K, muerto: Hilo, i: nat)
    requires Separadas(k)
    ensures Extiende(k, DespertarDesde(k, muerto, i))
    decreases |k.colaBlocked| - i
  {
    if i < |k.colaBlocked| {
      var h := k.colaBlocked[i];
      assert h in k.colaBlocked;
      if EsperaA(k, h, muerto) {
        var k1 := Despertar(k, h);
        DespertarUno(k, i);
        SinDe(k.colaBlocked, i);
        hide SoloBloqueados, Despertar, DespertarDesde, Sin;
        DespertarExtiende(k1, muerto, i + 1);
        ExtiendeSeguido(k, k1, DespertarDesde(k1, muerto, i + 1));
        assert DespertarDesde(k, muerto, i) == DespertarDesde(k1, muerto, i + 1) by { UnPasoDespertar(k, muerto, i); }
      } else {
        DespertarExtiende(k, muerto, i + 1);
      }
    }
  }

  lemma LugaresSeparados(k: K)
    requires Lugares(k)
    ensures Separadas(k)
  {
    BloqueadosSolos(k);
    forall y | y in k.colaReady
      ensures y !in k.colaBlocked
    {
      assert EnSuLugar(k, y);
    }
  }

  lemma FinHiloExtiende(k: K, h: Hilo)
    requires Inv(k) && k.exec == Some(h) && !DuenioDisputado(k, h)
    ensures Extiende(k, ThreadExit(k, h))
  {
    hide DuenioDisputado, DespertarDesde, SoltarDesde, Quitar, Liberados, ThreadExit, SoloBloqueados;
    EnEjecucion(k, h);
    ThreadExitPorPartes(k, h);
    LugaresSeparados(k);
    var k1 := Muerto(k, h);
    var k2 := DespertarDesde(k1, h, 0);
    assert SoloBloqueados(k1) by { MismosSolos(k, k1); }
    DespertarExtiende(k1, h, 0);
    assert k2.procesos == k1.procesos by { MismosProcesosAlDespertar(k1, h); }
    MismosDisputados(k, k2, h);
    SoltarLibres(k2, h, 0);
    hide Inv;
    assert Extiende(k, k2);
    assert k2.colaReady == ThreadExit(k, h).colaReady;
  }

  /** Moving one thread that is not ready takes nobody out of the ready queue. */
  lemma MueveExtiende(k: K, k': K, h: Hilo)
    requires h !in k.colaReady && k.colaReady <= k'.colaReady && forall x :: x != h ==> Ficha(k', x) == Ficha(k, x)
    ensures Extiende(k, k')
  {
    hide Ficha;
  }

  lemma EsperaExtiende(k: K, h: Hilo)
    requires Inv(k) && k.exec == Some(h)
    ensures Extiende(k, PedirIO(k, h)) && Extiende(k, PedirDump(k, h))
  {
    hide Inv, Bloquear, Extiende, Ficha;
    EsperaConserva(k, h, IO);
    EsperaConserva(k, h, BLOQUEO_POR_DUMP);
    MueveExtiende(k, PedirIO(k, h), h);
    MueveExtiende(k, PedirDump(k, h), h);
  }

  lemma LockExtiende(k: K, h: Hilo, nombre: string)
    requires Inv(k) && k.exec == Some(h)
    ensures Extiende(k, MutexLock(k, h, nombre))
  {
    EnEjecucion(k, h);
    hide Inv, MutexLock, BuscarRecurso, Extiende, Ficha, Activo;
    LockConserva(k, h, nombre);
    MueveExtiende(k, MutexLock(k, h, nombre), h);
  }

  lemma UnlockExtiende(k: K, h: Hilo, nombre: string)
    requires Inv(k) && k.exec == Some(h)
    ensures Extiende(k, MutexUnlock(k, h, nombre))
  {
    EnEjecucion(k, h);
    hide Inv, MutexUnlock, BuscarRecurso, Extiende, Ficha, Activo, EnCola;
    UnlockConserva(k, h, nombre);
    var ms := Proceso(k, h.pid).mutex;
    var b := BuscarRecurso(ms, nombre);
    if b.Some? && ms[b.value].owner == h.tid && ms[b.value].hilos != [] {
      MueveExtiende(k, MutexUnlock(k, h, nombre), Hilo(h.pid, ms[b.value].hilos[0]));
    } else {
      MueveExtiende(k, MutexUnlock(k, h, nombre), h);
    }
  }

  lemma JoinExtiende(k: K, h: Hilo, t: nat)
    requires Inv(k) && k.exec == Some(h)
    ensures Extiende(k, ThreadJoin(k, h, t))
  {
    EnEjecucion(k, h);
    hide Inv, ThreadJoin, Extiende, Ficha, Activo;
    JoinConserva(k, h, t);
    MueveExtiende(k, ThreadJoin(k, h, t), h);
  }

  lemma CrearExtiende(k: K, h: Hilo, prioridad: nat)
    requires Inv(k) && k.exec == Some(h)
    ensures Extiende(k, CrearHilo(k, h, prioridad))
  {
    hide Inv, CrearHilo, Extiende, Ficha;
    CrearHiloConserva(k, h, prioridad);
    MueveExtiende(k, CrearHilo(k, h, prioridad), Hilo(h.pid, Proceso(k, h.pid).tidContador));
  }

  lemma IniciarExtiende(k: K, tamanio: nat, prioridad: nat)
    requires Inv(k)
    ensures Extiende(k, IniciarProceso(k, tamanio, prioridad))
  {
    hide Inv, IniciarProceso, Extiende, Ficha;
    IniciarConserva(k, tamanio, prioridad);
    MueveExtiende(k, IniciarProceso(k, tamanio, prioridad), Hilo(k.pidCounter, 0));
  }

  lemma AdmitirExtiende(k: K, r: Kernel.Respuesta)
    requires Inv(k) && k.colaNew != []
    ensures Extiende(k, Admitir(k, r))
  {
    hide Quitar, LiberarPcb, Admitir, SinPid;
    if r == SUCCESS {
      AdmitidoConserva(k);
      AdmitidoLugares(k);
    } else if r == SIZE_ERROR {
      SinLugarConserva(k);
    } else {
      RechazadoConserva(k, r);
      ColasSinNuevo(k);
      forall y | y in k.colaReady
        ensures y.pid != k.colaNew[0]
      {
        assert EnSuLugar(k, y);
      }
    }
  }

  /** Only a dispatch or the end of a process takes anybody out of the ready queue. */
  lemma OtrosExtienden(k: K, alg: Algoritmo, op: Op)
    requires Inv(k) && Habilitado(k, op) && !op.Despacho? && Termina(k, op) == None
    ensures Extiende(k, Paso(k, alg, op))
  {
    hide Despachar, Interrumpir, PedirIO, PedirDump, Volver, CrearHilo, ThreadJoin, MutexLock, MutexUnlock, ThreadExit,
      ProcessExit, FallarDump, Cancelado, Admitir, DuenioDisputado, PurgaDisputada, Inv, Extiende, IniciarProceso;
    if op.FinEspera? {
      VolverExtiende(k, op.h);
    } else if op.ProcessCreate? {
      IniciarExtiende(k, op.tamanio, op.prioridad);
    } else if op.Admision? {
      AdmitirExtiende(k, op.resp);
    } else if op.Tic? {
      QuietoExtiende(k, Paso(k, alg, op));
    } else {
      var h := k.exec.value;
      if op.Interrupcion? {
        InterrumpirExtiende(k, h);
      } else if op.PeticionIO? || op.DumpMemory? {
        EsperaExtiende(k, h);
      } else if op.ThreadCreate? {
        CrearExtiende(k, h, op.prioridad);
      } else if op.Join? {
        JoinExtiende(k, h, op.tid);
      } else if op.Lock? {
        LockExtiende(k, h, op.nombre);
      } else if op.Unlock? {
        UnlockExtiende(k, h, op.nombre);
      } else if op.FinHilo? || op.Cancelar? {
        if op.Cancelar? { CancelarEsSalir(k, alg, op.tid); }
        FinHiloExtiende(k, h);
      } else {
        QuietoExtiende(k, Paso(k, alg, op));
      }
    }
  }

  lemma QuietoExtiende(k: K, k': K)
    requires k'.colaReady == k.colaReady && k'.tcbs == k.tcbs
    ensures Extiende(k, k')
  {
  }

  lemma InterrumpirExtiende(k: K, h: Hilo)
    requires Inv(k) && k.exec == Some(h)
    ensures Extiende(k, Interrumpir(k, h))
  {
    hide Inv, Interrumpir, Extiende, Ficha;
    InterrupcionConserva(k, h);
    MueveExtiende(k, Interrumpir(k, h), h);
  }

  lemma VolverExtiende(k: K, h: Hilo)
    requires Inv(k) && h in k.pendientes
    ensures Extiende(k, Volver(k, h))
  {
    hide Inv, Volver, Extiende, Ficha;
    VolverConserva(k, h);
    MueveExtiende(k, Volver(k, h), h);
  }

  // ---- Ranks ----

  /** Arrivals that are not more urgent leave the rank as it was. */
  lemma {:induction false} RangoAlExtender(alg: Algoritmo, c: seq<Listo>, d: seq<Listo>, i: nat)
    requires i < |c| && c <= d
    requires alg == FIFO || forall j :: |c| <= j < |d| ==> d[j].prioridad >= c[i].prioridad
    ensures Rango(alg, d, i) == Rango(alg, c, i)
    decreases |d|
  {
    if |d| > |c| {
      var e := d[..|d| - 1];
      RangoAlExtender(alg, c, e, i);
      assert d == e + [d[|d| - 1]];
      LlegadaNoAtrasa(alg, e, i, d[|d| - 1]);
    } else {
      assert c == d;
    }
  }

  lemma ListosAlExtender(k: K, k': K)
    requires Extiende(k, k')
    ensures Listos(k) <= Listos(k')
  {
    forall j | 0 <= j < |k.colaReady|
      ensures Listos(k')[j] == Listos(k)[j]
    {
      assert k.colaReady[j] in k.colaReady && k'.colaReady[j] == k.colaReady[j];
    }
  }

  lemma {:induction false} DelanteIzq(c: seq<Listo>, p: nat, i: int)
    requires c != []
    ensures Delante(c, p, i)
            == (if c[0].prioridad < p || (c[0].prioridad == p && 0 < i) then 1 else 0) + Delante(c[1..], p, i - 1)
  {
    var n := |c| - 1;
    if n > 0 {
      DelanteIzq(c[..n], p, i);
      assert c[..n][1..] == c[1..][..n - 1];
    } else {
      assert c[..n] == [] && c[1..] == [];
    }
  }

  ghost function SinPidListos(c: seq<Listo>, pid: nat): seq<Listo> {
    if c == [] then [] else (if c[0].h.pid == pid then [] else [c[0]]) + SinPidListos(c[1..], pid)
  }

  lemma {:induction false} FiltroMenor(c: seq<Listo>, pid: nat, p: nat, i: int)
    requires i <= 0
    ensures Delante(SinPidListos(c, pid), p, i) <= Delante(c, p, i)
  {
    if c == [] {
    } else {
      FiltroMenor(c[1..], pid, p, i - 1);
      FiltroMenor(c[1..], pid, p, i);
      DelanteIzq(c, p, i);
      NegativoIgual(c[1..], p, i, i - 1);
      var r := SinPidListos(c[1..], pid);
      if c[0].h.pid == pid {
        assert SinPidListos(c, pid) == r;
      } else {
        assert SinPidListos(c, pid) == [c[0]] + r && ([c[0]] + r)[1..] == r;
        DelanteIzq([c[0]] + r, p, i);
      }
    }
  }

  lemma {:induction false} NegativoIgual(c: seq<Listo>, p: nat, i: int, j: int)
    requires i <= 0 && j <= 0
    ensures Delante(c, p, i) == Delante(c, p, j)
  {
    if c == [] {
    } else {
      NegativoIgual(c[..|c| - 1], p, i, j);
    }
  }

  lemma FiltroPaso(c: seq<Listo>, pid: nat)
    requires c != []
    ensures var r, d := SinPidListos(c[1..], pid), SinPidListos(c, pid);
            if c[0].h.pid == pid then d == r
            else |d| == |r| + 1 && d[0] == c[0] && d[1..] == r && forall j :: 0 <= j < |r| ==> d[j + 1] == r[j]
  {
  }

  /** Taking out the threads of another process brings nobody further from the front. */
  lemma {:induction false} FiltroAcerca(c: seq<Listo>, pid: nat, p: nat, i: nat) returns (n: nat)
    requires i < |c| && c[i].h.pid != pid
    ensures n <= i && n < |SinPidListos(c, pid)| && SinPidListos(c, pid)[n] == c[i]
    ensures Delante(SinPidListos(c, pid), p, n) <= Delante(c, p, i)
  {
    hide Delante, SinPidListos;
    var d := SinPidListos(c, pid);
    FiltroPaso(c, pid);
    DelanteIzq(c, p, i);
    if i == 0 {
      n := 0;
      FiltroMenor(c[1..], pid, p, -1);
      DelanteIzq(d, p, 0);
    } else {
      var m := FiltroAcerca(c[1..], pid, p, i - 1);
      if c[0].h.pid == pid {
        n := m;
      } else {
        n := m + 1;
        DelanteIzq(d, p, n);
      }
    }
  }

  /** c lists the threads of s with the priorities and arrivals their records give. */
  ghost predicate SonListos(k: K, s: seq<Hilo>, c: seq<Listo>) {
    |c| == |s| && forall j :: 0 <= j < |s| ==> c[j] == Listo(s[j], Ficha(k, s[j]).prioridad, Ficha(k, s[j]).desde)
  }

  lemma {:induction false} ListosFiltrados(k: K, k': K, s: seq<Hilo>, c: seq<Listo>, pid: nat)
    requires SonListos(k, s, c) && forall x: Hilo :: x.pid != pid ==> Ficha(k', x) == Ficha(k, x)
    ensures SonListos(k', SinPid(s, pid), SinPidListos(c, pid))
  {
    hide SinPid, SinPidListos, Ficha;
    SinPidVacio(pid);
    if s == [] {
    } else {
      ListosFiltrados(k, k', s[1..], c[1..], pid);
      SinPidCons(s, pid);
      SinPidListosCons(c, pid);
    }
  }

  lemma SinPidVacio(pid: nat)
    ensures SinPid([], pid) == [] && SinPidListos([], pid) == []
  {
  }

  lemma SinPidListosCons(c: seq<Listo>, pid: nat)
    requires c != []
    ensures SinPidListos(c, pid) == if c[0].h.pid == pid then SinPidListos(c[1..], pid)
            else [c[0]] + SinPidListos(c[1..], pid)
  {
    assert [] + SinPidListos(c[1..], pid) == SinPidListos(c[1..], pid);
  }

  // ---- Runs ----

  ghost function RangoDe(k: K, alg: Algoritmo, i: nat): nat
    requires i < |k.colaReady|
  {
    Rango(alg, Listos(k), i)
  }

  /** Nobody more urgent than p becomes ready. Under FIFO priorities do not matter. */
  ghost predicate SinUrgentes(k: K, alg: Algoritmo, ops: seq<Op>, p: nat)
    decreases |ops|
  {
    ops == []
    || (var k' := Paso(k, alg, ops[0]);
        && (forall y :: y in k'.colaReady && y !in k.colaReady ==> alg == FIFO || Ficha(k', y).prioridad >= p)
        && SinUrgentes(k', alg, ops[1..], p))
  }

  ghost function Rondas(ops: seq<Op>): nat {
    if ops == [] then 0 else (if ops[0].Despacho? then 1 else 0) + Rondas(ops[1..])
  }

  /** In some state of the run the thread is executing, or its process has ended. */
  ghost predicate LlegaSuTurno(k: K, alg: Algoritmo, ops: seq<Op>, x: Hilo)
    decreases |ops|
  {
    k.exec == Some(x) || x.pid !in k.procesos || (ops != [] && LlegaSuTurno(Paso(k, alg, ops[0]), alg, ops[1..], x))
  }

  lemma RondaAcerca(k: K, alg: Algoritmo, i: nat)
    requires Inv(k) && k.exec == None && i < |k.colaReady|
    ensures var k' := Despachar(k, alg);
            var x := k.colaReady[i];
            var m := Eleccion(alg, Listos(k), k.reloj);
            && (m == i ==> k'.exec == Some(x))
            && (m != i ==> Corrido(i, m) >= 0 && Corrido(i, m) < |k'.colaReady| && k'.colaReady[Corrido(i, m)] == x
                           && RangoDe(k', alg, Corrido(i, m)) == RangoDe(k, alg, i) - 1
                           && Ficha(k', x).prioridad == Ficha(k, x).prioridad)
  {
    hide Tabla, Lugares, Protocolo, Duenios, Bloqueados, Eleccion, Delante;
    var m := Eleccion(alg, Listos(k), k.reloj);
    var k' := Despachar(k, alg);
    DespachoAcerca(alg, Listos(k), i, k.reloj);
    assert SinDup(k.colaReady) by { ColaSinDup(k); }
    assert Listos(k') == Sin(Listos(k), m);
  }

  lemma ColaSinDup(k: K)
    requires Lugares(k)
    ensures SinDup(k.colaReady)
  {
  }

  lemma FiltradoAcerca(k: K, k': K, p: nat, alg: Algoritmo, i: nat) returns (n: nat)
    requires k'.colaReady == SinPid(k.colaReady, p) && forall x: Hilo :: x.pid != p ==> Ficha(k', x) == Ficha(k, x)
    requires i < |k.colaReady| && k.colaReady[i].pid != p
    ensures n < |k'.colaReady| && k'.colaReady[n] == k.colaReady[i] && RangoDe(k', alg, n) <= RangoDe(k, alg, i)
    ensures Ficha(k', k.colaReady[i]).prioridad == Ficha(k, k.colaReady[i]).prioridad
    ensures forall y :: y in k'.colaReady ==> y in k.colaReady
  {
    hide Delante, SinPid, SinPidListos;
    var c := Listos(k);
    ListosFiltrados(k, k', k.colaReady, c, p);
    assert Listos(k') == SinPidListos(c, p);
    n := FiltroAcerca(c, p, c[i].prioridad, i);
    MismoListo(k, k', i, n);
    SinPidIncluido(k.colaReady, p);
  }

  /** The end of another process brings nobody further from the front, and nobody in. */
  lemma SalidaAcerca(k: K, alg: Algoritmo, op: Op, i: nat) returns (n: nat)
    requires Inv(k) && Habilitado(k, op) && Termina(k, op).Some?
    requires i < |k.colaReady| && k.colaReady[i].pid != Termina(k, op).value
    ensures var k' := Paso(k, alg, op);
            && n < |k'.colaReady| && k'.colaReady[n] == k.colaReady[i] && RangoDe(k', alg, n) <= RangoDe(k, alg, i)
            && Ficha(k', k.colaReady[i]).prioridad == Ficha(k, k.colaReady[i]).prioridad
            && (forall y :: y in k'.colaReady ==> y in k.colaReady)
  {
    hide Inv, Paso, Habilitado, Termina, RangoDe, Ficha, SinPid, EnCola;
    TerminaPurga(k, alg, op);
    FichasDeOtros(k, Paso(k, alg, op), Termina(k, op).value);
    n := FiltradoAcerca(k, Paso(k, alg, op), Termina(k, op).value, alg, i);
  }

  lemma FichasDeOtros(k: K, k': K, p: nat)
    requires Purgado(k.(pendientes := k'.pendientes, largoPlazo := true), k', p)
    ensures k'.colaReady == SinPid(k.colaReady, p) && forall x: Hilo :: x.pid != p ==> Ficha(k', x) == Ficha(k, x)
  {
    hide SinPid;
  }

  lemma MismoListo(k: K, k': K, i: nat, n: nat)
    requires i < |k.colaReady| && n < |k'.colaReady| && Listos(k')[n] == Listos(k)[i]
    ensures k'.colaReady[n] == k.colaReady[i]
    ensures Ficha(k', k.colaReady[i]).prioridad == Ficha(k, k.colaReady[i]).prioridad
  {
  }

  lemma SinPidIncluido(s: seq<Hilo>, pid: nat)
    ensures forall y :: y in SinPid(s, pid) ==> y in s
  {
  }

  lemma OtroNoAtrasa(k: K, alg: Algoritmo, op: Op, i: nat)
    requires Inv(k) && Habilitado(k, op) && !op.Despacho? && Termina(k, op) == None && i < |k.colaReady|
    requires var k' := Paso(k, alg, op);
             forall y :: y in k'.colaReady && y !in k.colaReady ==>
               alg == FIFO || Ficha(k', y).prioridad >= Ficha(k, k.colaReady[i]).prioridad
    requires Inv(Paso(k, alg, op))
    ensures var k' := Paso(k, alg, op);
            && i < |k'.colaReady| && k'.colaReady[i] == k.colaReady[i] && RangoDe(k', alg, i) == RangoDe(k, alg, i)
            && Ficha(k', k.colaReady[i]).prioridad == Ficha(k, k.colaReady[i]).prioridad
  {
    hide Paso, Habilitado, Termina, Extiende, RangoDe, SinDup, Ficha;
    OtrosExtienden(k, alg, op);
    ColaSinDup(Paso(k, alg, op));
    ExtenderNoAtrasa(k, Paso(k, alg, op), alg, i);
  }

  lemma ExtenderNoAtrasa(k: K, k': K, alg: Algoritmo, i: nat)
    requires Extiende(k, k') && SinDup(k'.colaReady) && i < |k.colaReady|
    requires forall y :: y in k'.colaReady && y !in k.colaReady ==>
               alg == FIFO || Ficha(k', y).prioridad >= Ficha(k, k.colaReady[i]).prioridad
    ensures i < |k'.colaReady| && k'.colaReady[i] == k.colaReady[i] && RangoDe(k', alg, i) == RangoDe(k, alg, i)
    ensures Ficha(k', k.colaReady[i]).prioridad == Ficha(k, k.colaReady[i]).prioridad
  {
    hide Delante, Rango;
    ListosAlExtender(k, k');
    forall j | |k.colaReady| <= j < |k'.colaReady|
      ensures alg == FIFO || Listos(k')[j].prioridad >= Listos(k)[i].prioridad
    {
      var y := k'.colaReady[j];
      assert y in k'.colaReady;
      assert forall t :: 0 <= t < |k.colaReady| ==> k.colaReady[t] == k'.colaReady[t] != y;
    }
    RangoAlExtender(alg, Listos(k), Listos(k'), i);
  }

  /** No starvation within a class: while nobody more urgent becomes ready, the thread at place i of the
      ready queue gets the processor within as many dispatches as its rank plus one, or its process ends
      first. */
  lemma {:induction false} SinInanicion(k: K, alg: Algoritmo, ops: seq<Op>, i: nat)
    requires Inv(k) && Valida(k, alg, ops) && i < |k.colaReady|
    requires SinUrgentes(k, alg, ops, Ficha(k, k.colaReady[i]).prioridad)
    requires Rondas(ops) > RangoDe(k, alg, i)
    ensures LlegaSuTurno(k, alg, ops, k.colaReady[i])
    decreases |ops|
  {
    hide Inv, Delante, Habilitado, RangoDe, Despachar, ProcessExit, FallarDump, Termina;
    var op, x := ops[0], k.colaReady[i];
    var k' := Paso(k, alg, op);
    PasoConserva(k, alg, op);
    if op.Despacho? {
      LibreAlDespachar(k);
      RondaAcerca(k, alg, i);
      var m := Eleccion(alg, Listos(k), k.reloj);
      assert k' == Despachar(k, alg);
      if m != i {
        SinInanicion(k', alg, ops[1..], Corrido(i, m));
      }
    } else if Termina(k, op).Some? {
      hide Paso;
      if x.pid == Termina(k, op).value {
        SalioDelSistema(k, alg, op);
      } else {
        var n := SalidaAcerca(k, alg, op, i);
        SinInanicion(k', alg, ops[1..], n);
      }
    } else {
      hide Paso;
      OtroNoAtrasa(k, alg, op, i);
      SinInanicion(k', alg, ops[1..], i);
    }
  }

  lemma LibreAlDespachar(k: K)
    requires Habilitado(k, Despacho)
    ensures k.exec == None
  {
  }

  lemma SalioDelSistema(k: K, alg: Algoritmo, op: Op)
    requires Inv(k) && Habilitado(k, op) && Termina(k, op).Some?
    ensures Termina(k, op).value !in Paso(k, alg, op).procesos
  {
    TerminaPurga(k, alg, op);
    hide Inv, Paso, Habilitado, Termina, Quitar, SinPid;
  }
}
