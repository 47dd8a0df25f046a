/** Runs of the kernel: the invariant holds after any sequence of events, whatever the scheduling
    algorithm, and so does what it says about threads, mutexes and semaphores.
    Sources: kernel/src. */
module Corridas {
  import opened Listas
  import opened Opcion
  import opened Planificacion
  import opened Kernel
  import opened Invariantes
  import opened Bloqueos
  import opened Salidas
  import opened FinDeProceso
  import opened Cancelacion

  // ---- Admission ----

  /** The head of the NEW queue leaves it. */
  ghost function SinCabeza(k: K): K
    requires k.colaNew != []
  {
    k.(colaNew := k.colaNew[1..], semNew := if k.semNew > 0 then k.semNew - 1 else 0)
  }

  lemma CabezaNueva(k: K)
    requires Tabla(k) && k.colaNew != []
    ensures var p := k.colaNew[0];
            && p in k.procesos && k.procesos[p].threads == [0] && k.procesos[p].mutex == []
            && Ficha(k, Hilo(p, 0)).estado == READY && Hilo(p, 0) in k.tcbs && PcbBien(k, p)
            && Quitar(k.colaNew, p) == k.colaNew[1..] && Creciente(k.colaNew[1..])
            && (forall q :: q in k.colaNew[1..] <==> q in k.colaNew && q != p)
            && k.semNew == |k.colaNew|
  {
    var p := k.colaNew[0];
    assert p in k.colaNew && EsNuevo(k, p) && PcbBien(k, p);
    assert k.colaNew == [p] + k.colaNew[1..];
  }

  /** The process at the head is admitted: its first thread goes to the end of the ready queue. */
  lemma AdmitidoConserva(k: K)
    requires Inv(k) && k.colaNew != []
    ensures Inv(Admitir(k, SUCCESS))
    ensures Admitir(k, SUCCESS) == EncolarReady(SinCabeza(k), Hilo(k.colaNew[0], 0))
  {
    hide Tabla, Lugares, Protocolo, Duenios, Bloqueados, Cola, Quitar;
    CabezaNueva(k);
    AdmitidoLugares(k);
    AdmitidoTabla(k);
    AdmitidoProtocolo(k);
    ColaAlAgregar(k, EncolarReady(SinCabeza(k), Hilo(k.colaNew[0], 0)), Hilo(k.colaNew[0], 0));
  }

  lemma AdmitidoTabla(k: K)
    requires Tabla(k) && k.colaNew != []
    ensures Tabla(EncolarReady(SinCabeza(k), Hilo(k.colaNew[0], 0)))
  {
    CabezaNueva(k);
    hide SinDup, Creciente;
    var k' := EncolarReady(SinCabeza(k), Hilo(k.colaNew[0], 0));
    forall q | q in k'.procesos
      ensures PcbBien(k', q)
    {
      assert PcbBien(k, q);
    }
    forall q | q in k'.colaNew
      ensures EsNuevo(k', q)
    {
      assert EsNuevo(k, q);
    }
  }

  lemma AdmitidoLugares(k: K)
    requires Tabla(k) && Lugares(k) && k.colaNew != []
    ensures Lugares(EncolarReady(SinCabeza(k), Hilo(k.colaNew[0], 0)))
    ensures Hilo(k.colaNew[0], 0) !in k.colaReady && Hilo(k.colaNew[0], 0) !in k.colaBlocked
  {
    CabezaNueva(k);
    var h := Hilo(k.colaNew[0], 0);
    var k' := EncolarReady(SinCabeza(k), h);
    assert EnSuLugar(k, h);
    AgregarA(k.colaReady, h);
    hide SinDup, Tabla;
    forall x
      ensures EnSuLugar(k', x)
    {
      assert EnSuLugar(k, x);
      assert Activo(k', x) <==> Activo(k, x) || x == h;
    }
  }

  lemma AdmitidoProtocolo(k: K)
    requires Tabla(k) && Lugares(k) && Protocolo(k) && Duenios(k) && Bloqueados(k) && k.colaNew != []
    ensures var k' := EncolarReady(SinCabeza(k), Hilo(k.colaNew[0], 0)); Protocolo(k') && Duenios(k') && Bloqueados(k')
  {
    CabezaNueva(k);
    AdmitidoLugares(k);
    hide SinDup, Tabla, Ajenos, Lugares;
    var k' := EncolarReady(SinCabeza(k), Hilo(k.colaNew[0], 0));
    forall q | q in k'.procesos
      ensures MutexBien(k', q)
    {
      assert MutexBien(k, q);
      MutexSinTocar(k, k', q);
    }
    MueveDuenios(k, k');
    forall x
      ensures Clasificado(k', x)
    {
      assert Clasificado(k, x);
      EnListaIgual(k, k', x);
    }
  }

  /** No room now: the gate closes and the queue stays as it was. */
  lemma SinLugarConserva(k: K)
    requires Inv(k) && k.colaNew != []
    ensures Admitir(k, SIZE_ERROR) == k.(largoPlazo := false) && Inv(Admitir(k, SIZE_ERROR))
  {
    CabezaNueva(k);
    hide Inv;
    PuertaConserva(k, false);
  }

  /** The head is refused for good: it leaves the system and nobody else notices. */
  lemma RechazadoConserva(k: K, resp: Kernel.Respuesta)
    requires Inv(k) && k.colaNew != [] && (resp == MAX_SIZE_ERROR || resp == PATH_ERROR)
    ensures Inv(Admitir(k, resp))
    ensures Purgado(SinCabeza(k), Admitir(k, resp), k.colaNew[0])
  {
    CabezaNueva(k);
    var p, k1 := k.colaNew[0], SinCabeza(k);
    var k' := Admitir(k, resp);
    NuevoLocalizado(k, k1);
    assert !PurgaDisputada(k1, p, 0) by { SinMutexNoDisputa(k1, p); }
    hide Quitar, PurgaDisputada, Localizados;
    assert k' == LiberarPcb(k1, p);
    LiberarPcbPurga(k1, p);
    hide LiberarPcb, Admitir;
    RechazadoTabla(k, k');
    RechazadoLugares(k, k');
    RechazadoCola(k, k');
    RechazadoProtocolo(k, k');
  }

  lemma SinMutexNoDisputa(k: K, p: nat)
    requires Proceso(k, p).mutex == []
    ensures !PurgaDisputada(k, p, 0)
  {
  }

  lemma NuevoLocalizado(k: K, k1: K)
    requires Tabla(k) && Lugares(k) && k.colaNew != [] && k1 == SinCabeza(k)
    ensures Localizados(k1, k.colaNew[0]) && k.colaNew[0] in k1.procesos && SinDup(k1.procesos[k.colaNew[0]].threads)
  {
    CabezaNueva(k);
    hide Tabla, SinDup;
    forall x: Hilo | x.pid == k.colaNew[0]
      ensures x !in k.colaReady && x !in k.colaBlocked && k.exec != Some(x)
    {
      assert EnSuLugar(k, x);
    }
  }

  lemma SinCabezaTabla(k: K)
    requires Tabla(k) && k.colaNew != []
    ensures Tabla(SinCabeza(k)) && k.colaNew[0] !in SinCabeza(k).colaNew
  {
    CabezaNueva(k);
    hide SinDup, Creciente;
    var k' := SinCabeza(k);
    forall q | q in k'.procesos
      ensures PcbBien(k', q)
    {
      assert PcbBien(k, q);
    }
    forall q | q in k'.colaNew
      ensures EsNuevo(k', q)
    {
      assert EsNuevo(k, q);
    }
  }

  lemma RechazadoTabla(k: K, k': K)
    requires Tabla(k) && k.colaNew != [] && Purgado(SinCabeza(k), k', k.colaNew[0])
    ensures Tabla(k')
  {
    hide Tabla, Purgado;
    SinCabezaTabla(k);
    PurgaTabla(SinCabeza(k), k', k.colaNew[0]);
  }

  /** Nobody of a NEW process is in a queue. */
  lemma ColasSinNuevo(k: K)
    requires Lugares(k) && k.colaNew != []
    ensures var p := k.colaNew[0];
            && SinPid(k.colaReady, p) == k.colaReady && SinPid(k.colaBlocked, p) == k.colaBlocked
            && (k.exec.Some? ==> k.exec.value.pid != p)
  {
    var p := k.colaNew[0];
    hide SinDup;
    assert p in k.colaNew;
    forall x: Hilo | x.pid == p
      ensures x !in k.colaReady && x !in k.colaBlocked && k.exec != Some(x)
    {
      assert EnSuLugar(k, x);
    }
    SinPidNada(k.colaReady, p);
    SinPidNada(k.colaBlocked, p);
  }

  lemma RechazadoCola(k: K, k': K)
    requires Cola(k) && k.colaNew != [] && Purgado(SinCabeza(k), k', k.colaNew[0])
    ensures Cola(k')
  {
    ColaIgual(k, SinCabeza(k));
    hide Cola, Purgado;
    PurgaCola(SinCabeza(k), k', k.colaNew[0]);
  }

  lemma RechazadoActivo(k: K, k': K, x: Hilo)
    requires Tabla(k) && k.colaNew != [] && Purgado(SinCabeza(k), k', k.colaNew[0])
    ensures Activo(k', x) <==> Activo(k, x)
    ensures x.pid != k.colaNew[0] ==> Ficha(k', x) == Ficha(k, x)
    ensures Activo(k, x) ==> x.pid != k.colaNew[0]
  {
    CabezaNueva(k);
    hide Tabla, SinPid, Quitar, Creciente, PcbBien;
  }

  lemma RechazadoColas(k: K, k': K)
    requires Lugares(k) && k.colaNew != [] && Purgado(SinCabeza(k), k', k.colaNew[0])
    ensures k'.colaReady == k.colaReady && k'.colaBlocked == k.colaBlocked && k'.exec == k.exec
    ensures SinDup(k.colaReady) && SinDup(k.colaBlocked)
  {
    ColasSinNuevo(k);
    hide SinDup, SinPid, Quitar;
  }

  lemma RechazadoLugares(k: K, k': K)
    requires Tabla(k) && Lugares(k) && k.colaNew != [] && Purgado(SinCabeza(k), k', k.colaNew[0])
    ensures Lugares(k')
  {
    RechazadoColas(k, k');
    hide SinDup, Tabla, Purgado, Activo;
    forall x
      ensures EnSuLugar(k', x)
    {
      assert EnSuLugar(k, x);
      RechazadoActivo(k, k', x);
    }
  }

  lemma RechazadoProtocolo(k: K, k': K)
    requires Tabla(k) && Lugares(k) && Protocolo(k) && Duenios(k) && Bloqueados(k) && k.colaNew != []
    requires Purgado(SinCabeza(k), k', k.colaNew[0])
    ensures Protocolo(k') && Duenios(k') && Bloqueados(k')
  {
    RechazadoBloqueados(k, k');
    hide SinDup, Ajenos, Quitar, Tabla, SinPid, Lugares, EnCola;
    forall q | q in k'.procesos
      ensures MutexBien(k', q)
    {
      assert MutexBien(k, q);
      MutexSinTocar(k, k', q);
    }
    forall q, i | q in k'.procesos && 0 <= i < |k'.procesos[q].mutex|
      ensures DuenioVivo(k', q, k'.procesos[q].mutex[i])
    {
      assert DuenioVivo(k, q, k.procesos[q].mutex[i]);
    }
  }

  lemma RechazadoBloqueados(k: K, k': K)
    requires Lugares(k) && Bloqueados(k) && k.colaNew != [] && Purgado(SinCabeza(k), k', k.colaNew[0])
    ensures Bloqueados(k')
  {
    ColasSinNuevo(k);
    var p := k.colaNew[0];
    hide Quitar, SinPid, EnLista, Lugares;
    forall x
      ensures Clasificado(k', x)
    {
      assert Clasificado(k, x);
      if x.pid != p {
        ListaDeOtro(k, k', p, x);
      } else {
        FueraDeColas(k, x);
      }
    }
  }

  lemma FueraDeColas(k: K, x: Hilo)
    requires Lugares(k) && x.pid in k.colaNew
    ensures x !in k.colaReady && x !in k.colaBlocked && k.exec != Some(x)
  {
    assert EnSuLugar(k, x);
  }

  // ---- Any run ----

  /** When an event can happen. A thread that dies owns no contended mutex, a thread cancels nobody but
      itself, and a process that dies has no handler on its way back, and is not executing when a failed
      dump ends it. */
  ghost predicate Habilitado(k: K, op: Op) {
    match op
    case Despacho => k.exec == None && k.semReady > 0
    case FinEspera(h) => h in k.pendientes
    case DumpFallido(h) =>
      && h in k.pendientes && Ficha(k, h).motivo == BLOQUEO_POR_DUMP && !PurgaDisputada(k, h.pid, 0)
      && (forall x :: x in k.pendientes && x.pid == h.pid ==> x == h) && (k.exec.Some? ==> k.exec.value.pid != h.pid)
    case ProcessCreate(_, _) => true
    case Tic(_) => true
    case Admision(_) => k.largoPlazo && k.colaNew != []
    case Cancelar(t) => k.exec.Some? && SeCancelaSolo(k, k.exec.value, t)
    case FinHilo => k.exec.Some? && k.exec.value.tid != 0 && !DuenioDisputado(k, k.exec.value)
    case FinProceso =>
      && k.exec.Some? && !PurgaDisputada(k, k.exec.value.pid, 0)
      && forall x :: x in k.pendientes ==> x.pid != k.exec.value.pid
    case _ => k.exec.Some?
  }

  lemma InicialBien(pid: nat)
    ensures Inv(Inicial(pid))
  {
  }

  /** A thread that cancels itself is one that exits. */
  lemma CancelarEsSalir(k: K, alg: Algoritmo, tid: nat)
    requires Inv(k) && Habilitado(k, Cancelar(tid))
    ensures k.exec.Some? && Habilitado(k, FinHilo) && Paso(k, alg, Cancelar(tid)) == ThreadExit(k, k.exec.value)
  {
    hide Inv, DuenioDisputado, ThreadExit, Cancelado;
    CancelarseEsSalir(k, k.exec.value, tid);
  }

  /** Every event keeps the invariant. */
  lemma PasoConserva(k: K, alg: Algoritmo, op: Op)
    requires Inv(k) && Habilitado(k, op)
    ensures Inv(Paso(k, alg, op))
  {
    hide Inv, Despachar, Volver, IniciarProceso, FallarDump, Admitir;
    match op
    case Despacho => DespachoConserva(k, alg);
    case FinEspera(h) => VolverConserva(k, h);
    case DumpFallido(h) => DumpFallidoConserva(k, h);
    case ProcessCreate(n, p) => IniciarConserva(k, n, p);
    case Admision(r) => AdmisionConserva(k, r);
    case Tic(n) => TicConserva(k, n);
    case _ =>
      hide Paso, Habilitado;
      DelEjecutorConserva(k, alg, op);
  }

  /** What the thread that executes asks for, or suffers. */
  predicate DelEjecutor(op: Op) {
    !op.Despacho? && !op.FinEspera? && !op.DumpFallido? && !op.ProcessCreate? && !op.Admision? && !op.Tic?
  }

  lemma DelEjecutorConserva(k: K, alg: Algoritmo, op: Op)
    requires Inv(k) && Habilitado(k, op) && DelEjecutor(op)
    ensures Inv(Paso(k, alg, op))
  {
    hide Inv, Interrumpir, PedirIO, PedirDump, CrearHilo, ThreadJoin, MutexCreate, MutexLock, MutexUnlock, ThreadExit,
      ProcessExit, Cancelado, DuenioDisputado, PurgaDisputada;
    match op
    case Interrupcion => InterrupcionConserva(k, k.exec.value);
    case PeticionIO => EsperaConserva(k, k.exec.value, IO); BloqueoDe(k, k.exec.value);
    case DumpMemory => EsperaConserva(k, k.exec.value, BLOQUEO_POR_DUMP); BloqueoDe(k, k.exec.value);
    case ThreadCreate(p) => CrearHiloConserva(k, k.exec.value, p);
    case Join(t) => JoinConserva(k, k.exec.value, t);
    case MutexNuevo(n) => MutexCreateConserva(k, k.exec.value, n);
    case Lock(n) => LockConserva(k, k.exec.value, n);
    case Unlock(n) => UnlockConserva(k, k.exec.value, n);
    case Cancelar(t) => CancelarEsSalir(k, alg, t); ThreadExitConserva(k, k.exec.value);
    case FinHilo => ThreadExitConserva(k, k.exec.value);
    case FinProceso => ProcessExitConserva(k, k.exec.value);
  }

  lemma BloqueoDe(k: K, h: Hilo)
    ensures PedirIO(k, h) == Bloquear(k, h, IO).(pendientes := k.pendientes + {h})
    ensures PedirDump(k, h) == Bloquear(k, h, BLOQUEO_POR_DUMP).(pendientes := k.pendientes + {h})
  {
  }

  /** The process an event ends. */
  ghost function Termina(k: K, op: Op): Option<nat> {
    if op.FinProceso? && k.exec.Some? then Some(k.exec.value.pid) else if op.DumpFallido? then Some(op.h.pid) else None
  }

  /** Whichever event ends a process, its threads leave every queue, the gate opens, and nobody else
      notices. */
  lemma TerminaPurga(k: K, alg: Algoritmo, op: Op)
    requires Inv(k) && Habilitado(k, op) && Termina(k, op).Some?
    ensures var k' := Paso(k, alg, op);
            && k'.largoPlazo && k'.pendientes <= k.pendientes
            && Purgado(k.(pendientes := k'.pendientes, largoPlazo := true), k', Termina(k, op).value)
            && (forall x: Hilo :: x.pid == Termina(k, op).value ==> !EnCola(k', x))
  {
    hide PurgaDisputada, ProcessExit, FallarDump, Purgado;
    if op.FinProceso? {
      ProcessExitPurga(k, k.exec.value);
      PurgadoAbierto(k, ProcessExit(k, k.exec.value), k.exec.value.pid);
    } else {
      DumpFallidoConserva(k, op.h);
    }
  }

  lemma AdmisionConserva(k: K, r: Kernel.Respuesta)
    requires Inv(k) && k.colaNew != []
    ensures Inv(Admitir(k, r))
  {
    hide Inv;
    match r
    case SUCCESS => AdmitidoConserva(k);
    case SIZE_ERROR => SinLugarConserva(k);
    case MAX_SIZE_ERROR => RechazadoConserva(k, r);
    case PATH_ERROR => RechazadoConserva(k, r);
  }

  ghost function Correr(k: K, alg: Algoritmo, ops: seq<Op>): K
    decreases |ops|
  {
    if ops == [] then k else Correr(Paso(k, alg, ops[0]), alg, ops[1..])
  }

  ghost predicate Valida(k: K, alg: Algoritmo, ops: seq<Op>)
    decreases |ops|
  {
    ops == [] || (Habilitado(k, ops[0]) && Valida(Paso(k, alg, ops[0]), alg, ops[1..]))
  }

  lemma {:induction false} CorridaConserva(k: K, alg: Algoritmo, ops: seq<Op>)
    requires Inv(k) && Valida(k, alg, ops)
    ensures Inv(Correr(k, alg, ops))
    decreases |ops|
  {
    hide Inv, Paso, Habilitado;
    if ops == [] {
    } else {
      PasoConserva(k, alg, ops[0]);
      CorridaConserva(Paso(k, alg, ops[0]), alg, ops[1..]);
    }
  }

  ghost function Veces(s: seq<Hilo>, h: Hilo): nat {
    multiset(s)[h]
  }

  lemma {:induction false} VecesDe(s: seq<Hilo>, h: Hilo)
    requires SinDup(s)
    ensures Veces(s, h) == if h in s then 1 else 0
  {
    if s == [] {
    } else {
      VecesDe(s[1..], h);
      assert s == [s[0]] + s[1..];
      assert s[0] !in s[1..];
    }
  }

  /** In every reachable state each thread of an admitted process is in exactly one place, once, the one
      its record says; and no other thread is anywhere. */
  lemma UnSoloLugar(pid: nat, alg: Algoritmo, ops: seq<Op>, h: Hilo)
    requires Valida(Inicial(pid), alg, ops)
    ensures var k := Correr(Inicial(pid), alg, ops);
            && Veces(k.colaReady, h) + Veces(k.colaBlocked, h) + (if k.exec == Some(h) then 1 else 0)
               == (if Activo(k, h) then 1 else 0)
            && (Activo(k, h) ==> match Ficha(k, h).estado
                                 case READY => h in k.colaReady
                                 case BLOCKED => h in k.colaBlocked
                                 case EXEC => k.exec == Some(h))
  {
    InicialBien(pid);
    CorridaConserva(Inicial(pid), alg, ops);
    var k := Correr(Inicial(pid), alg, ops);
    assert EnSuLugar(k, h);
    VecesDe(k.colaReady, h);
    VecesDe(k.colaBlocked, h);
  }

  /** In every reachable state the semaphores cover the queues, so the scheduler never sleeps on a ready
      thread and the admission loop never looks at the head of an empty queue. */
  lemma SemaforosCubren(pid: nat, alg: Algoritmo, ops: seq<Op>)
    requires Valida(Inicial(pid), alg, ops)
    ensures var k := Correr(Inicial(pid), alg, ops);
            k.semReady >= |k.colaReady| && k.semNew == |k.colaNew| && (k.semNew > 0 ==> k.colaNew != [])
  {
    InicialBien(pid);
    CorridaConserva(Inicial(pid), alg, ops);
  }

  /** In every reachable state a dispatch takes exactly the first thread of the most urgent class (the
      first of all under FIFO) and leaves the others in their order. */
  lemma DespachoEnCorrida(pid: nat, alg: Algoritmo, ops: seq<Op>)
    requires Valida(Inicial(pid), alg, ops)
    requires var k := Correr(Inicial(pid), alg, ops); k.exec == None && k.colaReady != []
    ensures var k := Correr(Inicial(pid), alg, ops);
            exists m :: && 0 <= m < |k.colaReady| && (if alg == FIFO then m == 0 else PrimeroMasUrgente(Listos(k), m))
                        && Paso(k, alg, Despacho).exec == Some(k.colaReady[m])
                        && Paso(k, alg, Despacho).colaReady == Sin(k.colaReady, m)
  {
    InicialBien(pid);
    CorridaConserva(Inicial(pid), alg, ops);
    var k := Correr(Inicial(pid), alg, ops);
    hide Correr, Valida, SinDup;
    var m := Eleccion(alg, Listos(k), k.reloj);
    if alg != FIFO {
      EligePrimeroMasUrgente(alg, Listos(k), k.reloj);
    }
    assert Paso(k, alg, Despacho).exec == Some(k.colaReady[m]);
  }

  /** A dump blocks with the reason of a mutex: a blocked thread with that reason waits for a mutex exactly
      when no handler is to come back for it. */
  lemma MotivoMutexSiYSoloSi(pid: nat, alg: Algoritmo, ops: seq<Op>, h: Hilo)
    requires Valida(Inicial(pid), alg, ops)
    requires var k := Correr(Inicial(pid), alg, ops); h in k.colaBlocked && Ficha(k, h).motivo == MUTEX
    ensures var k := Correr(Inicial(pid), alg, ops); EnLista(k, h) <==> h !in k.pendientes
  {
    InicialBien(pid);
    CorridaConserva(Inicial(pid), alg, ops);
    var k := Correr(Inicial(pid), alg, ops);
    hide Correr, Valida, EnLista, Ficha;
    assert Clasificado(k, h);
  }

  /** In every reachable state the mutex protocol holds: a free mutex has no waiters, a taken one
      belongs to a live thread, and a waiter is blocked for it, in that list only and once. */
  lemma MutexEnCorrida(pid: nat, alg: Algoritmo, ops: seq<Op>, p: nat, i: nat)
    requires Valida(Inicial(pid), alg, ops)
    requires var k := Correr(Inicial(pid), alg, ops); p in k.procesos && i < |k.procesos[p].mutex|
    ensures var k := Correr(Inicial(pid), alg, ops);
            var ms := k.procesos[p].mutex;
            && (ms[i].owner == -1 ==> ms[i].hilos == [])
            && (ms[i].owner != -1 ==> ms[i].owner >= 0 && ms[i].owner as nat in k.procesos[p].threads)
            && SinDup(ms[i].hilos)
            && (forall t :: t in ms[i].hilos ==>
                  && t in k.procesos[p].threads && Ficha(k, Hilo(p, t)).estado == BLOCKED
                  && Ficha(k, Hilo(p, t)).motivo == MUTEX
                  && forall j :: 0 <= j < |ms| && j != i ==> t !in ms[j].hilos)
  {
    InicialBien(pid);
    CorridaConserva(Inicial(pid), alg, ops);
    var k := Correr(Inicial(pid), alg, ops);
    hide Correr, Valida, SinDup;
    var ms := k.procesos[p].mutex;
    assert MutexBien(k, p) && RecursoBien(k, p, ms[i]) && DuenioVivo(k, p, ms[i]);
    forall t | t in ms[i].hilos
      ensures Esperando(k, Hilo(p, t)) && forall j :: 0 <= j < |ms| && j != i ==> t !in ms[j].hilos
    {
      assert Esperando(k, Hilo(p, t));
      forall j | 0 <= j < |ms| && j != i
        ensures t !in ms[j].hilos
      {
        if j < i { assert Ajenos(ms[j], ms[i]); } else { assert Ajenos(ms[i], ms[j]); }
      }
    }
  }

  // ---- Mutexes are handed over in order of arrival ----

  /** The thread the event adds to the waiters of mutex i of process p. */
  ghost function Llega(k: K, op: Op, p: nat, i: nat): seq<nat> {
    if op.Lock? && k.exec.Some? && k.exec.value.pid == p && BuscarRecurso(Proceso(k, p).mutex, op.nombre) == Some(i)
       && Proceso(k, p).mutex[i].owner != -1
    then [k.exec.value.tid] else []
  }

  /** The thread the event gives the mutex to. */
  ghost function Sirve(k: K, op: Op, p: nat, i: nat): seq<nat> {
    if op.Unlock? && k.exec.Some? && k.exec.value.pid == p && BuscarRecurso(Proceso(k, p).mutex, op.nombre) == Some(i)
       && Proceso(k, p).mutex[i].owner == k.exec.value.tid && Proceso(k, p).mutex[i].hilos != []
    then [Proceso(k, p).mutex[i].hilos[0]] else []
  }

  ghost predicate Tiene(k: K, p: nat, i: nat) {
    p in k.procesos && i < |k.procesos[p].mutex|
  }

  /** Events that leave the processes and the NEW queue alone. */
  ghost predicate MismaBase(k: K, k': K) {
    k'.procesos == k.procesos && k'.colaNew == k.colaNew && k'.pidCounter == k.pidCounter
  }

  lemma BaseDespacho(k: K, alg: Algoritmo)
    ensures MismaBase(k, Despachar(k, alg))
  {
    hide Eleccion;
  }

  lemma BaseReady(k: K, h: Hilo)
    ensures MismaBase(k, EncolarReady(Desencolar(k, h), h))
  {
    hide Quitar;
  }

  lemma BaseBloquear(k: K, h: Hilo, m: MotivoBloqueo)
    ensures MismaBase(k, Bloquear(k, h, m))
  {
    hide Quitar;
  }

  lemma BaseJoin(k: K, h: Hilo, t: nat)
    ensures MismaBase(k, ThreadJoin(k, h, t))
  {
    hide Quitar;
  }

  lemma BaseQuieta(k: K, alg: Algoritmo, op: Op)
    requires op.Despacho? || op.Interrupcion? || op.PeticionIO? || op.DumpMemory? || op.FinEspera?
             || op.Join? || op.Tic?
    ensures MismaBase(k, Paso(k, alg, op))
  {
    hide Despachar, EncolarReady, Desencolar, Bloquear, ThreadJoin;
    if op.Despacho? {
      BaseDespacho(k, alg);
    } else if op.FinEspera? {
      BaseReady(k, op.h);
    } else if !op.Tic? && k.exec.Some? {
      BaseReady(k, k.exec.value);
      BaseBloquear(k, k.exec.value, if op.PeticionIO? then IO else BLOQUEO_POR_DUMP);
      BaseJoin(k, k.exec.value, if op.Join? then op.tid else 0);
    }
  }

  ghost predicate FilaBien(k: K, k': K, op: Op, p: nat, i: nat)
    requires Tiene(k, p, i)
  {
    && Tiene(k', p, i) && Sirve(k, op, p, i) + k'.procesos[p].mutex[i].hilos
       == k.procesos[p].mutex[i].hilos + Llega(k, op, p, i)
    && (Sirve(k, op, p, i) != [] ==> k'.procesos[p].mutex[i].owner == Sirve(k, op, p, i)[0])
  }

  lemma FilaLock(k: K, h: Hilo, nombre: string, p: nat, i: nat)
    requires k.exec == Some(h) && h.pid in k.procesos && Tiene(k, p, i)
    ensures FilaBien(k, MutexLock(k, h, nombre), Lock(nombre), p, i)
  {
    BaseBloquear(k, h, MUTEX);
    hide Bloquear, BuscarRecurso;
  }

  lemma FilaUnlock(k: K, h: Hilo, nombre: string, p: nat, i: nat)
    requires k.exec == Some(h) && h.pid in k.procesos && Tiene(k, p, i)
    ensures FilaBien(k, MutexUnlock(k, h, nombre), Unlock(nombre), p, i)
  {
    var ms := Proceso(k, h.pid).mutex;
    var b := BuscarRecurso(ms, nombre);
    if b.Some? && ms[b.value].owner == h.tid && ms[b.value].hilos != [] {
      var j := b.value;
      var nuevo := ms[j].hilos[0];
      BaseReady(ConMutex(k, h.pid, j, ms[j].(owner := nuevo, hilos := ms[j].hilos[1..])), Hilo(h.pid, nuevo));
    }
    hide BuscarRecurso, EncolarReady, Desencolar;
  }

  lemma UnlockNoEncola(k: K, h: Hilo, nombre: string)
    ensures MutexUnlock(k, h, nombre).colaNew == k.colaNew && MutexUnlock(k, h, nombre).pidCounter == k.pidCounter
  {
    hide BuscarRecurso, Quitar;
  }

  lemma LockNoEncola(k: K, h: Hilo, nombre: string)
    ensures MutexLock(k, h, nombre).colaNew == k.colaNew && MutexLock(k, h, nombre).pidCounter == k.pidCounter
  {
    hide BuscarRecurso, Quitar;
  }

  lemma FilaCrear(k: K, h: Hilo, nombre: string, prioridad: nat, p: nat, i: nat)
    requires k.exec == Some(h) && h.pid in k.procesos && Tiene(k, p, i)
    ensures FilaBien(k, MutexCreate(k, h, nombre), MutexNuevo(nombre), p, i)
    ensures FilaBien(k, CrearHilo(k, h, prioridad), ThreadCreate(prioridad), p, i)
  {
  }

  lemma FilaAlMorir(k: K, h: Hilo, p: nat, i: nat)
    requires k.exec == Some(h) && h.pid in k.procesos && Tiene(k, p, i) && !DuenioDisputado(k, h)
    requires Ficha(k, h).estado == EXEC
    ensures var k' := ThreadExit(k, h); Tiene(k', p, i) && k'.procesos[p].mutex[i].hilos == k.procesos[p].mutex[i].hilos
  {
    var k2 := DespertarDesde(Muerto(k, h), h, 0);
    MismaTablaAlDespertar(Muerto(k, h), h);
    assert ThreadExit(k, h) == SoltarDesde(k2, h, 0).(tcbs := SoltarDesde(k2, h, 0).tcbs - {h});
    hide DuenioDisputado, DespertarDesde, SoltarDesde, Quitar, ThreadExit;
    MismosDisputados(k, k2, h);
    SoltarLibres(k2, h, 0);
  }

  lemma FilaSinLlamadas(k: K, k': K, op: Op, p: nat, i: nat)
    requires !op.Lock? && !op.Unlock? && Tiene(k, p, i) && p in k'.procesos && i < |k'.procesos[p].mutex|
    requires k'.procesos[p].mutex[i].hilos == k.procesos[p].mutex[i].hilos
    ensures FilaBien(k, k', op, p, i)
  {
  }

  lemma ActivoEnEjecucion(k: K)
    requires Inv(k) && k.exec.Some?
    ensures k.exec.value.pid in k.procesos && Ficha(k, k.exec.value).estado == EXEC
  {
    EnEjecucion(k, k.exec.value);
  }

  /** One event: whoever is served was first, and whoever arrives goes last. */
  lemma FilaEnUnPaso(k: K, alg: Algoritmo, op: Op, p: nat, i: nat)
    requires Inv(k) && Habilitado(k, op) && Tiene(k, p, i) && p in Paso(k, alg, op).procesos
    ensures FilaBien(k, Paso(k, alg, op), op, p, i)
  {
    hide Despachar, Interrumpir, PedirIO, PedirDump, Volver, CrearHilo, ThreadJoin, MutexCreate, MutexLock, MutexUnlock,
      ThreadExit, ProcessExit, FallarDump, Cancelado, Admitir, DuenioDisputado, PurgaDisputada, Inv, FilaBien,
      IniciarProceso, Ficha;
    var k' := Paso(k, alg, op);
    if k.exec.Some? { ActivoEnEjecucion(k); }
    if op.Lock? {
      FilaLock(k, k.exec.value, op.nombre, p, i);
    } else if op.Unlock? {
      FilaUnlock(k, k.exec.value, op.nombre, p, i);
    } else if op.MutexNuevo? {
      FilaCrear(k, k.exec.value, op.nombre, 0, p, i);
    } else if op.ThreadCreate? {
      FilaCrear(k, k.exec.value, [], op.prioridad, p, i);
    } else {
      if op.FinHilo? || op.Cancelar? {
        if op.Cancelar? { CancelarEsSalir(k, alg, op.tid); }
        FilaAlMorir(k, k.exec.value, p, i);
      } else if op.FinProceso? || op.DumpFallido? {
        FilaAlSalir(k, alg, op, p, i);
      } else if op.Admision? {
        FilaAlAdmitir(k, op.resp, p, i);
      } else if op.ProcessCreate? {
        FilaAlIniciar(k, op.tamanio, op.prioridad, p, i);
      } else {
        BaseQuieta(k, alg, op);
      }
      FilaSinLlamadas(k, k', op, p, i);
    }
  }

  lemma FilaAlIniciar(k: K, tamanio: nat, prioridad: nat, p: nat, i: nat)
    requires Inv(k) && Tiene(k, p, i)
    ensures p in IniciarProceso(k, tamanio, prioridad).procesos
    ensures IniciarProceso(k, tamanio, prioridad).procesos[p] == k.procesos[p]
  {
    PidsMenores(k, p);
  }

  lemma FilaAlSalir(k: K, alg: Algoritmo, op: Op, p: nat, i: nat)
    requires Inv(k) && Habilitado(k, op) && Termina(k, op).Some? && Tiene(k, p, i) && p in Paso(k, alg, op).procesos
    ensures Paso(k, alg, op).procesos[p] == k.procesos[p]
  {
    TerminaPurga(k, alg, op);
    hide Inv, Paso, Habilitado, SinPid, Quitar;
  }

  lemma FilaAlAdmitir(k: K, r: Kernel.Respuesta, p: nat, i: nat)
    requires Inv(k) && k.colaNew != [] && Tiene(k, p, i) && p in Admitir(k, r).procesos
    ensures Admitir(k, r).procesos[p] == k.procesos[p]
  {
    if r == MAX_SIZE_ERROR || r == PATH_ERROR {
      RechazadoConserva(k, r);
      hide Inv, Admitir, SinPid, Quitar;
    } else if r == SUCCESS {
      AdmitidoConserva(k);
    }
  }

  /** The mutex exists in every state of the run. */
  ghost predicate Dura(k: K, alg: Algoritmo, ops: seq<Op>, p: nat)
    decreases |ops|
  {
    p in k.procesos && (ops == [] || Dura(Paso(k, alg, ops[0]), alg, ops[1..], p))
  }

  ghost function Llegados(k: K, alg: Algoritmo, ops: seq<Op>, p: nat, i: nat): seq<nat>
    decreases |ops|
  {
    if ops == [] then [] else Llega(k, ops[0], p, i) + Llegados(Paso(k, alg, ops[0]), alg, ops[1..], p, i)
  }

  ghost function Servidos(k: K, alg: Algoritmo, ops: seq<Op>, p: nat, i: nat): seq<nat>
    decreases |ops|
  {
    if ops == [] then [] else Sirve(k, ops[0], p, i) + Servidos(Paso(k, alg, ops[0]), alg, ops[1..], p, i)
  }

  /** First come, first served, over any run: those handed the mutex followed by those still waiting are
      those waiting at the start followed by those who came, in that order. Nobody is overtaken. */
  lemma {:induction false} OrdenDeLlegada(k: K, alg: Algoritmo, ops: seq<Op>, p: nat, i: nat)
    requires Inv(k) && Valida(k, alg, ops) && Tiene(k, p, i) && Dura(k, alg, ops, p)
    ensures var k' := Correr(k, alg, ops);
            && Tiene(k', p, i)
            && Servidos(k, alg, ops, p, i) + k'.procesos[p].mutex[i].hilos
               == k.procesos[p].mutex[i].hilos + Llegados(k, alg, ops, p, i)
    decreases |ops|
  {
    hide Inv, Paso, Habilitado, Llega, Sirve;
    if ops == [] {
      assert Servidos(k, alg, ops, p, i) == [] && Llegados(k, alg, ops, p, i) == [];
    } else {
      var k1 := Paso(k, alg, ops[0]);
      FilaEnUnPaso(k, alg, ops[0], p, i);
      PasoConserva(k, alg, ops[0]);
      OrdenDeLlegada(k1, alg, ops[1..], p, i);
      var s, l := Sirve(k, ops[0], p, i), Llega(k, ops[0], p, i);
      var ss, ls := Servidos(k1, alg, ops[1..], p, i), Llegados(k1, alg, ops[1..], p, i);
      Asociar(s, ss, Correr(k, alg, ops).procesos[p].mutex[i].hilos);
      Asociar(s, k1.procesos[p].mutex[i].hilos, ls);
      Asociar(k.procesos[p].mutex[i].hilos, l, ls);
    }
  }

  // ---- Processes leave NEW in order of creation ----

  ghost function Sale(k: K, op: Op): seq<nat> {
    if op.Admision? && k.colaNew != [] && op.resp != SIZE_ERROR then [k.colaNew[0]] else []
  }

  ghost function Salidos(k: K, alg: Algoritmo, ops: seq<Op>): seq<nat>
    decreases |ops|
  {
    if ops == [] then [] else Sale(k, ops[0]) + Salidos(Paso(k, alg, ops[0]), alg, ops[1..])
  }

  lemma {:induction false} DespertarNoEncola(k: K, h: Hilo, i: nat)
    ensures DespertarDesde(k, h, i).colaNew == k.colaNew && DespertarDesde(k, h, i).pidCounter == k.pidCounter
    decreases |k.colaBlocked| - i
  {
    if i < |k.colaBlocked| {
      var x := k.colaBlocked[i];
      DespertarNoEncola(if EsperaA(k, x, h) then Despertar(k, x) else k, h, i + 1);
    }
  }

  lemma MuereSinEncolar(k: K, h: Hilo)
    requires Lugares(k) && k.exec == Some(h)
    ensures ThreadExit(k, h).colaNew == k.colaNew && ThreadExit(k, h).pidCounter == k.pidCounter
  {
    ThreadExitPorPartes(k, h);
    DespertarNoEncola(Muerto(k, h), h, 0);
    SoltarNoEncola(DespertarDesde(Muerto(k, h), h, 0), h, 0);
  }

  lemma SaleSinEncolar(k: K, alg: Algoritmo, op: Op)
    requires Inv(k) && Habilitado(k, op) && Termina(k, op).Some?
    ensures Paso(k, alg, op).colaNew == k.colaNew && Paso(k, alg, op).pidCounter == k.pidCounter
  {
    TerminaPurga(k, alg, op);
    hide Inv, Paso, Habilitado, SinPid, Quitar;
  }

  /** The NEW queue only loses its head and only gains the process just created. */
  lemma NuevosEnUnPaso(k: K, alg: Algoritmo, op: Op)
    requires Inv(k) && Habilitado(k, op)
    ensures var k' := Paso(k, alg, op);
            && Sale(k, op) + k'.colaNew == k.colaNew + (if op.ProcessCreate? then [k.pidCounter] else [])
            && k'.pidCounter == k.pidCounter + (if op.ProcessCreate? then 1 else 0)
  {
    hide Despachar, Interrumpir, PedirIO, PedirDump, Volver, ThreadJoin, MutexLock, MutexUnlock,
      ThreadExit, ProcessExit, FallarDump, Cancelado, Admitir, DuenioDisputado, PurgaDisputada;
    if op.FinHilo? || op.Cancelar? {
      if op.Cancelar? { CancelarEsSalir(k, alg, op.tid); }
      MuereSinEncolar(k, k.exec.value);
    } else if op.FinProceso? || op.DumpFallido? {
      SaleSinEncolar(k, alg, op);
    } else if op.Admision? {
      NuevosAlAdmitir(k, op.resp);
    } else if op.Lock? {
      LockNoEncola(k, k.exec.value, op.nombre);
    } else if op.Unlock? {
      UnlockNoEncola(k, k.exec.value, op.nombre);
    } else if !op.MutexNuevo? && !op.ThreadCreate? && !op.ProcessCreate? {
      BaseQuieta(k, alg, op);
    }
  }

  lemma NuevosAlAdmitir(k: K, r: Kernel.Respuesta)
    requires Inv(k) && k.colaNew != []
    ensures var k' := Admitir(k, r);
            k'.pidCounter == k.pidCounter && (if r == SIZE_ERROR then [] else [k.colaNew[0]]) + k'.colaNew == k.colaNew
  {
    hide Inv, Admitir;
    match r
    case SUCCESS => AdmitidoConserva(k);
    case SIZE_ERROR => SinLugarConserva(k);
    case _ => RechazadoConserva(k, r);
  }

  /** s leaves the queue k.colaNew, and r is what leaves later and what stays. */
  lemma OrdenAlSalir(k: K, k1: K, s: seq<nat>, nuevos: seq<nat>, r: seq<nat>)
    requires Inv(k) && s + k1.colaNew == k.colaNew + nuevos && Creciente(r)
    requires s == [] || (k.colaNew != [] && s == [k.colaNew[0]] && nuevos == [])
    requires nuevos == [] || nuevos == [k.pidCounter]
    requires k1.pidCounter >= k.pidCounter && forall q :: q in r ==> q in k1.colaNew || q >= k1.pidCounter
    ensures Creciente(s + r) && forall q :: q in s + r ==> q in k.colaNew || q >= k.pidCounter
  {
    forall q | q in k1.colaNew
      ensures q in k.colaNew || q >= k.pidCounter
    {
      assert q in s + k1.colaNew;
      assert q in k.colaNew + nuevos;
    }
    if s == [] {
      assert s + r == r;
    } else {
      assert k1.colaNew == k.colaNew[1..] by { assert k.colaNew == s + k1.colaNew; }
      PidsMenores(k, k.colaNew[0]);
      hide Tabla;
      assert Creciente(k.colaNew) by { ColaNewCreciente(k); }
      MenorQueTodos(k, s, r);
    }
  }

  lemma ColaNewCreciente(k: K)
    requires Inv(k)
    ensures Creciente(k.colaNew)
  {
  }

  /** Over any run processes leave NEW in increasing order of pid, each before every one still there. */
  lemma {:induction false} SalenEnOrden(k: K, alg: Algoritmo, ops: seq<Op>)
    requires Inv(k) && Valida(k, alg, ops)
    ensures Creciente(Salidos(k, alg, ops) + Correr(k, alg, ops).colaNew)
    ensures forall q :: q in Salidos(k, alg, ops) + Correr(k, alg, ops).colaNew ==> q in k.colaNew || q >= k.pidCounter
    decreases |ops|
  {
    hide Paso, Habilitado, Inv, Sale, Creciente;
    if ops == [] {
      assert Salidos(k, alg, ops) + k.colaNew == k.colaNew;
      ColaNewCreciente(k);
    } else {
      var k1 := Paso(k, alg, ops[0]);
      NuevosEnUnPaso(k, alg, ops[0]);
      PasoConserva(k, alg, ops[0]);
      SalenEnOrden(k1, alg, ops[1..]);
      var s, r := Sale(k, ops[0]), Salidos(k1, alg, ops[1..]) + Correr(k1, alg, ops[1..]).colaNew;
      Asociar(s, Salidos(k1, alg, ops[1..]), Correr(k1, alg, ops[1..]).colaNew);
      QuienSale(k, ops[0]);
      OrdenAlSalir(k, k1, s, if ops[0].ProcessCreate? then [k.pidCounter] else [], r);
    }
  }

  lemma QuienSale(k: K, op: Op)
    ensures Sale(k, op) == [] || (k.colaNew != [] && Sale(k, op) == [k.colaNew[0]] && !op.ProcessCreate?)
  {
  }

  /** The head of an increasing queue is smaller than what follows and than any later pid. */
  lemma MenorQueTodos(k: K, s: seq<nat>, r: seq<nat>)
    requires k.colaNew != [] && s == [k.colaNew[0]] && Creciente(k.colaNew) && Creciente(r)
    requires k.colaNew[0] < k.pidCounter
    requires forall q :: q in r ==> q in k.colaNew[1..] || q >= k.pidCounter
    ensures Creciente(s + r)
  {
    forall j | 0 <= j < |r|
      ensures s[0] < r[j]
    {
      assert r[j] in r;
      if r[j] in k.colaNew[1..] {
        var i :| 0 <= i < |k.colaNew[1..]| && k.colaNew[1..][i] == r[j];
        assert k.colaNew[0] < k.colaNew[i + 1];
      }
    }
  }
}
