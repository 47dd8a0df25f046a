/** What single events of the kernel leave, in terms of queues, tokens and records: the count of the ready
    semaphore, who is dispatched, who inherits a mutex, and what a refusal of the memory loses.
    Sources: kernel/src/utils.c, syscalls.c and planificador_corto_plazo.c. */
module Efectos {
  import opened Listas
  import opened Opcion
  import opened Planificacion
  import opened Kernel
  import opened Invariantes
  import opened Bloqueos
  import opened Salidas
  import opened FinDeProceso
  import opened Cancelacion
  import opened Corridas

  // ---- Tokens of the ready semaphore ----

  /** Tokens beyond one for each ready thread. */
  ghost function Vales(k: K): int {
    k.semReady - |k.colaReady|
  }

  /** How an event changes them: a dispatch of an empty queue uses one up, and the end of a process leaves
      one for each of its threads that was ready. Every other event posts exactly as often as it enqueues. */
  ghost function Sobran(k: K, op: Op): int {
    match Termina(k, op)
    case Some(p) => |k.colaReady| - |SinPid(k.colaReady, p)|
    case None => if op.Despacho? && k.colaReady == [] then -1 else 0
  }

  lemma ReponerVales(k: K, h: Hilo)
    requires Ficha(k, h).estado != READY
    ensures Vales(EncolarReady(Desencolar(k, h), h)) == Vales(k)
  {
    hide Quitar;
  }

  lemma DespertarVales(k: K, h: Hilo)
    requires Ficha(k, h).estado == BLOCKED
    ensures Vales(Despertar(k, h)) == Vales(k)
  {
    ReponerVales(ConFicha(k, h, Ficha(k, h).(bloqueador := -1, motivo := NONE)), h);
    hide Quitar;
  }

  lemma {:induction false} DespertarDesdeVales(k: K, muerto: Hilo, i: nat)
    requires SoloBloqueados(k)
    ensures Vales(DespertarDesde(k, muerto, i)) == Vales(k)
    decreases |k.colaBlocked| - i
  {
    hide Despertar, Vales;
    if i < |k.colaBlocked| {
      var h := k.colaBlocked[i];
      DespertarUno(k, i);
      assert Ficha(k, h).estado == BLOCKED;
      hide SoloBloqueados;
      DespertarVales(k, h);
      DespertarDesdeVales(if EsperaA(k, h, muerto) then Despertar(k, h) else k, muerto, i + 1);
    }
  }

  lemma SalidaVales(k: K, h: Hilo)
    requires Inv(k) && k.exec == Some(h) && h.tid != 0 && !DuenioDisputado(k, h)
    ensures Vales(ThreadExit(k, h)) == Vales(k)
  {
    BloqueadosSolos(k);
    MismosSolos(k, Muerto(k, h));
    DespertarDesdeVales(Muerto(k, h), h, 0);
    hide Inv, DuenioDisputado, SoloBloqueados, DespertarDesde, ThreadExit;
    PartesDeSalida(k, h);
  }

  lemma DespachoVales(k: K, alg: Algoritmo)
    requires k.semReady > 0
    ensures Vales(Despachar(k, alg)) == Vales(k) - if k.colaReady == [] then 1 else 0
  {
    hide Eleccion;
  }

  /** The two calls that may hand a thread its turn, or take the caller's. */
  lemma MutexVales(k: K, h: Hilo, nombre: string)
    requires Inv(k) && k.exec == Some(h)
    ensures Vales(MutexLock(k, h, nombre)) == Vales(k) && Vales(MutexUnlock(k, h, nombre)) == Vales(k)
  {
    hide Inv, Quitar, BuscarRecurso;
    Ejecutando(k, h);
    var ms := Proceso(k, h.pid).mutex;
    if BuscarRecurso(ms, nombre).Some? {
      var i := BuscarRecurso(ms, nombre).value;
      if ms[i].hilos != [] {
        EsperaDelPrimero(k, h.pid, i);
      }
    }
  }

  lemma Ejecutando(k: K, h: Hilo)
    requires Inv(k) && k.exec == Some(h)
    ensures Ficha(k, h).estado == EXEC
  {
    EnEjecucion(k, h);
  }

  lemma EsperaDelPrimero(k: K, p: nat, i: nat)
    requires Inv(k) && i < |Proceso(k, p).mutex| && Proceso(k, p).mutex[i].hilos != []
    ensures Ficha(k, Hilo(p, Proceso(k, p).mutex[i].hilos[0])).estado == BLOCKED
  {
    var t := Proceso(k, p).mutex[i].hilos[0];
    assert p in k.procesos && t in k.procesos[p].mutex[i].hilos;
    assert EnLista(k, Hilo(p, t));
    FueraDeListas(k, Hilo(p, t));
  }

  lemma RetiroVales(k: K, alg: Algoritmo, op: Op)
    requires Inv(k) && Habilitado(k, op) && Termina(k, op).Some?
    ensures Vales(Paso(k, alg, op)) == Vales(k) + Sobran(k, op)
  {
    hide Inv, Paso, Habilitado, SinPid, Quitar, EnCola, Ficha;
    TerminaPurga(k, alg, op);
  }

  lemma AdmisionVales(k: K, r: Respuesta)
    requires Inv(k) && k.colaNew != []
    ensures Vales(Admitir(k, r)) == Vales(k)
  {
    ColasSinNuevo(k);
    hide Inv, Admitir, SinPid, Quitar, EncolarReady;
    match r
    case SUCCESS => AdmitidoConserva(k); AdmitidoVales(SinCabeza(k), Hilo(k.colaNew[0], 0));
    case SIZE_ERROR => SinLugarConserva(k);
    case _ => RechazadoConserva(k, r);
  }

  lemma AdmitidoVales(k: K, h: Hilo)
    ensures Vales(EncolarReady(k, h)) == Vales(k)
  {
  }

  lemma LlamadaVales(k: K, alg: Algoritmo, op: Op)
    requires Inv(k) && Habilitado(k, op) && DelEjecutor(op) && Termina(k, op) == None
    ensures Vales(Paso(k, alg, op)) == Vales(k)
  {
    hide Habilitado, Inv, Paso, Interrumpir, PedirIO, PedirDump, CrearHilo, ThreadJoin, MutexCreate,
      MutexLock, MutexUnlock,
      ThreadExit, Cancelado, DuenioDisputado, PurgaDisputada, SeCancelaSolo, Vales, Activo;
    Ejecuta(k, op);
    var h := k.exec.value;
    PasoEs(k, alg, op);
    match op
    case ThreadCreate(p) => CrearVales(k, h, p, "");
    case Join(t) => UnirVales(k, h, t);
    case MutexNuevo(n) => CrearVales(k, h, 0, n);
    case Lock(n) => MutexVales(k, h, n);
    case Unlock(n) => MutexVales(k, h, n);
    case Cancelar(t) =>
      CancelarEsSalir(k, alg, t);
      Ejecuta(k, FinHilo);
      SalidaVales(k, h);
    case FinHilo => SalidaVales(k, h);
    case _ => EsperaVales(k, h);
  }

  lemma Ejecuta(k: K, op: Op)
    requires Inv(k) && Habilitado(k, op) && DelEjecutor(op)
    ensures k.exec.Some? && Ficha(k, k.exec.value).estado == EXEC
    ensures op.FinHilo? ==> k.exec.value.tid != 0 && !DuenioDisputado(k, k.exec.value)
    ensures op.Cancelar? ==> Habilitado(k, FinHilo)
  {
    EnEjecucion(k, k.exec.value);
    hide Inv, DuenioDisputado, PurgaDisputada, Activo;
    if op.Cancelar? {
      CancelarEsSalir(k, FIFO, op.tid);
    }
  }

  lemma PasoEs(k: K, alg: Algoritmo, op: Op)
    requires k.exec.Some?
    ensures var h, k' := k.exec.value, Paso(k, alg, op);
            match op
            case Interrupcion => k' == Interrumpir(k, h)
            case PeticionIO => k' == PedirIO(k, h)
            case DumpMemory => k' == PedirDump(k, h)
            case ThreadCreate(p) => k' == CrearHilo(k, h, p)
            case Join(t) => k' == ThreadJoin(k, h, t)
            case MutexNuevo(n) => k' == MutexCreate(k, h, n)
            case Lock(n) => k' == MutexLock(k, h, n)
            case Unlock(n) => k' == MutexUnlock(k, h, n)
            case FinHilo => k' == ThreadExit(k, h)
            case _ => true
  {
    hide Interrumpir, PedirIO, PedirDump, CrearHilo, ThreadJoin, MutexCreate, MutexLock, MutexUnlock, ThreadExit;
  }

  lemma EsperaVales(k: K, h: Hilo)
    requires Ficha(k, h).estado == EXEC
    ensures Vales(Interrumpir(k, h)) == Vales(PedirIO(k, h)) == Vales(PedirDump(k, h)) == Vales(k)
  {
  }

  lemma CrearVales(k: K, h: Hilo, prioridad: nat, nombre: string)
    ensures Vales(CrearHilo(k, h, prioridad)) == Vales(MutexCreate(k, h, nombre)) == Vales(k)
  {
  }

  lemma UnirVales(k: K, h: Hilo, t: nat)
    requires Ficha(k, h).estado == EXEC
    ensures Vales(ThreadJoin(k, h, t)) == Vales(k)
  {
  }

  /** Every event posts one token for each thread it makes ready, and a dispatch takes exactly one. */
  lemma ValesEnUnPaso(k: K, alg: Algoritmo, op: Op)
    requires Inv(k) && Habilitado(k, op)
    ensures Vales(Paso(k, alg, op)) == Vales(k) + Sobran(k, op)
  {
    if Termina(k, op).Some? {
      RetiroVales(k, alg, op);
    } else if DelEjecutor(op) {
      LlamadaVales(k, alg, op);
    } else {
      hide Inv;
      OtroVales(k, alg, op);
    }
  }

  lemma OtroVales(k: K, alg: Algoritmo, op: Op)
    requires Inv(k) && Habilitado(k, op) && !DelEjecutor(op) && Termina(k, op) == None
    ensures Vales(Paso(k, alg, op)) == Vales(k) + Sobran(k, op)
  {
    hide Inv, Vales, Despachar, Volver, Admitir, IniciarProceso, FallarDump, PurgaDisputada,
      SeCancelaSolo, DuenioDisputado;
    match op
    case Despacho => DespachoVales(k, alg);
    case FinEspera(h) => VolverVales(k, h);
    case Admision(r) => AdmisionVales(k, r);
    case ProcessCreate(n, p) => IniciarVales(k, n, p);
    case Tic(n) => TicVales(k, n);
  }

  lemma VolverVales(k: K, h: Hilo)
    requires Inv(k) && h in k.pendientes
    ensures Vales(Volver(k, h)) == Vales(k)
  {
    VolverConserva(k, h);
    EnSitio(k, h);
    hide Inv, Quitar, Lugares, Bloqueados;
  }

  lemma IniciarVales(k: K, n: nat, p: nat)
    ensures Vales(IniciarProceso(k, n, p)) == Vales(k)
  {
  }

  lemma TicVales(k: K, n: nat)
    ensures Vales(k.(reloj := k.reloj + n)) == Vales(k)
  {
  }

  /** What the events of a run add up to. */
  ghost function SobranEn(k: K, alg: Algoritmo, ops: seq<Op>): int
    decreases |ops|
  {
    if ops == [] then 0 else Sobran(k, ops[0]) + SobranEn(Paso(k, alg, ops[0]), alg, ops[1..])
  }

  /** Over any run tokens are conserved: there is one for each ready thread, and one more for each thread
      that was ready when its process ended, less one for each dispatch that found the queue empty. */
  lemma {:induction false} ValesEnCorrida(k: K, alg: Algoritmo, ops: seq<Op>)
    requires Inv(k) && Valida(k, alg, ops)
    ensures Vales(Correr(k, alg, ops)) == Vales(k) + SobranEn(k, alg, ops) >= 0
    decreases |ops|
  {
    hide Paso, Habilitado, Sobran;
    if ops == [] {
      assert Cola(k);
    } else {
      hide Vales;
      ValesEnUnPaso(k, alg, ops[0]);
      PasoConserva(k, alg, ops[0]);
      hide Inv;
      ValesEnCorrida(Paso(k, alg, ops[0]), alg, ops[1..]);
    }
  }

  // ---- Who is dispatched ----

  /** A dispatch takes one token and one thread: the first of the queue under FIFO, and otherwise the first
      of those whose record has the smallest priority number. */
  lemma DespachoPorPrioridad(k: K, alg: Algoritmo) returns (i: nat)
    requires Inv(k) && k.exec == None && k.semReady > 0 && k.colaReady != []
    ensures var k' := Despachar(k, alg);
            && i < |k.colaReady| && k'.exec == Some(k.colaReady[i]) && k'.colaReady == Sin(k.colaReady, i)
            && k'.semReady == k.semReady - 1
    ensures alg == FIFO ==> i == 0
    ensures alg != FIFO ==> forall j :: 0 <= j < |k.colaReady| ==>
              if j < i then Ficha(k, k.colaReady[i]).prioridad < Ficha(k, k.colaReady[j]).prioridad
              else Ficha(k, k.colaReady[i]).prioridad <= Ficha(k, k.colaReady[j]).prioridad
  {
    i := Eleccion(alg, Listos(k), k.reloj);
    EnSitio(k, k.colaReady[i]);
    if alg != FIFO {
      EligePrimeroMasUrgente(alg, Listos(k), k.reloj);
      hide Inv, Eleccion, EnSuLugar, Clasificado, SinDup;
      forall j | 0 <= j < |k.colaReady|
        ensures if j < i then Ficha(k, k.colaReady[i]).prioridad < Ficha(k, k.colaReady[j]).prioridad
                else Ficha(k, k.colaReady[i]).prioridad <= Ficha(k, k.colaReady[j]).prioridad
      {
        assert Listos(k)[j].prioridad == Ficha(k, k.colaReady[j]).prioridad;
      }
    }
  }

  // ---- Since when a thread waits ----

  /** Whoever is ready now and was not before has the time of k as the instant it was enqueued. */
  ghost predicate Fechados(k: K, k': K) {
    forall y :: y in k'.colaReady && y !in k.colaReady ==> Ficha(k', y).desde == k.reloj
  }

  lemma ReponerFecha(k: K, k1: K, h: Hilo)
    requires Fechados(k, k1) && k1.reloj == k.reloj
    ensures var k' := EncolarReady(Desencolar(k1, h), h); Fechados(k, k') && k'.reloj == k.reloj
  {
    DesencolarFecha(k, k1, h);
    hide Desencolar;
  }

  lemma DesencolarFecha(k: K, k1: K, h: Hilo)
    requires Fechados(k, k1)
    ensures var d := Desencolar(k1, h); Fechados(k, d) && d.reloj == k1.reloj && d.tcbs == k1.tcbs
  {
    SubQuitar(k1.colaReady, h);
    hide Quitar;
  }

  lemma {:induction false} SubQuitar<T>(s: seq<T>, x: T)
    ensures forall y :: y in Quitar(s, x) ==> y in s
  {
    if s != [] {
      SubQuitar(s[1..], x);
    }
  }

  lemma DespertarFecha(k: K, k1: K, h: Hilo)
    requires Fechados(k, k1) && k1.reloj == k.reloj
    ensures Fechados(k, Despertar(k1, h)) && Despertar(k1, h).reloj == k.reloj
  {
    var k2 := ConFicha(k1, h, Ficha(k1, h).(bloqueador := -1, motivo := NONE));
    assert Fechados(k, k2);
    ReponerFecha(k, k2, h);
  }

  lemma {:induction false} DespertarDesdeFecha(k: K, k1: K, muerto: Hilo, i: nat)
    requires Fechados(k, k1) && k1.reloj == k.reloj
    ensures var k' := DespertarDesde(k1, muerto, i); Fechados(k, k') && k'.reloj == k.reloj
    decreases |k1.colaBlocked| - i
  {
    hide Despertar, Fechados;
    if i < |k1.colaBlocked| {
      var h := k1.colaBlocked[i];
      DespertarFecha(k, k1, h);
      var k2 := if EsperaA(k1, h, muerto) then Despertar(k1, h) else k1;
      DespertarNoCrece(k1, h);
      DespertarDesdeFecha(k, k2, muerto, i + 1);
    }
  }

  lemma DespertarNoCrece(k: K, h: Hilo)
    ensures |Despertar(k, h).colaBlocked| <= |k.colaBlocked|
  {
  }

  lemma SalidaFecha(k: K, h: Hilo)
    requires Inv(k) && k.exec == Some(h) && h.tid != 0 && !DuenioDisputado(k, h)
    ensures Fechados(k, ThreadExit(k, h))
  {
    ThreadExitConserva(k, h);
    var k2 := DespertarDesde(Muerto(k, h), h, 0);
    assert Fechados(k, k2) by { DespertarDesdeFecha(k, Muerto(k, h), h, 0); }
    hide Duenios, Bloqueados, Cola, DuenioDisputado, DespertarDesde;
    PartesDeSalida(k, h);
    MuertoFuera(k, h);
  }

  /** Past the joiners, the exit of a thread that owns no contended mutex moves nobody. */
  lemma PartesDeSalida(k: K, h: Hilo)
    requires Inv(k) && k.exec == Some(h) && h.tid != 0 && !DuenioDisputado(k, h)
    ensures var k', k2 := ThreadExit(k, h), DespertarDesde(Muerto(k, h), h, 0);
            k'.colaReady == k2.colaReady && k'.semReady == k2.semReady && k'.tcbs == k2.tcbs - {h}
  {
    ThreadExitPorPartes(k, h);
    MuertoYDespiertos(k, h);
    hide Inv, DuenioDisputado, InvSinDuenios, DueniosSalvo, DespertarDesde, SoltarDesde, Liberados, ThreadExit;
    SoltarLibres(DespertarDesde(Muerto(k, h), h, 0), h, 0);
  }

  lemma MuertoFuera(k: K, h: Hilo)
    requires Inv(k) && k.exec == Some(h) && h.tid != 0 && Inv(ThreadExit(k, h))
    ensures h !in ThreadExit(k, h).colaReady
  {
    ThreadExitPorPartes(k, h);
    var k' := ThreadExit(k, h);
    assert h !in k'.tcbs;
    hide ThreadExit;
    if h in k'.colaReady {
      EnSitio(k', h);
      ActivoConocido(k', h);
    }
  }

  lemma MovidoFecha(k: K, h: Hilo)
    ensures Fechados(k, Interrumpir(k, h)) && Fechados(k, Volver(k, h)) && Fechados(k, PedirIO(k, h))
    ensures Fechados(k, PedirDump(k, h))
  {
    assert Fechados(k, k);
    ReponerFecha(k, k, h);
    DesencolarFecha(k, k, h);
    hide Desencolar;
  }

  lemma UnidoFecha(k: K, h: Hilo, t: nat)
    ensures Fechados(k, ThreadJoin(k, h, t))
  {
    DesencolarFecha(k, k, h);
    hide Desencolar;
  }

  lemma MutexFecha(k: K, h: Hilo, nombre: string)
    ensures Fechados(k, MutexLock(k, h, nombre)) && Fechados(k, MutexUnlock(k, h, nombre))
  {
    var ms := Proceso(k, h.pid).mutex;
    DesencolarFecha(k, k, h);
    if BuscarRecurso(ms, nombre).Some? {
      var i := BuscarRecurso(ms, nombre).value;
      if ms[i].owner == h.tid && ms[i].hilos != [] {
        var k1 := ConMutex(k, h.pid, i, ms[i].(owner := ms[i].hilos[0], hilos := ms[i].hilos[1..]));
        ReponerFecha(k, k1, Hilo(h.pid, ms[i].hilos[0]));
      }
    }
    hide BuscarRecurso, Desencolar;
  }

  lemma NacidoFecha(k: K, h: Hilo, prioridad: nat, nombre: string)
    ensures Fechados(k, CrearHilo(k, h, prioridad)) && Fechados(k, MutexCreate(k, h, nombre))
  {
  }

  lemma DespachoFecha(k: K, alg: Algoritmo)
    ensures Fechados(k, Despachar(k, alg))
  {
    hide Eleccion;
  }

  lemma RetiroFecha(k: K, alg: Algoritmo, op: Op)
    requires Inv(k) && Habilitado(k, op) && Termina(k, op).Some?
    ensures Fechados(k, Paso(k, alg, op))
  {
    hide Inv, Paso, Habilitado, Quitar, EnCola, Ficha;
    TerminaPurga(k, alg, op);
  }

  lemma AdmisionFecha(k: K, r: Respuesta)
    requires Inv(k) && k.colaNew != []
    ensures Fechados(k, Admitir(k, r))
  {
    hide Inv, Admitir, Quitar;
    match r
    case SUCCESS => AdmitidoConserva(k);
    case SIZE_ERROR => SinLugarConserva(k);
    case _ => RechazadoConserva(k, r);
  }

  lemma LlamadaFecha(k: K, alg: Algoritmo, op: Op)
    requires Inv(k) && Habilitado(k, op) && DelEjecutor(op) && Termina(k, op) == None
    ensures Fechados(k, Paso(k, alg, op))
  {
    hide Habilitado, Inv, Paso, Interrumpir, PedirIO, PedirDump, CrearHilo, ThreadJoin, MutexCreate,
      MutexLock, MutexUnlock,
      ThreadExit, Cancelado, DuenioDisputado, PurgaDisputada, SeCancelaSolo, Fechados, Activo;
    Ejecuta(k, op);
    var h := k.exec.value;
    PasoEs(k, alg, op);
    match op
    case ThreadCreate(p) => NacidoFecha(k, h, p, "");
    case Join(t) => UnidoFecha(k, h, t);
    case MutexNuevo(n) => NacidoFecha(k, h, 0, n);
    case Lock(n) => MutexFecha(k, h, n);
    case Unlock(n) => MutexFecha(k, h, n);
    case Cancelar(t) =>
      CancelarEsSalir(k, alg, t);
      Ejecuta(k, FinHilo);
      SalidaFecha(k, h);
    case FinHilo => SalidaFecha(k, h);
    case _ => MovidoFecha(k, h);
  }

  /** Every event stamps the threads it makes ready with the time at which it does. */
  lemma LlegadasFechadas(k: K, alg: Algoritmo, op: Op)
    requires Inv(k) && Habilitado(k, op)
    ensures Fechados(k, Paso(k, alg, op))
  {
    if Termina(k, op).Some? {
      RetiroFecha(k, alg, op);
    } else if DelEjecutor(op) {
      LlamadaFecha(k, alg, op);
    } else {
      assert Fechados(k, k);
      hide Despachar, Inv, Volver, Admitir, FallarDump, Ficha;
      match op
      case Despacho => DespachoFecha(k, alg);
      case FinEspera(h) => MovidoFecha(k, h);
      case Admision(r) => AdmisionFecha(k, r);
      case _ =>
    }
  }

  // ---- Numbers of threads ----

  /** The new thread is listed last, under the next number of its process, waits for nobody, and the one after
      it gets the following number. */
  lemma CrearNumera(k: K, h: Hilo, prioridad: nat)
    requires Inv(k) && k.exec == Some(h)
    ensures var p, p' := Proceso(k, h.pid), Proceso(CrearHilo(k, h, prioridad), h.pid);
            && p'.threads == p.threads + [p.tidContador] && p'.tidContador == p.tidContador + 1
            && p'.mutex == p.mutex && p'.tamanio == p.tamanio && (forall t :: t in p.threads ==> t < p.tidContador)
            && Ficha(CrearHilo(k, h, prioridad), Hilo(h.pid, p.tidContador)) == Tcb(prioridad, READY, NONE, -1, k.reloj)
  {
    EjecutorConHilos(k, h);
    assert PcbBien(k, h.pid);
    hide Inv;
  }

  // ---- Who inherits a mutex ----

  /** A mutex of a process once its thread t has gone: nobody's if it was t's and nobody waited, and of the
      first waiter, who stays in the list, if somebody did. */
  ghost function Heredado(r: Recurso, t: nat): Recurso {
    if r.owner != t then r
    else if r.hilos == [] then Recurso(r.nombre, -1, [])
    else Recurso(r.nombre, r.hilos[0], r.hilos)
  }

  lemma SoltarUno(k: K, muerto: Hilo, i: nat, j: nat)
    requires i < |Proceso(k, muerto.pid).mutex| && j < |Proceso(k, muerto.pid).mutex|
    ensures var ms, ms' := Proceso(k, muerto.pid).mutex, Proceso(Soltar(k, muerto, i), muerto.pid).mutex;
            |ms'| == |ms| && ms'[j] == if i == j then Heredado(ms[j], muerto.tid) else ms[j]
  {
    hide Quitar;
  }

  lemma {:induction false} SoltarDesdeHereda(k: K, muerto: Hilo, i: nat, j: nat)
    requires j < |Proceso(k, muerto.pid).mutex|
    ensures var ms, ms' := Proceso(k, muerto.pid).mutex, Proceso(SoltarDesde(k, muerto, i), muerto.pid).mutex;
            |ms'| == |ms| && ms'[j] == if i <= j then Heredado(ms[j], muerto.tid) else ms[j]
    decreases |Proceso(k, muerto.pid).mutex| - i
  {
    hide Soltar, Heredado;
    if i < |Proceso(k, muerto.pid).mutex| {
      SoltarUno(k, muerto, i, j);
      SoltarDesdeHereda(Soltar(k, muerto, i), muerto, i + 1, j);
    }
  }

  /** thread_exit passes every mutex on so, contended or not. */
  lemma ExitHereda(k: K, h: Hilo, j: nat)
    requires Inv(k) && k.exec == Some(h) && j < |Proceso(k, h.pid).mutex|
    ensures var ms, ms' := Proceso(k, h.pid).mutex, Proceso(ThreadExit(k, h), h.pid).mutex;
            |ms'| == |ms| && ms'[j] == Heredado(ms[j], h.tid)
  {
    ThreadExitPorPartes(k, h);
    var k2 := DespertarDesde(Muerto(k, h), h, 0);
    assert Proceso(k2, h.pid).mutex == Proceso(k, h.pid).mutex;
    hide Inv, DespertarDesde, SoltarDesde, ThreadExit, Heredado;
    SoltarDesdeHereda(k2, h, 0, j);
  }

  // ---- What a refusal loses ----

  /** A thread or process whose end the memory refuses: it is left alive, with the record of a thread that
      executes, and nowhere, and nothing else changes. */
  lemma FinRechazadoPierde(k: K, alg: Algoritmo, op: Op, h: Hilo, resp: Respuesta, fin: Respuesta)
    requires Inv(k) && k.exec == Some(h) && (op.FinHilo? || op.FinProceso?) && resp != SUCCESS
    ensures var k' := PasoSegun(k, alg, op, resp, fin);
            && k' == k.(exec := None) && Activo(k', h) && Ficha(k', h).estado == EXEC && !EnCola(k', h) && !Inv(k')
  {
    EnEjecucion(k, h);
    PierdeLugares(k.(exec := None), h);
    hide Inv;
  }

  /** A thread the memory refuses, and the end of its process too: it is left alive, with the record of a
      ready one, and nowhere, while the caller goes on executing. */
  lemma HiloRechazadoDosVeces(k: K, h: Hilo, prioridad: nat, resp: Respuesta, fin: Respuesta)
    requires Inv(k) && k.exec == Some(h) && resp != SUCCESS && fin != SUCCESS
    ensures var k', n := CrearHiloSegun(k, h, prioridad, resp, fin), Hilo(h.pid, Proceso(k, h.pid).tidContador);
            && k'.exec == Some(h) && !Vivo(k, n) && Activo(k', n) && Ficha(k', n).estado == READY
            && !EnCola(k', n) && !Inv(k') && k'.colaReady == k.colaReady && k'.colaBlocked == k.colaBlocked
            && (forall x :: x != n ==> Ficha(k', x) == Ficha(k, x) && (Vivo(k', x) <==> Vivo(k, x)))
  {
    var n := Hilo(h.pid, Proceso(k, h.pid).tidContador);
    CrearHiloConserva(k, h, prioridad);
    EnEjecucion(k, h);
    TodosEnSuSitio(k, n);
    SinOcurrencia(k.colaReady, n);
    assert NuevoHilo(k, h, prioridad).colaReady == k.colaReady;
    assert Ficha(NuevoHilo(k, h, prioridad), n).estado == READY;
    hide Inv, Quitar, CrearHilo;
    PierdeLugares(CrearHiloSegun(k, h, prioridad, resp, fin), n);
  }

  lemma TodosEnSuSitio(k: K, n: Hilo)
    requires Lugares(k) && Bloqueados(k) && !Vivo(k, n)
    ensures !EnCola(k, n)
  {
    EnSitio(k, n);
  }

  lemma {:induction false} SinOcurrencia<T>(s: seq<T>, x: T)
    requires x !in s
    ensures Quitar(s, x) == s
  {
    if s != [] {
      SinOcurrencia(s[1..], x);
    }
  }
}
