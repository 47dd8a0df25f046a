/** The kernel as it runs: global queues, tables and counters updated in place. Every operation is
    proved to be the step of module Kernel with the same name.
    Sources: kernel/src/utils.c, algoritmos_planificacion.c, planificador_corto_plazo.c,
    planificador_largo_plazo.c and syscalls.c. */
module Nucleo {
  import opened Listas
  import opened Opcion
  import opened Planificacion
  import opened Kernel
  import opened Recursos
  import opened Invariantes
  import opened Bloqueos
  import opened Salidas
  import opened FinDeProceso
  import opened Corridas

  class Nucleo {
    const algoritmo: Algoritmo
    var colaNew: seq<nat>
    var colaReady: seq<Hilo>
    var colaBlocked: seq<Hilo>
    var hiloEnExec: Option<Hilo>
    var procesosEnSistema: seq<nat>
    var procesos: map<nat, Pcb>
    var tcbs: map<Hilo, Tcb>
    var pidCounter: nat
    var hayPcbsEnNew: nat
    var hayPcbsEnReady: nat
    var largoPlazo: bool
    var reloj: nat
    var pendientes: set<Hilo>
    var flagDesalojar: bool          // the quantum of the executing thread is over
    var flagFinDePrograma: bool      // this flag, or the one of the scheduler alone

    ghost function Vista(): K
      reads this
    {
      K(colaNew, colaReady, colaBlocked, hiloEnExec, procesosEnSistema, procesos, tcbs, pidCounter, hayPcbsEnNew,
        hayPcbsEnReady, largoPlazo, reloj, pendientes)
    }

    function TcbDe(h: Hilo): (t: Tcb)
      reads this
      ensures t == Ficha(Vista(), h)
    {
      if h in tcbs then tcbs[h] else Tcb(0, READY, NONE, -1, 0)
    }

    /** The process is in the table and in the list that is searched. */
    ghost predicate Conocido(pid: nat)
      reads this
    {
      pid in procesosEnSistema && pid in procesos
    }

    ghost predicate Ejecutando()
      reads this
    {
      hiloEnExec.Some? && Conocido(hiloEnExec.value.pid) && Ficha(Vista(), hiloEnExec.value).estado == EXEC
    }

    constructor (algoritmo: Algoritmo, primerPid: nat)
      ensures this.algoritmo == algoritmo && Vista() == Inicial(primerPid) && !flagDesalojar && !flagFinDePrograma
    {
      this.algoritmo := algoritmo;
      colaNew, colaReady, colaBlocked, hiloEnExec := [], [], [], None;
      procesosEnSistema, procesos, tcbs, pidCounter := [], map[], map[], primerPid;
      hayPcbsEnNew, hayPcbsEnReady, largoPlazo, reloj, pendientes := 0, 0, true, 0, {};
      flagDesalojar, flagFinDePrograma := false, false;
    }

    // ---- Lookups ----

    /** The process with that pid; when there is none, the last of the list. */
    method BuscarProceso(pid: nat) returns (proceso: Option<nat>)
      ensures pid in procesosEnSistema ==> proceso == Some(pid)
      ensures pid !in procesosEnSistema && procesosEnSistema != [] ==>
                proceso == Some(procesosEnSistema[|procesosEnSistema| - 1])
      ensures proceso == None <==> procesosEnSistema == []
    {
      proceso := None;
      var i := 0;
      while i < |procesosEnSistema|
        invariant 0 <= i <= |procesosEnSistema| && pid !in procesosEnSistema[..i]
        invariant proceso == if i == 0 then None else Some(procesosEnSistema[i - 1])
      {
        proceso := Some(procesosEnSistema[i]);
        if procesosEnSistema[i] == pid {
          break;
        }
        i := i + 1;
      }
    }

    /** The thread with that tid; when there is none, the last of the process. */
    method BuscarHilo(pid: nat, tid: nat) returns (hilo: Option<nat>)
      requires pid in procesos
      ensures hilo == Kernel.BuscarHilo(procesos[pid].threads, tid)
      ensures hilo.Some? ==> hilo.value == if tid in procesos[pid].threads then tid
                                           else procesos[pid].threads[|procesos[pid].threads| - 1]
    {
      var threads := procesos[pid].threads;
      hilo := None;
      var i := 0;
      while i < |threads|
        invariant 0 <= i <= |threads| && tid !in threads[..i]
        invariant hilo == if i == 0 then None else Some(threads[i - 1])
      {
        hilo := Some(threads[i]);
        if threads[i] == tid {
          break;
        }
        i := i + 1;
      }
    }

    /** The first mutex with that name, in any case of letters; when there is none, the last one. */
    method BuscarMutex(nombre: string, pid: nat) returns (recurso: Option<nat>)
      requires pid in procesos
      ensures recurso == BuscarRecurso(procesos[pid].mutex, nombre)
      ensures recurso.Some? ==> Elegido(procesos[pid].mutex, nombre, recurso.value)
    {
      hide Elegido;
      var mutex := procesos[pid].mutex;
      recurso := None;
      var i := 0;
      while i < |mutex|
        invariant 0 <= i <= |mutex|
        invariant recurso == if i == 0 then None else Some(i - 1)
        invariant i > 0 ==> Buscando(mutex, nombre, i)
      {
        recurso := Some(i);
        if IgualSinCaja(mutex[i].nombre, nombre) {
          EncontradoEn(mutex, nombre, i);
          BuscaAlElegido(mutex, nombre, i);
          return;
        }
        i := i + 1;
      }
      if mutex != [] {
        UltimoDe(mutex, nombre);
        BuscaAlElegido(mutex, nombre, |mutex| - 1);
      }
    }

    // ---- Queues ----

    method EncolarEnNew(pid: nat)
      modifies `colaNew, `hayPcbsEnNew
      ensures colaNew == old(colaNew) + [pid] && hayPcbsEnNew == old(hayPcbsEnNew) + 1
    {
      colaNew := colaNew + [pid];
      hayPcbsEnNew := hayPcbsEnNew + 1;
    }

    method EncolarEnReady(hilo: Hilo)
      modifies `colaReady, `tcbs, `hayPcbsEnReady
      ensures Vista() == EncolarReady(old(Vista()), hilo)
    {
      colaReady := colaReady + [hilo];
      tcbs := tcbs[hilo := TcbDe(hilo).(estado := READY, desde := reloj)];
      hayPcbsEnReady := hayPcbsEnReady + 1;
    }

    method EncolarEnBlocked(hilo: Hilo, motivo: MotivoBloqueo)
      modifies `colaBlocked, `tcbs
      ensures Vista() == EncolarBlocked(old(Vista()), hilo, motivo)
    {
      colaBlocked := colaBlocked + [hilo];
      tcbs := tcbs[hilo := TcbDe(hilo).(estado := BLOCKED, motivo := motivo)];
    }

    method DesencolarEstadoActual(hilo: Hilo)
      modifies `colaReady, `colaBlocked, `hiloEnExec
      ensures Vista() == Desencolar(old(Vista()), hilo)
    {
      match TcbDe(hilo).estado
      case READY => colaReady := Quitar(colaReady, hilo);
      case EXEC => hiloEnExec := None;
      case BLOCKED => colaBlocked := Quitar(colaBlocked, hilo);
    }

    // ---- Short-term scheduler ----

    method AlgoritmoFifo() returns (hilo: Hilo)
      requires colaReady != []
      modifies `colaReady
      ensures hilo == old(colaReady[0]) && colaReady == Sin(old(colaReady), 0)
    {
      hilo := colaReady[0];
      colaReady := colaReady[1..];
    }

    /** The thread the scan chooses leaves the queue. */
    method AlgoritmoPrioridades() returns (hilo: Hilo)
      requires colaReady != []
      modifies `colaReady
      ensures var m := Recorrer(Listos(old(Vista())), |old(colaReady)|, reloj);
              hilo == old(colaReady)[m] && colaReady == Sin(old(colaReady), m)
    {
      ghost var c := Listos(Vista());
      var cantProcesos := |colaReady|;
      var mayorPrioridad := 0;
      var i := 1;
      while i < cantProcesos
        invariant 1 <= i <= cantProcesos && 0 <= mayorPrioridad < i && mayorPrioridad == Recorrer(c, i, reloj)
      {
        var h, n := colaReady[mayorPrioridad], colaReady[i];
        var actual := Listo(h, TcbDe(h).prioridad, TcbDe(h).desde);
        var nuevo := Listo(n, TcbDe(n).prioridad, TcbDe(n).desde);
        if MayorPrioridadNuevo(actual, nuevo, reloj) {
          mayorPrioridad := i;
        }
        i := i + 1;
      }
      hilo := colaReady[mayorPrioridad];
      colaReady := colaReady[..mayorPrioridad] + colaReady[mayorPrioridad + 1..];
    }

    method PlanificarCortoPlazo() returns (hilo: Hilo)
      requires colaReady != []
      modifies `colaReady
      ensures var m := Eleccion(algoritmo, Listos(old(Vista())), reloj);
              hilo == old(colaReady)[m] && colaReady == Sin(old(colaReady), m)
    {
      if algoritmo == FIFO {
        hilo := AlgoritmoFifo();
      } else {
        hilo := AlgoritmoPrioridades();
      }
    }

    /** One round of the scheduler, with the processor free and a token in the semaphore. */
    method RondaCortoPlazo()
      requires hiloEnExec == None && hayPcbsEnReady > 0
      modifies `hayPcbsEnReady, `colaReady, `tcbs, `hiloEnExec
      ensures Vista() == Despachar(old(Vista()), algoritmo)
    {
      hide Eleccion, Listos, Despachar;
      ghost var k := Vista();
      hayPcbsEnReady := hayPcbsEnReady - 1;
      EsDespacho(k, Vista(), algoritmo);
      if |colaReady| == 0 {
        return;
      }
      MismosListos(Vista(), k);
      var hilo := PlanificarCortoPlazo();
      tcbs := tcbs[hilo := TcbDe(hilo).(estado := EXEC)];
      hiloEnExec := Some(hilo);
    }

    /** A thread goes back to the ready queue instead of running when the program is closing or its quantum
        is over. Only the end of the quantum is used up. */
    method ManejarCambioEstado() returns (sigue: bool)
      requires hiloEnExec.Some?
      modifies `colaReady, `colaBlocked, `hiloEnExec, `tcbs, `hayPcbsEnReady, `flagDesalojar
      ensures sigue <==> !flagFinDePrograma && !old(flagDesalojar)
      ensures Vista() == if sigue then old(Vista()) else Interrumpir(old(Vista()), old(hiloEnExec).value)
      ensures flagDesalojar == (old(flagDesalojar) && flagFinDePrograma)
    {
      if flagFinDePrograma {
        Interrupcion();
        return false;
      }
      if flagDesalojar {
        flagDesalojar := false;
        Interrupcion();
        return false;
      }
      return true;
    }

    // ---- System calls ----

    method Interrupcion()
      requires hiloEnExec.Some?
      modifies `colaReady, `colaBlocked, `hiloEnExec, `tcbs, `hayPcbsEnReady
      ensures Vista() == Interrumpir(old(Vista()), old(hiloEnExec).value)
    {
      var hilo := hiloEnExec.value;
      DesencolarEstadoActual(hilo);
      EncolarEnReady(hilo);
    }

    method PeticionIO()
      requires hiloEnExec.Some?
      modifies this
      ensures unchanged(`flagDesalojar) && unchanged(`flagFinDePrograma)
      ensures Vista() == PedirIO(old(Vista()), old(hiloEnExec).value)
    {
      var hilo := hiloEnExec.value;
      DesencolarEstadoActual(hilo);
      EncolarEnBlocked(hilo, IO);
      pendientes := pendientes + {hilo};
    }

    method DumpMemory()
      requires hiloEnExec.Some?
      modifies this
      ensures unchanged(`flagDesalojar) && unchanged(`flagFinDePrograma)
      ensures Vista() == PedirDump(old(Vista()), old(hiloEnExec).value)
    {
      var hilo := hiloEnExec.value;
      DesencolarEstadoActual(hilo);
      EncolarEnBlocked(hilo, BLOQUEO_POR_DUMP);
      pendientes := pendientes + {hilo};
    }

    /** The end of an IO, or of a dump the memory answered with SUCCESS. */
    method FinDeEspera(hilo: Hilo)
      modifies this
      ensures unchanged(`flagDesalojar) && unchanged(`flagFinDePrograma)
      ensures Vista() == Volver(old(Vista()), hilo)
    {
      DesencolarEstadoActual(hilo);
      EncolarEnReady(hilo);
      pendientes := pendientes - {hilo};
    }

    method CrearTcb(pid: nat, prioridad: nat) returns (tid: nat)
      requires pid in procesos
      modifies `procesos, `tcbs
      ensures tid == old(procesos[pid].tidContador)
      ensures procesos == old(procesos)[pid := old(procesos[pid]).(threads := old(procesos[pid].threads) + [tid],
                                                                   tidContador := tid + 1)]
      ensures tcbs == old(tcbs)[Hilo(pid, tid) := Tcb(prioridad, READY, NONE, -1, 0)]
    {
      var proceso := procesos[pid];
      tid := proceso.tidContador;
      tcbs := tcbs[Hilo(pid, tid) := Tcb(prioridad, READY, NONE, -1, 0)];
      procesos := procesos[pid := proceso.(threads := proceso.threads + [tid], tidContador := tid + 1)];
    }

    method CrearPcb(tamanio: nat, prioridad: nat)
      modifies this
      ensures unchanged(`flagDesalojar) && unchanged(`flagFinDePrograma)
      ensures Vista() == IniciarProceso(old(Vista()), tamanio, prioridad)
    {
      hide IniciarProceso;
      EsInicio(Vista(), tamanio, prioridad);
      PrimerHilo(procesos, pidCounter, tamanio);
      var pid := Registrar(tamanio);
      var tid := CrearTcb(pid, prioridad);
      EncolarEnNew(pid);
    }

    /** The record of a process that has no thread yet. */
    method Registrar(tamanio: nat) returns (pid: nat)
      modifies `procesos, `pidCounter, `procesosEnSistema
      ensures pid == old(pidCounter) && pidCounter == pid + 1 && procesosEnSistema == old(procesosEnSistema) + [pid]
      ensures procesos == old(procesos)[pid := Pcb([], [], tamanio, 0)]
    {
      pid := pidCounter;
      procesos := procesos[pid := Pcb([], [], tamanio, 0)];
      pidCounter := pidCounter + 1;
      procesosEnSistema := procesosEnSistema + [pid];
    }

    /** `resp` is the answer of the memory to the thread, `fin` its answer to the end of the process. */
    method ThreadCreate(prioridad: nat, resp: Respuesta, fin: Respuesta)
      requires Ejecutando()
      modifies this
      ensures unchanged(`flagDesalojar) && unchanged(`flagFinDePrograma)
      ensures Vista() == CrearHiloSegun(old(Vista()), old(hiloEnExec).value, prioridad, resp, fin)
    {
      hide Kernel.ProcessExit, Desencolar, EncolarReady;
      var hilo := hiloEnExec.value;
      var proceso := BuscarProceso(hilo.pid);
      var tid := CrearTcb(proceso.value, prioridad);
      if resp != SUCCESS {
        ProcessExitThread(Hilo(hilo.pid, tid), fin);
      } else {
        EncolarEnReady(Hilo(hilo.pid, tid));
      }
    }

    /** Whether the caller goes on. */
    method ThreadJoin(tidBloqueador: nat) returns (sigue: bool)
      requires Ejecutando()
      modifies this
      ensures unchanged(`flagDesalojar) && unchanged(`flagFinDePrograma)
      ensures Vista() == Kernel.ThreadJoin(old(Vista()), old(hiloEnExec).value, tidBloqueador)
      ensures sigue <==> hiloEnExec == old(hiloEnExec)
    {
      var hilo := hiloEnExec.value;
      var proceso := BuscarProceso(hilo.pid);
      var bloqueador := BuscarHilo(proceso.value, tidBloqueador);
      if bloqueador != None {
        if bloqueador.value == tidBloqueador {
          DesencolarEstadoActual(hilo);
          tcbs := tcbs[hilo := TcbDe(hilo).(bloqueador := tidBloqueador)];
          EncolarEnBlocked(hilo, THREAD_JOIN);
          return false;
        } else {
          return true;
        }
      }
      return true;
    }

    /** The caller is not sent back to the processor, nor to any queue: when this returns the scheduler
        forgets it. */
    method ThreadCancel(tidCancelado: nat)
      requires Ejecutando()
      modifies this
      ensures unchanged(`flagDesalojar) && unchanged(`flagFinDePrograma)
      ensures Vista() == Kernel.ThreadCancel(old(Vista()), old(hiloEnExec).value, tidCancelado)
    {
      hide Kernel.LiberarHilo, Quitar;
      var hilo := hiloEnExec.value;
      var proceso := BuscarProceso(hilo.pid);
      var cancelado := BuscarHilo(proceso.value, tidCancelado);
      if cancelado != None {
        DesencolarEstadoActual(Hilo(hilo.pid, cancelado.value));
        LiberarHilo(Hilo(hilo.pid, cancelado.value));
      }
    }

    method MutexCreate(nombre: string)
      requires Ejecutando()
      modifies `procesos
      ensures Vista() == Kernel.MutexCreate(old(Vista()), hiloEnExec.value, nombre)
    {
      var hilo := hiloEnExec.value;
      var proceso := BuscarProceso(hilo.pid);
      var pcb := procesos[proceso.value];
      procesos := procesos[proceso.value := pcb.(mutex := pcb.mutex + [Recurso(nombre, -1, [])])];
    }

    method GuardarMutex(pid: nat, i: nat, r: Recurso)
      requires pid in procesos && i < |procesos[pid].mutex|
      modifies `procesos
      ensures Vista() == ConMutex(old(Vista()), pid, i, r)
    {
      procesos := procesos[pid := procesos[pid].(mutex := procesos[pid].mutex[i := r])];
    }

    /** Whether the caller goes on. */
    method MutexLock(nombre: string) returns (sigue: bool)
      requires Ejecutando()
      modifies this
      ensures unchanged(`flagDesalojar) && unchanged(`flagFinDePrograma)
      ensures Vista() == Kernel.MutexLock(old(Vista()), old(hiloEnExec).value, nombre)
      ensures sigue <==> hiloEnExec == old(hiloEnExec)
    {
      hide BuscarRecurso;
      var hilo := hiloEnExec.value;
      var proceso := BuscarProceso(hilo.pid);
      var recurso := BuscarMutex(nombre, proceso.value);
      if recurso != None {
        EnLaLista(procesos[proceso.value].mutex, nombre);
        var r := procesos[proceso.value].mutex[recurso.value];
        if r.owner == -1 {
          GuardarMutex(proceso.value, recurso.value, r.(owner := hilo.tid));
          return true;
        } else {
          DesencolarEstadoActual(hilo);
          EncolarEnBlocked(hilo, MUTEX);
          GuardarMutex(proceso.value, recurso.value, r.(hilos := r.hilos + [hilo.tid]));
          return false;
        }
      } else {
        return true;
      }
    }

    method MutexUnlock(nombre: string)
      requires Ejecutando()
      modifies this
      ensures unchanged(`flagDesalojar) && unchanged(`flagFinDePrograma)
      ensures Vista() == Kernel.MutexUnlock(old(Vista()), old(hiloEnExec).value, nombre)
    {
      hide BuscarRecurso;
      var hilo := hiloEnExec.value;
      var proceso := BuscarProceso(hilo.pid);
      var recurso := BuscarMutex(nombre, proceso.value);
      if recurso != None {
        EnLaLista(procesos[proceso.value].mutex, nombre);
        var r := procesos[proceso.value].mutex[recurso.value];
        if r.owner == hilo.tid {
          if r.hilos != [] {
            var nuevoOwner := Hilo(hilo.pid, r.hilos[0]);
            GuardarMutex(proceso.value, recurso.value, r.(owner := nuevoOwner.tid, hilos := r.hilos[1..]));
            DesencolarEstadoActual(nuevoOwner);
            EncolarEnReady(nuevoOwner);
          } else {
            GuardarMutex(proceso.value, recurso.value, r.(owner := -1));
          }
        }
      }
    }

    // ---- End of threads and processes ----

    /** Wakes the joiners, hands over the mutexes and frees the record. */
    method LiberarHilo(hilo: Hilo)
      requires Conocido(hilo.pid)
      modifies this
      ensures unchanged(`flagDesalojar) && unchanged(`flagFinDePrograma)
      ensures Vista() == Kernel.LiberarHilo(old(Vista()), hilo)
      ensures procesosEnSistema == old(procesosEnSistema) && hilo.pid in procesos
      ensures procesos[hilo.pid].threads == Quitar(old(procesos[hilo.pid].threads), hilo.tid)
    {
      var proceso := BuscarProceso(hilo.pid);
      var p := procesos[hilo.pid];
      procesos := procesos[hilo.pid := p.(threads := Quitar(p.threads, hilo.tid))];
      DespertarUniones(hilo);
      SoltarMutexes(hilo);
      tcbs := tcbs - {hilo};
    }

    method DespertarBloqueado(hilo: Hilo)
      modifies `colaReady, `colaBlocked, `hiloEnExec, `tcbs, `hayPcbsEnReady
      ensures Vista() == Despertar(old(Vista()), hilo)
    {
      hide Quitar;
      tcbs := tcbs[hilo := TcbDe(hilo).(bloqueador := -1, motivo := NONE)];
      DesencolarEstadoActual(hilo);
      EncolarEnReady(hilo);
    }

    /** The loop over the blocked queue. It goes on to the next index even after taking a thread out. */
    method DespertarUniones(hilo: Hilo)
      modifies `colaReady, `colaBlocked, `hiloEnExec, `tcbs, `hayPcbsEnReady
      ensures Vista() == DespertarDesde(old(Vista()), hilo, 0)
    {
      hide DespertarDesde, Despertar;
      ghost var k := Vista();
      var i := 0;
      while i < |colaBlocked|
        invariant 0 <= i && DespertarDesde(Vista(), hilo, i) == DespertarDesde(k, hilo, 0)
        decreases |colaBlocked| - i
      {
        UnPasoDespertar(Vista(), hilo, i);
        var bloqueado := colaBlocked[i];
        var t := TcbDe(bloqueado);
        if bloqueado.pid == hilo.pid && t.bloqueador == hilo.tid && t.motivo == THREAD_JOIN {
          NoCrece(Vista(), bloqueado);
          DespertarBloqueado(bloqueado);
        }
        i := i + 1;
      }
      UnPasoDespertar(Vista(), hilo, i);
    }

    /** The new owner is read from the list of waiters, not removed. */
    method SoltarMutex(hilo: Hilo, i: nat)
      requires hilo.pid in procesos && i < |procesos[hilo.pid].mutex|
      modifies `procesos, `colaReady, `colaBlocked, `hiloEnExec, `tcbs, `hayPcbsEnReady
      ensures Vista() == Soltar(old(Vista()), hilo, i) && hilo.pid in procesos
    {
      hide Quitar;
      var r := procesos[hilo.pid].mutex[i];
      if r.owner == hilo.tid {
        if |r.hilos| > 0 {
          var nuevoOwner := Hilo(hilo.pid, r.hilos[0]);
          GuardarMutex(hilo.pid, i, r.(owner := nuevoOwner.tid));
          DesencolarEstadoActual(nuevoOwner);
          EncolarEnReady(nuevoOwner);
        } else {
          GuardarMutex(hilo.pid, i, r.(owner := -1));
        }
      }
    }

    /** The loop over the mutexes of the process. */
    method SoltarMutexes(hilo: Hilo)
      requires hilo.pid in procesos
      modifies `procesos, `colaReady, `colaBlocked, `hiloEnExec, `tcbs, `hayPcbsEnReady
      ensures Vista() == SoltarDesde(old(Vista()), hilo, 0)
      ensures hilo.pid in procesos && procesos[hilo.pid].threads == old(procesos[hilo.pid].threads)
    {
      hide SoltarDesde, Soltar;
      ghost var k := Vista();
      var i := 0;
      while i < |procesos[hilo.pid].mutex|
        invariant 0 <= i && hilo.pid in procesos && procesos[hilo.pid].threads == k.procesos[hilo.pid].threads
        invariant SoltarDesde(Vista(), hilo, i) == SoltarDesde(k, hilo, 0)
        decreases |procesos[hilo.pid].mutex| - i
      {
        UnPasoSoltar(Vista(), hilo, i);
        MismosHilosAlSoltar(Vista(), hilo, i);
        SoltarMutex(hilo, i);
        i := i + 1;
      }
      UnPasoSoltar(Vista(), hilo, i);
    }

    /** Takes every thread out of its queue and then frees one of every two. The mutexes and the record
        itself are freed with the process. */
    method LiberarPcb(pid: nat)
      requires Conocido(pid)
      modifies this
      ensures unchanged(`flagDesalojar) && unchanged(`flagFinDePrograma)
      ensures Vista() == Kernel.LiberarPcb(old(Vista()), pid)
    {
      hide DesencolarDesde, LiberarDesde, Quitar, Salteados;
      DesencolarHilos(pid);
      LiberarHilos(pid);
      LiberarMutexes(pid);
      procesosEnSistema := Quitar(procesosEnSistema, pid);
      procesos := procesos - {pid};
    }

    method DesencolarHilos(pid: nat)
      requires Conocido(pid)
      modifies `colaReady, `colaBlocked, `hiloEnExec
      ensures Vista() == DesencolarDesde(old(Vista()), pid, 0)
    {
      ghost var k := Vista();
      var i := 0;
      while i < |procesos[pid].threads|
        invariant 0 <= i <= |procesos[pid].threads|
        invariant DesencolarDesde(Vista(), pid, i) == DesencolarDesde(k, pid, 0)
      {
        DesencolarEstadoActual(Hilo(pid, procesos[pid].threads[i]));
        i := i + 1;
      }
    }

    /** The third loop: it removes by index the list it runs over, so the mutexes at odd places are not freed. */
    method LiberarMutexes(pid: nat)
      requires Conocido(pid)
      modifies `procesos
      ensures procesos == old(procesos)[pid := old(procesos[pid]).(mutex := Salteados(old(procesos[pid].mutex)))]
    {
      ghost var salteados := Salteados(procesos[pid].mutex);
      var i := 0;
      while i < |procesos[pid].mutex|
        invariant Conocido(pid) && 0 <= i <= |procesos[pid].mutex| + 1
        invariant procesos == old(procesos)[pid := old(procesos[pid]).(mutex := procesos[pid].mutex)]
        invariant PorSaltear(procesos[pid].mutex, i) == salteados
        decreases |procesos[pid].mutex| + 1 - i
      {
        SaltearUno(procesos[pid].mutex, i);
        procesos := procesos[pid := procesos[pid].(mutex := Sin(procesos[pid].mutex, i))];
        i := i + 1;
      }
      SaltearFin(procesos[pid].mutex, i);
    }

    method LiberarHilos(pid: nat)
      requires Conocido(pid)
      modifies this
      ensures unchanged(`flagDesalojar) && unchanged(`flagFinDePrograma)
      ensures Vista() == LiberarDesde(old(Vista()), pid, 0) && Conocido(pid)
    {
      hide Kernel.LiberarHilo;
      ghost var k := Vista();
      var i := 0;
      while i < |procesos[pid].threads|
        invariant 0 <= i && Conocido(pid) && LiberarDesde(Vista(), pid, i) == LiberarDesde(k, pid, 0)
        invariant unchanged(`flagDesalojar) && unchanged(`flagFinDePrograma)
        decreases |procesos[pid].threads| - i
      {
        LiberarHilo(Hilo(pid, procesos[pid].threads[i]));
        i := i + 1;
      }
    }

    /** thread_exit of a thread other than the first; `resp` is the answer of the memory. */
    method ThreadExit(resp: Respuesta)
      requires Ejecutando() && hiloEnExec.value.tid != 0
      modifies this
      ensures unchanged(`flagDesalojar) && unchanged(`flagFinDePrograma)
      ensures Vista() == if resp == SUCCESS then Kernel.ThreadExit(old(Vista()), old(hiloEnExec).value)
                         else Desencolar(old(Vista()), old(hiloEnExec).value)
    {
      var hilo := hiloEnExec.value;
      DesencolarEstadoActual(hilo);
      if resp == SUCCESS {
        LiberarHilo(hilo);
      }
    }

    /** process_exit_thread: any thread of the process can be the one that ends it. */
    method ProcessExitThread(hilo: Hilo, resp: Respuesta)
      requires Conocido(hilo.pid)
      modifies this
      ensures unchanged(`flagDesalojar) && unchanged(`flagFinDePrograma)
      ensures Vista() == if resp == SUCCESS then Kernel.ProcessExit(old(Vista()), hilo)
              else Desencolar(old(Vista()), hilo)
    {
      hide Kernel.LiberarPcb, Quitar, EncolarReady;
      var proceso := BuscarProceso(hilo.pid);
      DesencolarEstadoActual(hilo);
      if resp == SUCCESS {
        LiberarPcb(proceso.value);
        if !largoPlazo {
          largoPlazo := true;
        }
      }
    }

    method ProcessExit(resp: Respuesta)
      requires Ejecutando()
      modifies this
      ensures unchanged(`flagDesalojar) && unchanged(`flagFinDePrograma)
      ensures Vista() == if resp == SUCCESS then Kernel.ProcessExit(old(Vista()), old(hiloEnExec).value)
                         else Desencolar(old(Vista()), old(hiloEnExec).value)
    {
      ProcessExitThread(hiloEnExec.value, resp);
    }

    /** The handler of a dump: `resp` is the answer to the dump, `fin` the one to FIN_PROCESO. */
    method DumpMemoryHandler(hilo: Hilo, resp: Respuesta, fin: Respuesta)
      requires Conocido(hilo.pid)
      modifies this
      ensures unchanged(`flagDesalojar) && unchanged(`flagFinDePrograma)
      ensures Vista() == if resp == SUCCESS then Volver(old(Vista()), hilo)
                         else if fin == SUCCESS then FallarDump(old(Vista()), hilo)
                         else Desencolar(old(Vista()).(pendientes := old(pendientes) - {hilo}), hilo)
    {
      hide Kernel.ProcessExit;
      if resp == SUCCESS {
        FinDeEspera(hilo);
      } else {
        pendientes := pendientes - {hilo};
        ProcessExitThread(hilo, fin);
      }
    }

    // ---- Long-term scheduler ----

    /** One round of the admission loop: the head of the queue and the answer of the memory to it. */
    method RondaLargoPlazo(resp: Respuesta)
      requires largoPlazo && hayPcbsEnNew > 0 && colaNew != [] && Conocido(colaNew[0])
      requires procesos[colaNew[0]].threads != []
      modifies this
      ensures unchanged(`flagDesalojar) && unchanged(`flagFinDePrograma)
      ensures Vista() == Admitir(old(Vista()), resp)
    {
      hide Kernel.LiberarPcb, Quitar, EncolarReady;
      hayPcbsEnNew := hayPcbsEnNew - 1;
      var proceso := colaNew[0];
      var hilo := Hilo(proceso, procesos[proceso].threads[0]);
      match resp
      case SUCCESS =>
        colaNew := Quitar(colaNew, proceso);
        EncolarEnReady(hilo);
      case SIZE_ERROR =>
        largoPlazo := false;
        hayPcbsEnNew := hayPcbsEnNew + 1;
      case _ =>
        colaNew := Quitar(colaNew, proceso);
        LiberarPcb(proceso);
    }

    // ---- The reason a thread came back with ----

    /** One turn of ejecutar_hilo: what the processor reports is attended, with the answers of the memory, and
        the thread is sent back or not. With SUCCESS it is sent back exactly when it is still executing; after
        a thread the memory refused it is sent back in any case. */
    method AtenderMotivo(op: Op, resp: Respuesta, fin: Respuesta) returns (sigue: bool)
      requires Ejecutando() && !op.Despacho? && !op.FinEspera? && !op.DumpFallido? && !op.Admision? && !op.Tic?
      requires op.FinHilo? ==> hiloEnExec.value.tid != 0
      modifies this
      ensures unchanged(`flagDesalojar) && unchanged(`flagFinDePrograma)
      ensures Vista() == PasoSegun(old(Vista()), algoritmo, op, resp, fin)
      ensures Inv(old(Vista())) && Habilitado(old(Vista()), op) && resp == SUCCESS ==>
                Inv(Vista()) && (sigue <==> hiloEnExec == old(hiloEnExec))
      ensures op.ThreadCreate? ==> sigue
      ensures Inv(old(Vista())) && op.ThreadCreate? ==>
                (hiloEnExec == old(hiloEnExec) <==> resp == SUCCESS || fin != SUCCESS)
    {
      hide PasoSegun, Paso, Habilitado, Inv;
      ghost var k := Vista();
      PasoConRespuesta(k, algoritmo, op, fin);
      if Inv(k) && Habilitado(k, op) {
        PasoConserva(k, algoritmo, op);
        QuienSigue(k, algoritmo, op);
      }
      if Inv(k) && op.ThreadCreate? {
        CreaSegun(k, algoritmo, op, resp, fin);
      }
      sigue := SegunMotivo(op, resp, fin);
    }

    /** The switch over the reason. */
    method SegunMotivo(op: Op, resp: Respuesta, fin: Respuesta) returns (sigue: bool)
      requires Ejecutando() && !op.Despacho? && !op.FinEspera? && !op.DumpFallido? && !op.Admision? && !op.Tic?
      requires op.FinHilo? ==> hiloEnExec.value.tid != 0
      modifies this
      ensures unchanged(`flagDesalojar) && unchanged(`flagFinDePrograma)
      ensures Vista() == PasoSegun(old(Vista()), algoritmo, op, resp, fin)
      ensures sigue <==> if op.Join? || op.Lock? then hiloEnExec == old(hiloEnExec)
                         else op.ProcessCreate? || op.ThreadCreate? || op.MutexNuevo? || op.Unlock?
    {
      hide Paso, PasoSegun, CrearHiloSegun, IniciarProceso, Interrumpir, PedirIO, PedirDump, Desencolar,
        Kernel.ThreadJoin, Kernel.ThreadCancel, Kernel.ThreadExit, Kernel.ProcessExit, Kernel.MutexCreate,
        Kernel.MutexLock, Kernel.MutexUnlock;
      PasoDelMotivo(Vista(), algoritmo, op, resp, fin);
      sigue := false;
      match op
      case Interrupcion => Interrupcion();
      case PeticionIO => PeticionIO();
      case DumpMemory => DumpMemory();
      case ProcessCreate(tamanio, prioridad) =>
        CrearPcb(tamanio, prioridad);
        sigue := true;
      case ThreadCreate(prioridad) =>
        ThreadCreate(prioridad, resp, fin);
        sigue := true;
      case Join(tid) => sigue := ThreadJoin(tid);
      case Cancelar(tid) =>
        ThreadCancel(tid);
        hiloEnExec := None;   // the scheduler, when this turn is over
      case MutexNuevo(nombre) =>
        MutexCreate(nombre);
        sigue := true;
      case Lock(nombre) => sigue := MutexLock(nombre);
      case Unlock(nombre) =>
        MutexUnlock(nombre);
        sigue := true;
      case FinHilo => ThreadExit(resp);
      case FinProceso => ProcessExit(resp);
    }
  }

  /** Adding the first thread to an empty record is recording the process with it. */
  lemma PrimerHilo(procesos: map<nat, Pcb>, pid: nat, tamanio: nat)
    ensures procesos[pid := Pcb([], [], tamanio, 0)][pid := Pcb([] + [0], [], tamanio, 1)]
            == procesos[pid := Pcb([0], [], tamanio, 1)]
  {
    assert [] + [0] == [0];
  }

  lemma EsInicio(k: K, tamanio: nat, prioridad: nat)
    ensures var pid := k.pidCounter;
            IniciarProceso(k, tamanio, prioridad)
            == K(k.colaNew + [pid], k.colaReady, k.colaBlocked, k.exec, k.sistema + [pid],
                 k.procesos[pid := Pcb([0], [], tamanio, 1)],
                 k.tcbs[Hilo(pid, 0) := Tcb(prioridad, READY, NONE, -1, 0)], pid + 1, k.semNew + 1, k.semReady,
                 k.largoPlazo, k.reloj, k.pendientes)
  {
  }

  lemma NoCrece(k: K, h: Hilo)
    ensures |Despertar(k, h).colaBlocked| <= |k.colaBlocked|
  {
  }

  lemma MismosListos(k: K, k': K)
    requires k'.colaReady == k.colaReady && k'.tcbs == k.tcbs
    ensures Listos(k') == Listos(k)
  {
  }

  /** A dispatch, once a token has been spent. */
  lemma EsDespacho(k: K, k1: K, alg: Algoritmo)
    requires k.semReady > 0 && k1 == k.(semReady := k.semReady - 1)
    ensures k.colaReady == [] ==> Despachar(k, alg) == k1
    ensures k.colaReady != [] ==>
      var m := Eleccion(alg, Listos(k), k.reloj);
      var h := k.colaReady[m];
      Despachar(k, alg) == k1.(tcbs := k.tcbs[h := Ficha(k, h).(estado := EXEC)],
                               colaReady := Sin(k.colaReady, m), exec := Some(h))
  {
    hide Eleccion, Listos, Sin;
  }

  // ---- Who goes on executing ----

  lemma UnlockSigue(k: K, h: Hilo, nombre: string)
    requires Inv(k) && k.exec == Some(h)
    ensures MutexUnlock(k, h, nombre).exec == k.exec
  {
    EnEjecucion(k, h);
    hide Inv, MutexUnlock, BuscarRecurso;
    UnlockConserva(k, h, nombre);
  }

  lemma PasoQueSuelta(k: K, alg: Algoritmo, op: Op)
    requires k.exec.Some?
    ensures op.Interrupcion? ==> Paso(k, alg, op) == Interrumpir(k, k.exec.value)
    ensures op.PeticionIO? ==>
              Paso(k, alg, op) == Bloquear(k, k.exec.value, IO).(pendientes := k.pendientes + {k.exec.value})
    ensures op.DumpMemory? ==>
              Paso(k, alg, op) == Bloquear(k, k.exec.value,
                                           BLOQUEO_POR_DUMP).(pendientes := k.pendientes + {k.exec.value})
    ensures op.FinHilo? ==> Paso(k, alg, op) == ThreadExit(k, k.exec.value)
    ensures op.Cancelar? ==> Paso(k, alg, op).exec == None
    ensures op.FinProceso? ==> Paso(k, alg, op) == ProcessExit(k, k.exec.value)
  {
    hide Interrumpir, Bloquear, ThreadExit, ProcessExit, ThreadCancel;
  }

  lemma SueltaElProcesador(k: K, alg: Algoritmo, op: Op)
    requires Inv(k) && Habilitado(k, op) && k.exec.Some?
    requires op.Interrupcion? || op.PeticionIO? || op.DumpMemory? || op.FinHilo? || op.FinProceso? || op.Cancelar?
    ensures Paso(k, alg, op).exec == None
  {
    var h := k.exec.value;
    hide *;
    PasoQueSuelta(k, alg, op);
    if op.Interrupcion? {
      InterrupcionConserva(k, h);
    } else if op.PeticionIO? {
      EsperaConserva(k, h, IO);
    } else if op.DumpMemory? {
      EsperaConserva(k, h, BLOQUEO_POR_DUMP);
    } else if op.FinHilo? {
      NadieTrasFin(k, h);
    } else if op.FinProceso? {
      NadieTrasSalir(k, h);
    }
  }

  lemma PasoConRespuesta(k: K, alg: Algoritmo, op: Op, fin: Respuesta)
    ensures PasoSegun(k, alg, op, SUCCESS, fin) == Paso(k, alg, op)
  {
  }

  /** What each reason does when a thread executes. */
  lemma PasoDelMotivo(k: K, alg: Algoritmo, op: Op, resp: Respuesta, fin: Respuesta)
    requires k.exec.Some?
    ensures var h, k' := k.exec.value, PasoSegun(k, alg, op, resp, fin);
            match op
            case Interrupcion => k' == Interrumpir(k, h)
            case PeticionIO => k' == PedirIO(k, h)
            case DumpMemory => k' == PedirDump(k, h)
            case ProcessCreate(n, p) => k' == IniciarProceso(k, n, p)
            case ThreadCreate(p) => k' == CrearHiloSegun(k, h, p, resp, fin)
            case Join(t) => k' == ThreadJoin(k, h, t)
            case MutexNuevo(n) => k' == MutexCreate(k, h, n)
            case Lock(n) => k' == MutexLock(k, h, n)
            case Unlock(n) => k' == MutexUnlock(k, h, n)
            case Cancelar(t) => k' == ThreadCancel(k, h, t).(exec := None)
            case FinHilo => k' == if resp == SUCCESS then ThreadExit(k, h) else Desencolar(k, h)
            case FinProceso => k' == if resp == SUCCESS then ProcessExit(k, h) else Desencolar(k, h)
            case _ => true
  {
    hide Interrumpir, PedirIO, PedirDump, IniciarProceso, CrearHiloSegun, ThreadJoin, MutexCreate,
      MutexLock, MutexUnlock,
      ThreadCancel, ThreadExit, ProcessExit, Desencolar, Despachar, Volver, FallarDump, Admitir;
  }

  lemma CreaSegun(k: K, alg: Algoritmo, op: Op, resp: Respuesta, fin: Respuesta)
    requires Inv(k) && k.exec.Some? && op.ThreadCreate?
    ensures PasoSegun(k, alg, op, resp, fin).exec == k.exec <==> resp == SUCCESS || fin != SUCCESS
  {
    hide Inv, Paso, CrearHiloSegun;
    SigueTrasCrearSiYSoloSi(k, k.exec.value, op.prioridad, resp, fin);
  }

  lemma PasoQueSigue(k: K, alg: Algoritmo, op: Op)
    requires k.exec.Some?
    ensures op.ProcessCreate? ==> Paso(k, alg, op) == IniciarProceso(k, op.tamanio, op.prioridad)
    ensures op.ThreadCreate? ==> Paso(k, alg, op) == CrearHilo(k, k.exec.value, op.prioridad)
    ensures op.MutexNuevo? ==> Paso(k, alg, op) == MutexCreate(k, k.exec.value, op.nombre)
    ensures op.Unlock? ==> Paso(k, alg, op) == MutexUnlock(k, k.exec.value, op.nombre)
  {
    hide IniciarProceso, CrearHilo, MutexCreate, MutexUnlock;
  }

  lemma SigueEjecutando(k: K, alg: Algoritmo, op: Op)
    requires Inv(k) && k.exec.Some? && (op.ProcessCreate? || op.ThreadCreate? || op.MutexNuevo? || op.Unlock?)
    ensures Paso(k, alg, op).exec == k.exec
  {
    var h := k.exec.value;
    hide Inv, Paso, CrearHilo, MutexUnlock, IniciarProceso;
    PasoQueSigue(k, alg, op);
    if op.Unlock? {
      UnlockSigue(k, h, op.nombre);
    } else if op.ThreadCreate? {
      CrearHiloConserva(k, h, op.prioridad);
    } else if op.ProcessCreate? {
      IniciarConserva(k, op.tamanio, op.prioridad);
    }
  }

  /** After an event of the executing thread, either it is still executing or nobody is. */
  lemma QuienSigue(k: K, alg: Algoritmo, op: Op)
    requires Inv(k) && Habilitado(k, op) && k.exec.Some?
    ensures op.Interrupcion? || op.PeticionIO? || op.DumpMemory? || op.FinHilo? || op.FinProceso? || op.Cancelar? ==>
              Paso(k, alg, op).exec == None
    ensures op.ProcessCreate? || op.ThreadCreate? || op.MutexNuevo? || op.Unlock? ==> Paso(k, alg, op).exec == k.exec
  {
    hide *;
    if op.Interrupcion? || op.PeticionIO? || op.DumpMemory? || op.FinHilo? || op.FinProceso? || op.Cancelar? {
      SueltaElProcesador(k, alg, op);
    } else if op.ProcessCreate? || op.ThreadCreate? || op.MutexNuevo? || op.Unlock? {
      SigueEjecutando(k, alg, op);
    }
  }

  lemma NadieTrasSalir(k: K, h: Hilo)
    requires Inv(k) && k.exec == Some(h)
    ensures ProcessExit(k, h).exec == None
  {
    EnEjecucion(k, h);
    DespuesDeDesencolar(k, h);
    hide Inv, Localizados, LiberarPcb, SinPid, EnCola, SinDup;
    NadieTrasLiberarPcb(Desencolar(k, h), h.pid);
  }

  // ---- A loop that removes by index from the list it runs over ----

  /** The elements at odd places. */
  function Salteados<T>(s: seq<T>): (r: seq<T>)
    ensures |r| == |s| / 2 && forall j :: 0 <= j < |r| ==> r[j] == s[2 * j + 1]
  {
    if |s| < 2 then [] else [s[1]] + Salteados(s[2..])
  }

  /** What such a loop leaves, from index i on. */
  ghost function PorSaltear<T>(s: seq<T>, i: nat): seq<T> {
    if i <= |s| then s[..i] + Salteados(s[i..]) else s
  }

  lemma SaltearUno<T>(s: seq<T>, i: nat)
    requires i < |s|
    ensures PorSaltear(Sin(s, i), i + 1) == PorSaltear(s, i)
  {
    if i + 1 < |s| {
      assert Sin(s, i)[..i + 1] == s[..i] + [s[i + 1]];
      assert Sin(s, i)[i + 1..] == s[i..][2..];
    }
  }

  lemma SaltearFin<T>(s: seq<T>, i: nat)
    requires |s| <= i
    ensures PorSaltear(s, i) == s
  {
  }

  // ---- The search for a mutex ----

  /** None of the first i mutexes has the name. */
  ghost predicate Buscando(ms: seq<Recurso>, nombre: string, i: nat) {
    i <= |ms| && forall j :: 0 <= j < i ==> !IgualSinCaja(ms[j].nombre, nombre)
  }

  lemma {:induction false} EncontradoEn(ms: seq<Recurso>, nombre: string, i: nat)
    requires i < |ms| && Buscando(ms, nombre, i) && IgualSinCaja(ms[i].nombre, nombre)
    ensures BuscarRecurso(ms, nombre) == Some(i)
  {
    hide IgualSinCaja;
    if i == 0 {
    } else {
      EncontradoEn(ms[1..], nombre, i - 1);
    }
  }

  lemma {:induction false} UltimoDe(ms: seq<Recurso>, nombre: string)
    requires ms != [] && Buscando(ms, nombre, |ms|)
    ensures BuscarRecurso(ms, nombre) == Some(|ms| - 1)
  {
    hide IgualSinCaja;
    if |ms| > 1 {
      UltimoDe(ms[1..], nombre);
    }
  }

  lemma EnLaLista(ms: seq<Recurso>, nombre: string)
    requires BuscarRecurso(ms, nombre) != None
    ensures BuscarRecurso(ms, nombre).value < |ms|
  {
  }
}
