/** The kernel as a state machine: its queues, its tables and one step per event it handles. Every
    event is atomic. Records that do not exist read as blank; no reachable state looks at one.
    Sources: kernel/src/utils.c, syscalls.c, planificador_corto_plazo.c and planificador_largo_plazo.c. */
module Kernel {
  import opened Listas
  import opened Opcion
  import opened Planificacion

  /** What a thread can be: the record itself never says NEW or EXIT. */
  datatype Estado = READY | BLOCKED | EXEC

  datatype MotivoBloqueo = THREAD_JOIN | MUTEX | IO | M_DUMP | NONE

  /** A dump blocks its thread with M_DUMP_MEMORY, a reason of eviction; as a reason of blocking the
      same number is MUTEX. */
  const BLOQUEO_POR_DUMP: MotivoBloqueo := MUTEX

  /** t_tcb; `desde` is when `temporal` was created and `bloqueador` is -1 when there is none. */
  datatype Tcb = Tcb(prioridad: nat, estado: Estado, motivo: MotivoBloqueo, bloqueador: int, desde: nat)

  /** t_recurso: the owner is a tid, or -1; the waiters are threads of the same process. */
  datatype Recurso = Recurso(nombre: string, owner: int, hilos: seq<nat>)

  /** t_pcb */
  datatype Pcb = Pcb(threads: seq<nat>, mutex: seq<Recurso>, tamanio: nat, tidContador: nat)

  /** `pendientes` are the threads some IO or dump handler will come back for. */
  datatype K = K(colaNew: seq<nat>, colaReady: seq<Hilo>, colaBlocked: seq<Hilo>, exec: Option<Hilo>,
                 sistema: seq<nat>, procesos: map<nat, Pcb>, tcbs: map<Hilo, Tcb>, pidCounter: nat,
                 semNew: nat, semReady: nat, largoPlazo: bool, reloj: nat, pendientes: set<Hilo>)

  function Ficha(k: K, h: Hilo): Tcb {
    if h in k.tcbs then k.tcbs[h] else Tcb(0, READY, NONE, -1, 0)
  }

  function Proceso(k: K, pid: nat): Pcb {
    if pid in k.procesos then k.procesos[pid] else Pcb([], [], 0, 0)
  }

  // ---- Lists ----

  /** list_remove_element: the first occurrence. */
  function Quitar<T(==)>(s: seq<T>, x: T): (r: seq<T>)
    ensures |s| - 1 <= |r| <= |s|
  {
    if s == [] then [] else if s[0] == x then s[1..] else [s[0]] + Quitar(s[1..], x)
  }

  function Minuscula(c: char): char {
    if 'A' <= c <= 'Z' then c - 'A' + 'a' else c
  }

  predicate IgualSinCaja(a: string, b: string) {
    |a| == |b| && forall i :: 0 <= i < |a| ==> Minuscula(a[i]) == Minuscula(b[i])
  }

  /** buscar_recurso: the first mutex with that name, and the last of the list when there is none. */
  function BuscarRecurso(ms: seq<Recurso>, nombre: string): (i: Option<nat>)
    ensures i.Some? <==> ms != []
    ensures i.Some? ==> i.value < |ms|
  {
    if ms == [] then None
    else if |ms| == 1 || IgualSinCaja(ms[0].nombre, nombre) then Some(0)
    else Some(BuscarRecurso(ms[1..], nombre).value + 1)
  }

  // ---- Queue operations ----

  function ConFicha(k: K, h: Hilo, t: Tcb): K {
    k.(tcbs := k.tcbs[h := t])
  }

  function ConProceso(k: K, pid: nat, p: Pcb): K {
    k.(procesos := k.procesos[pid := p])
  }

  function EncolarReady(k: K, h: Hilo): K {
    ConFicha(k, h, Ficha(k, h).(estado := READY, desde := k.reloj))
      .(colaReady := k.colaReady + [h], semReady := k.semReady + 1)
  }

  function EncolarBlocked(k: K, h: Hilo, motivo: MotivoBloqueo): K {
    ConFicha(k, h, Ficha(k, h).(estado := BLOCKED, motivo := motivo)).(colaBlocked := k.colaBlocked + [h])
  }

  /** Takes the thread out of the queue its state names. */
  function Desencolar(k: K, h: Hilo): K {
    match Ficha(k, h).estado
    case READY => k.(colaReady := Quitar(k.colaReady, h))
    case EXEC => k.(exec := None)
    case BLOCKED => k.(colaBlocked := Quitar(k.colaBlocked, h))
  }

  function Listos(k: K): (c: seq<Listo>)
    ensures |c| == |k.colaReady|
  {
    seq(|k.colaReady|, i requires 0 <= i < |k.colaReady| =>
      Listo(k.colaReady[i], Ficha(k, k.colaReady[i]).prioridad, Ficha(k, k.colaReady[i]).desde))
  }

  // ---- Short-term scheduler ----

  /** One round of the scheduler: a token of the semaphore and, unless the queue is empty, a thread. */
  function Despachar(k: K, alg: Algoritmo): K {
    var k1 := k.(semReady := if k.semReady > 0 then k.semReady - 1 else 0);
    if k.colaReady == [] then k1
    else
      var m := Eleccion(alg, Listos(k), k.reloj);
      var h := k.colaReady[m];
      ConFicha(k1, h, Ficha(k, h).(estado := EXEC)).(colaReady := Sin(k.colaReady, m), exec := Some(h))
  }

  function Interrumpir(k: K, h: Hilo): K {
    EncolarReady(Desencolar(k, h), h)
  }

  function Bloquear(k: K, h: Hilo, motivo: MotivoBloqueo): K {
    EncolarBlocked(Desencolar(k, h), h, motivo)
  }

  function PedirIO(k: K, h: Hilo): K {
    Bloquear(k, h, IO).(pendientes := k.pendientes + {h})
  }

  function PedirDump(k: K, h: Hilo): K {
    Bloquear(k, h, BLOQUEO_POR_DUMP).(pendientes := k.pendientes + {h})
  }

  /** The handler of an IO or of a successful dump comes back. */
  function Volver(k: K, h: Hilo): K {
    EncolarReady(Desencolar(k, h), h).(pendientes := k.pendientes - {h})
  }

  // ---- System calls ----

  function IniciarProceso(k: K, tamanio: nat, prioridad: nat): K {
    var pid := k.pidCounter;
    k.(pidCounter := pid + 1, sistema := k.sistema + [pid], procesos := k.procesos[pid := Pcb([0], [], tamanio, 1)],
       tcbs := k.tcbs[Hilo(pid, 0) := Tcb(prioridad, READY, NONE, -1, 0)],
       colaNew := k.colaNew + [pid], semNew := k.semNew + 1)
  }

  /** A new thread of the process of h, in no queue yet. */
  function NuevoHilo(k: K, h: Hilo, prioridad: nat): K {
    var p := Proceso(k, h.pid);
    ConFicha(ConProceso(k, h.pid, p.(threads := p.threads + [p.tidContador], tidContador := p.tidContador + 1)),
             Hilo(h.pid, p.tidContador), Tcb(prioridad, READY, NONE, -1, 0))
  }

  /** thread_create, with the memory accepting the thread. */
  function CrearHilo(k: K, h: Hilo, prioridad: nat): K {
    EncolarReady(NuevoHilo(k, h, prioridad), Hilo(h.pid, Proceso(k, h.pid).tidContador))
  }

  /** A join on a thread that does not exist changes nothing. */
  function ThreadJoin(k: K, h: Hilo, tid: nat): K {
    if tid !in Proceso(k, h.pid).threads then k
    else
      var k1 := Desencolar(k, h);
      EncolarBlocked(ConFicha(k1, h, Ficha(k1, h).(bloqueador := tid)), h, THREAD_JOIN)
  }

  function ConMutex(k: K, pid: nat, i: nat, r: Recurso): K
    requires i < |Proceso(k, pid).mutex|
  {
    ConProceso(k, pid, Proceso(k, pid).(mutex := Proceso(k, pid).mutex[i := r]))
  }

  function MutexCreate(k: K, h: Hilo, nombre: string): K {
    ConProceso(k, h.pid, Proceso(k, h.pid).(mutex := Proceso(k, h.pid).mutex + [Recurso(nombre, -1, [])]))
  }

  function MutexLock(k: K, h: Hilo, nombre: string): K {
    var ms := Proceso(k, h.pid).mutex;
    match BuscarRecurso(ms, nombre)
    case None => k
    case Some(i) =>
      if ms[i].owner == -1 then ConMutex(k, h.pid, i, ms[i].(owner := h.tid))
      else ConMutex(Bloquear(k, h, MUTEX), h.pid, i, ms[i].(hilos := ms[i].hilos + [h.tid]))
  }

  function MutexUnlock(k: K, h: Hilo, nombre: string): K {
    var ms := Proceso(k, h.pid).mutex;
    match BuscarRecurso(ms, nombre)
    case None => k
    case Some(i) =>
      if ms[i].owner != h.tid then k
      else if ms[i].hilos == [] then ConMutex(k, h.pid, i, ms[i].(owner := -1))
      else
        var nuevo := ms[i].hilos[0];
        var k1 := ConMutex(k, h.pid, i, ms[i].(owner := nuevo, hilos := ms[i].hilos[1..]));
        EncolarReady(Desencolar(k1, Hilo(h.pid, nuevo)), Hilo(h.pid, nuevo))
  }

  // ---- End of threads and processes ----

  predicate EsperaA(k: K, h: Hilo, muerto: Hilo) {
    h.pid == muerto.pid && Ficha(k, h).bloqueador == muerto.tid && Ficha(k, h).motivo == THREAD_JOIN
  }

  function Despertar(k: K, h: Hilo): K {
    var k1 := ConFicha(k, h, Ficha(k, h).(bloqueador := -1, motivo := NONE));
    EncolarReady(Desencolar(k1, h), h)
  }

  /** The loop of liberar_hilo over the blocked queue, from index i. Waking a thread takes it out of
      the very list being walked, so the one that follows it is skipped. */
  function DespertarDesde(k: K, muerto: Hilo, i: nat): (r: K)
    ensures r.procesos == k.procesos && r.colaNew == k.colaNew
    decreases |k.colaBlocked| - i
  {
    if i >= |k.colaBlocked| then k
    else
      var h := k.colaBlocked[i];
      DespertarDesde(if EsperaA(k, h, muerto) then Despertar(k, h) else k, muerto, i + 1)
  }

  /** One mutex in the loop of liberar_hilo: handed to its first waiter, who stays in the list. */
  function Soltar(k: K, muerto: Hilo, i: nat): (r: K)
    requires i < |Proceso(k, muerto.pid).mutex|
    ensures Proceso(r, muerto.pid).threads == Proceso(k, muerto.pid).threads
    ensures |Proceso(r, muerto.pid).mutex| == |Proceso(k, muerto.pid).mutex|
  {
    var r := Proceso(k, muerto.pid).mutex[i];
    if r.owner != muerto.tid then k
    else if r.hilos == [] then ConMutex(k, muerto.pid, i, r.(owner := -1))
    else
      var nuevo := Hilo(muerto.pid, r.hilos[0]);
      EncolarReady(Desencolar(ConMutex(k, muerto.pid, i, r.(owner := nuevo.tid)), nuevo), nuevo)
  }

  function SoltarDesde(k: K, muerto: Hilo, i: nat): (r: K)
    ensures Proceso(r, muerto.pid).threads == Proceso(k, muerto.pid).threads
    decreases |Proceso(k, muerto.pid).mutex| - i
  {
    if i >= |Proceso(k, muerto.pid).mutex| then k
    else SoltarDesde(Soltar(k, muerto, i), muerto, i + 1)
  }

  function LiberarHilo(k: K, h: Hilo): (r: K)
    ensures Proceso(r, h.pid).threads == Quitar(Proceso(k, h.pid).threads, h.tid)
  {
    var p := Proceso(k, h.pid);
    var k1 := if h.pid in k.procesos then ConProceso(k, h.pid, p.(threads := Quitar(p.threads, h.tid))) else k;
    var k2 := DespertarDesde(k1, h, 0);
    var k3 := SoltarDesde(k2, h, 0);
    k3.(tcbs := k3.tcbs - {h})
  }

  /** thread_exit of a thread other than the first, with the memory answering SUCCESS. */
  function ThreadExit(k: K, h: Hilo): K {
    LiberarHilo(Desencolar(k, h), h)
  }

  /** buscar_hilo: the thread with that tid, and the last of the process when there is none. */
  function BuscarHilo(ts: seq<nat>, tid: nat): (r: Option<nat>)
    ensures r.None? <==> ts == []
    ensures r.Some? ==> r.value in ts && r.value == if tid in ts then tid else ts[|ts| - 1]
  {
    if ts == [] then None else if tid in ts then Some(tid) else Some(ts[|ts| - 1])
  }

  /** thread_cancel frees the thread found whatever the memory answers. */
  function ThreadCancel(k: K, h: Hilo, tid: nat): K {
    match BuscarHilo(Proceso(k, h.pid).threads, tid)
    case None => k
    case Some(t) => LiberarHilo(Desencolar(k, Hilo(h.pid, t)), Hilo(h.pid, t))
  }

  /** What thread_cancel leaves once the scheduler goes on: the caller is not sent back to the processor. */
  function Cancelado(k: K, h: Hilo, tid: nat): K {
    ThreadCancel(k, h, tid).(exec := None)
  }

  /** The first loop of liberar_pcb. */
  function DesencolarDesde(k: K, pid: nat, i: nat): (r: K)
    ensures r.procesos == k.procesos
    decreases |Proceso(k, pid).threads| - i
  {
    if i >= |Proceso(k, pid).threads| then k
    else DesencolarDesde(Desencolar(k, Hilo(pid, Proceso(k, pid).threads[i])), pid, i + 1)
  }

  /** The second loop of liberar_pcb: it frees the thread at index i and then moves to i + 1 in a list
      that has lost that thread, so it reaches every other one. */
  function LiberarDesde(k: K, pid: nat, i: nat): K
    decreases |Proceso(k, pid).threads| - i
  {
    if i >= |Proceso(k, pid).threads| then k
    else
      LiberarDesde(LiberarHilo(k, Hilo(pid, Proceso(k, pid).threads[i])), pid, i + 1)
  }

  function LiberarPcb(k: K, pid: nat): K {
    var k1 := LiberarDesde(DesencolarDesde(k, pid, 0), pid, 0);
    k1.(procesos := k1.procesos - {pid}, sistema := Quitar(k1.sistema, pid))
  }

  /** process_exit_thread, called by any thread of the process, with the memory answering SUCCESS. */
  function ProcessExit(k: K, h: Hilo): K {
    LiberarPcb(Desencolar(k, h), h.pid).(largoPlazo := true)
  }

  /** thread_create, with the memory refusing the thread and accepting the end of its process. */
  function RechazarHilo(k: K, h: Hilo, prioridad: nat): K {
    ProcessExit(NuevoHilo(k, h, prioridad), Hilo(h.pid, Proceso(k, h.pid).tidContador))
  }

  /** thread_create for each pair of answers of the memory: to the thread, and to the end of the process. */
  function CrearHiloSegun(k: K, h: Hilo, prioridad: nat, resp: Respuesta, fin: Respuesta): K {
    if resp == SUCCESS then CrearHilo(k, h, prioridad)
    else if fin == SUCCESS then RechazarHilo(k, h, prioridad)
    else Desencolar(NuevoHilo(k, h, prioridad), Hilo(h.pid, Proceso(k, h.pid).tidContador))
  }

  /** The handler of a dump that failed: it ends the process of its thread. */
  function FallarDump(k: K, h: Hilo): K {
    ProcessExit(k.(pendientes := k.pendientes - {h}), h)
  }

  // ---- Long-term scheduler ----

  datatype Respuesta = SUCCESS | MAX_SIZE_ERROR | SIZE_ERROR | PATH_ERROR

  /** One round of the admission loop on the head of the queue, given what the memory answers. */
  function Admitir(k: K, resp: Respuesta): K {
    if k.colaNew == [] then k
    else
      var pid := k.colaNew[0];
      var k1 := k.(semNew := if k.semNew > 0 then k.semNew - 1 else 0);
      match resp
      case SUCCESS =>
        var ts := Proceso(k, pid).threads;
        EncolarReady(k1.(colaNew := Quitar(k.colaNew, pid)), Hilo(pid, if ts == [] then 0 else ts[0]))
      case SIZE_ERROR => k1.(largoPlazo := false, semNew := k1.semNew + 1)
      case _ => LiberarPcb(k1.(colaNew := Quitar(k.colaNew, pid)), pid)
  }

  // ---- Events ----

  datatype Op =
    | Despacho | Interrupcion | PeticionIO | DumpMemory | FinEspera(h: Hilo) | DumpFallido(h: Hilo)
    | ProcessCreate(tamanio: nat, prioridad: nat) | ThreadCreate(prioridad: nat) | Join(tid: nat)
    | MutexNuevo(nombre: string) | Lock(nombre: string) | Unlock(nombre: string)
    | Cancelar(tid: nat) | FinHilo | FinProceso | Admision(resp: Respuesta) | Tic(n: nat)

  function Paso(k: K, alg: Algoritmo, op: Op): K {
    match op
    case Despacho => if k.exec.Some? then k else Despachar(k, alg)
    case Interrupcion => if k.exec.None? then k else Interrumpir(k, k.exec.value)
    case PeticionIO => if k.exec.None? then k else PedirIO(k, k.exec.value)
    case DumpMemory => if k.exec.None? then k else PedirDump(k, k.exec.value)
    case FinEspera(h) => Volver(k, h)
    case DumpFallido(h) => FallarDump(k, h)
    case ProcessCreate(n, p) => IniciarProceso(k, n, p)
    case ThreadCreate(p) => if k.exec.None? then k else CrearHilo(k, k.exec.value, p)
    case Join(t) => if k.exec.None? then k else ThreadJoin(k, k.exec.value, t)
    case MutexNuevo(n) => if k.exec.None? then k else MutexCreate(k, k.exec.value, n)
    case Lock(n) => if k.exec.None? then k else MutexLock(k, k.exec.value, n)
    case Unlock(n) => if k.exec.None? then k else MutexUnlock(k, k.exec.value, n)
    case Cancelar(t) => if k.exec.None? then k else Cancelado(k, k.exec.value, t)
    case FinHilo => if k.exec.None? then k else ThreadExit(k, k.exec.value)
    case FinProceso => if k.exec.None? then k else ProcessExit(k, k.exec.value)
    case Admision(r) => Admitir(k, r)
    case Tic(n) => k.(reloj := k.reloj + n)
  }

  /** The same for each answer of the memory to the executing thread: `resp` to what it asks for, `fin` to the
      end of the process of a thread that was refused. */
  function PasoSegun(k: K, alg: Algoritmo, op: Op, resp: Respuesta, fin: Respuesta): K {
    if k.exec.Some? && op.ThreadCreate? then CrearHiloSegun(k, k.exec.value, op.prioridad, resp, fin)
    else if k.exec.Some? && (op.FinHilo? || op.FinProceso?) && resp != SUCCESS then Desencolar(k, k.exec.value)
    else Paso(k, alg, op)
  }

  function Inicial(pid: nat): K {
    K([], [], [], None, [], map[], map[], pid, 0, 0, true, 0, {})
  }
}
