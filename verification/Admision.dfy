/** The long-term scheduler and the memory together: the admission gate closes only while the process
    at the head of the queue cannot be placed, and kernel and memory agree on which threads exist.
    Sources: kernel/src/planificador_largo_plazo.c, kernel/src/syscalls.c and
    memoria/src/operaciones_kernel.c. */
module Admision {
  import opened Listas
  import opened Opcion
  import opened Planificacion
  import opened Kernel
  import opened Invariantes
  import opened Bloqueos
  import opened Salidas
  import opened FinDeProceso
  import opened Corridas
  import P = Particiones
  import R = Procesos

  /** Both processes; a request and its reply are one step. */
  datatype Sistema = Sistema(k: K, m: R.Mem)

  datatype Suceso =
    | Propio(op: Op)             // the memory takes no part
    | Admite(legible: bool)      // CREAR_PROCESO for the head of the queue
    | Sale                       // FIN_PROCESO for the executing thread
    | FallaDump(h: Hilo)         // FIN_PROCESO for a thread whose dump has failed
    | CreaHilo(prioridad: nat)   // CREAR_HILO, with a program that can be read
    | TerminaHilo                // FIN_HILO for the executing thread
    | SeCancela(tid: nat)        // the same, from thread_cancel of itself: whatever the answer is

  function Contesta(r: P.OpCode): Kernel.Respuesta {
    match r
    case SUCCESS => SUCCESS
    case MAX_SIZE_ERROR => MAX_SIZE_ERROR
    case SIZE_ERROR => SIZE_ERROR
    case _ => PATH_ERROR
  }

  /** The thread that asked leaves its place even when the memory refuses. */
  function SiAcepta(r: P.OpCode, k: K, h: Hilo, k': K): K {
    if r == P.SUCCESS then k' else Desencolar(k, h)
  }

  /** The executing thread. */
  function Quien(k: K): Hilo {
    if k.exec.Some? then k.exec.value else Hilo(0, 0)
  }

  /** The memory takes no part in the event. */
  predicate SinMemoria(op: Op) {
    !op.Admision? && !op.FinProceso? && !op.DumpFallido? && !op.FinHilo? && !op.Cancelar? && !op.ThreadCreate?
  }

  ghost predicate Paso2(s: Sistema, alg: Algoritmo, e: Suceso, s': Sistema) {
    match e
    case Propio(op) =>
      && SinMemoria(op) && Habilitado(s.k, op)
      && (op.ProcessCreate? ==> op.tamanio >= 1) && s' == Sistema(Paso(s.k, alg, op), s.m)
    case Admite(legible) =>
      && s.k.largoPlazo && s.k.colaNew != []
      && exists r :: && R.Paso(s.m,
                               R.CrearProceso(s.k.colaNew[0], Proceso(s.k, s.k.colaNew[0]).tamanio, legible), s'.m, r)
                     && s'.k == Paso(s.k, alg, Admision(Contesta(r)))
    case Sale =>
      && Habilitado(s.k, FinProceso)
      && exists r :: && R.Paso(s.m, R.FinProceso(s.k.exec.value.pid), s'.m, r)
                     && s'.k == SiAcepta(r, s.k, s.k.exec.value, Paso(s.k, alg, FinProceso))
    case FallaDump(h) =>
      && Habilitado(s.k, DumpFallido(h))
      && exists r :: && R.Paso(s.m, R.FinProceso(h.pid), s'.m, r)
                     && s'.k == SiAcepta(r, s.k.(pendientes := s.k.pendientes - {h}), h, Paso(s.k, alg, DumpFallido(h)))
    case CreaHilo(p) =>
      && s.k.exec.Some?
      && exists r :: && R.Paso(s.m,
                               R.CrearHilo(s.k.exec.value.pid,
                                           Proceso(s.k, s.k.exec.value.pid).tidContador, true), s'.m, r)
                     && s'.k == Paso(s.k, alg, ThreadCreate(p))
    case TerminaHilo =>
      && Habilitado(s.k, FinHilo)
      && exists r :: && R.Paso(s.m, R.FinHilo(s.k.exec.value.pid, s.k.exec.value.tid), s'.m, r)
                     && s'.k == SiAcepta(r, s.k, s.k.exec.value, Paso(s.k, alg, FinHilo))
    case SeCancela(t) =>
      && Habilitado(s.k, Cancelar(t))
      && exists r :: && R.Paso(s.m, R.FinHilo(s.k.exec.value.pid, s.k.exec.value.tid), s'.m, r)
                     && s'.k == Paso(s.k, alg, Cancelar(t))
  }

  // ---- What both keep ----

  /** The memory holds an entry exactly for the live threads of admitted processes. */
  ghost predicate Acuerdo(k: K, m: R.Mem) {
    forall p: int, t: int :: R.Buscar(m.pcbs, p, t).Some? <==> p >= 0 && t >= 0 && Activo(k, Hilo(p, t))
  }

  /** The gate is closed only while no free partition is large enough for the head of the queue. */
  ghost predicate Puerta(k: K, m: R.Mem) {
    k.largoPlazo
    || (k.colaNew != [] && P.Entra(m.tabla, m.tam, Proceso(k, k.colaNew[0]).tamanio) == P.SIZE_ERROR)
  }

  ghost predicate Tamanios(k: K) {
    forall p :: p in k.procesos ==> k.procesos[p].tamanio >= 1
  }

  ghost predicate Inv2(s: Sistema) {
    && Invariantes.Inv(s.k) && R.Inv(s.m) && Acuerdo(s.k, s.m) && Puerta(s.k, s.m) && Tamanios(s.k)
    && s.m.alg != P.DESCONOCIDO
  }

  // ---- What the events of the kernel do to sizes and to the set of threads ----

  /** Processes keep their size; no process appears except the one just created. */
  ghost predicate MismosTamanios(k: K, k': K) {
    forall p :: p in k'.procesos && p in k.procesos ==> k'.procesos[p].tamanio == k.procesos[p].tamanio
  }

  ghost predicate MismosActivos(k: K, k': K) {
    forall x :: Activo(k', x) == Activo(k, x)
  }

  lemma BaseActivos(k: K, k': K)
    requires MismaBase(k, k')
    ensures MismosActivos(k, k') && MismosTamanios(k, k') && k'.procesos.Keys == k.procesos.Keys
  {
  }

  lemma LockActivos(k: K, h: Hilo, nombre: string)
    requires h.pid in k.procesos
    ensures var k' := MutexLock(k, h, nombre);
            MismosActivos(k, k') && MismosTamanios(k, k') && k'.procesos.Keys == k.procesos.Keys
  {
    BaseBloquear(k, h, MUTEX);
    LockNoEncola(k, h, nombre);
    hide Bloquear, BuscarRecurso;
  }

  lemma UnlockActivos(k: K, h: Hilo, nombre: string)
    requires h.pid in k.procesos
    ensures var k' := MutexUnlock(k, h, nombre);
            MismosActivos(k, k') && MismosTamanios(k, k') && k'.procesos.Keys == k.procesos.Keys
  {
    var ms := Proceso(k, h.pid).mutex;
    var b := BuscarRecurso(ms, nombre);
    if b.Some? && ms[b.value].owner == h.tid && ms[b.value].hilos != [] {
      var j := b.value;
      var nuevo := ms[j].hilos[0];
      BaseReady(ConMutex(k, h.pid, j, ms[j].(owner := nuevo, hilos := ms[j].hilos[1..])), Hilo(h.pid, nuevo));
    }
    UnlockNoEncola(k, h, nombre);
    hide BuscarRecurso, EncolarReady, Desencolar;
  }

  /** Events without the memory change no set of threads and no size. */
  lemma PropioActivos(k: K, alg: Algoritmo, op: Op)
    requires Invariantes.Inv(k) && Habilitado(k, op) && SinMemoria(op)
    ensures var k' := Paso(k, alg, op);
            && MismosActivos(k, k') && MismosTamanios(k, k') && k'.largoPlazo == k.largoPlazo
            && (forall p :: p in k'.procesos ==>
                  p in k.procesos || (op.ProcessCreate? && k'.procesos[p].tamanio == op.tamanio))
  {
    hide Despachar, Interrumpir, PedirIO, PedirDump, Volver, ThreadJoin, MutexLock, MutexUnlock, CrearHilo, ThreadExit,
      ProcessExit, FallarDump, Cancelado, Admitir, Inv, DuenioDisputado, PurgaDisputada;
    MismaPuerta(k, alg, op);
    if k.exec.Some? { ActivoEnEjecucion(k); }
    if op.Lock? {
      LockActivos(k, k.exec.value, op.nombre);
    } else if op.Unlock? {
      UnlockActivos(k, k.exec.value, op.nombre);
    } else if op.ProcessCreate? {
      IniciarActivos(k, op.tamanio, op.prioridad);
    } else if !op.MutexNuevo? {
      BaseQuieta(k, alg, op);
      BaseActivos(k, Paso(k, alg, op));
    }
  }

  lemma IniciarActivos(k: K, tamanio: nat, prioridad: nat)
    requires Invariantes.Inv(k)
    ensures MismosActivos(k, IniciarProceso(k, tamanio, prioridad))
    ensures MismosTamanios(k, IniciarProceso(k, tamanio, prioridad))
  {
    forall x
      ensures Activo(IniciarProceso(k, tamanio, prioridad), x) == Activo(k, x)
    {
      PidsConocidos(k, x);
    }
  }

  lemma MismaPuerta(k: K, alg: Algoritmo, op: Op)
    requires SinMemoria(op)
    ensures Paso(k, alg, op).largoPlazo == k.largoPlazo
  {
    hide Despachar, Interrumpir, PedirIO, PedirDump, Volver, ThreadJoin, MutexLock, MutexUnlock, CrearHilo, ThreadExit,
      ProcessExit, FallarDump, Cancelado, Admitir, MutexCreate, IniciarProceso;
    PuertaAlMover(k, if op.FinEspera? then op.h else Quien(k));
    match op
    case Despacho => PuertaAlPlanificar(k, alg);
    case Join(t) => PuertaAlUnir(k, Quien(k), t);
    case Lock(nombre) => PuertaAlTomar(k, Quien(k), nombre);
    case Unlock(nombre) => PuertaAlSoltar(k, Quien(k), nombre);
    case MutexNuevo(nombre) => PuertaAlCrear(k, Quien(k), nombre);
    case ProcessCreate(tamanio, prioridad) => PuertaAlIniciar(k, tamanio, prioridad);
    case _ =>
  }

  lemma PuertaAlPlanificar(k: K, alg: Algoritmo)
    ensures Despachar(k, alg).largoPlazo == k.largoPlazo
  {
    hide Eleccion, Listos;
  }

  lemma PuertaAlMover(k: K, h: Hilo)
    ensures Interrumpir(k, h).largoPlazo == k.largoPlazo && Volver(k, h).largoPlazo == k.largoPlazo
    ensures PedirIO(k, h).largoPlazo == k.largoPlazo && PedirDump(k, h).largoPlazo == k.largoPlazo
  {
    hide Quitar;
  }

  lemma PuertaAlCrear(k: K, h: Hilo, nombre: string)
    ensures MutexCreate(k, h, nombre).largoPlazo == k.largoPlazo
  {
  }

  lemma PuertaAlIniciar(k: K, tamanio: nat, prioridad: nat)
    ensures IniciarProceso(k, tamanio, prioridad).largoPlazo == k.largoPlazo
  {
  }

  lemma PuertaAlUnir(k: K, h: Hilo, t: nat)
    ensures ThreadJoin(k, h, t).largoPlazo == k.largoPlazo
  {
    hide Quitar;
  }

  lemma PuertaAlTomar(k: K, h: Hilo, nombre: string)
    ensures MutexLock(k, h, nombre).largoPlazo == k.largoPlazo
  {
    hide Quitar, BuscarRecurso;
  }

  lemma PuertaAlSoltar(k: K, h: Hilo, nombre: string)
    ensures MutexUnlock(k, h, nombre).largoPlazo == k.largoPlazo
  {
    hide Quitar, BuscarRecurso;
  }

  lemma PropioConserva(s: Sistema, alg: Algoritmo, op: Op)
    requires Inv2(s) && Paso2(s, alg, Propio(op), Sistema(Paso(s.k, alg, op), s.m))
    ensures Inv2(Sistema(Paso(s.k, alg, op), s.m))
  {
    hide Paso, Inv, R.Inv, Habilitado, Activo, P.Entra, R.Buscar;
    var k, k' := s.k, Paso(s.k, alg, op);
    PasoConserva(k, alg, op);
    PropioActivos(k, alg, op);
    NuevosEnUnPaso(k, alg, op);
    CabezaSigue(k, k', if op.ProcessCreate? then [k.pidCounter] else []);
    AcuerdoIgual(k, k', s.m);
  }

  lemma AcuerdoIgual(k: K, k': K, m: R.Mem)
    requires Acuerdo(k, m) && MismosActivos(k, k')
    ensures Acuerdo(k', m)
  {
    hide Activo, R.Buscar;
  }

  /** As long as nobody leaves NEW, the head of the queue and its size stay. */
  lemma CabezaSigue(k: K, k': K, nuevos: seq<nat>)
    requires Invariantes.Inv(k) && Invariantes.Inv(k') && MismosTamanios(k, k') && k'.colaNew == k.colaNew + nuevos
    ensures k.colaNew != [] ==>
              k'.colaNew[0] == k.colaNew[0] && Proceso(k', k.colaNew[0]).tamanio == Proceso(k, k.colaNew[0]).tamanio
  {
    if k.colaNew != [] {
      CabezaNueva(k);
      CabezaNueva(k');
    }
  }

  // ---- Admission ----

  lemma EntradaDe(s: seq<R.Entrada>, x: R.Entrada)
    requires x in s
    ensures R.Buscar(s, x.pid, x.tid).Some?
  {
  }

  lemma NuevoNoVive2(k: K, m: R.Mem)
    requires Invariantes.Inv(k) && Acuerdo(k, m) && k.colaNew != []
    ensures !R.Vive(m.pcbs, k.colaNew[0])
  {
    hide Inv, R.Buscar;
    var p := k.colaNew[0];
    assert p in k.colaNew;
    forall i | 0 <= i < |m.pcbs|
      ensures m.pcbs[i].pid != p
    {
      var x := m.pcbs[i];
      EntradaDe(m.pcbs, x);
      assert R.Buscar(m.pcbs, x.pid, x.tid).Some?;
    }
  }

  lemma {:induction false} BuscarAlAgregar(s: seq<R.Entrada>, x: R.Entrada, p: int, t: int)
    ensures R.Buscar(s + [x], p, t).Some? <==> R.Buscar(s, p, t).Some? || (x.pid == p && x.tid == t)
  {
    if s == [] {
      assert (s + [x])[0] == x && (s + [x])[1..] == [];
    } else {
      assert (s + [x])[0] == s[0] && (s + [x])[1..] == s[1..] + [x];
      BuscarAlAgregar(s[1..], x, p, t);
    }
  }

  /** The head of the queue asks to enter. It waits behind a closed gate, and nothing else changes, exactly
      when the memory has no room for it now; otherwise it leaves the queue and the gate stays open, and its
      first thread starts to live exactly when there is room and its program can be read. */
  lemma AdmiteConserva(s: Sistema, alg: Algoritmo, legible: bool, s': Sistema)
    requires Inv2(s) && Paso2(s, alg, Admite(legible), s')
    ensures Inv2(s')
    ensures var p, n := s.k.colaNew[0], Proceso(s.k, s.k.colaNew[0]).tamanio;
            var cabe := P.Entra(s.m.tabla, s.m.tam, n);
            && (!s'.k.largoPlazo <==> cabe == P.SIZE_ERROR)
            && (!s'.k.largoPlazo ==> s' == Sistema(s.k.(largoPlazo := false), s.m))
            && (s'.k.largoPlazo ==> s'.k.colaNew == s.k.colaNew[1..])
            && (forall x :: Activo(s'.k, x) <==> Activo(s.k, x) || (cabe == P.SUCCESS && legible && x == Hilo(p, 0)))
  {
    hide Inv, R.Inv, R.Paso, Paso, Admitir, P.Entra, Activo, R.Buscar, R.Vive;
    var p, n := s.k.colaNew[0], Proceso(s.k, s.k.colaNew[0]).tamanio;
    var r :| R.Paso(s.m, R.CrearProceso(p, n, legible), s'.m, r) && s'.k == Paso(s.k, alg, Admision(Contesta(r)));
    PasoAdmision(s.k, alg, Contesta(r));
    TamanioCabeza(s.k);
    NuevoNoVive2(s.k, s.m);
    MemoriaTrasCrearProceso(s.m, p, n, legible, s'.m, r);
    AdmisionConserva(s.k, Contesta(r));
    AdmitirTamanios(s.k, Contesta(r));
    AdmitirActivos(s.k, Contesta(r));
    AcuerdoAlAdmitir(s, s', p, Contesta(r) == SUCCESS);
    PuertaAlAdmitir(s, legible, s', r);
  }

  lemma TamanioCabeza(k: K)
    requires Invariantes.Inv(k) && Tamanios(k) && k.colaNew != []
    ensures Proceso(k, k.colaNew[0]).tamanio >= 1
  {
    CabezaNueva(k);
  }

  lemma AcuerdoAlAdmitir(s: Sistema, s': Sistema, p: nat, nuevo: bool)
    requires Acuerdo(s.k, s.m)
    requires forall x :: Activo(s'.k, x) <==> Activo(s.k, x) || (nuevo && x == Hilo(p, 0))
    requires forall a: int, t: int :: R.Buscar(s'.m.pcbs, a, t).Some? <==>
               R.Buscar(s.m.pcbs, a, t).Some? || (nuevo && a == p && t == 0)
    ensures Acuerdo(s'.k, s'.m)
  {
    hide Activo, R.Buscar;
    forall a: int, t: int
      ensures R.Buscar(s'.m.pcbs, a, t).Some? <==> a >= 0 && t >= 0 && Activo(s'.k, Hilo(a, t))
    {
      assert R.Buscar(s.m.pcbs, a, t).Some? <==> a >= 0 && t >= 0 && Activo(s.k, Hilo(a, t));
    }
  }

  lemma MemoriaTrasCrearProceso(m: R.Mem, p: int, n: int, legible: bool, m': R.Mem, r: P.OpCode)
    requires R.Inv(m) && n >= 1 && !R.Vive(m.pcbs, p) && R.Paso(m, R.CrearProceso(p, n, legible), m', r)
    ensures R.Inv(m') && m'.alg == m.alg
    ensures forall a: int, t: int :: R.Buscar(m'.pcbs, a, t).Some? <==>
              R.Buscar(m.pcbs, a, t).Some? || (r == P.SUCCESS && a == p && t == 0)
    ensures r == P.SIZE_ERROR ==>
              m'.tabla == m.tabla && m'.tam == m.tam
              && (m.alg != P.DESCONOCIDO ==> P.Entra(m.tabla, m.tam, n) == P.SIZE_ERROR)
    ensures Contesta(r) == SUCCESS <==> r == P.SUCCESS
    ensures Contesta(r) == SIZE_ERROR <==> r == P.SIZE_ERROR
    ensures m.alg != P.DESCONOCIDO ==> (r == P.SIZE_ERROR <==> P.Entra(m.tabla, m.tam, n) == P.SIZE_ERROR)
    ensures m.alg != P.DESCONOCIDO ==> (r == P.SUCCESS <==> P.Entra(m.tabla, m.tam, n) == P.SUCCESS && legible)
    ensures r == P.SIZE_ERROR ==> m' == m
  {
    RespuestaAlCrear(m, p, n, legible, m', r);
    R.PasoConserva(m, R.CrearProceso(p, n, legible), m', r);
    CrearEntradas(m, p, n, legible, m', r);
  }

  lemma RespuestaAlCrear(m: R.Mem, p: int, n: int, legible: bool, m': R.Mem, r: P.OpCode)
    requires R.Paso(m, R.CrearProceso(p, n, legible), m', r)
    ensures m.alg != P.DESCONOCIDO ==> (r == P.SIZE_ERROR <==> P.Entra(m.tabla, m.tam, n) == P.SIZE_ERROR)
    ensures m.alg != P.DESCONOCIDO ==> (r == P.SUCCESS <==> P.Entra(m.tabla, m.tam, n) == P.SUCCESS && legible)
    ensures r == P.SIZE_ERROR ==> m' == m
  {
    hide P.Elige, P.PasoAsignar, P.HayElegible;
  }

  lemma PasoAdmision(k: K, alg: Algoritmo, r: Kernel.Respuesta)
    ensures Paso(k, alg, Admision(r)) == Admitir(k, r)
  {
  }

  /** An entry appears exactly when the reply is SUCCESS. */
  lemma CrearEntradas(m: R.Mem, p: int, n: int, legible: bool, m': R.Mem, r: P.OpCode)
    requires R.Paso(m, R.CrearProceso(p, n, legible), m', r)
    ensures forall a: int, t: int :: R.Buscar(m'.pcbs, a, t).Some? <==>
              R.Buscar(m.pcbs, a, t).Some? || (r == P.SUCCESS && a == p && t == 0)
    ensures r == P.SIZE_ERROR ==>
              m'.tabla == m.tabla && m'.tam == m.tam
              && (m.alg != P.DESCONOCIDO ==> P.Entra(m.tabla, m.tam, n) == P.SIZE_ERROR)
    ensures r == P.SUCCESS || r == P.MAX_SIZE_ERROR || r == P.SIZE_ERROR || r == P.PATH_ERROR
  {
    if P.Entra(m.tabla, m.tam, n) == P.SUCCESS && m.alg != P.DESCONOCIDO {
      var i :| R.Toma(m, p, n, legible, m', r, i);
      if legible {
        forall a: int, t: int
          ensures R.Buscar(m'.pcbs, a, t).Some? <==> R.Buscar(m.pcbs, a, t).Some? || (a == p && t == 0)
        {
          BuscarAlAgregar(m.pcbs, R.NuevoPrincipal(m.e, m.tabla[i], p, n), a, t);
        }
      }
    }
  }

  lemma AdmitirTamanios(k: K, r: Kernel.Respuesta)
    requires Invariantes.Inv(k) && k.colaNew != []
    ensures MismosTamanios(k, Admitir(k, r)) && forall p :: p in Admitir(k, r).procesos ==> p in k.procesos
  {
    if r == SUCCESS {
      AdmitidoConserva(k);
    } else if r == SIZE_ERROR {
      SinLugarConserva(k);
    } else {
      RechazadoConserva(k, r);
      hide Inv, Admitir, SinPid, Quitar;
    }
  }

  lemma AdmitirActivos(k: K, r: Kernel.Respuesta)
    requires Invariantes.Inv(k) && k.colaNew != []
    ensures forall x :: Activo(Admitir(k, r), x) <==> Activo(k, x) || (r == SUCCESS && x == Hilo(k.colaNew[0], 0))
    ensures r != SIZE_ERROR ==> Admitir(k, r).largoPlazo == k.largoPlazo
    ensures r == SIZE_ERROR ==> Admitir(k, r) == k.(largoPlazo := false)
    ensures r != SIZE_ERROR ==> Admitir(k, r).colaNew == k.colaNew[1..]
  {
    hide Tabla, Lugares, Cola, Protocolo, Duenios, Bloqueados, Admitir, SinPid, Quitar, Creciente,
      LiberarPcb, PcbBien, Purgado;
    CabezaNueva(k);
    if r == SUCCESS {
      AdmitidoConserva(k);
    } else if r == SIZE_ERROR {
      SinLugarConserva(k);
    } else {
      RechazadoConserva(k, r);
      RechazadoActivos(k, Admitir(k, r));
    }
  }

  lemma RechazadoActivos(k: K, k': K)
    requires Tabla(k) && k.colaNew != [] && Purgado(SinCabeza(k), k', k.colaNew[0])
    ensures (forall x :: Activo(k', x) <==> Activo(k, x)) && k'.largoPlazo == k.largoPlazo
    ensures k'.colaNew == k.colaNew[1..]
  {
    CabezaNueva(k);
    hide Tabla, SinPid, Quitar, Creciente;
  }

  /** After SIZE_ERROR the head is the process that does not fit; after any other reply the gate is
      still open. */
  lemma PuertaAlAdmitir(s: Sistema, legible: bool, s': Sistema, r: P.OpCode)
    requires s.k.largoPlazo && s.k.colaNew != [] && s.m.alg != P.DESCONOCIDO && s'.k == Admitir(s.k, Contesta(r))
    requires Contesta(r) != SIZE_ERROR ==> s'.k.largoPlazo == s.k.largoPlazo
    requires Contesta(r) == SIZE_ERROR ==> s'.k == s.k.(largoPlazo := false)
    requires r == P.SIZE_ERROR ==>
               s'.m.tabla == s.m.tabla && s'.m.tam == s.m.tam
               && P.Entra(s.m.tabla, s.m.tam, Proceso(s.k, s.k.colaNew[0]).tamanio) == P.SIZE_ERROR
    ensures Puerta(s'.k, s'.m)
  {
    hide Admitir, P.Entra;
  }

  // ---- Threads and processes that end or begin ----

  lemma {:induction false} BuscarSinHilo(s: seq<R.Entrada>, p: int, t: int, a: int, b: int)
    requires R.Distintas(s)
    ensures R.Buscar(R.SinHilo(s, p, t), a, b).Some? <==> R.Buscar(s, a, b).Some? && !(a == p && b == t)
  {
    if s == [] {
    } else {
      assert s == [s[0]] + s[1..];
      assert R.Distintas(s[1..]);
      if s[0].pid == p && s[0].tid == t {
        assert R.Buscar(s[1..], p, t).None?;
      } else {
        BuscarSinHilo(s[1..], p, t, a, b);
        assert ([s[0]] + R.SinHilo(s[1..], p, t))[1..] == R.SinHilo(s[1..], p, t);
      }
    }
  }

  lemma {:induction false} BuscarSinPid(s: seq<R.Entrada>, p: int, a: int, b: int)
    ensures R.Buscar(R.SinPid(s, p), a, b).Some? <==> R.Buscar(s, a, b).Some? && a != p
  {
    if s == [] {
    } else {
      BuscarSinPid(s[1..], p, a, b);
      assert ([s[0]] + R.SinPid(s[1..], p))[1..] == R.SinPid(s[1..], p);
    }
  }

  /** The memory knows every active thread and the first thread of its process. */
  lemma ConoceAlActivo(k: K, m: R.Mem, h: Hilo)
    requires Invariantes.Inv(k) && Acuerdo(k, m) && Activo(k, h)
    ensures R.Buscar(m.pcbs, h.pid, h.tid).Some? && R.Buscar(m.pcbs, h.pid, 0).Some? && R.Vive(m.pcbs, h.pid)
    ensures R.Buscar(m.pcbs, h.pid, Proceso(k, h.pid).tidContador).None?
    ensures !Activo(k, Hilo(h.pid, Proceso(k, h.pid).tidContador))
  {
    assert PcbBien(k, h.pid);
    NuevoNoVive(k, h);
    hide R.Buscar, Inv;
    assert Activo(k, Hilo(h.pid, h.tid)) && Activo(k, Hilo(h.pid, 0));
    assert !Activo(k, Hilo(h.pid, Proceso(k, h.pid).tidContador));
    BuscadoVive(m.pcbs, h.pid, h.tid);
  }

  lemma ConoceAlEjecutor(k: K, m: R.Mem)
    requires Invariantes.Inv(k) && Acuerdo(k, m) && k.exec.Some?
    ensures var h := k.exec.value;
            && Activo(k, h) && R.Buscar(m.pcbs, h.pid, h.tid).Some? && R.Buscar(m.pcbs, h.pid, 0).Some?
            && R.Vive(m.pcbs, h.pid)
            && R.Buscar(m.pcbs, h.pid, Proceso(k, h.pid).tidContador).None?
            && !Activo(k, Hilo(h.pid, Proceso(k, h.pid).tidContador))
  {
    EnEjecucion(k, k.exec.value);
    hide Inv, R.Buscar, R.Vive, Activo;
    ConoceAlActivo(k, m, k.exec.value);
  }

  lemma BuscadoVive(s: seq<R.Entrada>, p: int, t: int)
    requires R.Buscar(s, p, t).Some?
    ensures R.Vive(s, p)
  {
    var x := R.Buscar(s, p, t).value;
    var i :| 0 <= i < |s| && s[i] == x;
    assert s[i].pid == p;
  }

  lemma MemoriaTrasFinProceso(m: R.Mem, pid: int, m': R.Mem, r: P.OpCode)
    requires R.Inv(m) && R.Vive(m.pcbs, pid) && R.Paso(m, R.FinProceso(pid), m', r)
    ensures r == P.SUCCESS && R.Inv(m') && m'.alg == m.alg
    ensures forall q :: R.Paso(m, R.FinProceso(pid), m', q) ==> q == P.SUCCESS
    ensures forall p: int, t: int :: R.Buscar(m'.pcbs, p, t).Some? <==> R.Buscar(m.pcbs, p, t).Some? && p != pid
  {
    R.PasoConserva(m, R.FinProceso(pid), m', r);
    forall p: int, t: int
      ensures R.Buscar(m'.pcbs, p, t).Some? <==> R.Buscar(m.pcbs, p, t).Some? && p != pid
    {
      BuscarSinPid(m.pcbs, pid, p, t);
    }
  }

  lemma MemoriaTrasCrearHilo(m: R.Mem, pid: int, tid: int, m': R.Mem, r: P.OpCode)
    requires R.Inv(m) && R.Vive(m.pcbs, pid) && R.Buscar(m.pcbs, pid, tid).None? && R.Buscar(m.pcbs, pid, 0).Some?
    requires R.Paso(m, R.CrearHilo(pid, tid, true), m', r)
    ensures r == P.SUCCESS && R.Inv(m') && m'.tabla == m.tabla && m'.tam == m.tam && m'.alg == m.alg
    ensures forall q :: R.Paso(m, R.CrearHilo(pid, tid, true), m', q) ==> q == P.SUCCESS
    ensures forall p: int, t: int :: R.Buscar(m'.pcbs, p, t).Some? <==>
              R.Buscar(m.pcbs, p, t).Some? || (p == pid && t == tid)
  {
    R.PasoConserva(m, R.CrearHilo(pid, tid, true), m', r);
    var x := R.Buscar(m.pcbs, pid, 0).value.(tid := tid);
    forall p: int, t: int
      ensures R.Buscar(m'.pcbs, p, t).Some? <==> R.Buscar(m.pcbs, p, t).Some? || (p == pid && t == tid)
    {
      BuscarAlAgregar(m.pcbs, x, p, t);
    }
  }

  lemma MemoriaTrasFinHilo(m: R.Mem, pid: int, tid: int, m': R.Mem, r: P.OpCode)
    requires R.Inv(m) && R.Buscar(m.pcbs, pid, tid).Some? && tid != 0 && R.Paso(m, R.FinHilo(pid, tid), m', r)
    ensures r == P.SUCCESS && R.Inv(m') && m'.tabla == m.tabla && m'.tam == m.tam && m'.alg == m.alg
    ensures forall q :: R.Paso(m, R.FinHilo(pid, tid), m', q) ==> q == P.SUCCESS
    ensures forall p: int, t: int :: R.Buscar(m'.pcbs, p, t).Some? <==>
              R.Buscar(m.pcbs, p, t).Some? && !(p == pid && t == tid)
  {
    R.PasoConserva(m, R.FinHilo(pid, tid), m', r);
    assert R.Distintas(m.pcbs);
    forall p: int, t: int
      ensures R.Buscar(m'.pcbs, p, t).Some? <==> R.Buscar(m.pcbs, p, t).Some? && !(p == pid && t == tid)
    {
      BuscarSinHilo(m.pcbs, pid, tid, p, t);
    }
  }

  /** FIN_PROCESO is answered with SUCCESS, the process leaves both tables and the gate opens. */
  lemma FinConservaAmbos(s: Sistema, alg: Algoritmo, op: Op, m': R.Mem, r: P.OpCode)
    requires Inv2(s) && Habilitado(s.k, op) && Termina(s.k, op).Some?
    requires R.Paso(s.m, R.FinProceso(Termina(s.k, op).value), m', r)
    ensures Inv2(Sistema(Paso(s.k, alg, op), m')) && r == P.SUCCESS
    ensures var k' := Paso(s.k, alg, op);
            k'.largoPlazo && forall x :: Activo(k', x) <==> Activo(s.k, x) && x.pid != Termina(s.k, op).value
  {
    hide R.Paso, R.Inv, Inv, Paso, Habilitado, Termina, Activo, R.Buscar, P.Entra, R.Vive;
    var k', p := Paso(s.k, alg, op), Termina(s.k, op).value;
    ViveElQueTermina(s.k, s.m, op);
    MemoriaTrasFinProceso(s.m, p, m', r);
    PasoConserva(s.k, alg, op);
    SaleDeja(s.k, alg, op);
    forall a: int, t: int
      ensures R.Buscar(m'.pcbs, a, t).Some? <==> a >= 0 && t >= 0 && Activo(k', Hilo(a, t))
    {
      assert R.Buscar(s.m.pcbs, a, t).Some? <==> a >= 0 && t >= 0 && Activo(s.k, Hilo(a, t));
    }
  }

  lemma ViveElQueTermina(k: K, m: R.Mem, op: Op)
    requires Invariantes.Inv(k) && Acuerdo(k, m) && Habilitado(k, op) && Termina(k, op).Some?
    ensures R.Vive(m.pcbs, Termina(k, op).value)
  {
    if op.FinProceso? {
      ConoceAlEjecutor(k, m);
    } else {
      PendienteActivo(k, op.h);
      ConoceAlActivo(k, m, op.h);
    }
  }

  lemma SaleDeja(k: K, alg: Algoritmo, op: Op)
    requires Invariantes.Inv(k) && Habilitado(k, op) && Termina(k, op).Some?
    ensures var k' := Paso(k, alg, op);
            && (forall x :: Activo(k', x) <==> Activo(k, x) && x.pid != Termina(k, op).value) && k'.largoPlazo
            && MismosTamanios(k, k')
            && (forall p :: p in k'.procesos ==> p in k.procesos)
  {
    hide *;
    TerminaPurga(k, alg, op);
    PurgadoDeja(k, Paso(k, alg, op), Termina(k, op).value);
  }

  lemma PurgadoDeja(k: K, k': K, pid: nat)
    requires Purgado(k.(pendientes := k'.pendientes, largoPlazo := true), k', pid)
    ensures (forall x :: Activo(k', x) <==> Activo(k, x) && x.pid != pid) && k'.largoPlazo && MismosTamanios(k, k')
    ensures forall p :: p in k'.procesos ==> p in k.procesos
  {
    hide SinPid, Quitar;
  }

  /** The executing thread ends its process. */
  lemma SaleConserva(s: Sistema, alg: Algoritmo, s': Sistema)
    requires Inv2(s) && Paso2(s, alg, Sale, s')
    ensures Inv2(s') && s'.k == ProcessExit(s.k, Quien(s.k))
    ensures forall r :: R.Paso(s.m, R.FinProceso(Quien(s.k).pid), s'.m, r) ==> r == P.SUCCESS
    ensures s'.k.largoPlazo && (forall x :: Activo(s'.k, x) <==> Activo(s.k, x) && x.pid != Quien(s.k).pid)
  {
    hide R.Paso, Inv2, ProcessExit, PurgaDisputada, Activo;
    var h := Quien(s.k);
    forall r | R.Paso(s.m, R.FinProceso(h.pid), s'.m, r)
      ensures r == P.SUCCESS
    {
      FinConservaAmbos(s, alg, FinProceso, s'.m, r);
    }
    var r :| R.Paso(s.m, R.FinProceso(h.pid), s'.m, r) && s'.k == SiAcepta(r, s.k, h, Paso(s.k, alg, FinProceso));
    FinConservaAmbos(s, alg, FinProceso, s'.m, r);
  }

  /** A dump that failed ends the process of its thread. */
  lemma FallaDumpConserva(s: Sistema, alg: Algoritmo, h: Hilo, s': Sistema)
    requires Inv2(s) && Paso2(s, alg, FallaDump(h), s')
    ensures Inv2(s') && s'.k == FallarDump(s.k, h)
    ensures forall r :: R.Paso(s.m, R.FinProceso(h.pid), s'.m, r) ==> r == P.SUCCESS
    ensures s'.k.largoPlazo && (forall x :: Activo(s'.k, x) <==> Activo(s.k, x) && x.pid != h.pid)
  {
    hide R.Paso, Inv2, FallarDump, PurgaDisputada, Activo;
    forall r | R.Paso(s.m, R.FinProceso(h.pid), s'.m, r)
      ensures r == P.SUCCESS
    {
      FinConservaAmbos(s, alg, DumpFallido(h), s'.m, r);
    }
    var r :| R.Paso(s.m, R.FinProceso(h.pid), s'.m, r)
             && s'.k == SiAcepta(r, s.k.(pendientes := s.k.pendientes - {h}), h, Paso(s.k, alg, DumpFallido(h)));
    FinConservaAmbos(s, alg, DumpFallido(h), s'.m, r);
  }

  /** A thread whose program cannot be read: the memory refuses it without a trace and lets its process go,
      so nobody executes when the answers are in. */
  lemma HiloIlegible(s: Sistema, prioridad: nat, m1: R.Mem, r1: P.OpCode, m2: R.Mem, r2: P.OpCode)
    requires Inv2(s) && s.k.exec.Some?
    requires R.Paso(s.m, R.CrearHilo(Quien(s.k).pid, Proceso(s.k, Quien(s.k).pid).tidContador, false), m1, r1)
    requires R.Paso(m1, R.FinProceso(Quien(s.k).pid), m2, r2)
    ensures r1 == P.PATH_ERROR && m1 == s.m && r2 == P.SUCCESS && !R.Vive(m2.pcbs, Quien(s.k).pid)
    ensures CrearHiloSegun(s.k, Quien(s.k), prioridad, Contesta(r1), Contesta(r2)).exec == None
  {
    var h := Quien(s.k);
    ConoceAlEjecutor(s.k, s.m);
    hide R.Vive, R.SinPid, R.LiberaAsiento, R.Inv, CrearHiloSegun, Invariantes.Inv, Acuerdo, Puerta, Tamanios, P.Entra;
    SinTraza(s.m, h.pid, Proceso(s.k, h.pid).tidContador, m1, r1, m2, r2);
    SigueTrasCrearSiYSoloSi(s.k, h, prioridad, PATH_ERROR, SUCCESS);
  }

  lemma SinTraza(m: R.Mem, pid: int, tid: int, m1: R.Mem, r1: P.OpCode, m2: R.Mem, r2: P.OpCode)
    requires R.Inv(m) && R.Vive(m.pcbs, pid)
    requires R.Paso(m, R.CrearHilo(pid, tid, false), m1, r1) && R.Paso(m1, R.FinProceso(pid), m2, r2)
    ensures r1 == P.PATH_ERROR && m1 == m && r2 == P.SUCCESS && !R.Vive(m2.pcbs, pid)
  {
    hide R.SinPid, R.LiberaAsiento, R.Inv, R.Vive;
    R.FinProcesoExacto(m1, pid, m2, r2, 0, P.Bloque(0, 0, 0, false));
  }

  /** Thread n enters both tables, or leaves both; nobody else does. */
  lemma AcuerdoConUno(s: Sistema, s': Sistema, n: Hilo, entra: bool)
    requires Acuerdo(s.k, s.m)
    requires forall x :: Activo(s'.k, x) <==> if x == n then entra else Activo(s.k, x)
    requires forall p: int, t: int :: R.Buscar(s'.m.pcbs, p, t).Some? <==>
               if p == n.pid && t == n.tid then entra else R.Buscar(s.m.pcbs, p, t).Some?
    ensures Acuerdo(s'.k, s'.m)
  {
    hide Activo, R.Buscar;
    forall p: int, t: int
      ensures R.Buscar(s'.m.pcbs, p, t).Some? <==> p >= 0 && t >= 0 && Activo(s'.k, Hilo(p, t))
    {
      assert R.Buscar(s.m.pcbs, p, t).Some? <==> p >= 0 && t >= 0 && Activo(s.k, Hilo(p, t));
    }
  }

  /** The gate, the sizes and the partitions are as before. */
  lemma MismaPuertaYTabla(s: Sistema, s': Sistema)
    requires Inv2(s) && Invariantes.Inv(s'.k) && R.Inv(s'.m) && Acuerdo(s'.k, s'.m)
    requires MismosTamanios(s.k, s'.k) && (forall p :: p in s'.k.procesos ==> p in s.k.procesos)
    requires s'.k.colaNew == s.k.colaNew && s'.k.largoPlazo == s.k.largoPlazo
    requires s'.m.tabla == s.m.tabla && s'.m.tam == s.m.tam && s'.m.alg == s.m.alg
    ensures Inv2(s')
  {
    hide Inv, R.Inv, Acuerdo, P.Entra;
    CabezaSigue(s.k, s'.k, []);
  }

  /** CREAR_HILO is answered with SUCCESS, and both tables gain that thread and no other. */
  lemma CreaHiloConserva(s: Sistema, alg: Algoritmo, prioridad: nat, s': Sistema)
    requires Inv2(s) && Paso2(s, alg, CreaHilo(prioridad), s')
    ensures Inv2(s') && s'.k == CrearHilo(s.k, Quien(s.k), prioridad)
    ensures var n := Hilo(Quien(s.k).pid, Proceso(s.k, Quien(s.k).pid).tidContador);
            && (forall r :: R.Paso(s.m, R.CrearHilo(n.pid, n.tid, true), s'.m, r) ==> r == P.SUCCESS)
            && !Activo(s.k, n) && (forall x :: Activo(s'.k, x) <==> Activo(s.k, x) || x == n)
  {
    hide R.Paso, R.Inv, Inv, CrearHilo, Activo, R.Buscar, R.Vive, Acuerdo, Puerta, Tamanios, MismosTamanios;
    var h := Quien(s.k);
    var n := Hilo(h.pid, Proceso(s.k, h.pid).tidContador);
    var r :| R.Paso(s.m, R.CrearHilo(n.pid, n.tid, true), s'.m, r) && s'.k == Paso(s.k, alg, ThreadCreate(prioridad));
    ConoceAlEjecutor(s.k, s.m);
    MemoriaTrasCrearHilo(s.m, n.pid, n.tid, s'.m, r);
    CrearHiloConserva(s.k, h, prioridad);
    CrearDeja(s.k, h, prioridad);
    AcuerdoConUno(s, s', n, true);
    MismaPuertaYTabla(s, s');
  }

  lemma CrearDeja(k: K, h: Hilo, prioridad: nat)
    requires Invariantes.Inv(k) && k.exec == Some(h)
    ensures var k' := CrearHilo(k, h, prioridad);
            && (forall x :: Activo(k', x) <==> Activo(k, x) || x == Hilo(h.pid, Proceso(k, h.pid).tidContador))
            && k'.largoPlazo == k.largoPlazo && MismosTamanios(k, k') && k'.colaNew == k.colaNew
            && (forall p :: p in k'.procesos <==> p in k.procesos)
  {
    EnEjecucion(k, h);
    hide SinDup;
  }

  /** FIN_HILO is answered with SUCCESS, and both tables lose that thread and no other. */
  lemma MuereEnAmbos(s: Sistema, m': R.Mem, r: P.OpCode)
    requires Inv2(s) && Habilitado(s.k, FinHilo) && R.Paso(s.m, R.FinHilo(Quien(s.k).pid, Quien(s.k).tid), m', r)
    ensures Inv2(Sistema(ThreadExit(s.k, Quien(s.k)), m')) && r == P.SUCCESS
    ensures forall x :: Activo(ThreadExit(s.k, Quien(s.k)), x) <==> Activo(s.k, x) && x != Quien(s.k)
  {
    hide R.Paso, R.Inv, Inv, ThreadExit, DuenioDisputado, Activo, R.Buscar, R.Vive, Acuerdo, Puerta,
      Tamanios, MismosTamanios;
    var h := Quien(s.k);
    var s' := Sistema(ThreadExit(s.k, h), m');
    ConoceAlEjecutor(s.k, s.m);
    MemoriaTrasFinHilo(s.m, h.pid, h.tid, m', r);
    ThreadExitConserva(s.k, h);
    TerminaDeja(s.k, h);
    AcuerdoConUno(s, s', h, false);
    MismaPuertaYTabla(s, s');
  }

  lemma TerminaHiloConserva(s: Sistema, alg: Algoritmo, s': Sistema)
    requires Inv2(s) && Paso2(s, alg, TerminaHilo, s')
    ensures Inv2(s') && s'.k == ThreadExit(s.k, Quien(s.k))
    ensures var h := Quien(s.k);
            && (forall r :: R.Paso(s.m, R.FinHilo(h.pid, h.tid), s'.m, r) ==> r == P.SUCCESS)
            && (forall x :: Activo(s'.k, x) <==> Activo(s.k, x) && x != h)
  {
    hide R.Paso, Inv2, ThreadExit, DuenioDisputado, Activo;
    var h := Quien(s.k);
    forall r | R.Paso(s.m, R.FinHilo(h.pid, h.tid), s'.m, r)
      ensures r == P.SUCCESS
    {
      MuereEnAmbos(s, s'.m, r);
    }
    var r :| R.Paso(s.m, R.FinHilo(h.pid, h.tid), s'.m, r) && s'.k == SiAcepta(r, s.k, h, Paso(s.k, alg, FinHilo));
    MuereEnAmbos(s, s'.m, r);
  }

  /** A thread that cancels itself leaves both tables too. */
  lemma SeCancelaConserva(s: Sistema, alg: Algoritmo, tid: nat, s': Sistema)
    requires Inv2(s) && Paso2(s, alg, SeCancela(tid), s')
    ensures Inv2(s') && s'.k == ThreadExit(s.k, Quien(s.k))
    ensures forall x :: Activo(s'.k, x) <==> Activo(s.k, x) && x != Quien(s.k)
  {
    var h := Quien(s.k);
    assert Invariantes.Inv(s.k);
    hide R.Paso, Inv, Inv2, ThreadExit, Habilitado, Activo;
    var r :| R.Paso(s.m, R.FinHilo(h.pid, h.tid), s'.m, r) && s'.k == Paso(s.k, alg, Cancelar(tid));
    CancelarEsSalir(s.k, alg, tid);
    MuereEnAmbos(s, s'.m, r);
  }

  lemma TerminaDeja(k: K, h: Hilo)
    requires Invariantes.Inv(k) && k.exec == Some(h) && h.tid != 0 && !DuenioDisputado(k, h)
    ensures var k' := ThreadExit(k, h);
            && (forall x :: Activo(k', x) <==> Activo(k, x) && x != h)
            && k'.largoPlazo == k.largoPlazo && MismosTamanios(k, k') && k'.colaNew == k.colaNew
            && (forall p :: p in k'.procesos <==> p in k.procesos)
  {
    hide DuenioDisputado, DespertarDesde, SoltarDesde, Quitar, Liberados, Lugares, Cola, Protocolo, Duenios, Bloqueados,
      ThreadExit, SinDup;
    EnEjecucion(k, h);
    MuertoTabla(k, h);
    ThreadExitPorPartes(k, h);
    var k1 := Muerto(k, h);
    var k2 := DespertarDesde(k1, h, 0);
    MismosDisputados(k, k2, h);
    DespertarMismaPuerta(k1, h, 0);
    DespertarNoEncola(k1, h, 0);
    assert k2.procesos == k1.procesos by { MismosProcesosAlDespertar(k1, h); }
    hide Tabla;
    SoltarLibres(k2, h, 0);
    assert forall x :: Vivo(ConLista(k2, h.pid, Liberados(k2.procesos[h.pid].mutex, h.tid)), x) == Vivo(k1, x);
  }

  lemma {:induction false} DespertarMismaPuerta(k: K, h: Hilo, i: nat)
    ensures DespertarDesde(k, h, i).largoPlazo == k.largoPlazo
    decreases |k.colaBlocked| - i
  {
    if i < |k.colaBlocked| {
      var x := k.colaBlocked[i];
      DespertarMismaPuerta(if EsperaA(k, x, h) then Despertar(k, x) else k, h, i + 1);
    }
  }

  // ---- Runs of both ----

  lemma Paso2Conserva(s: Sistema, alg: Algoritmo, e: Suceso, s': Sistema)
    requires Inv2(s) && Paso2(s, alg, e, s')
    ensures Inv2(s')
  {
    hide Inv2;
    match e
    case Propio(op) => PropioConserva(s, alg, op);
    case Admite(l) => AdmiteConserva(s, alg, l, s');
    case Sale => SaleConserva(s, alg, s');
    case FallaDump(h) => FallaDumpConserva(s, alg, h, s');
    case CreaHilo(p) => CreaHiloConserva(s, alg, p, s');
    case TerminaHilo => TerminaHiloConserva(s, alg, s');
    case SeCancela(t) => SeCancelaConserva(s, alg, t, s');
  }

  ghost predicate Corrida2(ss: seq<Sistema>, alg: Algoritmo, es: seq<Suceso>) {
    && |ss| == |es| + 1 && (exists pid :: ss[0].k == Inicial(pid)) && R.Inicial(ss[0].m) && ss[0].m.alg != P.DESCONOCIDO
    && forall i :: 0 <= i < |es| ==> Paso2(ss[i], alg, es[i], ss[i + 1])
  }

  lemma {:induction false} Corrida2Conserva(ss: seq<Sistema>, alg: Algoritmo, es: seq<Suceso>, i: nat)
    requires Corrida2(ss, alg, es) && i <= |es|
    ensures Inv2(ss[i])
  {
    hide Inv2, Paso2;
    if i == 0 {
      hide Corrida2;
      Corrida2Inicial(ss, alg, es);
    } else {
      Corrida2Conserva(ss, alg, es, i - 1);
      Paso2Conserva(ss[i - 1], alg, es[i - 1], ss[i]);
    }
  }

  lemma Corrida2Inicial(ss: seq<Sistema>, alg: Algoritmo, es: seq<Suceso>)
    requires Corrida2(ss, alg, es)
    ensures Inv2(ss[0])
  {
    hide Paso2;
    var pid :| ss[0].k == Inicial(pid);
    InicialBien(pid);
  }

  /** The long-term scheduler never sleeps while the head of the queue could be admitted: in every
      reachable state with the gate closed there is a head and no free partition is large enough for
      it; and where free neighbours are merged, no run of free bytes is. */
  lemma PuertaJusta(ss: seq<Sistema>, alg: Algoritmo, es: seq<Suceso>, i: nat)
    requires Corrida2(ss, alg, es) && i <= |es| && !ss[i].k.largoPlazo
    ensures var k, m := ss[i].k, ss[i].m;
            && k.colaNew != [] && k.colaNew[0] in k.procesos
            && (var n := k.procesos[k.colaNew[0]].tamanio;
                && n <= m.tam && (forall j :: 0 <= j < |m.tabla| ==> !m.tabla[j].Elegible(n))
                && (m.e == P.DINAMICAS && m.alcance == m.tam && P.Coalescida(m.tabla) ==> !exists base ::
                      P.Hueco(m.tabla, m.tam, base, n)))
  {
    Corrida2Conserva(ss, alg, es, i);
    var k, m := ss[i].k, ss[i].m;
    CabezaNueva(k);
    var n := k.procesos[k.colaNew[0]].tamanio;
    hide Inv, Corrida2, P.Coalescida, P.Hueco;
    if m.e == P.DINAMICAS && m.alcance == m.tam && P.Coalescida(m.tabla) {
      P.EntraSiYSoloSiHayHueco(m.tabla, m.tam, n);
    }
  }

  /** Kernel and memory agree in every reachable state, so a thread that is executing is always known
      to the memory, and FIN_PROCESO and FIN_HILO are always answered with SUCCESS. */
  lemma MemoriaConoceHilos(ss: seq<Sistema>, alg: Algoritmo, es: seq<Suceso>, i: nat, h: Hilo)
    requires Corrida2(ss, alg, es) && i <= |es|
    ensures Activo(ss[i].k, h) <==> R.Buscar(ss[i].m.pcbs, h.pid, h.tid).Some?
    ensures ss[i].k.exec == Some(h) ==> R.Vive(ss[i].m.pcbs, h.pid)
  {
    Corrida2Conserva(ss, alg, es, i);
    assert R.Buscar(ss[i].m.pcbs, h.pid, h.tid).Some? <==> Activo(ss[i].k, Hilo(h.pid, h.tid));
    if ss[i].k.exec == Some(h) {
      ConoceAlEjecutor(ss[i].k, ss[i].m);
    }
  }
}
