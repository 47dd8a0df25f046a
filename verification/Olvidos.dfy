/** A joiner that thread_exit skips is never woken: whatever happens afterwards, it goes on waiting for a
    thread that is gone until its own process ends.
    Sources: kernel/src/utils.c and kernel/src/syscalls.c. */
module Olvidos {
  import opened Listas
  import opened Opcion
  import opened Planificacion
  import opened Kernel
  import opened Invariantes
  import opened Bloqueos
  import opened Salidas
  import opened FinDeProceso
  import opened Corridas

  /** The thread x is blocked until thread t of its process ends, and t has ended already. */
  ghost predicate Huerfano(k: K, x: Hilo, t: nat) {
    && Activo(k, x) && Ficha(k, x).estado == BLOCKED && Ficha(k, x).motivo == THREAD_JOIN && Ficha(k, x).bloqueador == t
    && t !in k.procesos[x.pid].threads && t < k.procesos[x.pid].tidContador
  }

  /** The process has ended, for good: no later process gets its pid. */
  ghost predicate Ido(k: K, p: nat) {
    p !in k.procesos && p < k.pidCounter
  }

  ghost predicate Sigue(k: K, x: Hilo, t: nat) {
    Huerfano(k, x, t) || Ido(k, x.pid)
  }

  /** Its record is the same, and so are the threads of its process but for one that is not t. */
  lemma MismoHuerfano(k: K, k': K, x: Hilo, t: nat)
    requires Huerfano(k, x, t) && Ficha(k', x) == Ficha(k, x) && x.pid !in k'.colaNew
    requires x.pid in k'.procesos && k'.procesos[x.pid].tidContador >= k.procesos[x.pid].tidContador
    requires x.tid in k'.procesos[x.pid].threads && t !in k'.procesos[x.pid].threads
    ensures Huerfano(k', x, t)
  {
  }

  /** Where it is not. */
  lemma DondeNoEsta(k: K, x: Hilo, t: nat)
    requires Inv(k) && Huerfano(k, x, t)
    ensures x in k.colaBlocked && x !in k.colaReady && k.exec != Some(x) && x !in k.pendientes && !EnLista(k, x)
    ensures x in k.tcbs && x.pid < k.pidCounter
  {
    assert EnSuLugar(k, x) && Clasificado(k, x) && PcbBien(k, x.pid);
  }

  lemma QuietoDeja(k: K, alg: Algoritmo, op: Op, x: Hilo)
    requires op.Despacho? || op.Interrupcion? || op.PeticionIO? || op.DumpMemory? || op.FinEspera?
             || op.Join? || op.Tic?
    requires Habilitado(k, op) && x !in k.colaReady && k.exec != Some(x) && x !in k.pendientes
    ensures Ficha(Paso(k, alg, op), x) == Ficha(k, x)
  {
    hide Despachar, EncolarReady, Desencolar, Bloquear, ThreadJoin;
    if op.Despacho? {
      DespachoDeja(k, alg, x);
    } else if op.FinEspera? {
      MovidaDeja(k, op.h, IO, 0, x);
    } else if !op.Tic? && k.exec.Some? {
      MovidaDeja(k, k.exec.value, if op.PeticionIO? then IO else BLOQUEO_POR_DUMP, if op.Join? then op.tid else 0, x);
    }
  }

  lemma DespachoDeja(k: K, alg: Algoritmo, x: Hilo)
    requires x !in k.colaReady
    ensures Ficha(Despachar(k, alg), x) == Ficha(k, x)
  {
    hide Eleccion;
    if k.colaReady != [] {
      assert k.colaReady[Eleccion(alg, Listos(k), k.reloj)] in k.colaReady;
    }
  }

  lemma MovidaDeja(k: K, h: Hilo, m: MotivoBloqueo, t: nat, x: Hilo)
    requires x != h
    ensures Ficha(EncolarReady(Desencolar(k, h), h), x) == Ficha(k, x)
    ensures Ficha(Bloquear(k, h, m), x) == Ficha(k, x) && Ficha(ThreadJoin(k, h, t), x) == Ficha(k, x)
  {
    hide Quitar;
  }

  /** Only mutexes, the record of h and those of threads that wait for a mutex may differ. */
  ghost predicate SoloTocaMutex(k: K, k': K, h: Hilo) {
    && k'.colaNew == k.colaNew && k'.procesos.Keys == k.procesos.Keys
    && (forall q :: q in k.procesos ==> k'.procesos[q] == k.procesos[q].(mutex := k'.procesos[q].mutex))
    && (forall y :: y != h && Ficha(k, y).motivo != MUTEX ==> Ficha(k', y) == Ficha(k, y))
  }

  lemma ListaSoloMutex(k: K, h: Hilo, ms: seq<Recurso>)
    requires h.pid in k.procesos
    ensures SoloTocaMutex(k, ConLista(k, h.pid, ms), h)
  {
  }

  lemma SumaSoloMutex(k: K, k': K, h: Hilo, i: nat)
    requires h.pid in k.procesos && SeSuma(k, k', h, i)
    ensures SoloTocaMutex(k, k', h)
  {
  }

  lemma EntregaSoloMutex(k: K, k': K, h: Hilo, i: nat)
    requires h.pid in k.procesos && SeEntrega(k, k', h.pid, i)
    ensures SoloTocaMutex(k, k', h)
  {
    hide Quitar;
  }

  lemma MutexSoloMutex(k: K, alg: Algoritmo, op: Op)
    requires Inv(k) && k.exec.Some? && (op.MutexNuevo? || op.Lock? || op.Unlock?)
    ensures SoloTocaMutex(k, Paso(k, alg, op), k.exec.value)
  {
    ActivoEnEjecucion(k);
    var h, k' := k.exec.value, Paso(k, alg, op);
    var ms := Proceso(k, h.pid).mutex;
    hide *;
    PasoDeMutex(k, alg, op);
    QuietoSoloMutex(k, h);
    if op.MutexNuevo? {
      MutexCreateConserva(k, h, op.nombre);
      ListaSoloMutex(k, h, ms + [Recurso(op.nombre, -1, [])]);
    } else if BuscarRecurso(ms, op.nombre).Some? {
      var i := BuscarRecurso(ms, op.nombre).value;
      LockConserva(k, h, op.nombre);
      UnlockConserva(k, h, op.nombre);
      HallaDentro(ms, op.nombre);
      ListaSoloMutex(k, h, ms[i := ms[i].(owner := if op.Lock? then h.tid else -1)]);
      if op.Lock? && ms[i].owner != -1 { SumaSoloMutex(k, k', h, i); }
      if op.Unlock? && ms[i].owner == h.tid && ms[i].hilos != [] { EntregaSoloMutex(k, k', h, i); }
    } else {
      LockConserva(k, h, op.nombre);
      UnlockConserva(k, h, op.nombre);
    }
  }

  lemma HallaDentro(ms: seq<Recurso>, nombre: string)
    ensures BuscarRecurso(ms, nombre).Some? ==> BuscarRecurso(ms, nombre).value < |ms|
  {
  }

  lemma PasoDeMutex(k: K, alg: Algoritmo, op: Op)
    requires k.exec.Some?
    ensures op.MutexNuevo? ==> Paso(k, alg, op) == MutexCreate(k, k.exec.value, op.nombre)
    ensures op.Lock? ==> Paso(k, alg, op) == MutexLock(k, k.exec.value, op.nombre)
    ensures op.Unlock? ==> Paso(k, alg, op) == MutexUnlock(k, k.exec.value, op.nombre)
  {
    hide MutexCreate, MutexLock, MutexUnlock;
  }

  lemma QuietoSoloMutex(k: K, h: Hilo)
    ensures SoloTocaMutex(k, k, h)
  {
  }

  lemma MutexDeja(k: K, alg: Algoritmo, op: Op, x: Hilo, t: nat)
    requires Inv(k) && Huerfano(k, x, t) && k.exec.Some? && (op.MutexNuevo? || op.Lock? || op.Unlock?)
    ensures Huerfano(Paso(k, alg, op), x, t)
  {
    DondeNoEsta(k, x, t);
    MutexSoloMutex(k, alg, op);
    hide Inv, Paso;
  }

  lemma CrearDeja(k: K, h: Hilo, prioridad: nat, x: Hilo, t: nat)
    requires Inv(k) && k.exec == Some(h) && Huerfano(k, x, t)
    ensures Huerfano(CrearHilo(k, h, prioridad), x, t)
  {
    DondeNoEsta(k, x, t);
    EnEjecucion(k, h);
    assert PcbBien(k, x.pid);
    hide Inv;
  }

  lemma IniciarDeja(k: K, tamanio: nat, prioridad: nat, x: Hilo, t: nat)
    requires Inv(k) && Huerfano(k, x, t)
    ensures Huerfano(IniciarProceso(k, tamanio, prioridad), x, t)
  {
    DondeNoEsta(k, x, t);
    hide Inv;
  }

  lemma MuertoDeja(k: K, h: Hilo, x: Hilo, t: nat)
    requires Tabla(k) && Activo(k, h) && Huerfano(k, x, t) && x != h
    ensures Huerfano(Muerto(k, h), x, t) && !EsperaA(Muerto(k, h), x, h)
  {
    assert PcbBien(k, h.pid);
    QuitarDe(k.procesos[h.pid].threads, h.tid);
    hide Tabla, Quitar, SinDup;
  }

  lemma DespertarDeja(k: K, h: Hilo, x: Hilo, t: nat)
    requires Huerfano(k, x, t) && !EsperaA(k, x, h)
    ensures Huerfano(DespertarDesde(k, h, 0), x, t)
  {
    DespertarDesdeAjenos(k, h, 0, x);
    DespertarNoEncola(k, h, 0);
    MismosProcesosAlDespertar(k, h);
    hide DespertarDesde;
  }

  /** What thread_exit does to the processes and the records, when no mutex is contended. */
  lemma MorirPorPartes(k: K, h: Hilo)
    requires Inv(k) && k.exec == Some(h) && !DuenioDisputado(k, h)
    ensures var k2 := DespertarDesde(Muerto(k, h), h, 0);
            && h.pid in k2.procesos
            && (var k3 := ConLista(k2, h.pid, Liberados(k2.procesos[h.pid].mutex, h.tid));
                ThreadExit(k, h) == k3.(tcbs := k3.tcbs - {h}))
  {
    EnEjecucion(k, h);
    ThreadExitPorPartes(k, h);
    var k1 := Muerto(k, h);
    var k2 := DespertarDesde(k1, h, 0);
    assert k2.procesos == k1.procesos by { MismosProcesosAlDespertar(k1, h); }
    MismosDisputados(k, k2, h);
    hide Inv, ThreadExit, DespertarDesde, SoltarDesde, DuenioDisputado, Quitar;
    SoltarLibres(k2, h, 0);
  }

  lemma MorirDeja(k: K, h: Hilo, x: Hilo, t: nat)
    requires Inv(k) && k.exec == Some(h) && Huerfano(k, x, t) && !DuenioDisputado(k, h)
    ensures Huerfano(ThreadExit(k, h), x, t)
  {
    DondeNoEsta(k, x, t);
    EnEjecucion(k, h);
    MuertoDeja(k, h, x, t);
    DespertarDeja(Muerto(k, h), h, x, t);
    MorirPorPartes(k, h);
    hide Inv, ThreadExit, DespertarDesde, Muerto, DuenioDisputado;
  }

  lemma SalirDeja(k: K, alg: Algoritmo, op: Op, x: Hilo, t: nat)
    requires Inv(k) && Habilitado(k, op) && Termina(k, op).Some? && Huerfano(k, x, t)
    ensures Sigue(Paso(k, alg, op), x, t)
  {
    DondeNoEsta(k, x, t);
    TerminaPurga(k, alg, op);
    hide Inv, Paso, Habilitado, Termina, SinPid, Quitar;
  }

  lemma AdmitirDeja(k: K, r: Kernel.Respuesta, x: Hilo, t: nat)
    requires Inv(k) && k.colaNew != [] && Huerfano(k, x, t)
    ensures Huerfano(Admitir(k, r), x, t)
  {
    DondeNoEsta(k, x, t);
    assert k.colaNew[0] in k.colaNew;
    NuevosAlAdmitir(k, r);
    AdmitirDeOtro(k, r, x);
    hide Inv, Admitir;
    MismoHuerfano(k, Admitir(k, r), x, t);
  }

  lemma AdmitirDeOtro(k: K, r: Kernel.Respuesta, x: Hilo)
    requires Inv(k) && k.colaNew != [] && x.pid != k.colaNew[0] && x.pid in k.procesos
    ensures var k' := Admitir(k, r);
              x.pid in k'.procesos && k'.procesos[x.pid] == k.procesos[x.pid] && Ficha(k', x) == Ficha(k, x)
  {
    hide Inv, Admitir, SinPid, Quitar, Purgado;
    if r == SUCCESS {
      AdmitidoConserva(k);
    } else if r == SIZE_ERROR {
      SinLugarConserva(k);
    } else {
      RechazadoConserva(k, r);
      PurgadoDeOtro(SinCabeza(k), Admitir(k, r), k.colaNew[0], x);
    }
  }

  lemma PurgadoDeOtro(k: K, k': K, p: nat, x: Hilo)
    requires Purgado(k, k', p) && x.pid != p
    ensures Ficha(k', x) == Ficha(k, x) && (x.pid in k'.procesos <==> x.pid in k.procesos)
    ensures x.pid in k.procesos ==> k'.procesos[x.pid] == k.procesos[x.pid]
  {
    hide SinPid, Quitar;
  }

  lemma PasoDeja(k: K, alg: Algoritmo, op: Op, x: Hilo, t: nat)
    requires Inv(k) && Habilitado(k, op) && Huerfano(k, x, t)
    ensures Sigue(Paso(k, alg, op), x, t)
  {
    hide Inv, Huerfano, Despachar, Interrumpir, PedirIO, PedirDump, Volver, IniciarProceso, CrearHilo,
      ThreadJoin, MutexCreate, MutexLock, MutexUnlock, ThreadExit, ProcessExit, FallarDump, Cancelado, Admitir,
          DuenioDisputado, PurgaDisputada;
    if op.ProcessCreate? {
      IniciarDeja(k, op.tamanio, op.prioridad, x, t);
    } else if op.Admision? {
      AdmitirDeja(k, op.resp, x, t);
    } else if op.ThreadCreate? {
      CrearDeja(k, k.exec.value, op.prioridad, x, t);
    } else if op.FinHilo? || op.Cancelar? {
      if op.Cancelar? { CancelarEsSalir(k, alg, op.tid); }
      MorirDeja(k, k.exec.value, x, t);
    } else if op.FinProceso? || op.DumpFallido? {
      SalirDeja(k, alg, op, x, t);
    } else if op.MutexNuevo? || op.Lock? || op.Unlock? {
      MutexDeja(k, alg, op, x, t);
    } else {
      EventoQuietoDeja(k, alg, op, x, t);
    }
  }

  lemma EventoQuietoDeja(k: K, alg: Algoritmo, op: Op, x: Hilo, t: nat)
    requires op.Despacho? || op.Interrupcion? || op.PeticionIO? || op.DumpMemory? || op.FinEspera?
             || op.Join? || op.Tic?
    requires Inv(k) && Habilitado(k, op) && Huerfano(k, x, t)
    ensures Huerfano(Paso(k, alg, op), x, t)
  {
    DondeNoEsta(k, x, t);
    QuietoDeja(k, alg, op, x);
    BaseQuieta(k, alg, op);
    hide Inv, Paso, Habilitado;
  }

  lemma MorirSinNuevos(k: K, h: Hilo)
    requires Inv(k) && k.exec == Some(h) && !DuenioDisputado(k, h)
    ensures ThreadExit(k, h).procesos.Keys == k.procesos.Keys
  {
    EnEjecucion(k, h);
    MorirPorPartes(k, h);
    MismosProcesosAlDespertar(Muerto(k, h), h);
    hide Inv, ThreadExit, DespertarDesde, DuenioDisputado, Quitar;
  }

  lemma SalirSinNuevos(k: K, alg: Algoritmo, op: Op)
    requires Inv(k) && Habilitado(k, op) && Termina(k, op).Some?
    ensures forall p :: p in Paso(k, alg, op).procesos ==> p in k.procesos
  {
    TerminaPurga(k, alg, op);
    hide Inv, Paso, Habilitado, Termina, SinPid, Quitar;
  }

  lemma AdmitirSinNuevos(k: K, r: Kernel.Respuesta)
    requires Inv(k) && k.colaNew != []
    ensures forall p :: p in Admitir(k, r).procesos ==> p in k.procesos
  {
    if r == SUCCESS {
      AdmitidoConserva(k);
    } else if r == SIZE_ERROR {
      SinLugarConserva(k);
    } else {
      RechazadoConserva(k, r);
    }
    hide Inv, Admitir, SinPid, Quitar;
  }

  lemma CrearSinNuevos(k: K, h: Hilo, prioridad: nat)
    requires Inv(k) && k.exec == Some(h)
    ensures CrearHilo(k, h, prioridad).procesos.Keys == k.procesos.Keys
  {
    EnEjecucion(k, h);
    hide Inv;
  }

  /** The only pid an event can bring in is the next one. */
  lemma SinPidsViejos(k: K, alg: Algoritmo, op: Op, p: nat)
    requires Inv(k) && Habilitado(k, op) && p in Paso(k, alg, op).procesos
    ensures p in k.procesos || p == k.pidCounter
  {
    hide Inv, Despachar, Interrumpir, PedirIO, PedirDump, Volver, CrearHilo, ThreadJoin, MutexCreate,
      MutexLock, MutexUnlock, ThreadExit, ProcessExit, FallarDump, Cancelado, Admitir, DuenioDisputado, PurgaDisputada;
    if op.Admision? {
      AdmitirSinNuevos(k, op.resp);
    } else if op.ThreadCreate? {
      CrearSinNuevos(k, k.exec.value, op.prioridad);
    } else if op.FinHilo? || op.Cancelar? {
      if op.Cancelar? { CancelarEsSalir(k, alg, op.tid); }
      MorirSinNuevos(k, k.exec.value);
    } else if op.FinProceso? || op.DumpFallido? {
      SalirSinNuevos(k, alg, op);
    } else if op.MutexNuevo? || op.Lock? || op.Unlock? {
      MutexSoloMutex(k, alg, op);
    } else if !op.ProcessCreate? {
      BaseQuieta(k, alg, op);
    }
  }

  lemma IdoSigue(k: K, alg: Algoritmo, op: Op, p: nat)
    requires Inv(k) && Habilitado(k, op) && Ido(k, p)
    ensures Ido(Paso(k, alg, op), p)
  {
    NuevosEnUnPaso(k, alg, op);
    if p in Paso(k, alg, op).procesos {
      SinPidsViejos(k, alg, op, p);
    }
    hide Inv, Paso;
  }

  /** Whatever happens next, a thread left waiting for one that is gone goes on waiting for it until its
      process ends. */
  lemma {:induction false} OlvidadoParaSiempre(k: K, alg: Algoritmo, ops: seq<Op>, x: Hilo, t: nat)
    requires Inv(k) && Valida(k, alg, ops) && Sigue(k, x, t)
    ensures var k' := Correr(k, alg, ops); Sigue(k', x, t) && (!Ido(k', x.pid) ==> x in k'.colaBlocked)
    decreases |ops|
  {
    hide Paso, Habilitado, Inv, Huerfano, Ido;
    if ops == [] {
      if !Ido(k, x.pid) { DondeNoEsta(k, x, t); }
    } else {
      PasoConserva(k, alg, ops[0]);
      if Ido(k, x.pid) {
        IdoSigue(k, alg, ops[0], x.pid);
      } else {
        PasoDeja(k, alg, ops[0], x, t);
      }
      OlvidadoParaSiempre(Paso(k, alg, ops[0]), alg, ops[1..], x, t);
    }
  }

  /** The joiners thread_exit skips wait for a thread that is gone. */
  lemma SalteadoEsHuerfano(k: K, h: Hilo, j: nat)
    requires Inv(k) && k.exec == Some(h) && h.tid != 0 && !DuenioDisputado(k, h)
    requires j < |k.colaBlocked| && EsperaA(k, k.colaBlocked[j], h) && Racha(k, k.colaBlocked, h, 0, j) % 2 == 1
    ensures Huerfano(ThreadExit(k, h), k.colaBlocked[j], h.tid)
  {
    var x, k' := k.colaBlocked[j], ThreadExit(k, h);
    QuienSigueDormido(k, h, j);
    ThreadExitConserva(k, h);
    assert x in k.colaBlocked && EnSuLugar(k, x) && EnSuLugar(k', x);
    SinElMuerto(k, h);
    hide Inv, ThreadExit, Racha, DuenioDisputado;
  }

  lemma SinElMuerto(k: K, h: Hilo)
    requires Inv(k) && k.exec == Some(h) && !DuenioDisputado(k, h)
    ensures var k' := ThreadExit(k, h);
            h.pid in k'.procesos && h.tid !in k'.procesos[h.pid].threads && h.tid < k'.procesos[h.pid].tidContador
  {
    EnEjecucion(k, h);
    assert PcbBien(k, h.pid);
    QuitarDe(k.procesos[h.pid].threads, h.tid);
    MorirPorPartes(k, h);
    MismosProcesosAlDespertar(Muerto(k, h), h);
    hide Inv, ThreadExit, DespertarDesde, DuenioDisputado, Quitar, SinDup;
  }

  /** A joiner behind an odd number of joiners of the same thread never wakes up once that thread has
      ended: in every run from there it is blocked, until its process ends. */
  lemma SalteadoNuncaDespierta(k: K, h: Hilo, j: nat, alg: Algoritmo, ops: seq<Op>)
    requires Inv(k) && k.exec == Some(h) && h.tid != 0 && !DuenioDisputado(k, h)
    requires j < |k.colaBlocked| && EsperaA(k, k.colaBlocked[j], h) && Racha(k, k.colaBlocked, h, 0, j) % 2 == 1
    requires Valida(ThreadExit(k, h), alg, ops)
    ensures var k' := Correr(ThreadExit(k, h), alg, ops);
            k.colaBlocked[j] in k'.colaBlocked || h.pid !in k'.procesos
  {
    SalteadoEsHuerfano(k, h, j);
    ThreadExitConserva(k, h);
    OlvidadoParaSiempre(ThreadExit(k, h), alg, ops, k.colaBlocked[j], h.tid);
    hide Inv, ThreadExit, Racha, DuenioDisputado, Correr, Valida, Huerfano;
  }
}
