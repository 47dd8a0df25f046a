/** thread_cancel: when it leaves the kernel as it should be.
    Source: kernel/src/syscalls.c and kernel/src/planificador_corto_plazo.c. */
module Cancelacion {
  import opened Listas
  import opened Opcion
  import opened Planificacion
  import opened Kernel
  import opened Invariantes
  import opened Bloqueos
  import opened Salidas
  import opened FinDeProceso

  /** Whom the call ends: the thread with that tid, or the last of the process. */
  ghost function Victima(k: K, h: Hilo, tid: nat): Hilo
    requires Proceso(k, h.pid).threads != []
  {
    Hilo(h.pid, BuscarHilo(Proceso(k, h.pid).threads, tid).value)
  }

  lemma EjecutorConHilos(k: K, h: Hilo)
    requires Inv(k) && k.exec == Some(h)
    ensures h.pid in k.procesos && SinDup(k.procesos[h.pid].threads) && h.tid in k.procesos[h.pid].threads
  {
    EnEjecucion(k, h);
    assert PcbBien(k, h.pid);
  }

  lemma EjecutorNoListado(k: K, h: Hilo)
    requires Protocolo(k) && Ficha(k, h).estado == EXEC
    ensures NoListado(k, h)
  {
    if !NoListado(k, h) {
      var j :| 0 <= j < |Proceso(k, h.pid).mutex| && h.tid in Proceso(k, h.pid).mutex[j].hilos;
      assert EnLista(k, h);
      FueraDeListas(k, h);
    }
  }

  /** Ending another thread does not touch the one that executes. */
  lemma LiberarOtro(k: K, v: Hilo, h: Hilo)
    requires SoloBloqueados(k) && v.pid in k.procesos && v != h && v.pid == h.pid && h !in k.colaBlocked
    requires NoListado(k, h)
    ensures Igual(k, LiberarHilo(k, v), h)
  {
    var k1 := SinHilo(k, v);
    var k2 := DespertarDesde(k1, v, 0);
    var k3 := SoltarDesde(k2, v, 0);
    assert LiberarHilo(k, v) == k3.(tcbs := k3.tcbs - {v});
    assert SoloBloqueados(k1) && NoListado(k1, h);
    DespertarDesdeFuera(k1, v, 0, h);
    MismosProcesosAlDespertar(k1, v);
    hide SoloBloqueados, DespertarDesde, SoltarDesde, LiberarHilo;
    SoltarDesdeFuera(k2, v, 0, h);
  }

  /** Whoever cancels another thread is left alive, with the record of a thread that executes, and
      nowhere. */
  lemma CancelarPierdeAlLlamador(k: K, h: Hilo, tid: nat)
    requires Inv(k) && k.exec == Some(h) && Proceso(k, h.pid).threads != [] && Victima(k, h, tid) != h
    ensures var k' := Cancelado(k, h, tid); Activo(k', h) && Ficha(k', h).estado == EXEC && !EnCola(k', h)
  {
    EjecutorConHilos(k, h);
    EnEjecucion(k, h);
    EjecutorNoListado(k, h);
    BloqueadosSolos(k);
    var v := Victima(k, h, tid);
    assert Activo(k, v);
    SacarDeSuLugar(k, v);
    var d := Desencolar(k, v);
    assert SoloBloqueados(d) && NoListado(d, h) && d.procesos == k.procesos;
    QuitarDe(k.procesos[h.pid].threads, v.tid);
    hide Inv, Desencolar, SoloBloqueados, LiberarHilo, Quitar, SinDup;
    LiberarOtro(d, v, h);
    LiberarHiloProceso(d, v);
    LiberarNoEncola(d, v);
  }

  lemma LiberarNoEncola(k: K, v: Hilo)
    ensures LiberarHilo(k, v).colaNew == k.colaNew
  {
    var k1 := if v.pid in k.procesos then SinHilo(k, v) else k;
    SoltarNoEncola(DespertarDesde(k1, v, 0), v, 0);
  }

  /** A thread that cancels itself ends as with thread_exit. */
  lemma CancelarseEsSalir(k: K, h: Hilo, tid: nat)
    requires Inv(k) && k.exec == Some(h) && Proceso(k, h.pid).threads != [] && Victima(k, h, tid) == h
    ensures Cancelado(k, h, tid) == ThreadExit(k, h)
  {
    NadieTrasFin(k, h);
    hide Inv, LiberarHilo, Desencolar;
  }

  /** When a thread may cancel: itself, without leaving anybody behind. */
  ghost predicate SeCancelaSolo(k: K, h: Hilo, tid: nat) {
    BuscarHilo(Proceso(k, h.pid).threads, tid) == Some(h.tid) && h.tid != 0 && !DuenioDisputado(k, h)
  }

  lemma SinPrimero(k: K, p: nat)
    requires p in k.procesos && 0 !in k.procesos[p].threads
    ensures !Inv(k)
  {
    assert Tabla(k) ==> PcbBien(k, p);
  }

  lemma PierdeLugares(k: K, h: Hilo)
    requires Activo(k, h) && !EnCola(k, h)
    ensures !Inv(k)
  {
    assert Lugares(k) ==> EnSuLugar(k, h);
  }

  /** thread_cancel keeps the invariant exactly when the thread cancels itself, is not the first of its
      process and owns no mutex that others wait for. */
  lemma CancelarConservaSiYSoloSi(k: K, h: Hilo, tid: nat)
    requires Inv(k) && k.exec == Some(h)
    ensures Proceso(k, h.pid).threads != []
    ensures Inv(Cancelado(k, h, tid)) <==> Victima(k, h, tid) == h && h.tid != 0 && !DuenioDisputado(k, h)
  {
    EjecutorConHilos(k, h);
    hide Inv, Cancelado, Victima, ThreadExit, DuenioDisputado, SinDup;
    if Victima(k, h, tid) != h {
      CancelarPierdeAlLlamador(k, h, tid);
      PierdeLugares(Cancelado(k, h, tid), h);
    } else {
      CancelarseEsSalir(k, h, tid);
      if h.tid != 0 {
        ThreadExitConservaSiYSoloSi(k, h);
      } else {
        SaleElPrimero(k, h);
        SinPrimero(ThreadExit(k, h), h.pid);
      }
    }
  }

  lemma SaleElPrimero(k: K, h: Hilo)
    requires Inv(k) && k.exec == Some(h)
    ensures h.pid in ThreadExit(k, h).procesos && h.tid !in ThreadExit(k, h).procesos[h.pid].threads
  {
    EjecutorConHilos(k, h);
    QuitarDe(k.procesos[h.pid].threads, h.tid);
    var d := Desencolar(k, h);
    assert d.procesos == k.procesos;
    hide Inv, LiberarHilo, Quitar, SinDup, Desencolar;
    LiberarHiloProceso(d, h);
  }
}
