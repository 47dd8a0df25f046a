/** Runs that reach the states in which a thread or a process ends, or waits, as one would not expect. One process of
    one byte with three threads at most, scheduled first come first served, is enough.
    Sources: kernel/src/utils.c and kernel/src/syscalls.c. */
module Testigos {
  import opened Listas
  import opened Opcion
  import opened Planificacion
  import opened Kernel
  import opened Invariantes
  import opened Salidas
  import opened FinDeProceso
  import opened Corridas
  import opened Cancelacion
  import opened Olvidos

  // ---- Runs, one event at a time ----

  ghost predicate Alcanza(ops: seq<Op>, k: K) {
    Valida(Inicial(0), FIFO, ops) && Correr(Inicial(0), FIFO, ops) == k
  }

  lemma {:induction false} UnoMas(k: K, ops: seq<Op>, op: Op)
    requires Valida(k, FIFO, ops) && Habilitado(Correr(k, FIFO, ops), op)
    ensures Valida(k, FIFO, ops + [op])
    ensures Correr(k, FIFO, ops + [op]) == Paso(Correr(k, FIFO, ops), FIFO, op)
    decreases |ops|
  {
    hide Habilitado, Paso;
    var os := ops + [op];
    if ops == [] {
      assert os == [op] && os[1..] == [];
    } else {
      assert os[0] == ops[0] && os[1..] == ops[1..] + [op];
      UnoMas(Paso(k, FIFO, ops[0]), ops[1..], op);
    }
  }

  lemma UnoMasAlcanza(ops: seq<Op>, k: K, op: Op, k': K)
    requires Alcanza(ops, k) && Habilitado(k, op) && Paso(k, FIFO, op) == k'
    ensures Alcanza(ops + [op], k')
  {
    hide Habilitado, Paso;
    UnoMas(Inicial(0), ops, op);
  }

  /** What the kernel looks like with process 0 alone in it, admitted, and no time gone by. */
  ghost function Escena(threads: seq<nat>, tcbs: map<Hilo, Tcb>, ms: seq<Recurso>,
                        ready: seq<Hilo>, blocked: seq<Hilo>, exec: Option<Hilo>): K
  {
    K([], ready, blocked, exec, [0], map[0 := Pcb(threads, ms, 1, |threads|)], tcbs, 1, 0, |ready|, true, 0, {})
  }

  const H0: Hilo := Hilo(0, 0)
  const H1: Hilo := Hilo(0, 1)
  const H2: Hilo := Hilo(0, 2)

  /** A record with nothing to wait for, and one that waits. */
  const Lista: Tcb := Tcb(0, READY, NONE, -1, 0)
  const Corre: Tcb := Tcb(0, EXEC, NONE, -1, 0)
  const PorMutex: Tcb := Tcb(0, BLOCKED, MUTEX, -1, 0)
  const PorUno: Tcb := Tcb(0, BLOCKED, THREAD_JOIN, 1, 0)

  const Comienzo: seq<Op> := [ProcessCreate(1, 0), Admision(SUCCESS), Despacho]

  /** The first thread of the process executes. */
  lemma Arranque()
    ensures Alcanza(Comienzo, Escena([0], map[H0 := Corre], [], [], [], Some(H0)))
  {
    hide *;
    var k := Inicial(0);
    var k1 := K([0], [], [], None, [0], map[0 := Pcb([0], [], 1, 1)], map[H0 := Lista], 1, 1, 0, true, 0, {});
    var k2 := Escena([0], map[H0 := Lista], [], [H0], [], None);
    var k3 := Escena([0], map[H0 := Corre], [], [], [], Some(H0));
    Vacia();
    NaceUno();
    EntraUno();
    SubeUno();
    assert [] + [ProcessCreate(1, 0)] == [ProcessCreate(1, 0)];
    UnoMasAlcanza([], k, ProcessCreate(1, 0), k1);
    UnoMasAlcanza([ProcessCreate(1, 0)], k1, Admision(SUCCESS), k2);
    UnoMasAlcanza([ProcessCreate(1, 0)] + [Admision(SUCCESS)], k2, Despacho, k3);
    ComienzoEs();
  }

  lemma ComienzoEs()
    ensures Comienzo == [ProcessCreate(1, 0)] + [Admision(SUCCESS)] + [Despacho]
  {
  }

  lemma Vacia()
    ensures Alcanza([], Inicial(0))
  {
  }

  lemma NaceUno()
    ensures Paso(Inicial(0), FIFO, ProcessCreate(1, 0))
            == K([0], [], [], None, [0], map[0 := Pcb([0], [], 1, 1)], map[H0 := Lista], 1, 1, 0, true, 0, {})
    ensures Habilitado(Inicial(0), ProcessCreate(1, 0))
  {
  }

  lemma EntraUno()
    ensures var k1 := K([0], [], [], None, [0], map[0 := Pcb([0], [], 1, 1)], map[H0 := Lista], 1, 1, 0, true, 0, {});
            && Habilitado(k1, Admision(SUCCESS))
            && Paso(k1, FIFO, Admision(SUCCESS)) == Escena([0], map[H0 := Lista], [], [H0], [], None)
  {
  }

  lemma SubeUno()
    ensures var k2 := Escena([0], map[H0 := Lista], [], [H0], [], None);
            && Habilitado(k2, Despacho)
            && Paso(k2, FIFO, Despacho) == Escena([0], map[H0 := Corre], [], [], [], Some(H0))
  {
  }

  // ---- The events these runs are made of ----

  lemma CreaHilo(ops: seq<Op>, ts: seq<nat>, fs: map<Hilo, Tcb>, ms: seq<Recurso>, r: seq<Hilo>, b: seq<Hilo>, x: Hilo)
    requires Alcanza(ops, Escena(ts, fs, ms, r, b, Some(x))) && x.pid == 0
    ensures var n := Hilo(0, |ts|);
            Alcanza(ops + [ThreadCreate(0)], Escena(ts + [n.tid], fs[n := Lista], ms, r + [n], b, Some(x)))
  {
    var n := Hilo(0, |ts|);
    var k, k' := Escena(ts, fs, ms, r, b, Some(x)), Escena(ts + [n.tid], fs[n := Lista], ms, r + [n], b, Some(x));
    assert Paso(k, FIFO, ThreadCreate(0)).procesos == k'.procesos;
    assert Paso(k, FIFO, ThreadCreate(0)).tcbs == k'.tcbs;
    UnoMasAlcanza(ops, k, ThreadCreate(0), k');
  }

  lemma CreaMutex(ops: seq<Op>, ts: seq<nat>, fs: map<Hilo, Tcb>, r: seq<Hilo>, b: seq<Hilo>, x: Hilo)
    requires Alcanza(ops, Escena(ts, fs, [], r, b, Some(x))) && x.pid == 0
    ensures Alcanza(ops + [MutexNuevo("a")], Escena(ts, fs, [Recurso("a", -1, [])], r, b, Some(x)))
  {
    var k, k' := Escena(ts, fs, [], r, b, Some(x)), Escena(ts, fs, [Recurso("a", -1, [])], r, b, Some(x));
    assert Proceso(k, 0).mutex + [Recurso("a", -1, [])] == [Recurso("a", -1, [])];
    assert Paso(k, FIFO, MutexNuevo("a")).procesos == k'.procesos;
    UnoMasAlcanza(ops, k, MutexNuevo("a"), k');
  }

  /** The first ready thread gets the free processor. */
  lemma Sube(ops: seq<Op>, ts: seq<nat>, fs: map<Hilo, Tcb>, ms: seq<Recurso>, y: Hilo, r: seq<Hilo>, b: seq<Hilo>)
    requires Alcanza(ops, Escena(ts, fs, ms, [y] + r, b, None)) && y in fs && fs[y] == Lista
    ensures Alcanza(ops + [Despacho], Escena(ts, fs[y := Corre], ms, r, b, Some(y)))
  {
    var k, k' := Escena(ts, fs, ms, [y] + r, b, None), Escena(ts, fs[y := Corre], ms, r, b, Some(y));
    assert Sin(k.colaReady, 0) == r;
    UnoMasAlcanza(ops, k, Despacho, k');
  }

  /** The executing thread goes to the end of the ready queue and the first one takes its place. */
  lemma Rota(ops: seq<Op>, ts: seq<nat>, fs: map<Hilo, Tcb>, ms: seq<Recurso>, y: Hilo, r: seq<Hilo>,
             b: seq<Hilo>, x: Hilo)
    requires Alcanza(ops, Escena(ts, fs, ms, [y] + r, b, Some(x))) && y != x
    requires x in fs && fs[x] == Corre && y in fs && fs[y] == Lista
    ensures Alcanza(ops + [Interrupcion] + [Despacho], Escena(ts, fs[x := Lista][y := Corre], ms, r + [x], b, Some(y)))
  {
    var k, k1 := Escena(ts, fs, ms, [y] + r, b, Some(x)), Escena(ts, fs[x := Lista], ms, [y] + (r + [x]), b, None);
    assert [y] + r + [x] == [y] + (r + [x]);
    UnoMasAlcanza(ops, k, Interrupcion, k1);
    Sube(ops + [Interrupcion], ts, fs[x := Lista], ms, y, r + [x], b);
  }

  lemma Toma(ops: seq<Op>, ts: seq<nat>, fs: map<Hilo, Tcb>, r: seq<Hilo>, b: seq<Hilo>, x: Hilo)
    requires Alcanza(ops, Escena(ts, fs, [Recurso("a", -1, [])], r, b, Some(x))) && x.pid == 0
    ensures Alcanza(ops + [Lock("a")], Escena(ts, fs, [Recurso("a", x.tid, [])], r, b, Some(x)))
  {
    var k, k' := Escena(ts, fs, [Recurso("a", -1, [])], r, b, Some(x)),
        Escena(ts, fs, [Recurso("a", x.tid, [])], r, b, Some(x));
    assert Proceso(k, 0).mutex[0 := Recurso("a", x.tid, [])] == [Recurso("a", x.tid, [])];
    assert Paso(k, FIFO, Lock("a")).procesos == k'.procesos;
    UnoMasAlcanza(ops, k, Lock("a"), k');
  }

  /** The executing thread waits for the mutex and the first ready one takes its place. */
  lemma Espera(ops: seq<Op>, ts: seq<nat>, fs: map<Hilo, Tcb>, o: nat, y: Hilo, r: seq<Hilo>, x: Hilo)
    requires Alcanza(ops, Escena(ts, fs, [Recurso("a", o, [])], [y] + r, [], Some(x))) && x.pid == 0 && y != x
    requires x in fs && fs[x] == Corre && y in fs && fs[y] == Lista
    ensures Alcanza(ops + [Lock("a")] + [Despacho],
                    Escena(ts, fs[x := PorMutex][y := Corre], [Recurso("a", o, [x.tid])], r, [x], Some(y)))
  {
    var k := Escena(ts, fs, [Recurso("a", o, [])], [y] + r, [], Some(x));
    var k1 := Escena(ts, fs[x := PorMutex], [Recurso("a", o, [x.tid])], [y] + r, [x], None);
    LockDe(k, x, o);
    assert Proceso(k, 0).mutex[0 := Recurso("a", o, [x.tid])] == [Recurso("a", o, [x.tid])];
    assert MutexLock(k, x, "a").procesos == k1.procesos;
    UnoMasAlcanza(ops, k, Lock("a"), k1);
    Sube(ops + [Lock("a")], ts, fs[x := PorMutex], [Recurso("a", o, [x.tid])], y, r, [x]);
  }

  lemma LockDe(k: K, x: Hilo, o: nat)
    requires k.procesos.Keys == {0} && k.procesos[0].mutex == [Recurso("a", o, [])] && x.pid == 0
    ensures MutexLock(k, x, "a") == ConMutex(Bloquear(k, x, MUTEX), 0, 0, Recurso("a", o, [x.tid]))
  {
    assert [] + [x.tid] == [x.tid];
    hide Bloquear;
  }

  /** The executing thread joins thread 1 and the first ready one takes its place. */
  lemma Une(ops: seq<Op>, ts: seq<nat>, fs: map<Hilo, Tcb>, ms: seq<Recurso>, y: Hilo, r: seq<Hilo>,
            b: seq<Hilo>, x: Hilo)
    requires Alcanza(ops, Escena(ts, fs, ms, [y] + r, b, Some(x))) && x.pid == 0 && y != x && 1 in ts
    requires x in fs && fs[x] == Corre && y in fs && fs[y] == Lista
    ensures Alcanza(ops + [Join(1)] + [Despacho], Escena(ts, fs[x := PorUno][y := Corre], ms, r, b + [x], Some(y)))
  {
    var k, k1 := Escena(ts, fs, ms, [y] + r, b, Some(x)), Escena(ts, fs[x := PorUno], ms, [y] + r, b + [x], None);
    assert Paso(k, FIFO, Join(1)).tcbs == k1.tcbs;
    UnoMasAlcanza(ops, k, Join(1), k1);
    Sube(ops + [Join(1)], ts, fs[x := PorUno], ms, y, r, b + [x]);
  }

  // ---- The states they reach ----

  const Disputa: seq<Op> :=
    Comienzo + [MutexNuevo("a")] + [ThreadCreate(0)] + [Interrupcion] + [Despacho]
    + [Lock("a")] + [Interrupcion] + [Despacho] + [Lock("a")] + [Despacho]

  /** Thread 1 takes the mutex, thread 0 waits for it, and thread 1 executes: if it ends now, the mutex
      goes to a thread that stays among its waiters. */
  lemma DisputaAlcanzable()
    ensures Valida(Inicial(0), FIFO, Disputa)
    ensures var k := Correr(Inicial(0), FIFO, Disputa);
            k.exec == Some(H1) && DuenioDisputado(k, H1) && !Protocolo(ThreadExit(k, H1))
  {
    hide Escena, Alcanza, Valida, Correr, Protocolo, ThreadExit;
    Arranque();
    var a := map[H0 := Corre][H1 := Lista];
    CreaMutex(Comienzo, [0], map[H0 := Corre], [], [], H0);
    var o1 := Comienzo + [MutexNuevo("a")];
    CreaHilo(o1, [0], map[H0 := Corre], [Recurso("a", -1, [])], [], [], H0);
    var o2 := o1 + [ThreadCreate(0)];
    assert [0] + [1] == [0, 1] && [] + [H1] == [H1] == [H1] + [] && [] + [H0] == [H0] == [H0] + [];
    Rota(o2, [0, 1], a, [Recurso("a", -1, [])], H1, [], [], H0);
    var b := a[H0 := Lista][H1 := Corre];
    var o3 := o2 + [Interrupcion] + [Despacho];
    Toma(o3, [0, 1], b, [H0], [], H1);
    var o4 := o3 + [Lock("a")];
    Rota(o4, [0, 1], b, [Recurso("a", 1, [])], H0, [], [], H1);
    var c := b[H1 := Lista][H0 := Corre];
    var o5 := o4 + [Interrupcion] + [Despacho];
    Espera(o5, [0, 1], c, 1, H1, [], H0);
    var o6 := o5 + [Lock("a")] + [Despacho];
    assert o6 == Disputa;
    DisputaFinal(c[H0 := PorMutex][H1 := Corre]);
  }

  lemma DisputaFinal(fs: map<Hilo, Tcb>)
    requires Alcanza(Disputa, Escena([0, 1], fs, [Recurso("a", 1, [0])], [], [H0], Some(H1)))
    ensures Valida(Inicial(0), FIFO, Disputa)
    ensures var k := Correr(Inicial(0), FIFO, Disputa);
            k.exec == Some(H1) && DuenioDisputado(k, H1) && !Protocolo(ThreadExit(k, H1))
  {
    InicialBien(0);
    CorridaConserva(Inicial(0), FIFO, Disputa);
    hide Correr, Valida, Inv, ThreadExit, Protocolo;
    var k := Correr(Inicial(0), FIFO, Disputa);
    assert Disputado(Proceso(k, 0).mutex[0], 1);
    ThreadExitConservaSiYSoloSi(k, H1);
  }

  const Purga: seq<Op> :=
    Comienzo + [MutexNuevo("a")] + [Lock("a")] + [ThreadCreate(0)] + [Interrupcion] + [Despacho]
    + [Lock("a")] + [Despacho]

  /** Thread 0 takes the mutex, thread 1 waits for it, and thread 0 executes: if the process ends now, one
      of its threads stays in a queue. */
  lemma PurgaIncompletaAlcanzable()
    ensures Valida(Inicial(0), FIFO, Purga)
    ensures var k := Correr(Inicial(0), FIFO, Purga);
            k.exec == Some(H0) && PurgaDisputada(k, 0, 0) && exists x: Hilo ::
              x.pid == 0 && EnCola(ProcessExit(k, H0), x)
  {
    hide Escena, Alcanza, Valida, Correr, PurgaDisputada, ProcessExit;
    Arranque();
    CreaMutex(Comienzo, [0], map[H0 := Corre], [], [], H0);
    var o1 := Comienzo + [MutexNuevo("a")];
    Toma(o1, [0], map[H0 := Corre], [], [], H0);
    var o2 := o1 + [Lock("a")];
    CreaHilo(o2, [0], map[H0 := Corre], [Recurso("a", 0, [])], [], [], H0);
    var o3 := o2 + [ThreadCreate(0)];
    var a := map[H0 := Corre][H1 := Lista];
    assert [0] + [1] == [0, 1] && [] + [H1] == [H1] == [H1] + [] && [] + [H0] == [H0] == [H0] + [];
    Rota(o3, [0, 1], a, [Recurso("a", 0, [])], H1, [], [], H0);
    var b := a[H0 := Lista][H1 := Corre];
    var o4 := o3 + [Interrupcion] + [Despacho];
    Espera(o4, [0, 1], b, 0, H0, [], H1);
    var o5 := o4 + [Lock("a")] + [Despacho];
    assert o5 == Purga;
    PurgaFinal(b[H1 := PorMutex][H0 := Corre]);
  }

  lemma PurgaFinal(fs: map<Hilo, Tcb>)
    requires Alcanza(Purga, Escena([0, 1], fs, [Recurso("a", 0, [1])], [], [H1], Some(H0)))
    ensures Valida(Inicial(0), FIFO, Purga)
    ensures var k := Correr(Inicial(0), FIFO, Purga);
            k.exec == Some(H0) && PurgaDisputada(k, 0, 0) && exists x: Hilo ::
              x.pid == 0 && EnCola(ProcessExit(k, H0), x)
  {
    InicialBien(0);
    CorridaConserva(Inicial(0), FIFO, Purga);
    hide Correr, Valida, ProcessExit, Tabla, Lugares;
    var k := Correr(Inicial(0), FIFO, Purga);
    assert Disputado(Proceso(k, 0).mutex[0], 0);
    assert Libra(k, 0, 0);
    PurgaSiYSoloSi(k, H0);
  }

  const Olvido: seq<Op> :=
    Comienzo + [ThreadCreate(0)] + [ThreadCreate(0)] + [Join(1)] + [Despacho] + [Interrupcion] + [Despacho]
    + [Join(1)] + [Despacho]

  /** Threads 0 and 2 wait for thread 1, one after the other, and thread 1 executes. If it ends now, thread 2
      never wakes up: whatever happens next, it is blocked until the whole process ends. */
  lemma OlvidoAlcanzable()
    ensures Valida(Inicial(0), FIFO, Olvido)
    ensures var k := Correr(Inicial(0), FIFO, Olvido);
            && k.exec == Some(H1) && Contiguos(k, k.colaBlocked, H1)
            && (forall alg, ops :: Valida(ThreadExit(k, H1), alg, ops) ==>
                  var k' := Correr(ThreadExit(k, H1), alg, ops); H2 in k'.colaBlocked || 0 !in k'.procesos)
  {
    hide Escena, Alcanza, Valida, Correr, ThreadExit, Contiguos, EsperaA;
    Arranque();
    CreaHilo(Comienzo, [0], map[H0 := Corre], [], [], [], H0);
    var o1 := Comienzo + [ThreadCreate(0)];
    assert [0] + [1] == [0, 1] && [] + [H1] == [H1] && [H1] + [H2] == [H1, H2];
    CreaHilo(o1, [0, 1], map[H0 := Corre][H1 := Lista], [], [H1], [], H0);
    var a := map[H0 := Corre][H1 := Lista][H2 := Lista];
    var o2 := o1 + [ThreadCreate(0)];
    assert [0, 1] + [2] == [0, 1, 2] && [] + [H0] == [H0] && [] + [H1] == [H1] && [H2] + [] == [H2]
    && [H1] + [] == [H1];
    Une(o2, [0, 1, 2], a, [], H1, [H2], [], H0);
    var b := a[H0 := PorUno][H1 := Corre];
    var o3 := o2 + [Join(1)] + [Despacho];
    Rota(o3, [0, 1, 2], b, [], H2, [], [H0], H1);
    var c := b[H1 := Lista][H2 := Corre];
    var o4 := o3 + [Interrupcion] + [Despacho];
    Une(o4, [0, 1, 2], c, [], H1, [], [H0], H2);
    assert [H0] + [H2] == [H0, H2];
    var o5 := o4 + [Join(1)] + [Despacho];
    assert o5 == Olvido;
    OlvidoFinal(c[H2 := PorUno][H1 := Corre]);
  }

  lemma OlvidoDatos(fs: map<Hilo, Tcb>)
    requires Alcanza(Olvido, Escena([0, 1, 2], fs, [], [], [H0, H2], Some(H1)))
    requires H0 in fs && fs[H0] == PorUno && H2 in fs && fs[H2] == PorUno
    ensures Valida(Inicial(0), FIFO, Olvido)
    ensures var k := Correr(Inicial(0), FIFO, Olvido);
            && k.exec == Some(H1) && k.colaBlocked == [H0, H2] && EsperaA(k, H0, H1) && EsperaA(k, H2, H1)
            && !DuenioDisputado(k, H1)
  {
    hide Correr, Valida;
  }

  lemma SegundoEnRacha(k: K, a: Hilo, b: Hilo, h: Hilo)
    requires EsperaA(k, a, h)
    ensures Racha(k, [a, b], h, 0, 1) == 1
  {
    hide EsperaA;
    assert Racha(k, [a, b], h, 0, 0) == 0;
  }

  lemma OlvidoFinal(fs: map<Hilo, Tcb>)
    requires Alcanza(Olvido, Escena([0, 1, 2], fs, [], [], [H0, H2], Some(H1)))
    requires H0 in fs && fs[H0] == PorUno && H2 in fs && fs[H2] == PorUno
    ensures Valida(Inicial(0), FIFO, Olvido)
    ensures var k := Correr(Inicial(0), FIFO, Olvido);
            && k.exec == Some(H1) && Contiguos(k, k.colaBlocked, H1)
            && (forall alg, ops :: Valida(ThreadExit(k, H1), alg, ops) ==>
                  var k' := Correr(ThreadExit(k, H1), alg, ops); H2 in k'.colaBlocked || 0 !in k'.procesos)
  {
    hide Correr, Valida, ThreadExit, Inv, Alcanza, Escena, EsperaA, Racha, DuenioDisputado;
    OlvidoDatos(fs);
    InicialBien(0);
    CorridaConserva(Inicial(0), FIFO, Olvido);
    var k := Correr(Inicial(0), FIFO, Olvido);
    assert EsperaA(k, k.colaBlocked[0], H1) && EsperaA(k, k.colaBlocked[0 + 1], H1);
    SegundoEnRacha(k, H0, H2, H1);
    forall alg, ops | Valida(ThreadExit(k, H1), alg, ops)
      ensures var k' := Correr(ThreadExit(k, H1), alg, ops); H2 in k'.colaBlocked || 0 !in k'.procesos
    {
      SalteadoNuncaDespierta(k, H1, 1, alg, ops);
    }
  }

  const Cancela: seq<Op> := Comienzo + [ThreadCreate(0)]

  /** Thread 0 creates thread 1 and cancels it: thread 0 is lost. */
  lemma PerdidoAlcanzable()
    ensures Valida(Inicial(0), FIFO, Cancela)
    ensures var k := Correr(Inicial(0), FIFO, Cancela);
            && k.exec == Some(H0) && Vivo(k, H1)
            && Activo(Cancelado(k, H0, 1), H0) && !EnCola(Cancelado(k, H0, 1), H0)
  {
    hide Escena, Alcanza, Valida, Correr, Cancelado, Activo, EnCola, Vivo;
    Arranque();
    CreaHilo(Comienzo, [0], map[H0 := Corre], [], [], [], H0);
    assert [0] + [1] == [0, 1] && [] + [H1] == [H1];
    PerdidoFinal(map[H0 := Corre][H1 := Lista]);
  }

  lemma PerdidoFinal(fs: map<Hilo, Tcb>)
    requires Alcanza(Cancela, Escena([0, 1], fs, [], [H1], [], Some(H0)))
    ensures Valida(Inicial(0), FIFO, Cancela)
    ensures var k := Correr(Inicial(0), FIFO, Cancela);
            && k.exec == Some(H0) && Vivo(k, H1)
            && Activo(Cancelado(k, H0, 1), H0) && !EnCola(Cancelado(k, H0, 1), H0)
  {
    InicialBien(0);
    CorridaConserva(Inicial(0), FIFO, Cancela);
    hide Correr, Valida, Cancelado, Inv, Activo, EnCola;
    CancelarPierdeAlLlamador(Correr(Inicial(0), FIFO, Cancela), H0, 1);
  }

  /** Thread 0 asks for a thread the memory refuses: nobody executes any more, and the scheduler is about to
      send thread 0 to the processor. */
  lemma RechazoAlcanzable(prioridad: nat, resp: Kernel.Respuesta)
    requires resp != SUCCESS
    ensures Valida(Inicial(0), FIFO, Comienzo)
    ensures var k := Correr(Inicial(0), FIFO, Comienzo);
            k.exec == Some(H0) && CrearHiloSegun(k, H0, prioridad, resp, SUCCESS).exec == None
  {
    Arranque();
    InicialBien(0);
    CorridaConserva(Inicial(0), FIFO, Comienzo);
    hide Correr, Valida, Inv, CrearHiloSegun;
    SigueTrasCrearSiYSoloSi(Correr(Inicial(0), FIFO, Comienzo), H0, prioridad, resp, SUCCESS);
  }

  /** After that beginning, a dump leaves a thread blocked as if for a mutex, of which there is none. */
  lemma MutexSinMutexAlcanzable()
    ensures Valida(Inicial(0), FIFO, Comienzo + [DumpMemory])
    ensures var k := Correr(Inicial(0), FIFO, Comienzo + [DumpMemory]);
            H0 in k.colaBlocked && Ficha(k, H0).motivo == MUTEX && !EnLista(k, H0) && Proceso(k, 0).mutex == []
  {
    hide *;
    var k := Escena([0], map[H0 := Corre], [], [], [], Some(H0));
    Arranque();
    PideDump();
    UnoMasAlcanza(Comienzo, k, DumpMemory, Paso(k, FIFO, DumpMemory));
    AlcanzaEs(Comienzo + [DumpMemory], Paso(k, FIFO, DumpMemory));
  }

  lemma PideDump()
    ensures var k := Escena([0], map[H0 := Corre], [], [], [], Some(H0));
            var k' := Paso(k, FIFO, DumpMemory);
            && Habilitado(k, DumpMemory) && H0 in k'.colaBlocked && Ficha(k', H0).motivo == MUTEX
            && !EnLista(k', H0) && Proceso(k', 0).mutex == []
  {
  }

  lemma AlcanzaEs(ops: seq<Op>, k: K)
    requires Alcanza(ops, k)
    ensures Valida(Inicial(0), FIFO, ops) && Correr(Inicial(0), FIFO, ops) == k
  {
  }
}
