/** Context switches: what the threads compute does not depend on where their slices are cut.
    Sources: cpu/src/servidor_cpu.c, cpu/src/operaciones_memoria.c and memoria/src/operaciones_cpu.c. */
module Conmutacion {
  import opened Bytes
  import opened Opcion
  import opened Cpu
  import Paquete

  // ---- The context on the wire ----

  /** The items of the reply that loads a context, in the order the memory adds them. */
  ghost function ItemsContexto(c: Contexto): seq<Paquete.Dato> {
    [Le32(c.base), Le32(c.limite), Le32(c.ax), Le32(c.bx), Le32(c.cx), Le32(c.dx), Le32(c.ex), Le32(c.fx),
     Le32(c.gx), Le32(c.hx), Le32(c.pc)]
  }

  /** The items of the request that stores one, in the order the processor adds them. */
  ghost function ItemsActualizacion(pid: Uint32, tid: Uint32, c: Contexto): seq<Paquete.Dato> {
    [Le32(pid), Le32(tid), Le32(c.pc), Le32(c.ax), Le32(c.bx), Le32(c.cx), Le32(c.dx), Le32(c.ex), Le32(c.fx),
     Le32(c.gx), Le32(c.hx), Le32(c.base), Le32(c.limite)]
  }

  ghost predicate SonPalabras(datos: seq<Paquete.Dato>, n: nat) {
    |datos| == n && forall i :: 0 <= i < n ==> |datos[i]| == PALABRA
  }

  /** How the processor reads the reply, by position. */
  function LeerContexto(d: seq<Paquete.Dato>): Contexto
    requires SonPalabras(d, 11)
  {
    Contexto(base := DeLe32(d[0]), limite := DeLe32(d[1]), ax := DeLe32(d[2]), bx := DeLe32(d[3]), cx := DeLe32(d[4]),
             dx := DeLe32(d[5]), ex := DeLe32(d[6]), fx := DeLe32(d[7]), gx := DeLe32(d[8]), hx := DeLe32(d[9]),
             pc := DeLe32(d[10]))
  }

  /** How the memory reads the request, by position. */
  function LeerActualizacion(d: seq<Paquete.Dato>): Contexto
    requires SonPalabras(d, 13)
  {
    Contexto(pc := DeLe32(d[2]), ax := DeLe32(d[3]), bx := DeLe32(d[4]), cx := DeLe32(d[5]), dx := DeLe32(d[6]),
             ex := DeLe32(d[7]), fx := DeLe32(d[8]), gx := DeLe32(d[9]), hx := DeLe32(d[10]), base := DeLe32(d[11]),
             limite := DeLe32(d[12]))
  }

  /** What the receiver of a packet finds in it. */
  ghost function Transmitir(items: seq<Paquete.Dato>): (r: seq<Paquete.Dato>)
    requires Paquete.Enviable(items)
    ensures r == items
  {
    Paquete.DecodificarCodificar(items);
    Paquete.Decodificar(Paquete.Codificar(items)).value
  }

  /** The context of a PCB as it reaches the processor. */
  ghost function Cargar(c: Contexto): Contexto {
    LeerContexto(Transmitir(ItemsContexto(c)))
  }

  /** The context of the processor as it reaches the PCB. */
  ghost function Guardar(pid: Uint32, tid: Uint32, c: Contexto): Contexto {
    LeerActualizacion(Transmitir(ItemsActualizacion(pid, tid, c)))
  }

  /** Every field arrives where it left from, both ways. */
  lemma ContextoIdaYVuelta(pid: Uint32, tid: Uint32, c: Contexto)
    ensures Cargar(c) == c && Guardar(pid, tid, c) == c
  {
    hide Le32, DeLe32;
    forall n: Uint32
      ensures DeLe32(Le32(n)) == n
    {
      IdaYVuelta32(n);
    }
  }

  // ---- Threads ----

  datatype Hilo = Hilo(pid: Uint32, tid: Uint32)

  datatype Pcb = Pcb(programa: seq<Instruccion>, ctx: Contexto)

  datatype Sistema = Sistema(pcbs: map<Hilo, Pcb>, mem: seq<Byte>)

  ghost function Con(s: Sistema, h: Hilo, c: Contexto, mem: seq<Byte>): Sistema
    requires h in s.pcbs
  {
    Sistema(s.pcbs[h := s.pcbs[h].(ctx := c)], mem)
  }

  /** One instruction of thread h with its registers living in its own PCB. */
  ghost function Instruir(s: Sistema, h: Hilo): Option<Sistema> {
    if h !in s.pcbs then None
    else
      var e := Ciclo(s.pcbs[h].programa, s.pcbs[h].ctx, s.mem);
      if e.Indefinido? then None else Some(Con(s, h, e.ctx, e.mem))
  }

  ghost function Intercalado(s: Sistema, hs: seq<Hilo>): Option<Sistema>
    decreases |hs|
  {
    if hs == [] then Some(s)
    else match Instruir(s, hs[0])
      case None => None
      case Some(t) => Intercalado(t, hs[1..])
  }

  /** A turn at the processor: thread h, interrupted during instruction k if it lasts that long. */
  datatype Turno = Turno(h: Hilo, k: nat)

  datatype Despachado = Despachado(s: Sistema, motivo: Motivo, pasos: nat)

  /** Load the context, run the slice, store the context. */
  ghost function Despacho(s: Sistema, t: Turno): Option<Despachado> {
    if t.h !in s.pcbs then None
    else match Rafaga(s.pcbs[t.h].programa, Cargar(s.pcbs[t.h].ctx), s.mem, t.k)
      case Perdido => None
      case Corte(c, mem, m, n) => Some(Despachado(Con(s, t.h, Guardar(t.h.pid, t.h.tid, c), mem), m, n))
  }

  ghost function Repetir(h: Hilo, n: nat): (hs: seq<Hilo>)
    ensures |hs| == n
  {
    seq(n, _ => h)
  }

  /** A run of turns: the final state and, instruction by instruction, whose turn it was. */
  ghost function Agenda(s: Sistema, ts: seq<Turno>): Option<(Sistema, seq<Hilo>)>
    decreases |ts|
  {
    if ts == [] then Some((s, []))
    else match Despacho(s, ts[0])
      case None => None
      case Some(d) =>
        var r := Agenda(d.s, ts[1..]);
        if r.None? then None else Some((r.value.0, Repetir(ts[0].h, d.pasos) + r.value.1))
  }

  lemma {:induction false} IntercaladoSeguido(s: Sistema, a: seq<Hilo>, b: seq<Hilo>)
    requires Intercalado(s, a).Some?
    ensures Intercalado(s, a + b) == Intercalado(Intercalado(s, a).value, b)
    decreases |a|
  {
    if a == [] {
      assert a + b == b;
    } else {
      assert (a + b)[1..] == a[1..] + b;
      IntercaladoSeguido(Instruir(s, a[0]).value, a[1..], b);
    }
  }

  /** n instructions of the same thread in a row, in place. */
  lemma {:induction false} AvanzarEsIntercalar(s: Sistema, h: Hilo, n: nat)
    requires h in s.pcbs && Avanzar(s.pcbs[h].programa, s.pcbs[h].ctx, s.mem, n).Some?
    ensures var r := Avanzar(s.pcbs[h].programa, s.pcbs[h].ctx, s.mem, n).value;
            Intercalado(s, Repetir(h, n)) == Some(Con(s, h, r.0, r.1))
    decreases n
  {
    hide Ciclo;
    var r := Avanzar(s.pcbs[h].programa, s.pcbs[h].ctx, s.mem, n).value;
    if n == 0 {
      assert Con(s, h, r.0, r.1) == s;
    } else {
      var e := Ciclo(s.pcbs[h].programa, s.pcbs[h].ctx, s.mem);
      var t := Con(s, h, e.ctx, e.mem);
      AvanzarEsIntercalar(t, h, n - 1);
      assert Repetir(h, n)[1..] == Repetir(h, n - 1);
      assert Con(t, h, r.0, r.1) == Con(s, h, r.0, r.1);
    }
  }

  lemma DespachoTransparente(s: Sistema, t: Turno)
    requires Despacho(s, t).Some?
    ensures var d := Despacho(s, t).value; Intercalado(s, Repetir(t.h, d.pasos)) == Some(d.s)
  {
    hide Rafaga, Avanzar, Intercalado;
    var p := s.pcbs[t.h];
    ContextoIdaYVuelta(t.h.pid, t.h.tid, p.ctx);
    var r := Rafaga(p.programa, p.ctx, s.mem, t.k);
    RafagaEsAvanzar(p.programa, p.ctx, s.mem, t.k);
    ContextoIdaYVuelta(t.h.pid, t.h.tid, r.ctx);
    AvanzarEsIntercalar(s, t.h, r.pasos);
  }

  /** Context switches are transparent: any run of slices, however cut and of however many threads,
      leaves the registers, program counters and memory of the same instructions interleaved one by
      one with every thread keeping its own registers. */
  lemma {:induction false} ConmutacionTransparente(s: Sistema, ts: seq<Turno>)
    requires Agenda(s, ts).Some?
    ensures Intercalado(s, Agenda(s, ts).value.1) == Some(Agenda(s, ts).value.0)
    decreases |ts|
  {
    hide Despacho, Intercalado;
    if ts == [] {
      IntercaladoVacio(s);
    } else {
      var d := Despacho(s, ts[0]).value;
      DespachoTransparente(s, ts[0]);
      ConmutacionTransparente(d.s, ts[1..]);
      IntercaladoSeguido(s, Repetir(ts[0].h, d.pasos), Agenda(d.s, ts[1..]).value.1);
    }
  }

  lemma IntercaladoVacio(s: Sistema)
    ensures Intercalado(s, []) == Some(s)
  {
  }

  /** Cutting after every single instruction. */
  ghost function CortesFinos(hs: seq<Hilo>): seq<Turno> {
    seq(|hs|, i requires 0 <= i < |hs| => Turno(hs[i], 0))
  }

  lemma DespachoDeUno(s: Sistema, h: Hilo)
    requires Instruir(s, h).Some?
    ensures Despacho(s, Turno(h, 0)).Some?
    ensures Despacho(s, Turno(h, 0)).value.s == Instruir(s, h).value && Despacho(s, Turno(h, 0)).value.pasos == 1
  {
    hide Ciclo, Cargar, Guardar;
    ContextoIdaYVuelta(h.pid, h.tid, s.pcbs[h].ctx);
    ContextoIdaYVuelta(h.pid, h.tid, Ciclo(s.pcbs[h].programa, s.pcbs[h].ctx, s.mem).ctx);
  }

  /** Every interleaving of instructions is a run of slices, and two runs that interleave the same
      instructions end alike: where the interrupts fall does not matter. */
  lemma {:induction false} CortesFinosAlcanzan(s: Sistema, hs: seq<Hilo>)
    requires Intercalado(s, hs).Some?
    ensures Agenda(s, CortesFinos(hs)) == Some((Intercalado(s, hs).value, hs))
    decreases |hs|
  {
    hide Despacho, Instruir;
    if hs == [] {
    } else {
      DespachoDeUno(s, hs[0]);
      var t := Instruir(s, hs[0]).value;
      CortesFinosAlcanzan(t, hs[1..]);
      assert CortesFinos(hs)[1..] == CortesFinos(hs[1..]);
      assert Repetir(hs[0], 1) + hs[1..] == hs;
    }
  }

  lemma CortesIrrelevantes(s: Sistema, ts: seq<Turno>, us: seq<Turno>)
    requires Agenda(s, ts).Some? && Agenda(s, us).Some?
    requires Agenda(s, ts).value.1 == Agenda(s, us).value.1
    ensures Agenda(s, ts) == Agenda(s, us)
  {
    ConmutacionTransparente(s, ts);
    ConmutacionTransparente(s, us);
  }

  // ---- A thread among others ----

  /** The addresses the next instruction of a thread reads or writes. */
  ghost function Toca(programa: seq<Instruccion>, c: Contexto): set<nat> {
    if c.pc >= |programa| then {}
    else match programa[c.pc]
      case ReadMem(_, dir) => Palabra(Mmu(c, GetRegistry(c, dir)))
      case WriteMem(dir, _) => Palabra(Mmu(c, GetRegistry(c, dir)))
      case _ => {}
  }

  ghost function Escribe(programa: seq<Instruccion>, c: Contexto): set<nat> {
    if c.pc < |programa| && programa[c.pc].WriteMem? then Toca(programa, c) else {}
  }

  ghost function Palabra(df: Uint32): set<nat> {
    {df, df + 1, df + 2, df + 3}
  }

  ghost predicate Coinciden(a: seq<Byte>, b: seq<Byte>, A: set<nat>) {
    |a| == |b| && forall x :: x in A && x < |a| ==> a[x] == b[x]
  }

  lemma PalabrasIguales(a: seq<Byte>, b: seq<Byte>, df: nat)
    requires df + PALABRA <= |a| == |b|
    requires a[df] == b[df] && a[df + 1] == b[df + 1] && a[df + 2] == b[df + 2] && a[df + 3] == b[df + 3]
    ensures a[df..df + PALABRA] == b[df..df + PALABRA]
  {
  }

  lemma LecturaLocal(i: Instruccion, c: Contexto, a: seq<Byte>, b: seq<Byte>, A: set<nat>)
    requires i.ReadMem? && Coinciden(a, b, A) && Palabra(Mmu(c, GetRegistry(c, i.direccion))) <= A
    requires !Ejecutar(i, c, a).Indefinido?
    ensures var e, f := Ejecutar(i, c, a), Ejecutar(i, c, b);
            !f.Indefinido? && f.ctx == e.ctx && Coinciden(e.mem, f.mem, A)
  {
    hide Acceder, Mmu, DeLe32, Le32, SetRegistry, GetRegistry;
    var df := Mmu(c, GetRegistry(c, i.direccion));
    if df + PALABRA <= |a| {
      PalabrasIguales(a, b, df);
    }
  }

  lemma EscrituraLocal(i: Instruccion, c: Contexto, a: seq<Byte>, b: seq<Byte>, A: set<nat>)
    requires i.WriteMem? && Coinciden(a, b, A) && !Ejecutar(i, c, a).Indefinido?
    ensures var e, f := Ejecutar(i, c, a), Ejecutar(i, c, b);
            !f.Indefinido? && f.ctx == e.ctx && Coinciden(e.mem, f.mem, A)
  {
    hide Acceder, Mmu, DeLe32, Le32, SetRegistry, GetRegistry;
  }

  lemma RegistrosLocal(i: Instruccion, c: Contexto, a: seq<Byte>, b: seq<Byte>)
    requires !i.ReadMem? && !i.WriteMem?
    ensures var e, f := Ejecutar(i, c, a), Ejecutar(i, c, b);
            !e.Indefinido? && !f.Indefinido? && f.ctx == e.ctx && e.mem == a && f.mem == b
  {
    hide SetRegistry, GetRegistry;
  }

  /** The next instruction depends on no byte it does not touch, and on A it does the same to two
      memories that look the same on A. */
  lemma CicloLocal(programa: seq<Instruccion>, c: Contexto, a: seq<Byte>, b: seq<Byte>, A: set<nat>)
    requires Coinciden(a, b, A) && Toca(programa, c) <= A && !Ciclo(programa, c, a).Indefinido?
    ensures var e, f := Ciclo(programa, c, a), Ciclo(programa, c, b);
            !f.Indefinido? && f.ctx == e.ctx && Coinciden(e.mem, f.mem, A)
  {
    hide Ejecutar, Mmu, GetRegistry;
    var i := programa[c.pc];
    var c' := c.(pc := (c.pc + 1) % MODULO);
    match i
    case ReadMem(_, _) =>
      MmuIgual(c, c', i.direccion);
      LecturaLocal(i, c', a, b, A);
    case WriteMem(_, _) =>
      EscrituraLocal(i, c', a, b, A);
    case _ =>
      RegistrosLocal(i, c', a, b);
  }

  lemma MmuIgual(c: Contexto, c': Contexto, r: Registro)
    requires c' == c.(pc := (c.pc + 1) % MODULO)
    ensures GetRegistry(c', r) == GetRegistry(c, r) && Mmu(c', GetRegistry(c', r)) == Mmu(c, GetRegistry(c, r))
  {
  }

  /** Bytes the next instruction does not write keep their value. */
  lemma CicloAjeno(programa: seq<Instruccion>, c: Contexto, mem: seq<Byte>, A: set<nat>)
    requires Escribe(programa, c) !! A && !Ciclo(programa, c, mem).Indefinido?
    ensures Coinciden(Ciclo(programa, c, mem).mem, mem, A)
  {
    hide Acceder, Mmu, DeLe32, Le32, SetRegistry, GetRegistry;
    var i := programa[c.pc];
    var c' := c.(pc := (c.pc + 1) % MODULO);
    if i.WriteMem? {
      MmuIgual(c, c', i.direccion);
      var e, df := Ciclo(programa, c, mem), Mmu(c, GetRegistry(c, i.direccion));
      forall x | x in A && x < |mem|
        ensures e.mem[x] == mem[x]
      {
        assert x !in Palabra(df);
      }
    }
  }

  /** Along the interleaving, thread h touches only addresses of A and nobody else writes there. */
  ghost predicate Privado(s: Sistema, hs: seq<Hilo>, h: Hilo, A: set<nat>)
    decreases |hs|
  {
    hs == []
    || (&& Instruir(s, hs[0]).Some?
        && (if hs[0] == h then Toca(s.pcbs[h].programa, s.pcbs[h].ctx) <= A
            else Escribe(s.pcbs[hs[0]].programa, s.pcbs[hs[0]].ctx) !! A)
        && Privado(Instruir(s, hs[0]).value, hs[1..], h, A))
  }

  ghost function Turnos(hs: seq<Hilo>, h: Hilo): nat {
    if hs == [] then 0 else (if hs[0] == h then 1 else 0) + Turnos(hs[1..], h)
  }

  /** A preempted thread computes what it would compute alone: whatever the schedule does in between,
      its registers and its memory are those of running its own instructions without a pause. */
  lemma {:induction false} DesalojadoComoSolo(s: Sistema, hs: seq<Hilo>, h: Hilo, A: set<nat>, mem: seq<Byte>)
    requires h in s.pcbs && Privado(s, hs, h, A) && Coinciden(s.mem, mem, A)
    ensures Intercalado(s, hs).Some? && h in Intercalado(s, hs).value.pcbs
    ensures var s' := Intercalado(s, hs).value;
            var r := Avanzar(s.pcbs[h].programa, s.pcbs[h].ctx, mem, Turnos(hs, h));
            && r.Some? && s'.pcbs[h] == s.pcbs[h].(ctx := r.value.0)
            && Coinciden(s'.mem, r.value.1, A)
    decreases |hs|
  {
    hide Ciclo, Toca, Escribe;
    if hs == [] {
    } else {
      var t, p := Instruir(s, hs[0]).value, s.pcbs[hs[0]];
      if hs[0] == h {
        CicloLocal(p.programa, p.ctx, s.mem, mem, A);
        DesalojadoComoSolo(t, hs[1..], h, A, Ciclo(p.programa, p.ctx, mem).mem);
      } else {
        CicloAjeno(p.programa, p.ctx, s.mem, A);
        DesalojadoComoSolo(t, hs[1..], h, A, mem);
      }
    }
  }
}
