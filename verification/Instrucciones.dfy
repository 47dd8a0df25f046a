/** What each instruction computes, what a loop of them computes, and what a slice tells the kernel, in
    terms of the values of registers and bytes.
    Sources: cpu/src/instrucciones.c, cpu/src/ciclo_instruccion.c and cpu/src/operaciones_memoria.c. */
module Instrucciones {
  import opened Bytes
  import opened Opcion
  import opened Cpu
  import opened Conmutacion

  /** The line at the program counter. */
  ghost predicate EnLinea(programa: seq<Instruccion>, c: Contexto, i: Instruccion) {
    c.pc < |programa| && c.pc < 0x8000_0000 && programa[c.pc] == i
  }

  /** The thread went on to pc, and of its registers only d may have another value. */
  ghost predicate SoloCambia(c: Contexto, c': Contexto, d: Registro, pc: int) {
    && c'.pc == pc && c'.base == c.base && c'.limite == c.limite
    && forall r: Registro :: r != d ==> GetRegistry(c', r) == GetRegistry(c, r)
  }

  lemma IgnoraPc(c: Contexto, pc: Uint32, r: Registro)
    ensures GetRegistry(c.(pc := pc), r) == GetRegistry(c, r)
  {
  }

  lemma GuardaPc(c: Contexto, pc: Uint32, d: Registro, v: Uint32)
    ensures SetRegistry(c.(pc := pc), d, v) == SetRegistry(c, d, v).(pc := pc)
  {
  }

  lemma GuardaUno(c: Contexto, d: Registro, v: Uint32)
    requires c.pc + 1 < 0x1_0000_0000
    ensures var c' := SetRegistry(c.(pc := c.pc + 1), d, v);
            (!d.Otro? ==> GetRegistry(c', d) == v) && SoloCambia(c, c', d, c.pc + 1)
  {
  }

  // ---- Arithmetic and jumps ----

  /** SET leaves the literal in the register. */
  lemma SetGuarda(programa: seq<Instruccion>, c: Contexto, mem: seq<Byte>, d: Registro, v: Uint32)
    requires EnLinea(programa, c, Set(d, v)) && !d.Otro?
    ensures var e := Ciclo(programa, c, mem);
            e.Sigue? && GetRegistry(e.ctx, d) == v && SoloCambia(c, e.ctx, d, c.pc + 1) && e.mem == mem
  {
    hide GetRegistry, SetRegistry, SoloCambia;
    GuardaUno(c, d, v);
  }

  /** SUM leaves the sum, less 2^32 when it does not fit. */
  lemma SumSuma(programa: seq<Instruccion>, c: Contexto, mem: seq<Byte>, d: Registro, o: Registro)
    requires EnLinea(programa, c, Sum(d, o)) && !d.Otro? && !o.Otro?
    ensures var e, a, b := Ciclo(programa, c, mem), GetRegistry(c, d), GetRegistry(c, o);
            && e.Sigue? && GetRegistry(e.ctx, d) == (if a + b < 0x1_0000_0000 then a + b else a + b - 0x1_0000_0000)
            && SoloCambia(c, e.ctx, d, c.pc + 1) && e.mem == mem
  {
    hide GetRegistry, SetRegistry, SoloCambia;
    IgnoraPc(c, c.pc + 1, d);
    IgnoraPc(c, c.pc + 1, o);
    GuardaUno(c, d, (GetRegistry(c, d) + GetRegistry(c, o)) % MODULO);
  }

  /** SUB leaves the difference, plus 2^32 when it is negative. */
  lemma SubResta(programa: seq<Instruccion>, c: Contexto, mem: seq<Byte>, d: Registro, o: Registro)
    requires EnLinea(programa, c, Sub(d, o)) && !d.Otro? && !o.Otro?
    ensures var e, a, b := Ciclo(programa, c, mem), GetRegistry(c, d), GetRegistry(c, o);
            && e.Sigue? && GetRegistry(e.ctx, d) == (if a >= b then a - b else a - b + 0x1_0000_0000)
            && SoloCambia(c, e.ctx, d, c.pc + 1) && e.mem == mem
  {
    hide GetRegistry, SetRegistry, SoloCambia;
    IgnoraPc(c, c.pc + 1, d);
    IgnoraPc(c, c.pc + 1, o);
    GuardaUno(c, d, (GetRegistry(c, d) - GetRegistry(c, o)) % MODULO);
  }

  /** JNZ goes to its target exactly when the register is not 0, and to the next line otherwise. */
  lemma JnzSalta(programa: seq<Instruccion>, c: Contexto, mem: seq<Byte>, r: Registro, salto: Uint32)
    requires EnLinea(programa, c, Jnz(r, salto)) && !r.Otro?
    ensures Ciclo(programa, c, mem) == Sigue(c.(pc := if GetRegistry(c, r) == 0 then c.pc + 1 else salto), mem)
  {
  }

  /** The instructions that compute nothing: LOG goes on, a system call hands over its own reason and an
      unknown mnemonic is a SEGFAULT. */
  lemma SinCalculo(programa: seq<Instruccion>, c: Contexto, mem: seq<Byte>)
    requires c.pc < |programa| && c.pc < 0x8000_0000
    ensures var e, c' := Ciclo(programa, c, mem), c.(pc := c.pc + 1);
            match programa[c.pc]
            case Log(r) => !r.Otro? ==> e == Sigue(c', mem)
            case Syscall(m) => e == Desaloja(c', mem, m)
            case Desconocida => e == Desaloja(c', mem, SEGFAULT)
            case _ => true
  {
  }

  // ---- Accesses to the memory ----

  /** The address of offset d, for an offset the mmu lets pass. */
  ghost function Direccion(c: Contexto, d: Uint32): int {
    if c.base + d < 0x1_0000_0000 then c.base + d else c.base + d - 0x1_0000_0000
  }

  /** The four bytes from a on, the least significant one first. */
  ghost function PalabraEn(mem: seq<Byte>, a: int): int
    requires 0 <= a && a + 4 <= |mem|
  {
    (mem[a] as int) + 0x100 * (mem[a + 1] as int) + 0x1_0000 * (mem[a + 2] as int) + 0x100_0000 * (mem[a + 3] as int)
  }

  /** An access through a register whose offset lies within the limit. A name that is not a register stands
      for offset 0. */
  ghost predicate DentroDelLimite(c: Contexto, mem: seq<Byte>, dir: Registro) {
    && TamanioValido(|mem|) && GetRegistry(c, dir) + 4 <= c.limite
    && Direccion(c, GetRegistry(c, dir)) + 4 < 0x1_0000_0000
  }

  /** The access was served: the thread goes on, or is told SEGFAULT because it named no register. */
  ghost predicate Servido(e: Efecto, validos: bool) {
    if validos then e.Sigue? else e.Desaloja? && e.motivo == SEGFAULT
  }

  lemma AccesoDentro(c: Contexto, mem: seq<Byte>, dir: Registro)
    requires DentroDelLimite(c, mem, dir) && c.pc + 1 < 0x1_0000_0000
    ensures var c', a := c.(pc := c.pc + 1), Direccion(c, GetRegistry(c, dir));
            && 0 <= a && Mmu(c', GetRegistry(c', dir)) == a && (dir.Otro? ==> a == c.base)
            && Acceder(a, |mem|) == if a + 4 < |mem| then Valido else Rechazado
  {
    IgnoraPc(c, c.pc + 1, dir);
    AccesoSiYSoloSi(Direccion(c, GetRegistry(c, dir)), |mem|);
    assert dir.Otro? ==> GetRegistry(c, dir) == 0;
    hide GetRegistry, Acceder;
  }

  lemma LecturaDe(c: Contexto, mem: seq<Byte>, dat: Registro, dir: Registro)
    ensures var a, e := Mmu(c, GetRegistry(c, dir)), Ejecutar(ReadMem(dat, dir), c, mem);
            && (Acceder(a, |mem|) == Rechazado ==> e == Desaloja(c, mem, SEGFAULT))
            && (Acceder(a, |mem|) == Valido && a + PALABRA <= |mem| ==>
                  Servido(e, !dat.Otro? && !dir.Otro?) && e.mem == mem
                  && e.ctx == SetRegistry(c, dat, DeLe32(mem[a..a + PALABRA])))
  {
    hide Mmu, GetRegistry, SetRegistry, Acceder, DeLe32;
  }

  lemma EscrituraDe(c: Contexto, mem: seq<Byte>, dir: Registro, dat: Registro)
    ensures var a, e := Mmu(c, GetRegistry(c, dir)), Ejecutar(WriteMem(dir, dat), c, mem);
            && (Acceder(a, |mem|) == Rechazado ==> e == Desaloja(c, mem, SEGFAULT))
            && (Acceder(a, |mem|) == Valido && a + PALABRA <= |mem| ==>
                  Servido(e, !dat.Otro? && !dir.Otro?) && e.ctx == c
                  && e.mem == mem[..a] + Le32(GetRegistry(c, dat)) + mem[a + PALABRA..])
  {
    hide Mmu, GetRegistry, Acceder, Le32;
  }

  lemma PalabraLeida(mem: seq<Byte>, a: int)
    requires 0 <= a && a + PALABRA <= |mem|
    ensures DeLe32(mem[a..a + PALABRA]) == PalabraEn(mem, a)
  {
  }

  lemma PalabraEscrita(mem: seq<Byte>, a: int, v: Uint32)
    requires 0 <= a && a + PALABRA <= |mem|
    ensures var mem' := mem[..a] + Le32(v) + mem[a + PALABRA..];
            && |mem'| == |mem| && PalabraEn(mem', a) == v
            && forall i :: 0 <= i < |mem| && !(a <= i < a + 4) ==> mem'[i] == mem[i]
  {
    hide Le32, DeLe32, PalabraEn;
    var mem' := mem[..a] + Le32(v) + mem[a + PALABRA..];
    assert mem'[a..a + PALABRA] == Le32(v);
    IdaYVuelta32(v);
    PalabraLeida(mem', a);
  }

  /** READ_MEM leaves in the register the word at base plus offset, exactly when one byte more than the word
      would fit in the memory; otherwise it is a SEGFAULT that moves nothing but the program counter. */
  lemma LecturaLee(programa: seq<Instruccion>, c: Contexto, mem: seq<Byte>, dat: Registro, dir: Registro)
    requires EnLinea(programa, c, ReadMem(dat, dir)) && DentroDelLimite(c, mem, dir)
    ensures var e, a := Ciclo(programa, c, mem), Direccion(c, GetRegistry(c, dir));
            && (dir.Otro? ==> a == c.base)
            && (a + 4 >= |mem| ==> e == Desaloja(c.(pc := c.pc + 1), mem, SEGFAULT))
            && (a + 4 < |mem| ==>
                  Servido(e, !dat.Otro? && !dir.Otro?) && e.mem == mem && SoloCambia(c, e.ctx, dat, c.pc + 1)
                  && (!dat.Otro? ==> GetRegistry(e.ctx, dat) == PalabraEn(mem, a)))
  {
    var a := Direccion(c, GetRegistry(c, dir));
    hide SetRegistry, SoloCambia, Mmu, Acceder, DeLe32, PalabraEn, DentroDelLimite, Ejecutar;
    AccesoDentro(c, mem, dir);
    LecturaDe(c.(pc := c.pc + 1), mem, dat, dir);
    hide GetRegistry;
    if a + 4 < |mem| {
      PalabraLeida(mem, a);
      GuardaUno(c, dat, DeLe32(mem[a..a + PALABRA]));
    }
  }

  /** WRITE_MEM leaves the register in the word at base plus offset, on the same condition, and no other byte
      or register moves. */
  lemma EscrituraEscribe(programa: seq<Instruccion>, c: Contexto, mem: seq<Byte>, dir: Registro, dat: Registro)
    requires EnLinea(programa, c, WriteMem(dir, dat)) && DentroDelLimite(c, mem, dir)
    ensures var e, a := Ciclo(programa, c, mem), Direccion(c, GetRegistry(c, dir));
            && (dir.Otro? ==> a == c.base)
            && (a + 4 >= |mem| ==> e == Desaloja(c.(pc := c.pc + 1), mem, SEGFAULT))
            && (a + 4 < |mem| ==>
                  Servido(e, !dat.Otro? && !dir.Otro?) && e.ctx == c.(pc := c.pc + 1) && |e.mem| == |mem|
                  && PalabraEn(e.mem, a) == (if dat.Otro? then 0 else GetRegistry(c, dat))
                  && forall i :: 0 <= i < |mem| && !(a <= i < a + 4) ==> e.mem[i] == mem[i])
  {
    var a := Direccion(c, GetRegistry(c, dir));
    hide Mmu, Acceder, Le32, PalabraEn, DentroDelLimite, Ejecutar;
    AccesoDentro(c, mem, dir);
    IgnoraPc(c, c.pc + 1, dat);
    EscrituraDe(c.(pc := c.pc + 1), mem, dir, dat);
    assert dat.Otro? ==> GetRegistry(c, dat) == 0;
    hide GetRegistry;
    if a + 4 < |mem| {
      PalabraEscrita(mem, a, GetRegistry(c, dat));
    }
  }

  // ---- A loop ----

  /** SUB r s; JNZ r k, with k the line of the SUB and 1 in s: after j rounds, with the n it began with not
      yet used up, r holds n - j. */
  ghost predicate EsContador(programa: seq<Instruccion>, k: nat, r: Registro, s: Registro) {
    && k + 1 < |programa| && k + 1 < 0x8000_0000 && r != s && !r.Otro? && !s.Otro?
    && programa[k] == Sub(r, s) && programa[k + 1] == Jnz(r, k)
  }

  lemma UnaVuelta(programa: seq<Instruccion>, c: Contexto, mem: seq<Byte>, r: Registro, s: Registro, k: nat)
    requires EsContador(programa, k, r, s) && c.pc == k && GetRegistry(c, r) >= 1 && GetRegistry(c, s) == 1
    ensures Siguen(programa, c, mem, 2)
    ensures var n := GetRegistry(c, r);
            Avanzar(programa, c, mem, 2) == Some((SetRegistry(c, r, n - 1).(pc := if n == 1 then k + 2 else k), mem))
  {
    var n := GetRegistry(c, r);
    var c1 := SetRegistry(c, r, n - 1).(pc := k + 1);
    SubResta(programa, c, mem, r, s);
    SubEnSuLugar(programa, c, mem, r, s);
    RegistroGuardado(c, r, r, n - 1);
    assert GetRegistry(c1, r) == n - 1;
    JnzSalta(programa, c1, mem, r, k);
    hide Ciclo;
    var e := Ciclo(programa, c1, mem);
    assert Avanzar(programa, c1, mem, 1) == Avanzar(programa, e.ctx, e.mem, 0);
    assert Siguen(programa, c1, mem, 1);
  }

  lemma SubEnSuLugar(programa: seq<Instruccion>, c: Contexto, mem: seq<Byte>, r: Registro, s: Registro)
    requires EnLinea(programa, c, Sub(r, s)) && !r.Otro? && !s.Otro? && GetRegistry(c, r) >= GetRegistry(c, s)
    ensures Ciclo(programa, c, mem)
            == Sigue(SetRegistry(c, r, GetRegistry(c, r) - GetRegistry(c, s)).(pc := c.pc + 1), mem)
  {
    hide GetRegistry, SetRegistry;
    IgnoraPc(c, c.pc + 1, r);
    IgnoraPc(c, c.pc + 1, s);
    GuardaPc(c, c.pc + 1, r, GetRegistry(c, r) - GetRegistry(c, s));
  }

  lemma {:induction false} AvanzarSeguido(programa: seq<Instruccion>, c: Contexto, mem: seq<Byte>, n: nat, m: nat,
                                          c': Contexto, mem': seq<Byte>)
    requires Siguen(programa, c, mem, n) && Avanzar(programa, c, mem, n) == Some((c', mem'))
    ensures Avanzar(programa, c, mem, n + m) == Avanzar(programa, c', mem', m)
    ensures Siguen(programa, c, mem, n + m) == Siguen(programa, c', mem', m)
    decreases n
  {
    hide Ciclo;
    if n > 0 {
      var e := Ciclo(programa, c, mem);
      AvanzarSeguido(programa, e.ctx, e.mem, n - 1, m, c', mem');
    }
  }

  /** The loop of n rounds runs exactly n: after j of them, n - j are left and the program counter is at the
      SUB again, and after the last one it is just past the loop. No other register or byte moves. */
  lemma {:induction false} ContadorCuenta(programa: seq<Instruccion>, c: Contexto, mem: seq<Byte>, r: Registro,
                                          s: Registro, k: nat, j: nat)
    requires EsContador(programa, k, r, s) && c.pc == k && GetRegistry(c, s) == 1
    requires GetRegistry(c, r) >= 1 && j <= GetRegistry(c, r)
    ensures Siguen(programa, c, mem, 2 * j)
    ensures var n := GetRegistry(c, r);
            Avanzar(programa, c, mem, 2 * j)
            == Some((SetRegistry(c, r, n - j).(pc := if j == n then k + 2 else k), mem))
    decreases j
  {
    hide Ciclo, GetRegistry, SetRegistry, EsContador;
    var n := GetRegistry(c, r);
    if j == 0 {
      GuardaLoQueHay(c, r);
    } else {
      ContadorCuenta(programa, c, mem, r, s, k, j - 1);
      var c1 := SetRegistry(c, r, n - (j - 1)).(pc := k);
      EstadoDelContador(programa, c, k, r, s, n - (j - 1));
      UnaVuelta(programa, c1, mem, r, s, k);
      GuardaDeNuevo(c, r, n - (j - 1), n - j, if j == n then k + 2 else k, k);
      AvanzarSeguido(programa, c, mem, 2 * (j - 1), 2, c1, mem);
    }
  }

  lemma GuardaLoQueHay(c: Contexto, r: Registro)
    ensures SetRegistry(c, r, GetRegistry(c, r)) == c
  {
  }

  lemma EstadoDelContador(programa: seq<Instruccion>, c: Contexto, k: nat, r: Registro, s: Registro, v: Uint32)
    requires EsContador(programa, k, r, s)
    ensures var c1 := SetRegistry(c, r, v).(pc := k);
            GetRegistry(c1, r) == v && GetRegistry(c1, s) == GetRegistry(c, s)
  {
    var c0 := SetRegistry(c, r, v);
    RegistroGuardado(c, r, r, v);
    RegistroGuardado(c, r, s, v);
    IgnoraPc(c0, k, r);
    IgnoraPc(c0, k, s);
    hide GetRegistry, SetRegistry;
  }

  lemma GuardaDeNuevo(c: Contexto, r: Registro, v: Uint32, w: Uint32, pc: Uint32, pc0: Uint32)
    ensures SetRegistry(SetRegistry(c, r, v).(pc := pc0), r, w).(pc := pc) == SetRegistry(c, r, w).(pc := pc)
  {
  }

  // ---- What a slice tells the kernel ----

  /** A slice that reaches, as number n, an instruction that gives the processor back: its reason is the one
      the kernel hears, whenever the interrupt arrives. Only CONTINUE is overwritten, by an interrupt that
      arrives at that very instruction. */
  lemma {:induction false} DesalojoEnRafaga(programa: seq<Instruccion>, c: Contexto, mem: seq<Byte>, k: nat, n: nat,
                                            c': Contexto, mem': seq<Byte>)
    requires n <= k && Siguen(programa, c, mem, n) && Avanzar(programa, c, mem, n) == Some((c', mem'))
    requires Ciclo(programa, c', mem').Desaloja?
    ensures var e := Ciclo(programa, c', mem');
            Rafaga(programa, c, mem, k)
            == Corte(e.ctx, e.mem, if e.motivo == CONTINUE && n == k then INTERRUPCION else e.motivo, n + 1)
    decreases n
  {
    hide Ciclo;
    if n > 0 {
      var e := Ciclo(programa, c, mem);
      DesalojoEnRafaga(programa, e.ctx, e.mem, k - 1, n - 1, c', mem');
    }
  }

  /** A system call is what the kernel hears even if the interrupt arrives during it, and the thread is past
      it with nothing else changed. */
  lemma LlamadaEnRafaga(programa: seq<Instruccion>, c: Contexto, mem: seq<Byte>, k: nat, n: nat,
                        c': Contexto, mem': seq<Byte>, m: Motivo)
    requires n <= k && Siguen(programa, c, mem, n) && Avanzar(programa, c, mem, n) == Some((c', mem'))
    requires EnLinea(programa, c', Syscall(m)) && m != CONTINUE
    ensures Rafaga(programa, c, mem, k) == Corte(c'.(pc := c'.pc + 1), mem', m, n + 1)
  {
    SinCalculo(programa, c', mem');
    DesalojoEnRafaga(programa, c, mem, k, n, c', mem');
  }

  /** A slice whose instructions all go on until the interrupt ends with it, after k + 1 of them. */
  lemma {:induction false} QuantumEnRafaga(programa: seq<Instruccion>, c: Contexto, mem: seq<Byte>, k: nat,
                                           c': Contexto, mem': seq<Byte>)
    requires Siguen(programa, c, mem, k + 1) && Avanzar(programa, c, mem, k + 1) == Some((c', mem'))
    ensures Rafaga(programa, c, mem, k) == Corte(c', mem', INTERRUPCION, k + 1)
    decreases k
  {
    hide Ciclo;
    var e := Ciclo(programa, c, mem);
    if k > 0 {
      QuantumEnRafaga(programa, e.ctx, e.mem, k - 1, c', mem');
    } else {
      assert Avanzar(programa, e.ctx, e.mem, 0) == Some((c', mem'));
    }
  }

  /** Every register it names is one, and its system calls are those of the instruction set. */
  predicate BienEscrita(i: Instruccion) {
    !NombraInvalido(i) && (i.Syscall? ==> i.motivo != CONTINUE && i.motivo != INTERRUPCION && i.motivo != SEGFAULT)
  }

  /** What a valid instruction says when it gives the processor back. */
  lemma DesalojoValido(programa: seq<Instruccion>, c: Contexto, mem: seq<Byte>)
    requires c.pc < |programa| && BienEscrita(programa[c.pc]) && Ciclo(programa, c, mem).Desaloja?
    ensures var i, m := programa[c.pc], Ciclo(programa, c, mem).motivo;
            UltimaDice(i, m)
    ensures Ciclo(programa, c, mem).motivo != CONTINUE && Ciclo(programa, c, mem).motivo != INTERRUPCION
  {
    hide GetRegistry, SetRegistry, Mmu, Acceder, Le32, DeLe32;
  }

  /** What the kernel can conclude from the reason of a slice of valid instructions. INTERRUPCION: all the
      instructions up to the interrupt were run, and none was a system call. Anything else: the last one
      was that system call, or for SEGFAULT an access out of the memory or an unknown mnemonic. */
  lemma {:induction false} MotivoDice(programa: seq<Instruccion>, c: Contexto, mem: seq<Byte>, k: nat)
    requires Rafaga(programa, c, mem, k).Corte? && forall i :: 0 <= i < |programa| ==> BienEscrita(programa[i])
    ensures var r := Rafaga(programa, c, mem, k);
            && r.motivo != CONTINUE
            && (r.motivo == INTERRUPCION <==> Siguen(programa, c, mem, k + 1))
            && (r.motivo == INTERRUPCION ==> r.pasos == k + 1)
            && (r.motivo != INTERRUPCION ==>
                  && Siguen(programa, c, mem, r.pasos - 1) && Avanzar(programa, c, mem, r.pasos - 1).Some?
                  && var ultimo := Avanzar(programa, c, mem, r.pasos - 1).value.0;
                     ultimo.pc < |programa| && UltimaDice(programa[ultimo.pc], r.motivo))
    decreases k
  {
    hide BienEscrita;
    var e := Ciclo(programa, c, mem);
    if e.Desaloja? {
      DesalojoValido(programa, c, mem);
      hide Ciclo;
    } else {
      hide Ciclo;
      assert Siguen(programa, e.ctx, e.mem, 0);
      if k > 0 {
        MotivoDice(programa, e.ctx, e.mem, k - 1);
      }
    }
  }

  /** The instruction that made the kernel hear m. */
  predicate UltimaDice(i: Instruccion, m: Motivo) {
    i == Syscall(m) || (m == SEGFAULT && (EsAcceso(i) || i == Desconocida))
  }

  /** A turn at the processor, seen from the kernel: it is a slice of the program, registers and memory of that
      thread alone, at most k + 1 instructions long, and exactly so long when it ends with the interrupt. */
  lemma TurnoDice(s: Sistema, t: Turno)
    requires t.h in s.pcbs && Despacho(s, t).Some?
    requires forall i :: 0 <= i < |s.pcbs[t.h].programa| ==> BienEscrita(s.pcbs[t.h].programa[i])
    ensures var d, pcb := Despacho(s, t).value, s.pcbs[t.h];
            && 1 <= d.pasos <= t.k + 1 && (d.motivo == INTERRUPCION ==> d.pasos == t.k + 1)
            && (d.motivo == INTERRUPCION <==> Siguen(pcb.programa, pcb.ctx, s.mem, t.k + 1))
            && Avanzar(pcb.programa, pcb.ctx, s.mem, d.pasos) == Some((d.s.pcbs[t.h].ctx, d.s.mem))
            && d.s.pcbs == s.pcbs[t.h := Pcb(pcb.programa, d.s.pcbs[t.h].ctx)]
  {
    var pcb := s.pcbs[t.h];
    ContextoIdaYVuelta(t.h.pid, t.h.tid, pcb.ctx);
    hide Cargar, Guardar, Rafaga, BienEscrita;
    var r := Rafaga(pcb.programa, pcb.ctx, s.mem, t.k);
    ContextoIdaYVuelta(t.h.pid, t.h.tid, r.ctx);
    MotivoDice(pcb.programa, pcb.ctx, s.mem, t.k);
    RafagaEsAvanzar(pcb.programa, pcb.ctx, s.mem, t.k);
  }
}
