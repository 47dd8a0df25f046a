/** The processor as a function: one instruction cycle on a context and the user memory, and a slice
    of them.
    Sources: cpu/src/ciclo_instruccion.c, instrucciones.c, utils.c and the memory side of the accesses
    in memoria/src/operaciones_cpu.c. */
module Cpu {
  import opened Bytes
  import opened Opcion

  const MODULO: nat := 0x1_0000_0000

  /** t_motivo_desalojo */
  datatype Motivo =
    | CONTINUE | M_DUMP_MEMORY | M_IO | M_PROCESS_CREATE | M_THREAD_CREATE | M_THREAD_JOIN | M_THREAD_CANCEL
    | M_MUTEX_CREATE | M_MUTEX_LOCK | M_MUTEX_UNLOCK | M_THREAD_EXIT | M_PROCESS_EXIT | INTERRUPCION | SEGFAULT

  datatype Contexto = Contexto(pc: Uint32, ax: Uint32, bx: Uint32, cx: Uint32, dx: Uint32, ex: Uint32, fx: Uint32,
                               gx: Uint32, hx: Uint32, base: Uint32, limite: Uint32)

  /** A register as an instruction names it; `Otro` is any name that is not a register. */
  datatype Registro = AX | BX | CX | DX | EX | FX | GX | HX | Otro(nombre: string)

  /** A line of a program, split into mnemonic and parameters. `Syscall` stands for the eleven
      instructions that only hand the thread back to the kernel. */
  datatype Instruccion =
    | Set(destino: Registro, valor: Uint32)
    | ReadMem(datos: Registro, direccion: Registro)
    | WriteMem(direccion: Registro, datos: Registro)
    | Sum(destino: Registro, origen: Registro)
    | Sub(destino: Registro, origen: Registro)
    | Jnz(registro: Registro, salto: Uint32)
    | Log(registro: Registro)
    | Syscall(motivo: Motivo)
    | Desconocida

  // ---- Registers ----

  function GetRegistry(c: Contexto, r: Registro): Uint32 {
    match r
    case AX => c.ax
    case BX => c.bx
    case CX => c.cx
    case DX => c.dx
    case EX => c.ex
    case FX => c.fx
    case GX => c.gx
    case HX => c.hx
    case Otro(_) => 0
  }

  function SetRegistry(c: Contexto, r: Registro, v: Uint32): Contexto {
    match r
    case AX => c.(ax := v)
    case BX => c.(bx := v)
    case CX => c.(cx := v)
    case DX => c.(dx := v)
    case EX => c.(ex := v)
    case FX => c.(fx := v)
    case GX => c.(gx := v)
    case HX => c.(hx := v)
    case Otro(_) => c
  }

  /** A register holds what was last stored in it and nothing else moves. */
  lemma RegistroGuardado(c: Contexto, r: Registro, s: Registro, v: Uint32)
    ensures GetRegistry(SetRegistry(c, r, v), s) == if s == r && !r.Otro? then v else GetRegistry(c, s)
    ensures SetRegistry(c, r, v).pc == c.pc && SetRegistry(c, r, v).base == c.base
    ensures SetRegistry(c, r, v).limite == c.limite
  {
  }

  // ---- Addresses ----

  /** Offsets are checked against `limite`; a fault answers (uint32_t)-1. */
  function Mmu(c: Contexto, desplazamiento: Uint32): Uint32 {
    if desplazamiento + PALABRA > c.limite then MODULO - 1 else (c.base + desplazamiento) % MODULO
  }

  /** The memory reads the address as an int and compares df + 4 as an unsigned 64-bit number. An
      address within four of the top wraps below the bound and reaches bytes outside the memory. */
  datatype Acceso = Valido | Rechazado | FueraDeMemoria

  function Acceder(df: Uint32, tam: nat): Acceso {
    var d := if df < 0x8000_0000 then df else df - MODULO;
    if (d + PALABRA) % 0x1_0000_0000_0000_0000 >= tam then Rechazado
    else if d < 0 then FueraDeMemoria
    else Valido
  }

  /** Memory sizes are positive ints. */
  predicate TamanioValido(tam: nat) {
    0 < tam < 0x8000_0000
  }

  /** The bytes df..df + 3 are transferred exactly when one more byte would still fit. */
  lemma AccesoSiYSoloSi(df: Uint32, tam: nat)
    requires TamanioValido(tam)
    ensures Acceder(df, tam) == Valido <==> df + PALABRA < tam
    ensures Acceder(df, tam) == FueraDeMemoria <==> df + PALABRA >= MODULO && df + PALABRA - MODULO < tam
  {
    var d := if df < 0x8000_0000 then df else df - MODULO;
    if d + PALABRA >= 0 {
      assert (d + PALABRA) % 0x1_0000_0000_0000_0000 == d + PALABRA;
    } else {
      assert (d + PALABRA) % 0x1_0000_0000_0000_0000 == d + PALABRA + 0x1_0000_0000_0000_0000;
    }
  }

  /** `limite` is the last address of the partition, not its size, so the check keeps a process
      inside its partition only when that starts at address 0 or 1 (or has nothing to reach). */
  lemma MmuAislaSiYSoloSi(c: Contexto)
    requires c.base + c.limite < MODULO
    ensures (forall d: Uint32 :: d + PALABRA <= c.limite ==> c.base <= Mmu(c, d) && Mmu(c, d) + PALABRA - 1 <= c.limite)
            <==> c.limite < PALABRA || c.base <= 1
  {
    if c.limite >= PALABRA && c.base > 1 {
      var d: Uint32 := c.limite - PALABRA;
      assert Mmu(c, d) + PALABRA - 1 == c.base + c.limite - 1;
    }
  }

  /** A process of 50 bytes at address 100 is given an address past its end. */
  lemma MmuEscapa()
    ensures var c := Contexto(0, 0, 0, 0, 0, 0, 0, 0, 0, 100, 149); Mmu(c, 145) == 245
  {
  }

  // ---- One instruction ----

  /** What one instruction leaves: the thread goes on, or gives the processor back with a reason, or
      touches what is not there (bytes outside the memory, a line outside the program). */
  datatype Efecto =
    | Sigue(ctx: Contexto, mem: seq<Byte>)
    | Desaloja(ctx: Contexto, mem: seq<Byte>, motivo: Motivo)
    | Indefinido

  function Segun(ok: bool, c: Contexto, mem: seq<Byte>, m: Motivo): Efecto {
    if ok then Sigue(c, mem) else Desaloja(c, mem, m)
  }

  function Ejecutar(i: Instruccion, c: Contexto, mem: seq<Byte>): Efecto {
    match i
    case Set(d, v) => Segun(!d.Otro?, SetRegistry(c, d, v), mem, CONTINUE)
    case Sum(d, o) =>
      Segun(!d.Otro? && !o.Otro?, SetRegistry(c, d, (GetRegistry(c, d) + GetRegistry(c, o)) % MODULO), mem, CONTINUE)
    case Sub(d, o) =>
      Segun(!d.Otro? && !o.Otro?, SetRegistry(c, d, (GetRegistry(c, d) - GetRegistry(c, o)) % MODULO), mem, CONTINUE)
    case Jnz(r, s) => Segun(!r.Otro?, if GetRegistry(c, r) != 0 then c.(pc := s) else c, mem, CONTINUE)
    case Log(r) => Segun(!r.Otro?, c, mem, CONTINUE)
    case ReadMem(dat, dir) =>
      var df := Mmu(c, GetRegistry(c, dir));
      (match Acceder(df, |mem|)
       case FueraDeMemoria => Indefinido
       case Rechazado => Desaloja(c, mem, SEGFAULT)
       case Valido =>
         if df + PALABRA > |mem| then Indefinido
         else Segun(!dat.Otro? && !dir.Otro?, SetRegistry(c, dat, DeLe32(mem[df..df + PALABRA])), mem, SEGFAULT))
    case WriteMem(dir, dat) =>
      var df := Mmu(c, GetRegistry(c, dir));
      (match Acceder(df, |mem|)
       case FueraDeMemoria => Indefinido
       case Rechazado => Desaloja(c, mem, SEGFAULT)
       case Valido =>
         if df + PALABRA > |mem| then Indefinido
         else Segun(!dat.Otro? && !dir.Otro?, c, mem[..df] + Le32(GetRegistry(c, dat)) + mem[df + PALABRA..], SEGFAULT))
    case Syscall(m) => Desaloja(c, mem, m)
    case Desconocida => Desaloja(c, mem, SEGFAULT)
  }

  /** fetch, decode, execute. The program counter has already moved when the instruction runs. */
  function Ciclo(programa: seq<Instruccion>, c: Contexto, mem: seq<Byte>): Efecto {
    if c.pc >= |programa| || c.pc >= 0x8000_0000 then Indefinido
    else Ejecutar(programa[c.pc], c.(pc := (c.pc + 1) % MODULO), mem)
  }

  /** Running a program never changes the bounds of its memory, nor the size of the memory. */
  lemma CicloConservaLimites(programa: seq<Instruccion>, c: Contexto, mem: seq<Byte>)
    ensures var e := Ciclo(programa, c, mem);
            !e.Indefinido? ==> e.ctx.base == c.base && e.ctx.limite == c.limite && |e.mem| == |mem|
  {
    hide Acceder, Mmu, DeLe32, Le32;
  }

  /** A store followed by a load through the same address register gives the stored value. */
  lemma LeeLoEscrito(c: Contexto, mem: seq<Byte>, dir: Registro, dat: Registro, r: Registro)
    requires !r.Otro? && Ejecutar(WriteMem(dir, dat), c, mem).Sigue?
    ensures var mem' := Ejecutar(WriteMem(dir, dat), c, mem).mem;
            Ejecutar(ReadMem(r, dir), c, mem') == Sigue(SetRegistry(c, r, GetRegistry(c, dat)), mem')
  {
    hide Acceder, Mmu, DeLe32, Le32, SetRegistry, GetRegistry;
    var v, df := GetRegistry(c, dat), Mmu(c, GetRegistry(c, dir));
    var mem' := Ejecutar(WriteMem(dir, dat), c, mem).mem;
    IdaYVuelta32(v);
    assert mem'[df..df + PALABRA] == Le32(v);
  }

  /** A fault of the mmu does not stop the instruction: the access goes on at (uint32_t)-1. Given any
      memory to miss, an access is lost exactly when the offset faults or the sum wraps to the top. */
  lemma FallaSeEjecutaIgual(c: Contexto, mem: seq<Byte>, dir: Registro, dat: Registro)
    requires TamanioValido(|mem|) && |mem| >= PALABRA
    ensures var d := GetRegistry(c, dir);
            && (d + PALABRA > c.limite ==>
                  Ejecutar(ReadMem(dat, dir), c, mem) == Indefinido == Ejecutar(WriteMem(dir, dat), c, mem))
            && (Ejecutar(ReadMem(dat, dir), c, mem) == Indefinido <==> Mmu(c, d) >= MODULO - PALABRA)
  {
    var df := Mmu(c, GetRegistry(c, dir));
    AccesoSiYSoloSi(df, |mem|);
    hide Acceder, DeLe32, Le32, SetRegistry, GetRegistry;
  }

  /** Such a fault: a process of 50 bytes at address 100 that loads from its offset 200, in any memory. */
  lemma FallaLeeAfuera(mem: seq<Byte>)
    requires TamanioValido(|mem|) && |mem| >= PALABRA
    ensures var c := Contexto(0, 200, 0, 0, 0, 0, 0, 0, 0, 100, 149);
            Mmu(c, 200) == MODULO - 1 && Ejecutar(ReadMem(BX, AX), c, mem) == Indefinido
  {
    FallaSeEjecutaIgual(Contexto(0, 200, 0, 0, 0, 0, 0, 0, 0, 100, 149), mem, AX, BX);
  }

  /** A name that is not a register ends the slice, but the instructions that close with
      check_desalojo overwrite the reason: the kernel is told CONTINUE, not SEGFAULT. Only the two
      memory accesses report the fault. */
  predicate NombraInvalido(i: Instruccion) {
    match i
    case Set(d, _) => d.Otro?
    case Sum(d, o) => d.Otro? || o.Otro?
    case Sub(d, o) => d.Otro? || o.Otro?
    case Jnz(r, _) => r.Otro?
    case Log(r) => r.Otro?
    case ReadMem(dat, dir) => dat.Otro? || dir.Otro?
    case WriteMem(dir, dat) => dat.Otro? || dir.Otro?
    case _ => false
  }

  lemma InvalidoAvisaSiYSoloSi(i: Instruccion, c: Contexto, mem: seq<Byte>)
    requires NombraInvalido(i) && !Ejecutar(i, c, mem).Indefinido?
    ensures Ejecutar(i, c, mem).Desaloja?
    ensures Ejecutar(i, c, mem).motivo == SEGFAULT <==> i.ReadMem? || i.WriteMem?
    ensures Ejecutar(i, c, mem).motivo == CONTINUE <==> !i.ReadMem? && !i.WriteMem?
  {
    hide Acceder, Mmu, DeLe32, Le32;
  }

  /** The kernel hears CONTINUE about a register that does not exist. */
  lemma RegistroInexistente(c: Contexto, mem: seq<Byte>)
    ensures NombraInvalido(Set(Otro("ZX"), 7)) && Ejecutar(Set(Otro("ZX"), 7), c, mem) == Desaloja(c, mem, CONTINUE)
  {
  }

  // ---- One slice ----

  /** How a slice ends, and how many instructions it ran. */
  datatype Corte = Corte(ctx: Contexto, mem: seq<Byte>, motivo: Motivo, pasos: nat) | Perdido

  /** The do-while loop of a dispatched thread. The interrupt arrives while instruction number k of
      the slice runs, if the slice gets that far. */
  function Rafaga(programa: seq<Instruccion>, c: Contexto, mem: seq<Byte>, k: nat): (r: Corte)
    ensures r.Corte? ==> 1 <= r.pasos <= k + 1
    decreases k
  {
    match Ciclo(programa, c, mem)
    case Indefinido => Perdido
    case Desaloja(c', mem', m) => Corte(c', mem', if k == 0 && m == CONTINUE then INTERRUPCION else m, 1)
    case Sigue(c', mem') =>
      if k == 0 then Corte(c', mem', INTERRUPCION, 1)
      else match Rafaga(programa, c', mem', k - 1)
        case Perdido => Perdido
        case Corte(c'', mem'', m, n) => Corte(c'', mem'', m, n + 1)
  }

  /** n instructions of a thread whose registers stay in place between one and the next. */
  function Avanzar(programa: seq<Instruccion>, c: Contexto, mem: seq<Byte>, n: nat): Option<(Contexto, seq<Byte>)>
    decreases n
  {
    if n == 0 then Some((c, mem))
    else
      var e := Ciclo(programa, c, mem);
      if e.Indefinido? then None else Avanzar(programa, e.ctx, e.mem, n - 1)
  }

  lemma {:induction false} RafagaEsAvanzar(programa: seq<Instruccion>, c: Contexto, mem: seq<Byte>, k: nat)
    requires Rafaga(programa, c, mem, k).Corte?
    decreases k
    ensures var r := Rafaga(programa, c, mem, k);
            Avanzar(programa, c, mem, r.pasos) == Some((r.ctx, r.mem))
  {
    hide Ciclo;
    var e := Ciclo(programa, c, mem);
    if e.Sigue? && k > 0 {
      RafagaEsAvanzar(programa, e.ctx, e.mem, k - 1);
    }
  }

  // ---- An invalid instruction in a slice ----

  /** The first n instructions let the slice go on. */
  ghost predicate Siguen(programa: seq<Instruccion>, c: Contexto, mem: seq<Byte>, n: nat)
    decreases n
  {
    n == 0 || (var e := Ciclo(programa, c, mem); e.Sigue? && Siguen(programa, e.ctx, e.mem, n - 1))
  }

  predicate EsAcceso(i: Instruccion) {
    i.ReadMem? || i.WriteMem?
  }

  /** An instruction other than a memory access that names no register leaves everything as it was but the
      program counter, which has moved past it. */
  lemma InvalidaNoHaceNada(i: Instruccion, c: Contexto, mem: seq<Byte>)
    requires NombraInvalido(i) && !EsAcceso(i)
    ensures Ejecutar(i, c, mem) == Desaloja(c, mem, CONTINUE)
  {
  }

  /** What a slice that reaches an invalid instruction, as number n, tells the kernel. A memory access
      reports SEGFAULT. Any other one is reported as INTERRUPCION exactly when the interrupt arrives at that
      very instruction, and then the thread goes on past it as if it had not been there; otherwise as
      CONTINUE. */
  lemma {:induction false} InvalidaEnRafaga(programa: seq<Instruccion>, c: Contexto, mem: seq<Byte>, k: nat, n: nat,
                                            c': Contexto, mem': seq<Byte>)
    requires n <= k && Siguen(programa, c, mem, n) && Avanzar(programa, c, mem, n) == Some((c', mem'))
    requires c'.pc < |programa| && c'.pc < 0x8000_0000 && NombraInvalido(programa[c'.pc])
    requires !Ciclo(programa, c', mem').Indefinido?
    ensures var r := Rafaga(programa, c, mem, k);
            && r.Corte? && r.pasos == n + 1
            && (r.motivo == SEGFAULT <==> EsAcceso(programa[c'.pc]))
            && (r.motivo == INTERRUPCION <==> k == n && !EsAcceso(programa[c'.pc]))
            && (r.motivo == CONTINUE <==> k != n && !EsAcceso(programa[c'.pc]))
            && (!EsAcceso(programa[c'.pc]) ==> r.ctx == c'.(pc := c'.pc + 1) && r.mem == mem')
    decreases n
  {
    if n == 0 {
      hide Ejecutar, NombraInvalido, EsAcceso;
      var i := programa[c.pc];
      InvalidoAvisaSiYSoloSi(i, c.(pc := (c.pc + 1) % MODULO), mem);
      if !EsAcceso(i) {
        InvalidaNoHaceNada(i, c.(pc := (c.pc + 1) % MODULO), mem);
      }
    } else {
      hide Ciclo;
      var e := Ciclo(programa, c, mem);
      InvalidaEnRafaga(programa, e.ctx, e.mem, k - 1, n - 1, c', mem');
    }
  }

  /** SET on a register that does not exist, with the interrupt at that instruction and without it. */
  lemma InvalidaSinAviso(c: Contexto, mem: seq<Byte>)
    requires c.pc == 0
    ensures var programa := [Set(Otro("ZX"), 7), Log(AX)];
            && Rafaga(programa, c, mem, 0) == Corte(c.(pc := 1), mem, INTERRUPCION, 1)
            && Rafaga(programa, c, mem, 1) == Corte(c.(pc := 1), mem, CONTINUE, 1)
            && Ciclo(programa, c.(pc := 1), mem) == Sigue(c.(pc := 2), mem)
  {
    var programa := [Set(Otro("ZX"), 7), Log(AX)];
    assert programa[0] == Set(Otro("ZX"), 7) && programa[1] == Log(AX);
  }
}
