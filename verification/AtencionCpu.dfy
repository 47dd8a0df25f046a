/** The requests of the processor as the memory answers them: the context kept in a PCB and the bytes
    of the user space.
    Source: memoria/src/operaciones_cpu.c. */
module AtencionCpu {
  import opened Bytes
  import opened Opcion
  import opened Cpu
  import opened Conmutacion
  import opened Paquete
  import R = Procesos
  import opened Memoria

  // Operation codes, by their position in op_code. A rejected access answers with SEGFAULT, which
  // as a number is also FIN_HILO.
  const CODIGO_SUCCESS: Byte := 0
  const CODIGO_PCONTEXTO: Byte := 5
  const CODIGO_INFO: Byte := 9
  const CODIGO_SEGFAULT: Byte := 13
  const CODIGO_OBTENER_CONTEXTO: Byte := 15
  const CODIGO_ACTUALIZAR_CONTEXTO: Byte := 16
  const CODIGO_READ_MEM: Byte := 18
  const CODIGO_WRITE_MEM: Byte := 19
  const CODIGO_PID_NOT_FOUND: Byte := 25

  /** A word read as an int. */
  function Entero(n: Uint32): int {
    if n < 0x8000_0000 then n else n - MODULO
  }

  /** An int stored as a word. */
  function DeEntero(n: int): Uint32 {
    n % MODULO
  }

  /** The context a PCB keeps. */
  ghost function ContextoDe(p: PcbMemoria): Contexto
    reads p
  {
    Contexto(p.PC, p.AX, p.BX, p.CX, p.DX, p.EX, p.FX, p.GX, p.HX, DeEntero(p.base), DeEntero(p.limite))
  }

  ghost predicate Trae(p: Package, items: seq<Dato>)
    reads p, p.buffer, p.buffer.stream
  {
    p.Valid() && Enviable(items) && p.buffer.Contenido() == Codificar(items)
  }

  class AtencionCpu {
    const tablas: Memoria
    const memoria: array<Byte>

    constructor (tablas: Memoria, memoria: array<Byte>)
      ensures this.tablas == tablas && this.memoria == memoria
    {
      this.tablas, this.memoria := tablas, memoria;
    }

    /** The reply carries the context of the PCB, item by item. */
    method ObtenerContexto(paquete: Package, ghost pid: Uint32, ghost tid: Uint32) returns (respuesta: Package)
      requires Trae(paquete, [Le32(pid), Le32(tid)])
      modifies paquete.buffer, paquete.buffer.stream
      ensures fresh(respuesta) && fresh(respuesta.buffer) && fresh(respuesta.buffer.stream)
      ensures match Buscado(tablas.tablaPCBs, pid, tid)
              case None => respuesta.codigoOperacion == CODIGO_PID_NOT_FOUND && Trae(respuesta, [])
              case Some(p) =>
                respuesta.codigoOperacion == CODIGO_PCONTEXTO && Trae(respuesta, ItemsContexto(ContextoDe(p)))
    {
      hide Codificar, Le32, DeLe32, Enviable, R.Buscar;
      DecodificarCodificar([Le32(pid), Le32(tid)]);
      CodificarVacio();
      var lista := paquete.Deserealizar();
      IdaYVuelta32(pid);
      IdaYVuelta32(tid);
      var pcb, donde := tablas.BuscarPcbTid(Entero(DeLe32(lista[0])), Entero(DeLe32(lista[1])));
      EsBuscado(tablas.tablaPCBs, pid, tid, if pcb == null then |tablas.tablaPCBs| else donde);
      var b := new Buffer.Vacio();
      if pcb == null {
        respuesta := new Package(CODIGO_PID_NOT_FOUND, b);
        return;
      }
      respuesta := new Package(CODIGO_PCONTEXTO, b);
      ResponderContexto(pcb, respuesta);
    }

    /** Fills the reply with the fields of the PCB. */
    method ResponderContexto(pcb: PcbMemoria, respuesta: Package)
      requires Trae(respuesta, [])
      modifies respuesta.buffer
      ensures fresh(respuesta.buffer.stream) && Trae(respuesta, ItemsContexto(ContextoDe(pcb)))
    {
      hide Codificar, Enviable, Le32, Trae, DeEntero, ItemsContexto;
      ghost var c := ContextoDe(pcb);
      ghost var items := [];
      items := AgregarPalabra(respuesta, DeEntero(pcb.base), items);
      items := AgregarPalabra(respuesta, DeEntero(pcb.limite), items);
      items := AgregarPalabra(respuesta, pcb.AX, items);
      items := AgregarPalabra(respuesta, pcb.BX, items);
      items := AgregarPalabra(respuesta, pcb.CX, items);
      items := AgregarPalabra(respuesta, pcb.DX, items);
      items := AgregarPalabra(respuesta, pcb.EX, items);
      items := AgregarPalabra(respuesta, pcb.FX, items);
      items := AgregarPalabra(respuesta, pcb.GX, items);
      items := AgregarPalabra(respuesta, pcb.HX, items);
      items := AgregarPalabra(respuesta, pcb.PC, items);
      EnOrden(c, items);
    }

    /** Stores the context of the request in the PCB, item by item, and leaves the other PCBs alone. */
    method ActualizarContexto(paquete: Package, ghost pid: Uint32, ghost tid: Uint32, ghost c: Contexto)
      returns (respuesta: Package)
      requires Trae(paquete, ItemsActualizacion(pid, tid, c))
      modifies paquete.buffer, paquete.buffer.stream, tablas.tablaPCBs
      ensures fresh(respuesta) && fresh(respuesta.buffer) && fresh(respuesta.buffer.stream) && Trae(respuesta, [])
      ensures match Buscado(tablas.tablaPCBs, pid, tid)
              case None => respuesta.codigoOperacion == CODIGO_PID_NOT_FOUND
              case Some(p) =>
                && respuesta.codigoOperacion == CODIGO_SUCCESS && p in tablas.tablaPCBs
                && ContextoDe(p) == c && p.base == c.base && p.limite == c.limite
      ensures forall q :: q in tablas.tablaPCBs && Buscado(tablas.tablaPCBs, pid, tid) != Some(q) ==> unchanged(q)
    {
      hide Codificar, Decodificar, Le32, DeLe32, Enviable, R.Buscar, Buscado;
      ghost var items := ItemsActualizacion(pid, tid, c);
      DecodificarCodificar(items);
      CodificarVacio();
      var lista := paquete.Deserealizar();
      ItemsLeidos(pid, tid, c);
      var pcb, donde := tablas.BuscarPcbTid(Entero(DeLe32(lista[0])), Entero(DeLe32(lista[1])));
      EsBuscado(tablas.tablaPCBs, pid, tid, if pcb == null then |tablas.tablaPCBs| else donde);
      var b := new Buffer.Vacio();
      if pcb == null {
        respuesta := new Package(CODIGO_PID_NOT_FOUND, b);
        return;
      }
      GuardarEnPcb(pcb, lista);
      respuesta := new Package(CODIGO_SUCCESS, b);
    }

    method GuardarEnPcb(pcb: PcbMemoria, lista: seq<Dato>)
      requires SonPalabras(lista, 13)
      modifies pcb
      ensures ContextoDe(pcb) == LeerActualizacion(lista)
      ensures pcb.base == LeerActualizacion(lista).base && pcb.limite == LeerActualizacion(lista).limite
    {
      hide DeLe32;
      pcb.PC := DeLe32(lista[2]);
      pcb.AX := DeLe32(lista[3]);
      pcb.BX := DeLe32(lista[4]);
      pcb.CX := DeLe32(lista[5]);
      pcb.DX := DeLe32(lista[6]);
      pcb.EX := DeLe32(lista[7]);
      pcb.FX := DeLe32(lista[8]);
      pcb.GX := DeLe32(lista[9]);
      pcb.HX := DeLe32(lista[10]);
      pcb.base := DeLe32(lista[11]);
      pcb.limite := DeLe32(lista[12]);
    }

    /** The line a program counter selects, or which of the two errors the reply names. Reading the counter
        as a negative int has no defined answer. */
    method ObtenerInstruccion(pid: Uint32, tid: Uint32, pc: Uint32) returns (r: RespuestaLinea)
      requires Entero(pc) >= 0
      ensures r == LineaDe(tablas.tablaPCBs, pid, tid, pc)
    {
      var pcb, donde := tablas.BuscarPcbTid(Entero(pid), Entero(tid));
      EsBuscado(tablas.tablaPCBs, pid, tid, if pcb == null then |tablas.tablaPCBs| else donde);
      if pcb == null {
        return PidNotFound;
      }
      if Entero(pc) >= |pcb.instrucciones| {
        return InstruccionNotFound;
      }
      return Linea(pcb.instrucciones[pc]);
    }

    method ReadMem(paquete: Package, ghost pid: Uint32, ghost tid: Uint32,
                   ghost df: Uint32) returns (respuesta: Package)
      requires Trae(paquete, [Le32(pid), Le32(tid), Le32(df)]) && paquete.buffer.stream != memoria
      requires TamanioValido(memoria.Length) && Acceder(df, memoria.Length) != FueraDeMemoria
      modifies paquete.buffer, paquete.buffer.stream
      ensures fresh(respuesta) && fresh(respuesta.buffer) && fresh(respuesta.buffer.stream)
      ensures if Acceder(df, memoria.Length) == Valido
              then df + PALABRA <= memoria.Length && respuesta.codigoOperacion == CODIGO_INFO
              && Trae(respuesta, [memoria[df..df + PALABRA]])
              else respuesta.codigoOperacion == CODIGO_SEGFAULT && Trae(respuesta, [])
    {
      hide Codificar, Decodificar, Le32, DeLe32, Enviable;
      DecodificarCodificar([Le32(pid), Le32(tid), Le32(df)]);
      CodificarVacio();
      AccesoSiYSoloSi(df, memoria.Length);
      IdaYVuelta32(df);
      var lista := paquete.Deserealizar();
      var dir := Entero(DeLe32(lista[2]));
      var b := new Buffer.Vacio();
      if (dir + PALABRA) % 0x1_0000_0000_0000_0000 >= memoria.Length {
        respuesta := new Package(CODIGO_SEGFAULT, b);
        return;
      }
      respuesta := new Package(CODIGO_INFO, b);
      respuesta.Agregar(memoria[dir..dir + PALABRA], []);
      assert [] + [memoria[dir..dir + PALABRA]] == [memoria[df..df + PALABRA]];
    }

    method WriteMem(paquete: Package, ghost pid: Uint32, ghost tid: Uint32, ghost df: Uint32, ghost valor: Uint32)
      returns (respuesta: Package)
      requires Trae(paquete, [Le32(pid), Le32(tid), Le32(df), Le32(valor)]) && paquete.buffer.stream != memoria
      requires TamanioValido(memoria.Length) && Acceder(df, memoria.Length) != FueraDeMemoria
      modifies paquete.buffer, paquete.buffer.stream, memoria
      ensures fresh(respuesta) && fresh(respuesta.buffer) && fresh(respuesta.buffer.stream) && Trae(respuesta, [])
      ensures if Acceder(df, memoria.Length) == Valido
              then df + PALABRA <= memoria.Length && respuesta.codigoOperacion == CODIGO_SUCCESS
                && memoria[..] == old(memoria[..df]) + Le32(valor) + old(memoria[df + PALABRA..])
              else respuesta.codigoOperacion == CODIGO_SEGFAULT && memoria[..] == old(memoria[..])
    {
      hide Codificar, Decodificar, Le32, DeLe32, Enviable;
      DecodificarCodificar([Le32(pid), Le32(tid), Le32(df), Le32(valor)]);
      CodificarVacio();
      AccesoSiYSoloSi(df, memoria.Length);
      IdaYVuelta32(df);
      var lista := paquete.Deserealizar();
      var dir := Entero(DeLe32(lista[2]));
      var b := new Buffer.Vacio();
      if (dir + PALABRA) % 0x1_0000_0000_0000_0000 >= memoria.Length {
        respuesta := new Package(CODIGO_SEGFAULT, b);
        return;
      }
      Memcpy(memoria, dir, lista[3]);
      respuesta := new Package(CODIGO_SUCCESS, b);
    }
  }

  /** agregar_a_paquete of one word. */
  method AgregarPalabra(p: Package, n: Uint32, ghost items: seq<Dato>) returns (ghost items': seq<Dato>)
    requires Trae(p, items)
    modifies p.buffer
    ensures fresh(p.buffer.stream) && items' == items + [Le32(n)] && Trae(p, items')
  {
    hide Codificar, Enviable, Le32;
    p.Agregar(Le32(n), items);
    items' := items + [Le32(n)];
  }

  /** The PCB buscar_pcb_tid finds: the first one with that pid and tid. */
  ghost function Buscado(ps: seq<PcbMemoria>, pid: Uint32, tid: Uint32): Option<PcbMemoria> {
    if ps == [] then None
    else if ps[0].pid == Entero(pid) && ps[0].tid == Entero(tid) then Some(ps[0])
    else Buscado(ps[1..], pid, tid)
  }

  /** The replies to OBTENER_INSTRUCCION. */
  datatype RespuestaLinea = Linea(instruccion: Instruccion) | PidNotFound | InstruccionNotFound

  ghost function LineaDe(ps: seq<PcbMemoria>, pid: Uint32, tid: Uint32, pc: Uint32): RespuestaLinea {
    match Buscado(ps, pid, tid)
    case None => PidNotFound
    case Some(p) => if pc < |p.instrucciones| then Linea(p.instrucciones[pc]) else InstruccionNotFound
  }

  /** A thread that was just loaded runs its own program from the first line: at every program counter the
      memory hands out that line of the file, with every register at 0 to begin with, and what it hands out
      to any other thread is as it was. */
  lemma CargadaSeEjecuta(ps: seq<PcbMemoria>, ps': seq<PcbMemoria>, pid: Uint32, tid: Uint32,
                         programa: seq<Instruccion>)
    requires Carga(ps, ps', Entero(pid), Entero(tid), programa) && Buscado(ps, pid, tid) == None
    ensures forall pc: Uint32 :: LineaDe(ps', pid, tid, pc)
                                 == if pc < |programa| then Linea(programa[pc]) else InstruccionNotFound
    ensures Buscado(ps', pid, tid) == Some(ps'[|ps|])
    ensures var c := ContextoDe(ps'[|ps|]);
            c == Contexto(0, 0, 0, 0, 0, 0, 0, 0, 0, c.base, c.limite)
    ensures forall p: Uint32, t: Uint32, pc: Uint32 :: !(p == pid && t == tid) ==>
              LineaDe(ps', p, t, pc) == LineaDe(ps, p, t, pc)
  {
    hide Buscado;
    BuscadoAlFinal(ps, ps', pid, tid);
    forall p: Uint32, t: Uint32, pc: Uint32 | !(p == pid && t == tid)
      ensures LineaDe(ps', p, t, pc) == LineaDe(ps, p, t, pc)
    {
      EnterosDistintos(p, pid);
      EnterosDistintos(t, tid);
      BuscadoAlFinal(ps, ps', p, t);
    }
  }

  lemma EnterosDistintos(a: Uint32, b: Uint32)
    ensures Entero(a) == Entero(b) <==> a == b
  {
  }

  lemma {:induction false} BuscadoAlFinal(ps: seq<PcbMemoria>, ps': seq<PcbMemoria>, pid: Uint32, tid: Uint32)
    requires |ps'| == |ps| + 1 && ps'[..|ps|] == ps
    ensures Buscado(ps', pid, tid)
            == if Buscado(ps, pid, tid).Some? then Buscado(ps, pid, tid)
               else if ps'[|ps|].pid == Entero(pid) && ps'[|ps|].tid == Entero(tid) then Some(ps'[|ps|]) else None
  {
    if ps == [] {
      assert ps'[1..] == [];
    } else {
      assert ps'[0] == ps[0] && ps'[1..][..|ps| - 1] == ps[1..];
      BuscadoAlFinal(ps[1..], ps'[1..], pid, tid);
    }
  }

  lemma {:induction false} EsBuscado(ps: seq<PcbMemoria>, pid: Uint32, tid: Uint32, i: nat)
    requires i <= |ps|
    requires forall j :: 0 <= j < i ==> !(ps[j].pid == Entero(pid) && ps[j].tid == Entero(tid))
    requires i < |ps| ==> ps[i].pid == Entero(pid) && ps[i].tid == Entero(tid)
    ensures Buscado(ps, pid, tid) == if i < |ps| then Some(ps[i]) else None
  {
    if i == 0 {
    } else {
      EsBuscado(ps[1..], pid, tid, i - 1);
    }
  }

  lemma EnOrden(c: Contexto, items: seq<Dato>)
    requires items == [] + [Le32(c.base)] + [Le32(c.limite)] + [Le32(c.ax)] + [Le32(c.bx)] + [Le32(c.cx)] + [Le32(c.dx)]
                      + [Le32(c.ex)] + [Le32(c.fx)] + [Le32(c.gx)] + [Le32(c.hx)] + [Le32(c.pc)]
    ensures items == ItemsContexto(c)
  {
    hide Le32;
  }

  lemma ItemsLeidos(pid: Uint32, tid: Uint32, c: Contexto)
    ensures var items := ItemsActualizacion(pid, tid, c);
            && SonPalabras(items, 13) && LeerActualizacion(items) == c
            && DeLe32(items[0]) == pid && DeLe32(items[1]) == tid
  {
    hide Le32, DeLe32;
    forall n: Uint32
      ensures DeLe32(Le32(n)) == n
    {
      IdaYVuelta32(n);
    }
  }
}
