/** A memory dump from end to end: the memory copies the bytes of a process into a request, the store
    records them under a name, and its answer goes back to the kernel.
    Sources: memoria/src/operaciones_kernel.c (memory_dump) and filesystem/src/filesystemServer.c. */
module Volcado {
  import opened Bytes
  import opened Opcion
  import opened Paquete
  import opened Memoria
  import opened AtencionCpu
  import opened ArchivoDump
  import D = Dump
  import P = Particiones
  import R = Procesos

  const CODIGO_MEMORY_DUMP: Byte := 14

  // ---- Names of dump files ----

  /** The decimal digits of a number. */
  function Decimal(n: nat): (s: string)
    ensures s != [] && forall i :: 0 <= i < |s| ==> '0' <= s[i] <= '9'
  {
    if n < 10 then [Digito(n)] else Decimal(n / 10) + [Digito(n % 10)]
  }

  function Digito(d: nat): (c: char)
    requires d < 10
    ensures '0' <= c <= '9' && c as int - '0' as int == d
  {
    (('0' as int) + d) as char
  }

  ghost function DeDecimal(s: string): int {
    if s == [] then 0 else 10 * DeDecimal(s[..|s| - 1]) + (s[|s| - 1] as int - '0' as int)
  }

  lemma {:induction false} DecimalIdaYVuelta(n: nat)
    ensures DeDecimal(Decimal(n)) == n
  {
    if n < 10 {
      assert Decimal(n)[..0] == [];
    } else {
      DecimalIdaYVuelta(n / 10);
      assert Decimal(n)[..|Decimal(n)| - 1] == Decimal(n / 10);
    }
  }

  /** The name memory_dump gives to the file. */
  function NombreDump(pid: nat, tid: nat, hora: string): string {
    Decimal(pid) + "-" + (Decimal(tid) + "-" + (hora + ".dmp"))
  }

  /** What stands before the first dash determines the rest. */
  lemma SeparadoUnico(a: string, x: string, b: string, y: string)
    requires a + "-" + x == b + "-" + y && '-' !in a && '-' !in b
    ensures a == b && x == y
  {
    var s := a + "-" + x;
    assert s[|a|] == '-' && s[|b|] == '-';
    assert forall i :: 0 <= i < |a| ==> s[i] == a[i] && a[i] in a;
    assert forall i :: 0 <= i < |b| ==> s[i] == b[i] && b[i] in b;
    assert a == s[..|a|] && x == s[|a| + 1..] && b == s[..|b|] && y == s[|b| + 1..];
  }

  lemma SinGuion(n: nat)
    ensures '-' !in Decimal(n)
  {
  }

  /** Dumps of different threads, or at different times, have different names. */
  lemma NombreInyectivo(pid: nat, tid: nat, hora: string, pid': nat, tid': nat, hora': string)
    requires NombreDump(pid, tid, hora) == NombreDump(pid', tid', hora')
    ensures pid == pid' && tid == tid' && hora == hora'
  {
    hide Decimal;
    SinGuion(pid);
    SinGuion(pid');
    SinGuion(tid);
    SinGuion(tid');
    SeparadoUnico(Decimal(pid), Decimal(tid) + "-" + (hora + ".dmp"), Decimal(pid'),
                  Decimal(tid') + "-" + (hora' + ".dmp"));
    SeparadoUnico(Decimal(tid), hora + ".dmp", Decimal(tid'), hora' + ".dmp");
    DecimalIdaYVuelta(pid);
    DecimalIdaYVuelta(pid');
    DecimalIdaYVuelta(tid);
    DecimalIdaYVuelta(tid');
    assert hora == (hora + ".dmp")[..|hora + ".dmp"| - 4] && hora' == (hora' + ".dmp")[..|hora' + ".dmp"| - 4];
  }

  /** What stands before the first dash, and after it. */
  ghost function Antes(s: string): string {
    if s == [] || s[0] == '-' then [] else [s[0]] + Antes(s[1..])
  }

  ghost function Despues(s: string): string {
    if s == [] then [] else if s[0] == '-' then s[1..] else Despues(s[1..])
  }

  lemma {:induction false} PartidoEnElGuion(a: string, x: string)
    requires '-' !in a
    ensures Antes(a + "-" + x) == a && Despues(a + "-" + x) == x
  {
    var s := a + "-" + x;
    if a == [] {
      assert s[1..] == x;
    } else {
      assert s[1..] == a[1..] + "-" + x && s[0] == a[0] && a[0] in a;
      PartidoEnElGuion(a[1..], x);
      assert a == [a[0]] + a[1..];
    }
  }

  /** The name reads as the pid, the tid and the time, in that order. */
  lemma NombreSeLee(pid: nat, tid: nat, hora: string)
    ensures var n := NombreDump(pid, tid, hora);
            && DeDecimal(Antes(n)) == pid && DeDecimal(Antes(Despues(n))) == tid
            && Despues(Despues(n)) == hora + ".dmp"
  {
    hide Decimal, DeDecimal, Antes, Despues;
    SinGuion(pid);
    SinGuion(tid);
    var cola := Decimal(tid) + "-" + (hora + ".dmp");
    assert NombreDump(pid, tid, hora) == Decimal(pid) + "-" + cola;
    PartidoEnElGuion(Decimal(pid), cola);
    PartidoEnElGuion(Decimal(tid), hora + ".dmp");
    DecimalIdaYVuelta(pid);
    DecimalIdaYVuelta(tid);
  }

  // ---- Strings on the wire ----

  /** Characters a C string can hold in one byte each. */
  predicate Simple(s: string) {
    forall i :: 0 <= i < |s| ==> 0 < s[i] as int < 0x80
  }

  function ABytes(s: string): (b: seq<Byte>)
    requires Simple(s)
    ensures |b| == |s| && forall i :: 0 <= i < |s| ==> b[i] == s[i] as int
  {
    seq(|s|, i requires 0 <= i < |s| => s[i] as int)
  }

  /** The C string a buffer begins with. */
  function DeBytes(b: seq<Byte>): (s: string)
    ensures |s| <= |b|
  {
    if b == [] || b[0] == 0 then [] else [b[0] as char] + DeBytes(b[1..])
  }

  lemma {:induction false} CadenaIdaYVuelta(s: string)
    requires Simple(s)
    ensures DeBytes(ABytes(s) + [0]) == s
  {
    if s == [] {
    } else {
      var b := ABytes(s) + [0];
      assert b[1..] == ABytes(s[1..]) + [0];
      CadenaIdaYVuelta(s[1..]);
      assert s == [s[0]] + s[1..];
    }
  }

  lemma {:induction false} DecimalSimple(n: nat)
    ensures Simple(Decimal(n)) && |Decimal(n)| <= n / 10 + 1
  {
    if n < 10 {
    } else {
      DecimalSimple(n / 10);
    }
  }

  // ---- The two ends of a dump ----

  /** The three items of a request. */
  ghost function ItemsDump(nombre: string, contenido: seq<Byte>): seq<Dato>
    requires Simple(nombre) && |contenido| < 0x1_0000_0000
  {
    [Le32(|contenido|), ABytes(nombre) + [0], contenido]
  }

  /** atender_memory_dump: what the request says goes to the store. `relleno` is whatever lies behind the
      content in the memory of the server. */
  method AtenderMemoryDump(paquete: Package, fs: FileSystem, relleno: D.Relleno, ghost nombre: string,
                           ghost contenido: seq<Byte>)
    returns (r: D.Respuesta, codigo: Byte)
    requires Simple(nombre) && |contenido| < 0x1_0000_0000 && Trae(paquete, ItemsDump(nombre, contenido)) && fs.Valid()
    requires fs.bloques != paquete.buffer.stream
    modifies paquete.buffer, paquete.buffer.stream, fs, fs.bitmap, fs.bloques
    ensures fs.Valid() && D.Paso(old(fs.Vista()), D.Pedido(nombre, contenido, relleno), r, fs.Vista())
    ensures r != D.DESBORDADO ==> (codigo == CODIGO_SUCCESS <==> r == D.ACEPTADO)
  {
    hide Codificar, Decodificar, Enviable, Le32, DeLe32, ABytes, DeBytes, D.Paso;
    ghost var antes := fs.Vista();
    DecodificarCodificar(ItemsDump(nombre, contenido));
    var datos := paquete.Deserealizar();
    IdaYVuelta32(|contenido|);
    CadenaIdaYVuelta(nombre);
    var tamanioArchivo := DeLe32(datos[0]);
    var nombreArchivo := DeBytes(datos[1]);
    assert fs.Vista() == antes;
    r := fs.CrearArchivoDump(nombreArchivo, tamanioArchivo, datos[2] + relleno);
    assert (contenido + relleno)[..|contenido|] == contenido && (contenido + relleno)[|contenido|..] == relleno;
    codigo := if r == D.RECHAZADO then CODIGO_MEMORY_DUMP else CODIGO_SUCCESS;
  }

  /** The request memory_dump sends: size, name and the bytes of the process. */
  method ArmarDump(nombre: string, dump: seq<Byte>) returns (paquete: Package)
    requires Simple(nombre) && |dump| < 0x1_0000_0000 && |nombre| < 0xFFFF_FFFF
    ensures fresh(paquete) && fresh(paquete.buffer) && fresh(paquete.buffer.stream)
    ensures Trae(paquete, ItemsDump(nombre, dump))
  {
    hide Codificar, Enviable, Le32, ABytes;
    CodificarVacio();
    var b := new Buffer.Vacio();
    paquete := new Package(CODIGO_MEMORY_DUMP, b);
    ghost var items := AgregarPalabra(paquete, |dump|, []);
    paquete.Agregar(ABytes(nombre) + [0], items);
    items := items + [ABytes(nombre) + [0]];
    paquete.Agregar(dump, items);
    assert items + [dump] == ItemsDump(nombre, dump);
  }

  lemma NombreSimple(pid: nat, tid: nat, hora: string)
    requires Simple(hora)
    ensures Simple(NombreDump(pid, tid, hora)) && |NombreDump(pid, tid, hora)| <= pid / 10 + tid / 10 + |hora| + 8
  {
    hide Decimal;
    DecimalSimple(pid);
    DecimalSimple(tid);
  }

  /** The bytes of the process lie inside a memory of that size. */
  ghost predicate EnMemoria(x: R.Entrada, tam: int) {
    0 <= x.base <= x.limite < tam < 0x8000_0000
  }

  ghost function BytesDe(x: R.Entrada, mem: seq<Byte>): (b: seq<Byte>)
    requires EnMemoria(x, |mem|)
    ensures |b| < 0x8000_0000
  {
    mem[x.base..x.limite + 1]
  }

  lemma ValidaEsForma(fs: FileSystem)
    requires fs.Valid()
    ensures D.Forma(fs.Vista())
  {
  }

  lemma PartesDeVista(fs: FileSystem)
    ensures fs.Vista().blockSize == fs.blockSize && fs.Vista().bitmap == fs.bitmap[..]
  {
  }

  lemma LargoDelDump(x: R.Entrada, mem: seq<Byte>)
    requires EnMemoria(x, |mem|)
    ensures |BytesDe(x, mem)| == x.limite - x.base + 1
  {
  }

  /** The bytes of the process of a thread. */
  method CopiarProceso(mem: AtencionCpu, pid: nat, tid: nat) returns (dump: seq<Byte>)
    requires R.Buscar(Entradas(mem.tablas.tablaPCBs), pid, tid).Some?
    requires EnMemoria(R.Buscar(Entradas(mem.tablas.tablaPCBs), pid, tid).value, mem.memoria.Length)
    ensures dump == BytesDe(R.Buscar(Entradas(mem.tablas.tablaPCBs), pid, tid).value, mem.memoria[..])
  {
    hide R.Buscar;
    var pcb, donde := mem.tablas.BuscarPcbTid(pid, tid);
    var tamProceso := pcb.limite - pcb.base + 1;
    dump := mem.memoria[pcb.base..pcb.base + tamProceso];
  }

  /** memory_dump, with the store at the other end: the bytes base..limite of the process of the thread are
      recorded under a name of their own, or nothing changes. Neither the memory nor its tables do. */
  method MemoryDump(mem: AtencionCpu, fs: FileSystem, pid: nat, tid: nat, hora: string, relleno: D.Relleno)
    returns (r: D.Respuesta, codigo: Byte)
    requires pid < 0x8000_0000 && tid < 0x8000_0000 && Simple(hora) && |hora| < 0x1000 && fs.Valid()
    requires R.Buscar(Entradas(mem.tablas.tablaPCBs), pid, tid).Some?
    requires EnMemoria(R.Buscar(Entradas(mem.tablas.tablaPCBs), pid, tid).value, mem.memoria.Length)
    requires fs.bloques != mem.memoria
    modifies fs, fs.bitmap, fs.bloques
    ensures fs.Valid() && mem.memoria[..] == old(mem.memoria[..])
    ensures var dump := BytesDe(R.Buscar(Entradas(mem.tablas.tablaPCBs), pid, tid).value, mem.memoria[..]);
            && D.Paso(old(fs.Vista()), D.Pedido(NombreDump(pid, tid, hora), dump, relleno), r, fs.Vista())
            && (D.Inv(old(fs.Vista())) && r == D.ACEPTADO ==>
                  D.Registra(old(fs.Vista()), NombreDump(pid, tid, hora), dump, fs.Vista()))
    ensures r == D.RECHAZADO ==> fs.Vista() == old(fs.Vista())
    ensures r != D.DESBORDADO ==> (codigo == CODIGO_SUCCESS <==> r == D.ACEPTADO)
    ensures var x, libres := R.Buscar(Entradas(mem.tablas.tablaPCBs), pid, tid).value, D.Libres(old(fs.bitmap[..]));
            var n := x.limite - x.base + 1;
            && (r == D.RECHAZADO <==> n > (fs.blockSize / 4) * fs.blockSize || n > libres * fs.blockSize)
            && (r == D.DESBORDADO <==> r != D.RECHAZADO && n > (libres - 1) * fs.blockSize)
  {
    hide *;
    ghost var antes, s := fs.Vista(), Entradas(mem.tablas.tablaPCBs);
    PartesDeVista(fs);
    NombreSimple(pid, tid, hora);
    var nombre := NombreDump(pid, tid, hora);
    var dump := CopiarProceso(mem, pid, tid);
    ValidaEsForma(fs);
    var request := ArmarDump(nombre, dump);
    r, codigo := AtenderMemoryDump(request, fs, relleno, nombre, dump);
    D.PasoRegistra(antes, D.Pedido(nombre, dump, relleno), r, fs.Vista());
    D.RespuestaEnBytes(antes, D.Pedido(nombre, dump, relleno), r, fs.Vista());
    LargoDelDump(R.Buscar(s, pid, tid).value, mem.memoria[..]);
  }

  // ---- Whose bytes a dump holds ----

  /** In every reachable state the bytes of a live process lie among those the partitions cover, which under
      DINAMICAS is the memory, and no other live process has one of them: a dump holds its own process and
      nobody else's. */
  lemma VolcadoPropio(ms: seq<R.Mem>, ops: seq<R.Op>, rs: seq<P.OpCode>, k: nat, x: R.Entrada, y: R.Entrada, a: int)
    requires R.Corrida(ms, ops, rs) && k <= |ops| && x in ms[k].pcbs && y in ms[k].pcbs
    ensures 0 <= x.base <= x.limite < ms[0].alcance && (ms[0].e == P.DINAMICAS ==> ms[0].alcance == ms[0].tam)
    ensures x.base <= a <= x.limite && y.base <= a <= y.limite ==> x.pid == y.pid
  {
    R.TodaCorrida(ms, ops, rs, k);
    R.CorridaLargo(ms, ops, rs);
    hide R.Corrida, R.Distintas;
    var i := R.AsientoEn(ms[k].tabla, x.base, x.limite);
    P.DentroDelRango(ms[k].tabla, 0, ms[k].alcance - 1, i);
    if x.pid != y.pid {
      R.RangosDisjuntos(ms[k], x, y, a);
    }
  }
}
