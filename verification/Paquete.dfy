/** Packets of the wire format: a payload of length-prefixed items inside a frame made of an
    operation code, the payload size and the payload (utils/src/utils). */
module Paquete {
  import opened Bytes
  import opened Listas
  import opened Opcion

  type Dato = seq<Byte>

  ghost predicate Enviable(items: seq<Dato>) {
    forall i :: 0 <= i < |items| ==> |items[i]| < 0x1_0000_0000
  }

  // ---- Payload: the list of items as bytes, and the independent parser ----

  ghost function Codificar(items: seq<Dato>): seq<Byte>
    requires Enviable(items)
  {
    if items == [] then [] else Le32(|items[0]|) + items[0] + Codificar(items[1..])
  }

  /** What a reader finds in a payload; None when a length prefix runs past the end. */
  ghost function Decodificar(b: seq<Byte>): Option<seq<Dato>>
    decreases |b|
  {
    if |b| == 0 then Some([])
    else if |b| < PALABRA then None
    else
      var n := DeLe32(b[..PALABRA]);
      if |b| < PALABRA + n then None
      else match Decodificar(b[PALABRA + n..])
        case None => None
        case Some(resto) => Some([b[PALABRA..PALABRA + n]] + resto)
  }

  lemma {:induction false} DecodificarCodificar(items: seq<Dato>)
    requires Enviable(items)
    ensures Decodificar(Codificar(items)) == Some(items)
  {
    if items == [] {
    } else {
      var resto := Codificar(items[1..]);
      var b := Codificar(items);
      IdaYVuelta32(|items[0]|);
      assert b[..PALABRA] == Le32(|items[0]|);
      assert b[PALABRA..PALABRA + |items[0]|] == items[0];
      assert b[PALABRA + |items[0]|..] == resto;
      DecodificarCodificar(items[1..]);
      assert items == [items[0]] + items[1..];
    }
  }

  lemma CodificarCons(d: Dato, items: seq<Dato>)
    requires |d| < 0x1_0000_0000 && Enviable(items)
    ensures Enviable([d] + items)
    ensures Codificar([d] + items) == Le32(|d|) + d + Codificar(items)
  {
    hide Le32;
    assert ([d] + items)[1..] == items;
  }

  lemma {:induction false} CodificarDecodificar(b: seq<Byte>)
    requires Decodificar(b).Some?
    ensures Enviable(Decodificar(b).value)
    ensures Codificar(Decodificar(b).value) == b
    decreases |b|
  {
    hide Le32, DeLe32, Codificar, Enviable;
    if |b| == 0 {
      assert Enviable([]) && Codificar([]) == [] by {
        CodificarVacio();
      }
    } else {
      var n := DeLe32(b[..PALABRA]);
      var dato, cola := b[PALABRA..PALABRA + n], b[PALABRA + n..];
      CodificarDecodificar(cola);
      CodificarCons(dato, Decodificar(cola).value);
      assert Le32(n) == b[..PALABRA] by {
        VueltaEIda32(b[..PALABRA]);
      }
      assert b == b[..PALABRA] + dato + cola;
    }
  }

  lemma CodificarVacio()
    ensures Enviable([]) && Codificar([]) == []
  {
  }

  /** No two item lists share a payload, and a payload is readable exactly when some list wrote it. */
  lemma CodecBiyectivo(b: seq<Byte>, xs: seq<Dato>, ys: seq<Dato>)
    requires Enviable(xs) && Enviable(ys)
    ensures Codificar(xs) == Codificar(ys) ==> xs == ys
    ensures Decodificar(b).Some? <==> exists zs :: Enviable(zs) && Codificar(zs) == b
  {
    DecodificarCodificar(xs);
    DecodificarCodificar(ys);
    if Decodificar(b).Some? {
      CodificarDecodificar(b);
    }
    if zs :| Enviable(zs) && Codificar(zs) == b {
      DecodificarCodificar(zs);
    }
  }

  /** Appending at the end of the stream, as the writer does, appends the item to the list. */
  lemma {:induction false} CodificarAlFinal(items: seq<Dato>, d: Dato)
    requires Enviable(items) && |d| < 0x1_0000_0000
    ensures Enviable(items + [d])
    ensures Codificar(items + [d]) == Codificar(items) + Le32(|d|) + d
  {
    hide Le32;
    var s := items + [d];
    if items == [] {
      assert s == [d] && s[1..] == [];
    } else {
      CodificarAlFinal(items[1..], d);
      assert s[1..] == items[1..] + [d];
      Asociar(Le32(|items[0]|) + items[0], Codificar(items[1..]), Le32(|d|) + d);
      Asociar(Codificar(items), Le32(|d|), d);
      Asociar(Codificar(items[1..]), Le32(|d|), d);
    }
  }

  lemma DecodificarVacio()
    ensures Decodificar([]) == Some([])
  {
  }

  /** One round of the reading loop: a length, an item of that length, and the rest. */
  lemma DecodificarPaso(b: seq<Byte>)
    requires |b| > 0 && Decodificar(b).Some?
    ensures |b| >= PALABRA && |b| >= PALABRA + DeLe32(b[..PALABRA])
    ensures var fin := PALABRA + DeLe32(b[..PALABRA]);
            && Decodificar(b[fin..]).Some?
            && Decodificar(b).value == [b[PALABRA..fin]] + Decodificar(b[fin..]).value
  {
    hide DeLe32;
  }

  // ---- Buffers and packets, updated in place ----

  class Buffer {
    var size: nat
    var stream: array<Byte>

    ghost predicate Valid()
      reads this
    {
      stream.Length == size
    }

    ghost function Contenido(): seq<Byte>
      reads this, stream
    {
      stream[..]
    }

    constructor Vacio()
      ensures Valid() && fresh(stream) && Contenido() == []
    {
      size := 0;
      stream := new Byte[0];
    }

    method Agregar(src: seq<Byte>)
      requires Valid()
      modifies this
      ensures Valid() && fresh(stream)
      ensures Contenido() == old(Contenido()) + src
    {
      stream := Realloc(stream, size + |src|);
      ghost var antes := stream[..];
      assert antes[..size] == old(Contenido());
      Memcpy(stream, size, src);
      assert stream[..] == antes[..size] + src + antes[size + |src|..];
      assert antes[size + |src|..] == [];
      size := size + |src|;
    }

    method Quitar(n: nat) returns (dest: seq<Byte>)
      requires Valid() && n <= size
      modifies this, stream
      ensures Valid() && fresh(stream)
      ensures dest == old(Contenido())[..n] && Contenido() == old(Contenido())[n..]
    {
      dest := stream[..n];
      size := size - n;
      Memmove(stream, n, size);
      assert stream[..size] == old(Contenido())[n..];
      var corto := Realloc(stream, size);
      assert corto[..] == stream[..size];
      stream := corto;
    }
  }

  class Package {
    const codigoOperacion: Byte
    const buffer: Buffer

    ghost predicate Valid()
      reads this, buffer
    {
      buffer.Valid()
    }

    constructor (codigo: Byte, b: Buffer)
      ensures codigoOperacion == codigo && buffer == b
    {
      codigoOperacion := codigo;
      buffer := b;
    }

    /** A packet holding `items` holds `items + [dato]` afterwards. */
    method Agregar(dato: Dato, ghost items: seq<Dato>)
      requires Valid() && |dato| < 0x1_0000_0000
      requires Enviable(items) && buffer.Contenido() == Codificar(items)
      modifies buffer
      ensures Valid() && fresh(buffer.stream)
      ensures Enviable(items + [dato]) && buffer.Contenido() == Codificar(items + [dato])
    {
      buffer.Agregar(Le32(|dato|));
      buffer.Agregar(dato);
      CodificarAlFinal(items, dato);
    }

    /** Drains the buffer; the items come out in the order they were added. */
    method Deserealizar() returns (lista: seq<Dato>)
      requires Valid() && Decodificar(buffer.Contenido()).Some?
      modifies buffer, buffer.stream
      ensures Valid() && buffer.Contenido() == []
      ensures Some(lista) == Decodificar(old(buffer.Contenido()))
    {
      hide DeLe32, Decodificar;
      lista := [];
      DecodificarVacio();
      while buffer.size > 0
        invariant buffer.Valid()
        invariant buffer.stream == old(buffer.stream) || fresh(buffer.stream)
        invariant Decodificar(buffer.Contenido()).Some? && Decodificar(old(buffer.Contenido())).Some?
        invariant Decodificar(old(buffer.Contenido())).value == lista + Decodificar(buffer.Contenido()).value
        decreases buffer.size
      {
        ghost var b := buffer.Contenido();
        DecodificarPaso(b);
        var prefijo := buffer.Quitar(PALABRA);
        var tamanio := DeLe32(prefijo);
        var dato := buffer.Quitar(tamanio);
        assert b[PALABRA..][..tamanio] == b[PALABRA..PALABRA + tamanio];
        assert buffer.Contenido() == b[PALABRA + tamanio..];
        Asociar(lista, [dato], Decodificar(buffer.Contenido()).value);
        lista := lista + [dato];
      }
      assert buffer.Contenido() == [] && lista + [] == lista;
    }
  }

  // ---- Framing over a reliable byte stream ----

  datatype Trama = Trama(codigo: Byte, carga: seq<Byte>)

  ghost function Enmarcar(t: Trama): seq<Byte>
    requires |t.carga| < 0x1_0000_0000
  {
    [t.codigo] + Le32(|t.carga|) + t.carga
  }

  /** The value of the four bytes from i on, the least significant one first. */
  ghost function NumeroEn(b: seq<Byte>, i: nat): int
    requires i + 4 <= |b|
  {
    (b[i] as int) + 0x100 * (b[i + 1] as int) + 0x1_0000 * (b[i + 2] as int) + 0x100_0000 * (b[i + 3] as int)
  }

  lemma NumeroDe(b: seq<Byte>, i: nat, n: Uint32)
    requires i + 4 <= |b| && b[i..i + 4] == Le32(n)
    ensures NumeroEn(b, i) == n
  {
    assert forall k :: 0 <= k < 4 ==> b[i + k] == Le32(n)[k] by {
      forall k | 0 <= k < 4
        ensures b[i + k] == Le32(n)[k]
      {
        assert b[i + k] == b[i..i + 4][k];
      }
    }
    assert DeLe32(Le32(n)) == NumeroEn(b, i);
    IdaYVuelta32(n);
  }

  /** On the wire, byte by byte: the code, the size of the payload in four bytes, and the payload. */
  lemma BytesDeLaTrama(t: Trama)
    requires |t.carga| < 0x1_0000_0000
    ensures var b := Enmarcar(t);
            |b| == 5 + |t.carga| && b[0] == t.codigo && NumeroEn(b, 1) == |t.carga| && b[5..] == t.carga
  {
    var b := Enmarcar(t);
    assert b[1..5] == Le32(|t.carga|);
    hide Le32;
    NumeroDe(b, 1, |t.carga|);
  }

  /** In a payload, byte by byte: the size of each item in four bytes, the item, and the items after it. */
  lemma BytesDeLaCarga(items: seq<Dato>)
    requires Enviable(items) && items != []
    ensures var b, n := Codificar(items), |items[0]|;
            && |b| >= 4 + n && NumeroEn(b, 0) == n && b[4..4 + n] == items[0]
            && Enviable(items[1..]) && b[4 + n..] == Codificar(items[1..])
  {
    var b := Codificar(items);
    assert b[0..4] == Le32(|items[0]|);
    hide Le32;
    NumeroDe(b, 0, |items[0]|);
  }

  ghost predicate Enmarcables(ts: seq<Trama>) {
    forall i :: 0 <= i < |ts| ==> |ts[i].carga| < 0x1_0000_0000
  }

  ghost function EnmarcarTodas(ts: seq<Trama>): seq<Byte>
    requires Enmarcables(ts)
  {
    if ts == [] then [] else Enmarcar(ts[0]) + EnmarcarTodas(ts[1..])
  }

  /** First frame of a stream and what follows it; None when the stream holds no whole frame. */
  ghost function Desenmarcar(b: seq<Byte>): Option<(Trama, seq<Byte>)> {
    if |b| < 1 + PALABRA then None
    else
      var n := DeLe32(b[1..1 + PALABRA]);
      if |b| < 1 + PALABRA + n then None
      else Some((Trama(b[0], b[1 + PALABRA..1 + PALABRA + n]), b[1 + PALABRA + n..]))
  }

  lemma DesenmarcarEnmarcar(t: Trama, cola: seq<Byte>)
    requires |t.carga| < 0x1_0000_0000
    ensures Desenmarcar(Enmarcar(t) + cola) == Some((t, cola))
  {
    var b := Enmarcar(t) + cola;
    IdaYVuelta32(|t.carga|);
    assert b[1..1 + PALABRA] == Le32(|t.carga|);
    assert b[1 + PALABRA..1 + PALABRA + |t.carga|] == t.carga;
    assert b[1 + PALABRA + |t.carga|..] == cola;
  }

  ghost function Leer(b: seq<Byte>): (seq<Trama>, seq<Byte>)
    decreases |b|
  {
    match Desenmarcar(b)
    case None => ([], b)
    case Some((t, cola)) => var (ts, resto) := Leer(cola); ([t] + ts, resto)
  }

  /** Frames sent one after another are read back one by one, with no residue. */
  lemma {:induction false} LeerEnmarcadas(ts: seq<Trama>)
    requires Enmarcables(ts)
    ensures Leer(EnmarcarTodas(ts)) == (ts, [])
  {
    if ts == [] {
    } else {
      DesenmarcarEnmarcar(ts[0], EnmarcarTodas(ts[1..]));
      LeerEnmarcadas(ts[1..]);
      assert ts == [ts[0]] + ts[1..];
    }
  }

  /** A connected socket: bytes sent and not yet received. */
  class Flujo {
    var bytes: seq<Byte>

    constructor ()
      ensures bytes == []
    {
      bytes := [];
    }

    method Recv(n: nat) returns (b: seq<Byte>)
      requires n <= |bytes|
      modifies this
      ensures b == old(bytes)[..n] && bytes == old(bytes)[n..]
    {
      b := bytes[..n];
      bytes := bytes[n..];
    }

    method EnviarPaquete(p: Package)
      requires p.Valid() && p.buffer.size < 0x1_0000_0000
      modifies this
      ensures bytes == old(bytes) + Enmarcar(Trama(p.codigoOperacion, p.buffer.Contenido()))
    {
      var aEnviar := new Byte[p.buffer.size + PALABRA + 1];
      var offset := 0;
      aEnviar[offset] := p.codigoOperacion;
      offset := offset + 1;
      Memcpy(aEnviar, offset, Le32(p.buffer.size));
      offset := offset + PALABRA;
      Memcpy(aEnviar, offset, p.buffer.stream[..]);
      assert aEnviar[..] == Enmarcar(Trama(p.codigoOperacion, p.buffer.Contenido()));
      bytes := bytes + aEnviar[..];
    }

    method RecibirPaquete() returns (p: Package)
      requires Desenmarcar(bytes).Some?
      modifies this
      ensures fresh(p) && fresh(p.buffer) && fresh(p.buffer.stream) && p.Valid()
      ensures Some((Trama(p.codigoOperacion, p.buffer.Contenido()), bytes)) == Desenmarcar(old(bytes))
    {
      ghost var b := bytes;
      var codigo := Recv(1);
      var tam := Recv(PALABRA);
      assert tam == b[1..1 + PALABRA];
      var n := DeLe32(tam);
      var buffer := new Buffer.Vacio();
      if n > 0 {
        var carga := Recv(n);
        assert carga == b[1 + PALABRA..1 + PALABRA + n];
        buffer.Agregar(carga);
        assert buffer.Contenido() == carga;
      } else {
        assert b[1 + PALABRA..1 + PALABRA + n] == [];
      }
      assert bytes == b[1 + PALABRA + n..];
      p := new Package(codigo[0], buffer);
    }
  }
}
