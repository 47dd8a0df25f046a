/** The dump store as a value: a bitmap, a flat space of blocks and the recorded metadata, seen as
    a map from file names to bytes.
    Source: filesystem/src/archivo_dump.c. */
module Dump {
  import opened Bytes
  import opened Listas

  /** What crear_archivo_metadata records for a file. */
  datatype Meta = Meta(size: Uint32, indexBlock: nat)

  datatype Fs = Fs(blockSize: nat, blockCount: nat, bitmap: seq<bool>, bloques: seq<Byte>, archivos: map<string, Meta>)

  /** A request to dump `datos`. `relleno` is whatever follows the content in memory: copying whole
      words reads up to three bytes of it. */
  datatype Pedido = Pedido(nombre: string, datos: Datos, relleno: Relleno) {
    ghost function Size(): Uint32 { |datos| }

    ghost function Contenido(): (c: seq<Byte>)
      ensures |c| >= Size() + 3 && c[..Size()] == datos
    {
      datos + relleno
    }
  }

  type Datos = s: seq<Byte> | |s| < 0x1_0000_0000
  type Relleno = s: seq<Byte> | |s| >= 3 witness [0, 0, 0]

  datatype Respuesta = ACEPTADO | RECHAZADO | DESBORDADO

  // ---- Addresses ----

  /** First byte of block i. */
  ghost function Base(i: nat, bs: nat): nat {
    i * bs
  }

  lemma Monotonia(a: nat, b: nat, c: nat)
    requires a <= b
    ensures a * c <= b * c
  {
  }

  lemma BasesSeparadas(i: nat, j: nat, bs: nat)
    requires i < j
    ensures Base(i, bs) + bs <= Base(j, bs)
  {
    assert (i + 1) * bs == i * bs + bs;
    Monotonia(i + 1, j, bs);
  }

  ghost function Techo(n: nat, d: nat): nat
    requires d > 0
  {
    (n + d - 1) / d
  }

  /** Bytes that writing n of them in whole words touches. */
  ghost function EnPalabras(n: nat): nat {
    PALABRA * Techo(n, PALABRA)
  }

  /** ceil(size / block_size) */
  ghost function Requeridos(size: nat, bs: nat): nat
    requires bs > 0
  {
    Techo(size, bs)
  }

  lemma TechoCotas(n: nat, d: nat)
    requires d > 0
    ensures n <= Techo(n, d) * d < n + d
    ensures n > 0 ==> Techo(n, d) >= 1 && (Techo(n, d) - 1) * d < n
  {
    var t := n + d - 1;
    assert t == (t / d) * d + t % d;
    if n > 0 {
      assert (t / d - 1) * d == (t / d) * d - d;
    }
  }

  /** Position j of a file lies in data block j / bs, one of the blocks reserved for it. */
  lemma PosicionEnBloque(j: nat, size: nat, bs: nat)
    requires bs > 0 && j < size
    ensures 0 <= j / bs < Requeridos(size, bs) && 0 <= j % bs < bs && Base(j / bs, bs) + j % bs == j
  {
    TechoCotas(size, bs);
    var q, t := j / bs, Techo(size, bs);
    assert j == q * bs + j % bs;
    if q >= t {
      Monotonia(t, q, bs);
    }
  }

  ghost predicate ConfigValida(bs: nat, bc: nat) {
    bs > 0 && bs % PALABRA == 0 && Base(bc, bs) < 0x8000_0000
  }

  ghost predicate Forma(fs: Fs) {
    && ConfigValida(fs.blockSize, fs.blockCount)
    && |fs.bitmap| == fs.blockCount && |fs.bloques| == Base(fs.blockCount, fs.blockSize)
  }

  lemma BloqueValido(fs: Fs)
    requires Forma(fs)
    ensures fs.blockSize > 0 && fs.blockSize % PALABRA == 0
  {
  }

  lemma BloqueDentro(fs: Fs, i: nat)
    requires Forma(fs) && i < fs.blockCount
    ensures Base(i, fs.blockSize) + fs.blockSize <= |fs.bloques| < 0x8000_0000
  {
    BasesSeparadas(i, fs.blockCount, fs.blockSize);
  }

  // ---- Reading a recorded file ----

  /** The i-th word of block `indice`. */
  ghost function Puntero(fs: Fs, indice: nat, i: nat): Uint32
    requires Forma(fs) && indice < fs.blockCount && PALABRA * i + PALABRA <= fs.blockSize
  {
    BloqueDentro(fs, indice);
    var off := Base(indice, fs.blockSize) + PALABRA * i;
    DeLe32(fs.bloques[off..off + PALABRA])
  }

  /** The block that holds piece k of a file. */
  ghost function BloqueDato(fs: Fs, m: Meta, k: nat): nat
    requires Forma(fs) && m.indexBlock < fs.blockCount && PALABRA * k + PALABRA <= fs.blockSize
  {
    hide Base, Puntero;
    Puntero(fs, m.indexBlock, k) / fs.blockSize
  }

  /** The metadata lead to reserved blocks: the index block and, through its words, one block for
      each piece. */
  ghost predicate Registrado(fs: Fs, m: Meta)
    requires Forma(fs)
  {
    && m.indexBlock < fs.blockCount && fs.bitmap[m.indexBlock]
    && PALABRA * Requeridos(m.size, fs.blockSize) <= fs.blockSize
    && (forall k: nat :: k < Requeridos(m.size, fs.blockSize) ==> PiezaRegistrada(fs, m, k))
  }

  ghost predicate PiezaRegistrada(fs: Fs, m: Meta, k: nat)
    requires Forma(fs) && m.indexBlock < fs.blockCount && PALABRA * k + PALABRA <= fs.blockSize
  {
    var d := BloqueDato(fs, m, k);
    d < fs.blockCount && fs.bitmap[d] && Puntero(fs, m.indexBlock, k) == Base(d, fs.blockSize)
  }

  ghost function Usados(fs: Fs, m: Meta): set<nat>
    requires Forma(fs) && Registrado(fs, m)
  {
    {m.indexBlock} + set k: nat | k < Requeridos(m.size, fs.blockSize) :: BloqueDato(fs, m, k)
  }

  ghost function ByteDe(fs: Fs, m: Meta, j: nat): Byte
    requires Forma(fs) && Registrado(fs, m) && j < m.size
  {
    PosicionEnBloque(j, m.size, fs.blockSize);
    var k := j / fs.blockSize;
    assert PiezaRegistrada(fs, m, k);
    BloqueDentro(fs, BloqueDato(fs, m, k));
    fs.bloques[Puntero(fs, m.indexBlock, k) + j % fs.blockSize]
  }

  /** The bytes of a file, found through INDEX_BLOCK and SIZE as its metadata record them. */
  ghost function Leer(fs: Fs, m: Meta): seq<Byte>
    requires Forma(fs) && Registrado(fs, m)
  {
    seq(m.size, j requires 0 <= j < m.size => ByteDe(fs, m, j))
  }

  /** Every recorded file is well formed and no two of them share a block. */
  ghost predicate Inv(fs: Fs) {
    && Forma(fs)
    && (forall n :: n in fs.archivos ==> Registrado(fs, fs.archivos[n]))
    && (forall n, o :: n in fs.archivos && o in fs.archivos && n != o ==>
          Usados(fs, fs.archivos[n]) !! Usados(fs, fs.archivos[o]))
  }

  /** The store as its users see it. */
  ghost function Contenidos(fs: Fs): map<string, seq<Byte>>
    requires Inv(fs)
  {
    map n | n in fs.archivos :: Leer(fs, fs.archivos[n])
  }

  // ---- Reserving blocks ----

  ghost function Libres(b: seq<bool>): nat {
    if b == [] then 0 else Libres(b[..|b| - 1]) + (if b[|b| - 1] then 0 else 1)
  }

  /** ix lists clear bits in ascending order, and no clear bit below the last of them is left out. */
  ghost predicate PrimerosLibres(b: seq<bool>, ix: seq<nat>) {
    && Creciente(ix)
    && (forall i :: 0 <= i < |ix| ==> ix[i] < |b| && !b[ix[i]])
    && (forall a :: 0 <= a < |b| && !b[a] && ix != [] && a <= ix[|ix| - 1] ==> a in ix)
  }

  ghost function Marcados(b: seq<bool>, ix: seq<nat>): seq<bool> {
    seq(|b|, a requires 0 <= a < |b| => b[a] || a in ix)
  }

  /** Reserving sets exactly as many bits as it lists. */
  lemma {:induction false} LibresTrasMarcar(b: seq<bool>, ix: seq<nat>)
    requires Creciente(ix) && forall i :: 0 <= i < |ix| ==> ix[i] < |b| && !b[ix[i]]
    ensures Libres(Marcados(b, ix)) == Libres(b) - |ix|
  {
    if b == [] {
      assert ix == [];
    } else {
      var n := |b| - 1;
      var c, m := b[..n], Marcados(b, ix);
      if ix != [] && ix[|ix| - 1] == n {
        var iy := ix[..|ix| - 1];
        LibresTrasMarcar(c, iy);
        assert m[..n] == Marcados(c, iy);
      } else {
        LibresTrasMarcar(c, ix);
        assert m[..n] == Marcados(c, ix);
      }
    }
  }

  // ---- Writing ----

  ghost function Grabar(b: seq<Byte>, off: nat, datos: seq<Byte>): (r: seq<Byte>)
    requires off + |datos| <= |b|
    ensures |r| == |b|
  {
    b[..off] + datos + b[off + |datos|..]
  }

  lemma GrabarSeguido(b: seq<Byte>, off: nat, x: seq<Byte>, y: seq<Byte>)
    requires off + |x| + |y| <= |b|
    ensures Grabar(Grabar(b, off, x), off + |x|, y) == Grabar(b, off, x + y)
  {
  }

  lemma GrabarPunto(b: seq<Byte>, off: nat, datos: seq<Byte>, a: nat)
    requires off + |datos| <= |b| && a < |b|
    ensures Grabar(b, off, datos)[a] == if off <= a < off + |datos| then datos[a - off] else b[a]
  {
  }

  /** The words of the index block: where each data block starts. */
  ghost function Palabras(ix: seq<nat>, bs: nat): (r: seq<Byte>)
    requires forall k :: 0 <= k < |ix| ==> Base(ix[k], bs) < 0x1_0000_0000
    ensures |r| == PALABRA * |ix|
  {
    if ix == [] then [] else Palabras(ix[..|ix| - 1], bs) + Le32(Base(ix[|ix| - 1], bs))
  }

  lemma {:induction false} PalabraEn(ix: seq<nat>, bs: nat, k: nat)
    requires forall i :: 0 <= i < |ix| ==> Base(ix[i], bs) < 0x1_0000_0000
    requires k < |ix|
    ensures Palabras(ix, bs)[PALABRA * k..PALABRA * k + PALABRA] == Le32(Base(ix[k], bs))
  {
    hide Base, Le32;
    var n := |ix| - 1;
    if k < n {
      PalabraEn(ix[..n], bs, k);
      var p := Palabras(ix[..n], bs);
      assert Palabras(ix, bs)[PALABRA * k..PALABRA * k + PALABRA] == p[PALABRA * k..PALABRA * k + PALABRA];
    }
  }

  /** Bytes of the content that go to data block k, before and after rounding up to whole words. */
  ghost function Resto(size: nat, bs: nat, k: nat): int
    requires bs > 0
  {
    if k == Requeridos(size, bs) - 1 then size - Base(k, bs) else bs
  }

  ghost function LargoPieza(size: nat, bs: nat, k: nat): nat
    requires bs > 0 && bs % PALABRA == 0 && k < Requeridos(size, bs)
  {
    PiezaDentro(size, bs, k);
    EnPalabras(Resto(size, bs, k))
  }

  lemma PiezaDentro(size: nat, bs: nat, k: nat)
    requires bs > 0 && bs % PALABRA == 0 && k < Requeridos(size, bs)
    ensures var n := Resto(size, bs, k);
            0 < n <= EnPalabras(n) <= bs && Base(k, bs) + EnPalabras(n) <= size + 3
  {
    TechoCotas(size, bs);
    var t := Requeridos(size, bs);
    assert (t - 1) * bs == t * bs - bs;
    PalabrasAcotadas(Resto(size, bs, k), bs);
    hide Techo, EnPalabras;
    if k < t - 1 {
      BasesSeparadas(k, t - 1, bs);
    }
  }

  lemma PalabrasAcotadas(n: nat, m: nat)
    requires n <= m && m % PALABRA == 0
    ensures n <= EnPalabras(n) <= m && EnPalabras(n) <= n + 3
  {
    EnPalabrasDe(n);
    hide EnPalabras;
  }

  /** `contenido` is what the memory holds from the content pointer on: copying whole words reads up
      to three bytes past the end of the file. */
  ghost predicate Escribible(b: seq<Byte>, ix: seq<nat>, contenido: seq<Byte>, size: nat, bs: nat) {
    && bs > 0 && bs % PALABRA == 0 && |ix| == Requeridos(size, bs) && |contenido| >= size + 3
    && forall k :: 0 <= k < |ix| ==> Base(ix[k], bs) + bs <= |b|
  }

  ghost function Pieza(contenido: seq<Byte>, size: nat, bs: nat, k: nat): (r: seq<Byte>)
    requires bs > 0 && bs % PALABRA == 0 && k < Requeridos(size, bs) && |contenido| >= size + 3
    ensures |r| == LargoPieza(size, bs, k) <= bs
  {
    PiezaDentro(size, bs, k);
    contenido[Base(k, bs)..Base(k, bs) + LargoPieza(size, bs, k)]
  }

  /** Copying whole words reads past the size-th byte of the content exactly when the size is not a multiple
      of four. */
  lemma LeeDeMasSiYSoloSi(size: nat, bs: nat)
    requires bs > 0 && bs % PALABRA == 0
    ensures (exists k: nat :: k < Requeridos(size, bs) && Base(k, bs) + LargoPieza(size, bs, k) > size)
            <==> size % PALABRA != 0
  {
    var t := Requeridos(size, bs);
    TechoCotas(size, bs);
    forall k: nat | k < t
      ensures Base(k, bs) + LargoPieza(size, bs, k) > size <==> k == t - 1 && size % PALABRA != 0
    {
      PiezaAlFinal(size, bs, k);
    }
    if size % PALABRA != 0 {
      assert t >= 1 && Base(t - 1, bs) + LargoPieza(size, bs, t - 1) > size;
    }
  }

  lemma EnPalabrasDe(n: nat)
    ensures EnPalabras(n) == n + (if n % PALABRA == 0 then 0 else PALABRA - n % PALABRA)
  {
  }

  lemma MultiploDePalabra(k: nat, bs: nat)
    requires bs % PALABRA == 0
    ensures Base(k, bs) % PALABRA == 0
  {
    var q := bs / PALABRA;
    assert k * bs == k * (q * PALABRA) == (k * q) * PALABRA;
  }

  lemma LargoDe(size: nat, bs: nat, k: nat)
    requires bs > 0 && bs % PALABRA == 0 && k < Requeridos(size, bs)
    ensures Resto(size, bs, k) > 0 && LargoPieza(size, bs, k) == EnPalabras(Resto(size, bs, k))
    ensures Resto(size, bs, k) == if k == Requeridos(size, bs) - 1 then size - Base(k, bs) else bs
  {
    PiezaDentro(size, bs, k);
    hide Base, Techo, EnPalabras;
  }

  lemma MismoResto(a: nat, n: nat)
    requires a % PALABRA == 0
    ensures (a + n) % PALABRA == n % PALABRA
  {
  }

  lemma PiezaAlFinal(size: nat, bs: nat, k: nat)
    requires bs > 0 && bs % PALABRA == 0 && k < Requeridos(size, bs)
    ensures Base(k, bs) + LargoPieza(size, bs, k) > size <==> k == Requeridos(size, bs) - 1 && size % PALABRA != 0
  {
    hide Base, Requeridos, EnPalabras, Resto, LargoPieza;
    var t := Requeridos(size, bs);
    LargoDe(size, bs, k);
    if k < t - 1 {
      EnPalabrasDe(bs);
      LargoDe(size, bs, t - 1);
      BasesSeparadas(k, t - 1, bs);
    } else {
      MultiploDePalabra(k, bs);
      EnPalabrasDe(size - Base(k, bs));
      MismoResto(Base(k, bs), size - Base(k, bs));
    }
  }

  /** The block space after the first n data blocks are written. */
  ghost function GrabarDatos(b: seq<Byte>, ix: seq<nat>, contenido: seq<Byte>, size: nat, bs: nat,
                             n: nat): (r: seq<Byte>)
    requires Escribible(b, ix, contenido, size, bs) && n <= |ix|
    ensures |r| == |b|
  {
    if n == 0 then b
    else Grabar(GrabarDatos(b, ix, contenido, size, bs, n - 1), Base(ix[n - 1], bs), Pieza(contenido, size, bs, n - 1))
  }

  /** Bytes outside the listed blocks keep their value. */
  lemma {:induction false} FueraDeLosBloques(b: seq<Byte>, ix: seq<nat>, contenido: seq<Byte>, size: nat, bs: nat,
                                             n: nat, d: nat, r: nat)
    requires Escribible(b, ix, contenido, size, bs) && n <= |ix|
    requires d !in ix[..n] && r < bs && Base(d, bs) + r < |b|
    ensures GrabarDatos(b, ix, contenido, size, bs, n)[Base(d, bs) + r] == b[Base(d, bs) + r]
  {
    hide Base, Grabar, Pieza, LargoPieza;
    if n == 0 {
    } else {
      assert d !in ix[..n - 1];
      FueraDeLosBloques(b, ix, contenido, size, bs, n - 1, d, r);
      var e := ix[n - 1];
      assert e in ix[..n];
      if d < e { BasesSeparadas(d, e, bs); } else { BasesSeparadas(e, d, bs); }
      GrabarPunto(GrabarDatos(b, ix, contenido, size, bs, n - 1), Base(e, bs),
                  Pieza(contenido, size, bs, n - 1), Base(d, bs) + r);
    }
  }

  lemma UltimaPieza(b: seq<Byte>, ix: seq<nat>, contenido: seq<Byte>, size: nat, bs: nat, n: nat, r: nat)
    requires Escribible(b, ix, contenido, size, bs) && 0 < n <= |ix| && r < LargoPieza(size, bs, n - 1)
    ensures Base(n - 1, bs) + r < |contenido| && Base(ix[n - 1], bs) + r < |b|
    ensures GrabarDatos(b, ix, contenido, size, bs, n)[Base(ix[n - 1], bs) + r] == contenido[Base(n - 1, bs) + r]
  {
    PiezaDentro(size, bs, n - 1);
    hide Base, Grabar;
    assert |Pieza(contenido, size, bs, n - 1)| <= bs;
    GrabarPunto(GrabarDatos(b, ix, contenido, size, bs, n - 1), Base(ix[n - 1], bs), Pieza(contenido, size, bs, n - 1),
                Base(ix[n - 1], bs) + r);
  }

  lemma OtraPieza(b: seq<Byte>, ix: seq<nat>, contenido: seq<Byte>, size: nat, bs: nat, n: nat, d: nat, r: nat)
    requires Escribible(b, ix, contenido, size, bs) && 0 < n <= |ix| && d != ix[n - 1] && r < bs
    requires Base(d, bs) + r < |b|
    ensures GrabarDatos(b, ix, contenido, size, bs, n)[Base(d, bs) + r]
            == GrabarDatos(b, ix, contenido, size, bs, n - 1)[Base(d, bs) + r]
  {
    hide Base, Grabar, Pieza, LargoPieza;
    var e := ix[n - 1];
    if d < e { BasesSeparadas(d, e, bs); } else { BasesSeparadas(e, d, bs); }
    assert |Pieza(contenido, size, bs, n - 1)| <= bs;
    GrabarPunto(GrabarDatos(b, ix, contenido, size, bs, n - 1), Base(e, bs),
                Pieza(contenido, size, bs, n - 1), Base(d, bs) + r);
  }

  lemma PiezaCabe(b: seq<Byte>, ix: seq<nat>, contenido: seq<Byte>, size: nat, bs: nat, k: nat, r: nat)
    requires Escribible(b, ix, contenido, size, bs) && k < |ix| && r < LargoPieza(size, bs, k)
    ensures r < bs && Base(k, bs) + r < |contenido| && Base(ix[k], bs) + r < |b|
  {
    PiezaDentro(size, bs, k);
    hide Base;
  }

  /** Byte r of data block k is byte r of piece k of the content. */
  lemma {:induction false} DentroDeLosBloques(b: seq<Byte>, ix: seq<nat>, contenido: seq<Byte>, size: nat, bs: nat,
                                              n: nat, k: nat, r: nat)
    requires Escribible(b, ix, contenido, size, bs) && k < n <= |ix| && r < LargoPieza(size, bs, k)
    requires forall i, j :: 0 <= i < j < |ix| ==> ix[i] != ix[j]
    ensures Base(k, bs) + r < |contenido| && Base(ix[k], bs) + r < |b|
    ensures GrabarDatos(b, ix, contenido, size, bs, n)[Base(ix[k], bs) + r] == contenido[Base(k, bs) + r]
  {
    hide Base, GrabarDatos, LargoPieza;
    PiezaCabe(b, ix, contenido, size, bs, k, r);
    if k < n - 1 {
      DentroDeLosBloques(b, ix, contenido, size, bs, n - 1, k, r);
      OtraPieza(b, ix, contenido, size, bs, n, ix[k], r);
    } else {
      UltimaPieza(b, ix, contenido, size, bs, n, r);
    }
  }

  // ---- One dump ----

  /** An accepted dump: blocks ix reserved, the first one as the index block, the rest for data. */
  ghost predicate PasoAceptado(fs: Fs, nombre: string, size: Uint32, contenido: seq<Byte>, ix: seq<nat>, fs': Fs)
    requires Forma(fs) && |contenido| >= size + 3
  {
    && |ix| == Requeridos(size, fs.blockSize) + 1 <= fs.blockSize / PALABRA + 1
    && PrimerosLibres(fs.bitmap, ix)
    && fs' == fs.(bitmap := Marcados(fs.bitmap, ix), bloques := BloquesTras(fs, size, contenido, ix),
                  archivos := fs.archivos[nombre := Meta(size, ix[0])])
  }

  ghost function BloquesTras(fs: Fs, size: Uint32, contenido: seq<Byte>, ix: seq<nat>): (r: seq<Byte>)
    requires Forma(fs) && |contenido| >= size + 3
    requires |ix| == Requeridos(size, fs.blockSize) + 1 <= fs.blockSize / PALABRA + 1
    requires forall i :: 0 <= i < |ix| ==> ix[i] < fs.blockCount
    ensures |r| == |fs.bloques|
  {
    BloquesCaben(fs, ix);
    GrabarDatos(Grabar(fs.bloques, Base(ix[0], fs.blockSize), Palabras(ix[1..], fs.blockSize)),
                ix[1..], contenido, size, fs.blockSize, |ix| - 1)
  }

  lemma BloquesCaben(fs: Fs, ix: seq<nat>)
    requires Forma(fs) && forall i :: 0 <= i < |ix| ==> ix[i] < fs.blockCount
    ensures forall i :: 0 <= i < |ix| ==> Base(ix[i], fs.blockSize) + fs.blockSize <= |fs.bloques| < 0x8000_0000
  {
    forall i | 0 <= i < |ix|
      ensures Base(ix[i], fs.blockSize) + fs.blockSize <= |fs.bloques| < 0x8000_0000
    {
      BloqueDentro(fs, ix[i]);
    }
  }

  /** A dump writes only inside the blocks it reserved. */
  lemma DumpNoTocaOtros(fs: Fs, size: Uint32, contenido: seq<Byte>, ix: seq<nat>, d: nat, r: nat)
    requires Forma(fs) && |contenido| >= size + 3 && PrimerosLibres(fs.bitmap, ix)
    requires |ix| == Requeridos(size, fs.blockSize) + 1 <= fs.blockSize / PALABRA + 1
    requires d < fs.blockCount && d !in ix && r < fs.blockSize
    ensures Base(d, fs.blockSize) + r < |fs.bloques|
    ensures BloquesTras(fs, size, contenido, ix)[Base(d, fs.blockSize) + r] == fs.bloques[Base(d, fs.blockSize) + r]
  {
    BloquesCaben(fs, ix);
    BloqueDentro(fs, d);
    hide Base, Grabar, PrimerosLibres, Forma, Requeridos;
    AfueraDeLaReserva(fs.bloques, ix, contenido, size, fs.blockSize, d, r);
  }

  lemma AfueraDeLaReserva(b: seq<Byte>, ix: seq<nat>, contenido: seq<Byte>, size: nat, bs: nat, d: nat, r: nat)
    requires bs > 0 && ix != [] && |ix| - 1 <= bs / PALABRA && d !in ix && r < bs && Base(d, bs) + r < |b|
    requires forall i :: 0 <= i < |ix| ==> Base(ix[i], bs) + bs <= |b| < 0x8000_0000
    requires Escribible(Grabar(b, Base(ix[0], bs), Palabras(ix[1..], bs)), ix[1..], contenido, size, bs)
    ensures GrabarDatos(Grabar(b, Base(ix[0], bs), Palabras(ix[1..], bs)), ix[1..], contenido, size, bs, |ix| - 1)[
              Base(d, bs) + r]
            == b[Base(d, bs) + r]
  {
    hide Base, Grabar, GrabarDatos, Escribible;
    if d < ix[0] { BasesSeparadas(d, ix[0], bs); } else { BasesSeparadas(ix[0], d, bs); }
    var datos := ix[1..];
    GrabarPunto(b, Base(ix[0], bs), Palabras(datos, bs), Base(d, bs) + r);
    assert datos[..|datos|] == datos;
    FueraDeLosBloques(Grabar(b, Base(ix[0], bs), Palabras(datos, bs)), datos, contenido, size, bs, |datos|, d, r);
  }

  lemma AceptadoForma(fs: Fs, nombre: string, size: Uint32, contenido: seq<Byte>, ix: seq<nat>, fs': Fs)
    requires Forma(fs) && |contenido| >= size + 3 && PasoAceptado(fs, nombre, size, contenido, ix, fs')
    ensures Forma(fs') && fs'.blockSize == fs.blockSize && fs'.blockCount == fs.blockCount
    ensures forall i :: 0 <= i < |ix| ==> ix[i] < fs.blockCount && !fs.bitmap[ix[i]] && fs'.bitmap[ix[i]]
    ensures forall d :: 0 <= d < fs.blockCount && fs.bitmap[d] ==> fs'.bitmap[d] && d !in ix
    ensures ix[0] !in ix[1..] && forall i, j :: 1 <= i < j < |ix| ==> ix[i] != ix[j]
  {
  }

  lemma MismaRebanada(a: seq<Byte>, b: seq<Byte>, off: nat, desde: nat, n: nat)
    requires off + n <= |a| && desde + n <= |b|
    requires forall x :: off <= x < off + n ==> a[x] == b[x - off + desde]
    ensures a[off..off + n] == b[desde..desde + n]
  {
  }

  lemma PalabraIntacta(fs: Fs, size: Uint32, contenido: seq<Byte>, ix: seq<nat>, d: nat, r: nat)
    requires Forma(fs) && |contenido| >= size + 3 && PrimerosLibres(fs.bitmap, ix)
    requires |ix| == Requeridos(size, fs.blockSize) + 1 <= fs.blockSize / PALABRA + 1
    requires d < fs.blockCount && d !in ix && r + PALABRA <= fs.blockSize
    ensures var off := Base(d, fs.blockSize) + r;
            off + PALABRA <= |fs.bloques|
            && BloquesTras(fs, size, contenido, ix)[off..off + PALABRA] == fs.bloques[off..off + PALABRA]
  {
    BloqueDentro(fs, d);
    hide *;
    var base := Base(d, fs.blockSize);
    var off := base + r;
    forall x | off <= x < off + PALABRA
      ensures BloquesTras(fs, size, contenido, ix)[x] == fs.bloques[x]
    {
      DumpNoTocaOtros(fs, size, contenido, ix, d, x - base);
    }
    MismaRebanada(BloquesTras(fs, size, contenido, ix), fs.bloques, off, off, PALABRA);
  }

  /** The words of a reserved block read the same after somebody else's dump. */
  lemma PunteroIgual(fs: Fs, nombre: string, size: Uint32, contenido: seq<Byte>, ix: seq<nat>, fs': Fs, d: nat, k: nat)
    requires Forma(fs) && |contenido| >= size + 3 && PasoAceptado(fs, nombre, size, contenido, ix, fs')
    requires d < fs.blockCount && fs.bitmap[d] && PALABRA * k + PALABRA <= fs.blockSize
    ensures Forma(fs') && Puntero(fs', d, k) == Puntero(fs, d, k)
  {
    AceptadoForma(fs, nombre, size, contenido, ix, fs');
    BloquesDelPaso(fs, nombre, size, contenido, ix, fs');
    hide Base, BloquesTras, DeLe32, PrimerosLibres, PasoAceptado, Techo;
    PalabraIntacta(fs, size, contenido, ix, d, PALABRA * k);
  }

  /** Dumps leave every other recorded file as it was: registered, in the same blocks, with the same
      bytes. */
  lemma ArchivoIntacto(fs: Fs, nombre: string, size: Uint32, contenido: seq<Byte>, ix: seq<nat>, fs': Fs, m: Meta)
    requires Forma(fs) && |contenido| >= size + 3 && PasoAceptado(fs, nombre, size, contenido, ix, fs')
    requires Registrado(fs, m)
    ensures Forma(fs') && Registrado(fs', m) && Usados(fs', m) == Usados(fs, m) && Leer(fs', m) == Leer(fs, m)
    ensures forall i :: 0 <= i < |ix| ==> ix[i] !in Usados(fs, m)
  {
    AceptadoForma(fs, nombre, size, contenido, ix, fs');
    var bs, n := fs.blockSize, Requeridos(m.size, fs.blockSize);
    hide Base, PasoAceptado, Puntero, Techo;
    forall k: nat | k < n
      ensures PiezaRegistrada(fs, m, k) && PiezaRegistrada(fs', m, k) && BloqueDato(fs', m, k) == BloqueDato(fs, m, k)
    {
      assert PiezaRegistrada(fs, m, k);
      PunteroIgual(fs, nombre, size, contenido, ix, fs', m.indexBlock, k);
    }
    forall j: nat | j < m.size
      ensures ByteDe(fs', m, j) == ByteDe(fs, m, j)
    {
      PosicionEnBloque(j, m.size, bs);
      var k := j / bs;
      assert PiezaRegistrada(fs, m, k);
      PunteroIgual(fs, nombre, size, contenido, ix, fs', m.indexBlock, k);
      BloquesDelPaso(fs, nombre, size, contenido, ix, fs');
      DumpNoTocaOtros(fs, size, contenido, ix, BloqueDato(fs, m, k), j % bs);
    }
  }

  lemma BloquesDelPaso(fs: Fs, nombre: string, size: Uint32, contenido: seq<Byte>, ix: seq<nat>, fs': Fs)
    requires Forma(fs) && |contenido| >= size + 3 && PasoAceptado(fs, nombre, size, contenido, ix, fs')
    ensures |ix| == Requeridos(size, fs.blockSize) + 1 <= fs.blockSize / PALABRA + 1
    ensures PrimerosLibres(fs.bitmap, ix) && fs'.bloques == BloquesTras(fs, size, contenido, ix)
    ensures fs'.archivos == fs.archivos[nombre := Meta(size, ix[0])]
  {
  }

  /** The two writes of a dump, one over the other, both inside the block space. */
  lemma DosEscrituras(fs: Fs, size: Uint32, contenido: seq<Byte>, ix: seq<nat>)
    requires Forma(fs) && |contenido| >= size + 3 && (forall i :: 0 <= i < |ix| ==> ix[i] < fs.blockCount)
    requires |ix| == Requeridos(size, fs.blockSize) + 1 <= fs.blockSize / PALABRA + 1
    ensures forall i :: 0 <= i < |ix| ==> Base(ix[i], fs.blockSize) + fs.blockSize <= |fs.bloques| < 0x8000_0000
    ensures forall i :: 0 <= i < |ix[1..]| ==> Base(ix[1..][i], fs.blockSize) < 0x1_0000_0000
    ensures var bs, datos := fs.blockSize, ix[1..];
            var palabras := Palabras(datos, bs);
            && |palabras| == PALABRA * (|ix| - 1) <= bs && Base(ix[0], bs) + |palabras| <= |fs.bloques|
            && Escribible(Grabar(fs.bloques, Base(ix[0], bs), palabras), datos, contenido, size, bs)
            && BloquesTras(fs, size, contenido, ix)
               == GrabarDatos(Grabar(fs.bloques, Base(ix[0], bs), palabras), datos, contenido, size, bs, |ix| - 1)
  {
    BloquesCaben(fs, ix);
  }

  /** The bytes of the index block survive the writing of the data blocks. */
  lemma IndiceQueda(fs: Fs, size: Uint32, contenido: seq<Byte>, ix: seq<nat>, r: nat)
    requires Forma(fs) && |contenido| >= size + 3 && (forall i :: 0 <= i < |ix| ==> ix[i] < fs.blockCount)
    requires |ix| == Requeridos(size, fs.blockSize) + 1 <= fs.blockSize / PALABRA + 1
    requires ix[0] !in ix[1..] && r < PALABRA * (|ix| - 1)
    ensures forall i :: 0 <= i < |ix[1..]| ==> Base(ix[1..][i], fs.blockSize) < 0x1_0000_0000
    ensures Base(ix[0], fs.blockSize) + r < |fs.bloques|
    ensures BloquesTras(fs, size, contenido, ix)[Base(ix[0], fs.blockSize) + r] == Palabras(ix[1..], fs.blockSize)[r]
  {
    hide *;
    DosEscrituras(fs, size, contenido, ix);
    var bs, datos, n := fs.blockSize, ix[1..], |ix| - 1;
    var palabras, base := Palabras(datos, bs), Base(ix[0], bs);
    var b := Grabar(fs.bloques, base, palabras);
    LargosIguales(fs, b, GrabarDatos(b, datos, contenido, size, bs, n), base, palabras, datos, contenido, size, bs, n);
    assert datos[..n] == datos;
    FueraDeLosBloques(b, datos, contenido, size, bs, n, ix[0], r);
    GrabarPunto(fs.bloques, base, palabras, base + r);
  }

  /** After a dump its index block begins with the offsets of its data blocks. */
  lemma IndiceEscrito(fs: Fs, size: Uint32, contenido: seq<Byte>, ix: seq<nat>)
    requires Forma(fs) && |contenido| >= size + 3 && (forall i :: 0 <= i < |ix| ==> ix[i] < fs.blockCount)
    requires |ix| == Requeridos(size, fs.blockSize) + 1 <= fs.blockSize / PALABRA + 1
    requires ix[0] !in ix[1..]
    ensures forall i :: 0 <= i < |ix[1..]| ==> Base(ix[1..][i], fs.blockSize) < 0x1_0000_0000
    ensures Contiene(BloquesTras(fs, size, contenido, ix), Base(ix[0], fs.blockSize), Palabras(ix[1..], fs.blockSize))
    ensures |Palabras(ix[1..], fs.blockSize)| == PALABRA * (|ix| - 1)
  {
    hide *;
    LargoTras(fs, size, contenido, ix);
    DosEscrituras(fs, size, contenido, ix);
    var b', base, palabras := BloquesTras(fs, size, contenido, ix), Base(ix[0], fs.blockSize),
        Palabras(ix[1..], fs.blockSize);
    forall r | 0 <= r < |palabras|
      ensures b'[base + r] == palabras[r]
    {
      IndiceQueda(fs, size, contenido, ix, r);
    }
    ContienePorPuntos(b', base, palabras);
  }

  ghost predicate Contiene(b: seq<Byte>, base: nat, p: seq<Byte>) {
    base + |p| <= |b| && forall r :: 0 <= r < |p| ==> b[base + r] == p[r]
  }

  lemma ContienePorPuntos(b: seq<Byte>, base: nat, p: seq<Byte>)
    requires base + |p| <= |b| && forall r :: 0 <= r < |p| ==> b[base + r] == p[r]
    ensures Contiene(b, base, p)
  {
  }

  lemma SubRebanada(b: seq<Byte>, base: nat, p: seq<Byte>, desde: nat, n: nat)
    requires Contiene(b, base, p) && desde + n <= |p|
    ensures base + desde + n <= |b| && b[base + desde..base + desde + n] == p[desde..desde + n]
  {
    forall x | base + desde <= x < base + desde + n
      ensures b[x] == p[x - (base + desde) + desde]
    {
      assert b[base + (x - base)] == p[x - base];
    }
    MismaRebanada(b, p, base + desde, desde, n);
  }

  /** Word k of the index block is where data block k starts. */
  lemma PalabraNueva(fs: Fs, size: Uint32, contenido: seq<Byte>, ix: seq<nat>, k: nat)
    requires Forma(fs) && |contenido| >= size + 3 && (forall i :: 0 <= i < |ix| ==> ix[i] < fs.blockCount)
    requires |ix| == Requeridos(size, fs.blockSize) + 1 <= fs.blockSize / PALABRA + 1
    requires ix[0] !in ix[1..] && k < |ix| - 1
    ensures Base(ix[k + 1], fs.blockSize) < 0x8000_0000
    ensures var off := Base(ix[0], fs.blockSize) + PALABRA * k;
            off + PALABRA <= |fs.bloques|
            && BloquesTras(fs, size, contenido, ix)[off..off + PALABRA] == Le32(Base(ix[k + 1], fs.blockSize))
  {
    hide *;
    LargoTras(fs, size, contenido, ix);
    BloqueDentro(fs, ix[k + 1]);
    IndiceEscrito(fs, size, contenido, ix);
    SubRebanada(BloquesTras(fs, size, contenido, ix), Base(ix[0], fs.blockSize), Palabras(ix[1..], fs.blockSize),
                PALABRA * k, PALABRA);
    PalabraEn(ix[1..], fs.blockSize, k);
  }

  lemma LargoTras(fs: Fs, size: Uint32, contenido: seq<Byte>, ix: seq<nat>)
    requires Forma(fs) && |contenido| >= size + 3 && (forall i :: 0 <= i < |ix| ==> ix[i] < fs.blockCount)
    requires |ix| == Requeridos(size, fs.blockSize) + 1 <= fs.blockSize / PALABRA + 1
    ensures |BloquesTras(fs, size, contenido, ix)| == |fs.bloques|
  {
  }

  lemma LargosIguales(fs: Fs, b: seq<Byte>, b': seq<Byte>, base: nat, palabras: seq<Byte>, datos: seq<nat>,
                      contenido: seq<Byte>, size: nat, bs: nat, n: nat)
    requires base + |palabras| <= |fs.bloques| && b == Grabar(fs.bloques, base, palabras)
    requires Escribible(b, datos, contenido, size, bs) && n <= |datos|
    requires b' == GrabarDatos(b, datos, contenido, size, bs, n)
    ensures |b'| == |b| == |fs.bloques|
  {
  }

  /** Word k of the new index block is where data block k starts. */
  lemma PunteroNuevo(fs: Fs, nombre: string, size: Uint32, contenido: seq<Byte>, ix: seq<nat>, fs': Fs, k: nat)
    requires Forma(fs) && |contenido| >= size + 3 && PasoAceptado(fs, nombre, size, contenido, ix, fs')
    requires k < Requeridos(size, fs.blockSize)
    ensures Forma(fs') && ix[0] < fs.blockCount && PALABRA * k + PALABRA <= fs.blockSize
    ensures Puntero(fs', ix[0], k) == Base(ix[k + 1], fs.blockSize)
  {
    AceptadoForma(fs, nombre, size, contenido, ix, fs');
    BloquesDelPaso(fs, nombre, size, contenido, ix, fs');
    hide Base, BloquesTras, DeLe32, Le32, PrimerosLibres, PasoAceptado, Techo;
    PalabraNueva(fs, size, contenido, ix, k);
    IdaYVuelta32(Base(ix[k + 1], fs.blockSize));
  }

  lemma BaseEntre(i: nat, bs: nat)
    requires bs > 0
    ensures Base(i, bs) / bs == i
  {
    var p := i * bs;
    var q := p / bs;
    assert p == q * bs + p % bs;
    if q < i {
      BasesSeparadas(q, i, bs);
    } else if i < q {
      BasesSeparadas(i, q, bs);
    }
  }

  lemma RestoAlcanza(k: nat, r: nat, size: nat, bs: nat)
    requires bs > 0 && bs % PALABRA == 0 && k < Requeridos(size, bs) && r < bs && Base(k, bs) + r < size
    ensures r < LargoPieza(size, bs, k)
  {
    hide Base, Techo;
    PiezaDentro(size, bs, k);
  }

  lemma PiezaNueva(fs: Fs, nombre: string, size: Uint32, contenido: seq<Byte>, ix: seq<nat>, fs': Fs, k: nat)
    requires Forma(fs) && |contenido| >= size + 3 && PasoAceptado(fs, nombre, size, contenido, ix, fs')
    requires k < Requeridos(size, fs.blockSize)
    ensures Forma(fs') && ix[0] < fs'.blockCount && PALABRA * k + PALABRA <= fs'.blockSize && k + 1 < |ix|
    ensures PiezaRegistrada(fs', Meta(size, ix[0]), k) && BloqueDato(fs', Meta(size, ix[0]), k) == ix[k + 1]
  {
    AceptadoForma(fs, nombre, size, contenido, ix, fs');
    BloquesDelPaso(fs, nombre, size, contenido, ix, fs');
    hide PasoAceptado, Puntero, Techo, PrimerosLibres, BloquesTras, Base;
    PunteroNuevo(fs, nombre, size, contenido, ix, fs', k);
    BaseEntre(ix[k + 1], fs.blockSize);
  }

  lemma RegistradoNuevo(fs: Fs, nombre: string, size: Uint32, contenido: seq<Byte>, ix: seq<nat>, fs': Fs)
    requires Forma(fs) && |contenido| >= size + 3 && PasoAceptado(fs, nombre, size, contenido, ix, fs')
    ensures Forma(fs') && Registrado(fs', Meta(size, ix[0]))
    ensures |ix| == Requeridos(size, fs.blockSize) + 1
  {
    AceptadoForma(fs, nombre, size, contenido, ix, fs');
    BloquesDelPaso(fs, nombre, size, contenido, ix, fs');
    var m, n := Meta(size, ix[0]), |ix| - 1;
    hide PasoAceptado, Puntero, Techo, PrimerosLibres, BloquesTras, Base;
    forall k: nat | k < n
      ensures PALABRA * k + PALABRA <= fs'.blockSize && PiezaRegistrada(fs', m, k)
    {
      PiezaNueva(fs, nombre, size, contenido, ix, fs', k);
    }
  }

  /** The new file owns exactly the reserved blocks. */
  lemma UsadosNuevo(fs: Fs, nombre: string, size: Uint32, contenido: seq<Byte>, ix: seq<nat>, fs': Fs)
    requires Forma(fs) && |contenido| >= size + 3 && PasoAceptado(fs, nombre, size, contenido, ix, fs')
    ensures Forma(fs') && Registrado(fs', Meta(size, ix[0]))
    ensures Usados(fs', Meta(size, ix[0])) == set i | 0 <= i < |ix| :: ix[i]
  {
    RegistradoNuevo(fs, nombre, size, contenido, ix, fs');
    AceptadoForma(fs, nombre, size, contenido, ix, fs');
    var m := Meta(size, ix[0]);
    hide PasoAceptado, Puntero, Techo, PrimerosLibres, BloquesTras, Base, BloqueDato, PiezaRegistrada;
    forall k: nat | k < |ix| - 1
      ensures PALABRA * k + PALABRA <= fs'.blockSize && BloqueDato(fs', m, k) == ix[k + 1]
    {
      PiezaNueva(fs, nombre, size, contenido, ix, fs', k);
    }
    var usados := set i | 0 <= i < |ix| :: ix[i];
    forall d | d in usados
      ensures d in Usados(fs', m)
    {
      var i :| 0 <= i < |ix| && ix[i] == d;
      if i > 0 {
        assert BloqueDato(fs', m, i - 1) == ix[i];
      }
    }
  }

  /** Byte j of the content ends up in the data block its position selects. */
  lemma DatoEscrito(fs: Fs, size: Uint32, contenido: seq<Byte>, ix: seq<nat>, k: nat, r: nat)
    requires Forma(fs) && |contenido| >= size + 3 && (forall i :: 0 <= i < |ix| ==> ix[i] < fs.blockCount)
    requires |ix| == Requeridos(size, fs.blockSize) + 1 <= fs.blockSize / PALABRA + 1
    requires forall i, k :: 1 <= i < k < |ix| ==> ix[i] != ix[k]
    requires k < |ix| - 1 && r < fs.blockSize && Base(k, fs.blockSize) + r < size
    ensures var p := Base(ix[k + 1], fs.blockSize) + r;
            p < |fs.bloques| && BloquesTras(fs, size, contenido, ix)[p] == contenido[Base(k, fs.blockSize) + r]
  {
    hide *;
    DosEscrituras(fs, size, contenido, ix);
    var bs, datos, n := fs.blockSize, ix[1..], |ix| - 1;
    var b := Grabar(fs.bloques, Base(ix[0], bs), Palabras(datos, bs));
    LargosIguales(fs, b, GrabarDatos(b, datos, contenido, size, bs, n), Base(ix[0], bs), Palabras(datos, bs), datos,
                  contenido, size, bs, n);
    BloqueValido(fs);
    RestoAlcanza(k, r, size, bs);
    DentroDeLosBloques(b, datos, contenido, size, bs, n, k, r);
  }

  /** Where byte j of a file is: at offset r of the block its k-th pointer names. */
  lemma ByteDeSegun(fs: Fs, m: Meta, j: nat, k: nat, r: nat)
    requires Forma(fs) && Registrado(fs, m) && j < m.size && k == j / fs.blockSize && r == j % fs.blockSize
    ensures PALABRA * k + PALABRA <= fs.blockSize && Puntero(fs, m.indexBlock, k) + r < |fs.bloques|
    ensures ByteDe(fs, m, j) == fs.bloques[Puntero(fs, m.indexBlock, k) + r]
  {
    PosicionEnBloque(j, m.size, fs.blockSize);
    assert PiezaRegistrada(fs, m, k);
    hide Base, Puntero, Techo;
    BloqueDentro(fs, BloqueDato(fs, m, k));
  }

  lemma ByteNuevo(fs: Fs, nombre: string, size: Uint32, contenido: seq<Byte>, ix: seq<nat>, fs': Fs, j: nat)
    requires Forma(fs) && |contenido| >= size + 3 && PasoAceptado(fs, nombre, size, contenido, ix, fs')
    requires j < size
    ensures Forma(fs') && Registrado(fs', Meta(size, ix[0]))
    ensures ByteDe(fs', Meta(size, ix[0]), j) == contenido[j]
  {
    hide *;
    RegistradoNuevo(fs, nombre, size, contenido, ix, fs');
    AceptadoForma(fs, nombre, size, contenido, ix, fs');
    BloquesDelPaso(fs, nombre, size, contenido, ix, fs');
    BloqueValido(fs);
    var k, r := j / fs.blockSize, j % fs.blockSize;
    PosicionEnBloque(j, size, fs.blockSize);
    PunteroNuevo(fs, nombre, size, contenido, ix, fs', k);
    DatoEscrito(fs, size, contenido, ix, k, r);
    ByteDeSegun(fs', Meta(size, ix[0]), j, k, r);
  }

  /** The new file reads back as the bytes that were dumped. */
  lemma ArchivoNuevo(fs: Fs, nombre: string, size: Uint32, contenido: seq<Byte>, ix: seq<nat>, fs': Fs)
    requires Forma(fs) && |contenido| >= size + 3 && PasoAceptado(fs, nombre, size, contenido, ix, fs')
    ensures Forma(fs') && Registrado(fs', Meta(size, ix[0]))
    ensures Leer(fs', Meta(size, ix[0])) == contenido[..size]
  {
    RegistradoNuevo(fs, nombre, size, contenido, ix, fs');
    var m := Meta(size, ix[0]);
    hide PasoAceptado, Registrado, ByteDe, Forma;
    forall j: nat | j < size
      ensures ByteDe(fs', m, j) == contenido[j]
    {
      ByteNuevo(fs, nombre, size, contenido, ix, fs', j);
    }
  }

  lemma OtroArchivo(fs: Fs, nombre: string, size: Uint32, contenido: seq<Byte>, ix: seq<nat>, fs': Fs, n: string)
    requires Inv(fs) && |contenido| >= size + 3 && PasoAceptado(fs, nombre, size, contenido, ix, fs')
    requires n in fs'.archivos && n != nombre
    ensures n in fs.archivos && fs'.archivos[n] == fs.archivos[n]
    ensures Forma(fs') && Registrado(fs, fs.archivos[n]) && Registrado(fs', fs'.archivos[n])
    ensures Usados(fs', fs'.archivos[n]) == Usados(fs, fs.archivos[n])
    ensures Leer(fs', fs'.archivos[n]) == Leer(fs, fs.archivos[n])
    ensures Registrado(fs', Meta(size, ix[0])) && Usados(fs', fs'.archivos[n]) !! Usados(fs', Meta(size, ix[0]))
  {
    BloquesDelPaso(fs, nombre, size, contenido, ix, fs');
    hide PasoAceptado, Registrado, Usados, Leer, PrimerosLibres, BloquesTras, Forma;
    assert n in fs.archivos && fs'.archivos[n] == fs.archivos[n];
    ArchivoIntacto(fs, nombre, size, contenido, ix, fs', fs.archivos[n]);
    UsadosNuevo(fs, nombre, size, contenido, ix, fs');
  }

  /** Files go on being registered and owning disjoint blocks. */
  lemma DumpConserva(fs: Fs, nombre: string, size: Uint32, contenido: seq<Byte>, ix: seq<nat>, fs': Fs)
    requires Inv(fs) && |contenido| >= size + 3 && PasoAceptado(fs, nombre, size, contenido, ix, fs')
    ensures Inv(fs')
  {
    RegistradoNuevo(fs, nombre, size, contenido, ix, fs');
    BloquesDelPaso(fs, nombre, size, contenido, ix, fs');
    hide PasoAceptado, Registrado, Usados, PrimerosLibres, BloquesTras, Forma;
    assert fs'.archivos[nombre] == Meta(size, ix[0]);
    forall n | n in fs'.archivos
      ensures Registrado(fs', fs'.archivos[n])
    {
      if n != nombre { OtroArchivo(fs, nombre, size, contenido, ix, fs', n); }
    }
    forall n, o | n in fs'.archivos && o in fs'.archivos && n != o
      ensures Usados(fs', fs'.archivos[n]) !! Usados(fs', fs'.archivos[o])
    {
      if n != nombre { OtroArchivo(fs, nombre, size, contenido, ix, fs', n); }
      if o != nombre { OtroArchivo(fs, nombre, size, contenido, ix, fs', o); }
    }
  }

  lemma ContenidoDe(fs: Fs, n: string)
    requires Inv(fs)
    ensures n in Contenidos(fs) <==> n in fs.archivos
    ensures n in fs.archivos ==> Registrado(fs, fs.archivos[n]) && Contenidos(fs)[n] == Leer(fs, fs.archivos[n])
  {
    hide Registrado, Usados, Leer;
  }

  lemma MismosMapas<K, V>(a: map<K, V>, b: map<K, V>)
    requires forall n :: n in a <==> n in b
    requires forall n :: n in a && n in b ==> a[n] == b[n]
    ensures a == b
  {
  }

  /** The refinement: an accepted dump is a map update. The file reads back as what was dumped,
      every other file keeps its bytes, and files go on owning disjoint blocks. */
  lemma DumpEsActualizacion(fs: Fs, nombre: string, size: Uint32, contenido: seq<Byte>, ix: seq<nat>, fs': Fs)
    requires Inv(fs) && |contenido| >= size + 3 && PasoAceptado(fs, nombre, size, contenido, ix, fs')
    ensures Inv(fs')
    ensures Contenidos(fs') == Contenidos(fs)[nombre := contenido[..size]]
  {
    DumpConserva(fs, nombre, size, contenido, ix, fs');
    ArchivoNuevo(fs, nombre, size, contenido, ix, fs');
    BloquesDelPaso(fs, nombre, size, contenido, ix, fs');
    hide *;
    var c', e := Contenidos(fs'), Contenidos(fs)[nombre := contenido[..size]];
    forall n: string
      ensures n in c' <==> n in e
      ensures n in c' ==> c'[n] == e[n]
    {
      ContenidoDe(fs, n);
      ContenidoDe(fs', n);
      if n != nombre && n in fs'.archivos {
        OtroArchivo(fs, nombre, size, contenido, ix, fs', n);
      }
    }
    MismosMapas(c', e);
  }

  // ---- Acceptance and overflow ----

  /** verificar_espacio_bitmap: the index block can point at every data block, and the data blocks
      are free. Nobody counts the index block itself. */
  ghost predicate Acepta(fs: Fs, size: Uint32)
    requires Forma(fs)
  {
    Requeridos(size, fs.blockSize) <= fs.blockSize / PALABRA && Requeridos(size, fs.blockSize) <= Libres(fs.bitmap)
  }

  ghost predicate HayReserva(b: seq<bool>, n: nat) {
    exists ix: seq<nat> :: |ix| == n && PrimerosLibres(b, ix)
  }

  /** One request, answered r. A reservation that runs past the last block has no defined outcome. */
  ghost predicate Paso(fs: Fs, p: Pedido, r: Respuesta, fs': Fs)
    requires Forma(fs)
  {
    match r
    case RECHAZADO => !Acepta(fs, p.Size()) && fs' == fs
    case ACEPTADO => Acepta(fs, p.Size()) && exists ix :: PasoAceptado(fs, p.nombre, p.Size(), p.Contenido(), ix, fs')
    case DESBORDADO => Acepta(fs, p.Size()) && !HayReserva(fs.bitmap, Requeridos(p.Size(), fs.blockSize) + 1)
  }

  lemma PrefijoReserva(b: seq<bool>, ix: seq<nat>)
    requires PrimerosLibres(b, ix) && ix != []
    ensures PrimerosLibres(b, ix[..|ix| - 1])
  {
    var n := |ix| - 1;
    forall a | 0 <= a < |b| && !b[a] && n > 0 && a <= ix[n - 1]
      ensures a in ix[..n]
    {
      assert a in ix && a < ix[n];
    }
  }

  lemma UltimoNoMenor(b: seq<bool>, ix: seq<nat>, iy: seq<nat>)
    requires PrimerosLibres(b, ix) && PrimerosLibres(b, iy) && |ix| == |iy| > 0
    requires ix[..|ix| - 1] == iy[..|iy| - 1]
    ensures iy[|iy| - 1] <= ix[|ix| - 1]
  {
    var n := |ix| - 1;
    assert forall k :: 0 <= k < n ==> iy[k] == iy[..n][k] == ix[k] < ix[n];
  }

  /** The lists that answer a reservation are all the same one. */
  lemma {:induction false} ReservaUnica(b: seq<bool>, ix: seq<nat>, iy: seq<nat>)
    requires PrimerosLibres(b, ix) && PrimerosLibres(b, iy) && |ix| == |iy|
    ensures ix == iy
  {
    hide PrimerosLibres;
    if ix == [] {
    } else {
      var n := |ix| - 1;
      PrefijoReserva(b, ix);
      PrefijoReserva(b, iy);
      ReservaUnica(b, ix[..n], iy[..n]);
      UltimoNoMenor(b, ix, iy);
      UltimoNoMenor(b, iy, ix);
      assert ix == ix[..n] + [ix[n]] && iy == iy[..n] + [iy[n]];
    }
  }

  /** n clear bits can be reserved exactly when there are n of them. */
  lemma {:induction false} HayReservaSiYSoloSi(b: seq<bool>, n: nat)
    ensures HayReserva(b, n) <==> n <= Libres(b)
  {
    if n <= Libres(b) {
      var ix := PrimerasN(b, n);
      assert PrimerosLibres(b, ix);
    } else if HayReserva(b, n) {
      var ix: seq<nat> :| |ix| == n && PrimerosLibres(b, ix);
      LibresTrasMarcar(b, ix);
    }
  }

  lemma {:induction false} PrimerasN(b: seq<bool>, n: nat) returns (ix: seq<nat>)
    requires n <= Libres(b)
    ensures |ix| == n && PrimerosLibres(b, ix)
  {
    if n == 0 {
      ix := [];
    } else {
      var c := b[..|b| - 1];
      if n <= Libres(c) {
        ix := PrimerasN(c, n);
      } else {
        var iy := PrimerasN(c, n - 1);
        TodosListados(c, iy);
        ix := iy + [|b| - 1];
      }
    }
  }

  /** A reservation of every clear bit lists every clear bit. */
  lemma {:induction false} TodosListados(b: seq<bool>, ix: seq<nat>)
    requires PrimerosLibres(b, ix) && |ix| == Libres(b)
    ensures forall a :: 0 <= a < |b| && !b[a] ==> a in ix
  {
    LibresTrasMarcar(b, ix);
    SinLibres(Marcados(b, ix));
    var m := Marcados(b, ix);
    forall a | 0 <= a < |b| && !b[a]
      ensures a in ix
    {
      assert m[a] == (b[a] || a in ix);
    }
  }

  lemma {:induction false} SinLibres(b: seq<bool>)
    requires Libres(b) == 0
    ensures forall a :: 0 <= a < |b| ==> b[a]
  {
    if b == [] {
    } else {
      SinLibres(b[..|b| - 1]);
      assert forall a :: 0 <= a < |b| - 1 ==> b[a] == b[..|b| - 1][a];
    }
  }

  /** The check guards the reservation except in one case: an accepted dump runs past the last block
      exactly when its data blocks are all the free ones, with none left for the index. */
  lemma DesbordaSiYSoloSi(fs: Fs, p: Pedido, r: Respuesta, fs': Fs)
    requires Forma(fs) && Paso(fs, p, r, fs')
    ensures r == DESBORDADO <==> Acepta(fs, p.Size()) && Libres(fs.bitmap) == Requeridos(p.Size(), fs.blockSize)
    ensures r == RECHAZADO <==> !Acepta(fs, p.Size())
  {
    HayReservaSiYSoloSi(fs.bitmap, Requeridos(p.Size(), fs.blockSize) + 1);
    if r == ACEPTADO {
      var ix :| PasoAceptado(fs, p.nombre, p.Size(), p.Contenido(), ix, fs');
      assert HayReserva(fs.bitmap, Requeridos(p.Size(), fs.blockSize) + 1);
    }
  }

  /** n blocks hold size bytes exactly when they are as many as are required. */
  lemma CabeSiYSoloSi(size: nat, bs: nat, n: nat)
    requires bs > 0
    ensures Requeridos(size, bs) <= n <==> size <= n * bs
  {
    TechoCotas(size, bs);
    var t := Techo(size, bs);
    hide Techo;
    if t <= n {
      Monotonia(t, n, bs);
    } else {
      Monotonia(n, t - 1, bs);
    }
  }

  lemma AceptaEnBytes(size: nat, bs: nat, libres: nat)
    requires bs > 0
    ensures Requeridos(size, bs) <= bs / PALABRA && Requeridos(size, bs) <= libres
            <==> size <= (bs / 4) * bs && size <= libres * bs
    ensures Requeridos(size, bs) + 1 <= libres <==> size <= (libres - 1) * bs
    ensures size <= (libres - 1) * bs ==> size <= libres * bs
  {
    CabeSiYSoloSi(size, bs, bs / PALABRA);
    CabeSiYSoloSi(size, bs, libres);
    hide Requeridos;
    assert (libres - 1) * bs == libres * bs - bs;
    if libres > 0 {
      CabeSiYSoloSi(size, bs, libres - 1);
    }
  }

  /** The answer in bytes and free blocks: rejected exactly when the words of an index block cannot point at
      enough blocks or the free ones cannot hold the dump, past the end exactly when they could only without
      one for the index, and accepted otherwise. */
  lemma RespuestaEnBytes(fs: Fs, p: Pedido, r: Respuesta, fs': Fs)
    requires Forma(fs) && Paso(fs, p, r, fs')
    ensures r == RECHAZADO <==>
            |p.datos| > (fs.blockSize / 4) * fs.blockSize || |p.datos| > Libres(fs.bitmap) * fs.blockSize
    ensures r == DESBORDADO <==> r != RECHAZADO && |p.datos| > (Libres(fs.bitmap) - 1) * fs.blockSize
    ensures r == ACEPTADO <==> |p.datos| <= (fs.blockSize / 4) * fs.blockSize
                               && |p.datos| <= (Libres(fs.bitmap) - 1) * fs.blockSize
  {
    DesbordaSiYSoloSi(fs, p, r, fs');
    hide Requeridos, Libres, Paso;
    AceptaEnBytes(|p.datos|, fs.blockSize, Libres(fs.bitmap));
    hide Base, ConfigValida;
  }

  /** One free block, one byte to dump: accepted, and there is no second block for it. */
  lemma UltimoBloqueDesborda(nombre: string, relleno: seq<Byte>)
    requires |relleno| >= 3
    ensures var fs := Fs(4, 1, [false], [0, 0, 0, 0], map[]);
            var p := Pedido(nombre, [7], relleno);
            Inv(fs) && Acepta(fs, p.Size()) && Paso(fs, p, DESBORDADO, fs)
  {
    var fs := Fs(4, 1, [false], [0, 0, 0, 0], map[]);
    assert fs.bitmap[..0] == [] && Libres(fs.bitmap) == 1;
    assert Techo(1, 4) == 1;
    HayReservaSiYSoloSi(fs.bitmap, 2);
  }

  // ---- Runs ----

  ghost predicate Corrida(fss: seq<Fs>, ps: seq<Pedido>, rs: seq<Respuesta>) {
    && |fss| == |ps| + 1 && |rs| == |ps| && Inv(fss[0])
    && (forall k :: 0 <= k < |ps| ==> rs[k] != DESBORDADO)
    && (forall k :: 0 <= k < |ps| ==> Forma(fss[k]) && Paso(fss[k], ps[k], rs[k], fss[k + 1]))
  }

  /** What the store should hold after answering the requests. */
  ghost function Esperado(c: map<string, seq<Byte>>, ps: seq<Pedido>, rs: seq<Respuesta>): map<string, seq<Byte>>
    requires |rs| == |ps|
  {
    if ps == [] then c
    else
      var n := |ps| - 1;
      var previo := Esperado(c, ps[..n], rs[..n]);
      if rs[n] == ACEPTADO then previo[ps[n].nombre := ps[n].datos] else previo
  }

  /** Blocks taken by the accepted requests: the data blocks and one index block each. */
  ghost function Consumo(bs: nat, ps: seq<Pedido>, rs: seq<Respuesta>): nat
    requires bs > 0 && |rs| == |ps|
  {
    if ps == [] then 0
    else
      var n := |ps| - 1;
      Consumo(bs, ps[..n], rs[..n]) + (if rs[n] == ACEPTADO then Requeridos(ps[n].Size(), bs) + 1 else 0)
  }

  lemma PasoRefina(fs: Fs, p: Pedido, r: Respuesta, fs': Fs)
    requires Inv(fs) && Paso(fs, p, r, fs') && r != DESBORDADO
    ensures Inv(fs') && fs'.blockSize == fs.blockSize && fs'.blockCount == fs.blockCount
    ensures Contenidos(fs') == if r == ACEPTADO then Contenidos(fs)[p.nombre := p.datos] else Contenidos(fs)
    ensures Libres(fs'.bitmap) == Libres(fs.bitmap) - if r == ACEPTADO
            then Requeridos(p.Size(), fs.blockSize) + 1 else 0
  {
    assert Forma(fs);
    hide Inv, Contenidos, Forma, Libres, Requeridos, BloquesTras;
    if r == ACEPTADO {
      var ix :| PasoAceptado(fs, p.nombre, p.Size(), p.Contenido(), ix, fs');
      DumpEsActualizacion(fs, p.nombre, p.Size(), p.Contenido(), ix, fs');
      LibresTrasMarcar(fs.bitmap, ix);
    }
  }

  /** The dump changes what the store means in one file. */
  ghost predicate Registra(fs: Fs, nombre: string, datos: seq<Byte>, fs': Fs) {
    Inv(fs) && Inv(fs') && Contenidos(fs') == Contenidos(fs)[nombre := datos]
  }

  /** What a request leaves: nothing changed, or one more file. */
  lemma PasoRegistra(fs: Fs, p: Pedido, r: Respuesta, fs': Fs)
    requires Forma(fs) && Paso(fs, p, r, fs')
    ensures r == ACEPTADO && Inv(fs) ==> Registra(fs, p.nombre, p.datos, fs')
    ensures r == RECHAZADO ==> fs' == fs
  {
    hide Inv, Contenidos, Forma, PasoAceptado, HayReserva, Acepta;
    if r == ACEPTADO && Inv(fs) {
      PasoRefina(fs, p, r, fs');
    }
  }

  /** Over any run of dumps the store is exactly the map its users expect, and the bitmap accounts
      for every accepted dump. */
  lemma {:induction false} CorridaRefinaMapa(fss: seq<Fs>, ps: seq<Pedido>, rs: seq<Respuesta>, k: nat)
    requires Corrida(fss, ps, rs) && k <= |ps|
    ensures Inv(fss[k]) && fss[k].blockSize == fss[0].blockSize > 0
    ensures Contenidos(fss[k]) == Esperado(Contenidos(fss[0]), ps[..k], rs[..k])
    ensures Libres(fss[k].bitmap) == Libres(fss[0].bitmap) - Consumo(fss[0].blockSize, ps[..k], rs[..k])
  {
    if k == 0 {
    } else {
      CorridaRefinaMapa(fss, ps, rs, k - 1);
      hide Inv, Contenidos, Forma, Libres, Requeridos, Paso;
      PasoRefina(fss[k - 1], ps[k - 1], rs[k - 1], fss[k]);
      assert ps[..k][..k - 1] == ps[..k - 1] && rs[..k][..k - 1] == rs[..k - 1];
    }
  }

  /** Over any run, each answer is the one that the sizes of the requests before it determine. */
  lemma RespuestaEnCorrida(fss: seq<Fs>, ps: seq<Pedido>, rs: seq<Respuesta>, k: nat)
    requires Corrida(fss, ps, rs) && k < |ps|
    ensures var bs := fss[0].blockSize;
            var libres := Libres(fss[0].bitmap) - (if bs > 0 then Consumo(bs, ps[..k], rs[..k]) else 0);
            rs[k] == ACEPTADO <==> |ps[k].datos| <= (bs / 4) * bs && |ps[k].datos| <= (libres - 1) * bs
  {
    CorridaRefinaMapa(fss, ps, rs, k);
    hide Consumo, Libres, Forma, Inv, Contenidos, Esperado;
    RespuestaEnBytes(fss[k], ps[k], rs[k], fss[k + 1]);
  }
}
