/** The dump server as it runs: a mapped bitmap, a mapped space of blocks and the metadata, all
    updated in place.
    Source: filesystem/src/archivo_dump.c. */
module ArchivoDump {
  import opened Bytes
  import opened Dump
  import opened Listas

  class FileSystem {
    const blockSize: nat
    const blockCount: nat
    const bitmap: array<bool>
    const bloques: array<Byte>
    var archivos: map<string, Meta>

    ghost function Vista(): Fs
      reads this, bitmap, bloques
    {
      Fs(blockSize, blockCount, bitmap[..], bloques[..], archivos)
    }

    ghost predicate Valid()
      reads this, bitmap, bloques
    {
      Forma(Vista())
    }

    /** A store on fresh files: every block free and nothing recorded. */
    constructor (blockSize: nat, blockCount: nat)
      requires ConfigValida(blockSize, blockCount)
      ensures Valid() && Inv(Vista()) && Contenidos(Vista()) == map[]
      ensures this.blockSize == blockSize && this.blockCount == blockCount && Libres(bitmap[..]) == blockCount
      ensures fresh(bitmap) && fresh(bloques)
    {
      this.blockSize, this.blockCount := blockSize, blockCount;
      bitmap := new bool[blockCount](_ => false);
      bloques := new Byte[blockCount * blockSize];
      archivos := map[];
      new;
      TodosLibres(bitmap[..]);
    }

    /** Answers whether the dump is accepted. */
    method VerificarEspacioBitmap(requeridos: nat) returns (hay: bool)
      requires Valid()
      ensures hay <==> requeridos <= blockSize / PALABRA && requeridos <= Libres(bitmap[..])
    {
      var cantidadLibre := 0;
      var cantIndices := blockSize / PALABRA;
      var offset := 0;
      while offset < blockCount
        invariant 0 <= offset <= blockCount
        invariant cantidadLibre == Libres(bitmap[..offset])
      {
        if !bitmap[offset] {
          cantidadLibre := cantidadLibre + 1;
        }
        assert bitmap[..offset + 1][..offset] == bitmap[..offset];
        offset := offset + 1;
      }
      assert bitmap[..blockCount] == bitmap[..];
      if cantIndices < requeridos {
        return false;
      }
      if cantidadLibre < requeridos {
        return false;
      }
      return true;
    }

    /** Reserves one block more than required: exactly the lowest clear ones, in ascending order.
        The scan has no upper bound; `desborda` says that it runs past the last block, which happens
        exactly when there are not that many clear bits. */
    method ReservarBitmap(requeridos: nat) returns (indices: seq<nat>, desborda: bool)
      requires Valid()
      modifies bitmap
      ensures Valid()
      ensures desborda <==> Libres(old(bitmap[..])) < requeridos + 1
      ensures desborda <==> !HayReserva(old(bitmap[..]), requeridos + 1)
      ensures !desborda ==> |indices| == requeridos + 1 && PrimerosLibres(old(bitmap[..]), indices)
      ensures !desborda ==> bitmap[..] == Marcados(old(bitmap[..]), indices)
    {
      ghost var b := bitmap[..];
      HayReservaSiYSoloSi(b, requeridos + 1);
      RecorridoInicial(b);
      hide PrimerosLibres, Recorrido, Marcados, Libres, HayReserva;
      var cont := requeridos + 1;
      indices, desborda := [], false;
      var i := 0;
      while cont > 0
        invariant 0 <= i <= blockCount && cont >= 0 && |indices| + cont == requeridos + 1
        invariant Recorrido(b, indices, i) && bitmap[..] == Marcados(b, indices)
        decreases blockCount - i
      {
        if i == blockCount {
          desborda := true;
          RecorridoCompleto(b, indices);
          return;
        }
        RecorridoPaso(b, indices, i);
        assert bitmap[i] == bitmap[..][i];
        if !bitmap[i] {
          ghost var c := bitmap[..];
          bitmap[i] := true;
          assert bitmap[..] == c[i := true];
          cont := cont - 1;
          indices := indices + [i];
        }
        i := i + 1;
      }
      RecorridoReserva(b, indices, i);
    }

    method CrearArchivoMetadata(nombre: string, size: Uint32, indiceBloqueIndice: nat)
      modifies this
      ensures archivos == old(archivos)[nombre := Meta(size, indiceBloqueIndice)]
    {
      archivos := archivos[nombre := Meta(size, indiceBloqueIndice)];
    }

    /** Writes the start of every data block in the index block, one word each. */
    method ActualizarBloqueIndices(indices: seq<nat>)
      requires Valid() && |indices| >= 1 && PALABRA * (|indices| - 1) <= blockSize
      requires forall k :: 0 <= k < |indices| ==> indices[k] < blockCount
      modifies bloques
      ensures Valid()
      ensures Enteros(indices, blockSize) && Enteros(indices[1..], blockSize)
      ensures Base(indices[0], blockSize) + blockSize <= bloques.Length
      ensures bloques[..] == Grabar(old(bloques[..]), Base(indices[0], blockSize), Palabras(indices[1..], blockSize))
    {
      hide Le32, Grabar, Palabras, Enteros, Base, Forma;
      ghost var fs, b, datos := Vista(), bloques[..], indices[1..];
      IndicesEscribibles(fs, indices);
      var offsetInicioIndice := indices[0] * blockSize;
      var offsetIndice := 0;
      var i := 1;
      while i <= |indices| - 1
        invariant 1 <= i <= |indices| && offsetIndice == PALABRA * (i - 1)
        invariant Enteros(datos[..i - 1], blockSize)
        invariant bloques[..] == Grabar(b, offsetInicioIndice, Palabras(datos[..i - 1], blockSize))
      {
        PalabrasPaso(datos, blockSize, i - 1);
        var contenido := indices[i] * blockSize;
        Memcpy(bloques, offsetInicioIndice + offsetIndice, Le32(contenido));
        EsGrabar(Grabar(b, offsetInicioIndice, Palabras(datos[..i - 1], blockSize)),
                 offsetInicioIndice + offsetIndice, Le32(contenido));
        GrabarSeguido(b, offsetInicioIndice, Palabras(datos[..i - 1], blockSize), Le32(contenido));
        offsetIndice := offsetIndice + PALABRA;
        i := i + 1;
      }
      assert datos[..|indices| - 1] == datos;
      FormaPorLargo(fs, Vista());
    }

    /** Copies n bytes, rounded up to whole words, into one data block. */
    method GrabarBloque(inicio: nat, contenido: seq<Byte>, desde: nat, n: nat) returns (hasta: nat)
      requires inicio + EnPalabras(n) <= bloques.Length && desde + EnPalabras(n) <= |contenido|
      modifies bloques
      ensures hasta == desde + EnPalabras(n)
      ensures bloques[..] == Grabar(old(bloques[..]), inicio, contenido[desde..hasta])
    {
      hide Grabar, EnPalabras, Techo;
      ghost var b := bloques[..];
      EnPalabrasCota(n);
      GrabarNada(b, inicio);
      assert contenido[desde..desde] == [];
      hasta := desde;
      var offsetDato := 0;
      while offsetDato < n
        invariant offsetDato % PALABRA == 0 && 0 <= offsetDato <= EnPalabras(n) && hasta == desde + offsetDato
        invariant bloques[..] == Grabar(b, inicio, contenido[desde..hasta])
      {
        ghost var hecho, palabra := contenido[desde..hasta], contenido[hasta..hasta + PALABRA];
        Memcpy(bloques, inicio + offsetDato, contenido[hasta..hasta + PALABRA]);
        EsGrabar(Grabar(b, inicio, hecho), inicio + offsetDato, palabra);
        GrabarSeguido(b, inicio, hecho, palabra);
        assert hecho + palabra == contenido[desde..hasta + PALABRA];
        hasta := hasta + PALABRA;
        offsetDato := offsetDato + PALABRA;
      }
    }

    /** Spreads the content over the data blocks. */
    method ActualizarBloqueDatos(indices: seq<nat>, contenido: seq<Byte>, size: Uint32)
      requires Valid() && |indices| == Requeridos(size, blockSize) + 1 && |contenido| >= size + 3
      requires forall k :: 0 <= k < |indices| ==> indices[k] < blockCount
      modifies bloques
      ensures Valid()
      ensures Escribible(old(bloques[..]), indices[1..], contenido, size, blockSize)
      ensures bloques[..] == GrabarDatos(old(bloques[..]), indices[1..], contenido, size, blockSize, |indices| - 1)
    {
      hide Grabar, GrabarDatos, Escribible, Base, EnPalabras, Techo, Pieza, LargoPieza, Forma;
      ghost var fs, b, datos := Vista(), bloques[..], indices[1..];
      DatosEscribibles(fs, indices, contenido, size);
      var cantBloquesDatos := |indices| - 1;
      var offsetContenido := 0;
      var i := 1;
      while i <= cantBloquesDatos
        invariant 1 <= i <= cantBloquesDatos + 1
        invariant i <= cantBloquesDatos ==> offsetContenido == Base(i - 1, blockSize)
        invariant bloques[..] == GrabarDatos(b, datos, contenido, size, blockSize, i - 1)
      {
        GrabarDatosPaso(b, datos, contenido, size, blockSize, i - 1);
        var offsetInicioBloque := indices[i] * blockSize;
        var n;
        if i == cantBloquesDatos {
          n := size - (i - 1) * blockSize;
        } else {
          n := blockSize;
        }
        assert datos[i - 1] == indices[i];
        offsetContenido := GrabarBloque(offsetInicioBloque, contenido, offsetContenido, n);
        i := i + 1;
      }
      FormaPorLargo(fs, Vista());
    }

    /** Each request is one step of the value-level store: rejected with nothing changed, or accepted
        and recorded, or past the end of the bitmap. Which of them is a matter of bytes and free blocks. */
    method CrearArchivoDump(nombre: string, size: Uint32, contenido: seq<Byte>) returns (r: Respuesta)
      requires Valid() && |contenido| >= size + 3
      modifies this, bitmap, bloques
      ensures Valid()
      ensures Paso(old(Vista()), Pedido(nombre, contenido[..size], contenido[size..]), r, Vista())
      ensures r == RECHAZADO <==>
              size > (blockSize / 4) * blockSize || size > Libres(old(bitmap[..])) * blockSize
      ensures r == DESBORDADO <==> r != RECHAZADO && size > (Libres(old(bitmap[..])) - 1) * blockSize
    {
      ghost var fs := Vista();
      var requeridos := (size + blockSize - 1) / blockSize;
      assert requeridos == Requeridos(size, blockSize);
      AceptaEnBytes(size, blockSize, Libres(bitmap[..]));
      hide Base, Requeridos, Techo, Libres, PrimerosLibres, Marcados, HayReserva, PasoAceptado;
      var hay := VerificarEspacioBitmap(requeridos);
      if !hay {
        return RECHAZADO;
      }
      var indices, desborda := ReservarBitmap(requeridos);
      if desborda {
        return DESBORDADO;
      }
      RegistrarArchivo(nombre, size, contenido, indices, fs);
      EsPaso(fs, nombre, size, contenido, indices, Vista());
      return ACEPTADO;
    }

    /** The metadata, the index block and the data blocks of an accepted dump; `fs` is the store before the
        reservation. */
    method RegistrarArchivo(nombre: string, size: Uint32, contenido: seq<Byte>, indices: seq<nat>, ghost fs: Fs)
      requires Valid() && Forma(fs) && |contenido| >= size + 3 && PrimerosLibres(fs.bitmap, indices)
      requires |indices| == Requeridos(size, blockSize) + 1 <= blockSize / PALABRA + 1
      requires Vista() == fs.(bitmap := Marcados(fs.bitmap, indices))
      modifies this, bloques
      ensures Valid() && PasoAceptado(fs, nombre, size, contenido, indices, Vista())
    {
      hide Base, Requeridos, Libres, PrimerosLibres, Marcados, Palabras, Grabar, GrabarDatos, Escribible;
      ReservaDentro(fs.bitmap, indices);
      CrearArchivoMetadata(nombre, size, indices[0]);
      ActualizarBloqueIndices(indices);
      ActualizarBloqueDatos(indices, contenido, size);
      EsPasoAceptado(fs, nombre, size, contenido, indices, Vista());
    }
  }

  lemma {:induction false} TodosLibres(b: seq<bool>)
    requires forall a :: 0 <= a < |b| ==> !b[a]
    ensures Libres(b) == |b|
  {
    if b == [] {
    } else {
      TodosLibres(b[..|b| - 1]);
    }
  }

  /** A list of clear bits that misses none has as many entries as there are clear bits. */
  lemma CuentaLibres(b: seq<bool>, ix: seq<nat>)
    requires Creciente(ix) && forall k :: 0 <= k < |ix| ==> ix[k] < |b| && !b[ix[k]]
    requires forall a :: 0 <= a < |b| && !b[a] ==> a in ix
    ensures |ix| == Libres(b)
  {
    LibresTrasMarcar(b, ix);
    TodosTomados(Marcados(b, ix));
  }

  lemma {:induction false} TodosTomados(b: seq<bool>)
    requires forall a :: 0 <= a < |b| ==> b[a]
    ensures Libres(b) == 0
  {
    if b == [] {
    } else {
      TodosTomados(b[..|b| - 1]);
    }
  }

  // ---- The scan of the bitmap ----

  /** ix lists every clear bit below i. */
  ghost predicate Recorrido(b: seq<bool>, ix: seq<nat>, i: nat) {
    && i <= |b| && Creciente(ix)
    && (forall k :: 0 <= k < |ix| ==> ix[k] < i && !b[ix[k]])
    && (forall a :: 0 <= a < i && !b[a] ==> a in ix)
  }

  lemma RecorridoInicial(b: seq<bool>)
    ensures Recorrido(b, [], 0) && Marcados(b, []) == b
  {
  }

  lemma RecorridoPaso(b: seq<bool>, ix: seq<nat>, i: nat)
    requires Recorrido(b, ix, i) && i < |b|
    ensures Marcados(b, ix)[i] == b[i]
    ensures b[i] ==> Recorrido(b, ix, i + 1)
    ensures !b[i] ==> Recorrido(b, ix + [i], i + 1) && Marcados(b, ix + [i]) == Marcados(b, ix)[i := true]
  {
    var iy := ix + [i];
    forall a | 0 <= a < i && !b[a]
      ensures a in iy
    {
      assert a in ix;
    }
  }

  lemma RecorridoReserva(b: seq<bool>, ix: seq<nat>, i: nat)
    requires Recorrido(b, ix, i)
    ensures PrimerosLibres(b, ix) && (|ix| > 0 ==> |ix| <= Libres(b))
  {
    LibresTrasMarcar(b, ix);
  }

  lemma ReservaDentro(b: seq<bool>, ix: seq<nat>)
    requires PrimerosLibres(b, ix)
    ensures forall k :: 0 <= k < |ix| ==> ix[k] < |b|
  {
  }

  lemma RecorridoCompleto(b: seq<bool>, ix: seq<nat>)
    requires Recorrido(b, ix, |b|)
    ensures |ix| == Libres(b)
  {
    CuentaLibres(b, ix);
  }

  // ---- The writes ----

  ghost predicate Enteros(ix: seq<nat>, bs: nat) {
    forall k :: 0 <= k < |ix| ==> Base(ix[k], bs) < 0x1_0000_0000
  }

  lemma IndicesEscribibles(fs: Fs, ix: seq<nat>)
    requires Forma(fs) && |ix| >= 1 && forall k :: 0 <= k < |ix| ==> ix[k] < fs.blockCount
    ensures Base(ix[0], fs.blockSize) == ix[0] * fs.blockSize
    ensures Base(ix[0], fs.blockSize) + fs.blockSize <= |fs.bloques|
    ensures Enteros(ix, fs.blockSize) && Enteros(ix[1..], fs.blockSize) && Enteros(ix[1..][..0], fs.blockSize)
    ensures Grabar(fs.bloques, Base(ix[0], fs.blockSize), Palabras(ix[1..][..0], fs.blockSize)) == fs.bloques
  {
    BloquesCaben(fs, ix);
  }

  lemma FormaPorLargo(fs: Fs, fs': Fs)
    requires Forma(fs) && fs'.blockSize == fs.blockSize && fs'.blockCount == fs.blockCount
    requires |fs'.bitmap| == |fs.bitmap| && |fs'.bloques| == |fs.bloques|
    ensures Forma(fs')
  {
  }

  lemma PalabrasPaso(ix: seq<nat>, bs: nat, k: nat)
    requires Enteros(ix, bs) && k < |ix|
    ensures Base(ix[k], bs) == ix[k] * bs < 0x1_0000_0000
    ensures Enteros(ix[..k], bs) && Enteros(ix[..k + 1], bs)
    ensures Palabras(ix[..k + 1], bs) == Palabras(ix[..k], bs) + Le32(ix[k] * bs)
  {
    assert ix[..k + 1][..k] == ix[..k];
  }

  lemma EnPalabrasCota(n: nat)
    ensures EnPalabras(n) % PALABRA == 0 && n <= EnPalabras(n) < n + PALABRA
  {
  }

  lemma GrabarNada(b: seq<Byte>, off: nat)
    requires off <= |b|
    ensures Grabar(b, off, []) == b
  {
  }

  lemma EsGrabar(b: seq<Byte>, off: nat, datos: seq<Byte>)
    requires off + |datos| <= |b|
    ensures Grabar(b, off, datos) == b[..off] + datos + b[off + |datos|..]
  {
  }

  lemma DatosEscribibles(fs: Fs, ix: seq<nat>, contenido: seq<Byte>, size: nat)
    requires Forma(fs) && |ix| == Requeridos(size, fs.blockSize) + 1 && |contenido| >= size + 3
    requires forall k :: 0 <= k < |ix| ==> ix[k] < fs.blockCount
    ensures Escribible(fs.bloques, ix[1..], contenido, size, fs.blockSize) && Base(0, fs.blockSize) == 0
    ensures GrabarDatos(fs.bloques, ix[1..], contenido, size, fs.blockSize, 0) == fs.bloques
  {
    BloquesCaben(fs, ix);
  }

  lemma GrabarDatosPaso(b: seq<Byte>, ix: seq<nat>, contenido: seq<Byte>, size: nat, bs: nat, n: nat)
    requires Escribible(b, ix, contenido, size, bs) && n < |ix|
    ensures var largo := if n == |ix| - 1 then size - n * bs else bs;
            && largo > 0
            && Base(ix[n], bs) == ix[n] * bs && Base(ix[n], bs) + EnPalabras(largo) <= |b|
            && Base(n, bs) + EnPalabras(largo) <= |contenido|
            && (n < |ix| - 1 ==> Base(n, bs) + EnPalabras(largo) == Base(n + 1, bs))
            && GrabarDatos(b, ix, contenido, size, bs, n + 1) ==
                 Grabar(GrabarDatos(b, ix, contenido, size, bs, n), Base(ix[n], bs),
                        contenido[Base(n, bs)..Base(n, bs) + EnPalabras(largo)])
  {
    PiezaDentro(size, bs, n);
    if n < |ix| - 1 {
      assert (n + 1) * bs == n * bs + bs;
    }
  }

  lemma EsPasoAceptado(fs: Fs, nombre: string, size: Uint32, contenido: seq<Byte>, ix: seq<nat>, fs': Fs)
    requires Forma(fs) && |contenido| >= size + 3
    requires |ix| == Requeridos(size, fs.blockSize) + 1 <= fs.blockSize / PALABRA + 1 && PrimerosLibres(fs.bitmap, ix)
    requires fs'.blockSize == fs.blockSize && fs'.blockCount == fs.blockCount && fs'.bitmap == Marcados(fs.bitmap, ix)
    requires fs'.bloques == BloquesTras(fs, size, contenido, ix)
    requires fs'.archivos == fs.archivos[nombre := Meta(size, ix[0])]
    ensures PasoAceptado(fs, nombre, size, contenido, ix, fs')
  {
  }

  lemma EsPaso(fs: Fs, nombre: string, size: Uint32, contenido: seq<Byte>, ix: seq<nat>, fs': Fs)
    requires Forma(fs) && |contenido| >= size + 3 && Acepta(fs, size)
    requires PasoAceptado(fs, nombre, size, contenido, ix, fs')
    ensures Paso(fs, Pedido(nombre, contenido[..size], contenido[size..]), ACEPTADO, fs')
  {
    var p := Pedido(nombre, contenido[..size], contenido[size..]);
    assert p.Size() == size && p.Contenido() == contenido;
    hide PasoAceptado, Forma, Acepta;
    assert PasoAceptado(fs, p.nombre, p.Size(), p.Contenido(), ix, fs');
  }
}
