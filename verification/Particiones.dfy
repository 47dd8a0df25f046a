/** The partition table of the memory module as a value: what a table means, what allocating and
    releasing do to it, and which tables they keep.
    Sources: memoria/src/administrativo.c, algoritmos_busqueda.c, algoritmos_particiones.c. */
module Particiones {

  /** One entry of tablaParticiones; `fin` is the last address it holds. */
  datatype Bloque = Bloque(inicio: int, fin: int, tamanio: int, ocupado: bool)
  {
    predicate Contiene(a: int) {
      inicio <= a <= fin
    }
    predicate Elegible(n: int) {
      !ocupado && tamanio >= n
    }
  }

  type Tabla = seq<Bloque>

  datatype Esquema = FIJAS | DINAMICAS
  datatype Algoritmo = FIRST | BEST | WORST | DESCONOCIDO
  datatype OpCode = SUCCESS | MAX_SIZE_ERROR | SIZE_ERROR | PATH_ERROR | PID_NOT_FOUND | TID_NOT_FOUND

  // ---- Meaning of a table ----

  ghost predicate BienFormado(b: Bloque) {
    b.tamanio >= 1 && b.tamanio == b.fin - b.inicio + 1
  }

  /** The blocks of `t`, in order, cover the addresses ini..fin without holes or overlaps. */
  ghost predicate Cubre(t: Tabla, ini: int, fin: int) {
    && |t| > 0 && t[0].inicio == ini && t[|t| - 1].fin == fin
    && (forall i :: 0 <= i < |t| ==> BienFormado(t[i]))
    && (forall i :: 0 < i < |t| ==> t[i].inicio == t[i - 1].fin + 1)
  }

  ghost predicate Teselada(t: Tabla, tam: int) {
    Cubre(t, 0, tam - 1)
  }

  ghost predicate Ocupada(t: Tabla, a: int) {
    exists i :: 0 <= i < |t| && t[i].ocupado && t[i].Contiene(a)
  }

  /** n consecutive addresses of the memory that no occupied partition holds. */
  ghost predicate Hueco(t: Tabla, tam: int, base: int, n: int) {
    0 <= base && base + n <= tam && forall a :: base <= a < base + n ==> !Ocupada(t, a)
  }

  /** No two neighbours are both free. */
  ghost predicate Coalescida(t: Tabla) {
    forall i :: 0 < i < |t| ==> t[i - 1].ocupado || t[i].ocupado
  }

  ghost function Bytes(t: Tabla, ocupado: bool): int {
    if t == [] then 0 else (if t[0].ocupado == ocupado then t[0].tamanio else 0) + Bytes(t[1..], ocupado)
  }

  // ---- Fixed partitions ----

  ghost function Suma(tamanios: seq<int>): int {
    if tamanios == [] then 0 else Suma(tamanios[..|tamanios| - 1]) + tamanios[|tamanios| - 1]
  }

  /** The free partitions of the given sizes, each from where the one before ends. */
  ghost function Fijada(tamanios: seq<int>): (t: Tabla)
    ensures |t| == |tamanios|
  {
    if tamanios == [] then []
    else
      var n := |tamanios| - 1;
      var a := Suma(tamanios[..n]);
      Fijada(tamanios[..n]) + [Bloque(a, a + tamanios[n] - 1, tamanios[n], false)]
  }

  lemma {:induction false} FijadaEn(s: seq<int>, k: nat)
    requires k < |s|
    ensures Fijada(s)[k] == Bloque(Suma(s[..k]), Suma(s[..k]) + s[k] - 1, s[k], false)
  {
    var n := |s| - 1;
    if k < n {
      FijadaEn(s[..n], k);
      assert s[..n][..k] == s[..k];
    }
  }

  lemma FijadaLibre(s: seq<int>)
    ensures forall k :: 0 <= k < |s| ==> !Fijada(s)[k].ocupado
  {
    forall k | 0 <= k < |s|
      ensures !Fijada(s)[k].ocupado
    {
      FijadaEn(s, k);
    }
  }

  lemma CubreUno(b: Bloque)
    requires BienFormado(b)
    ensures Cubre([b], b.inicio, b.fin)
  {
  }

  lemma CubreAgregar(t: Tabla, ini: int, fin: int, b: Bloque)
    requires Cubre(t, ini, fin) && BienFormado(b) && b.inicio == fin + 1
    ensures Cubre(t + [b], ini, b.fin)
  {
  }

  lemma {:induction false} FijadaTesela(s: seq<int>)
    requires s != [] && forall k :: 0 <= k < |s| ==> s[k] >= 1
    ensures Teselada(Fijada(s), Suma(s))
  {
    hide Cubre;
    var n := |s| - 1;
    var b := Bloque(Suma(s[..n]), Suma(s) - 1, s[n], false);
    CubreUno(b);
    if n > 0 {
      FijadaTesela(s[..n]);
      CubreAgregar(Fijada(s[..n]), 0, Suma(s[..n]) - 1, b);
    } else {
      assert s[..n] == [] && [] + [b] == [b];
    }
  }

  lemma EntradaVaciaNoTesela(t: Tabla, tam: int, k: nat)
    requires k < |t| && t[k].tamanio < 1
    ensures !Teselada(t, tam)
  {
    assert !BienFormado(t[k]);
  }

  /** The configured sizes tile the addresses below their sum exactly when there is one at least and each
      is positive. */
  lemma FijadaTeselaSiYSoloSi(s: seq<int>)
    ensures Teselada(Fijada(s), Suma(s)) <==> s != [] && forall k :: 0 <= k < |s| ==> s[k] >= 1
  {
    if k :| 0 <= k < |s| && s[k] < 1 {
      FijadaEn(s, k);
      EntradaVaciaNoTesela(Fijada(s), Suma(s), k);
    } else if s != [] {
      FijadaTesela(s);
    }
  }

  // ---- Bytes of a tiling ----

  lemma {:induction false} Ascendente(t: Tabla, ini: int, fin: int, i: int, j: int)
    requires Cubre(t, ini, fin) && 0 <= i < j < |t|
    ensures t[i].fin < t[j].inicio
    decreases j - i
  {
    assert BienFormado(t[j - 1]);
    if i < j - 1 {
      Ascendente(t, ini, fin, i, j - 1);
    }
  }

  /** Every covered address lies in one block. */
  lemma {:induction false} BloqueDe(t: Tabla, ini: int, fin: int, a: int) returns (i: int)
    requires Cubre(t, ini, fin) && ini <= a <= fin
    ensures 0 <= i < |t| && t[i].Contiene(a)
  {
    i := 0;
    while t[i].fin < a
      invariant 0 <= i < |t| && t[i].inicio <= a
      decreases |t| - i
    {
      i := i + 1;
    }
  }

  lemma BloqueUnico(t: Tabla, ini: int, fin: int, i: int, j: int, a: int)
    requires Cubre(t, ini, fin) && 0 <= i < |t| && 0 <= j < |t|
    requires t[i].Contiene(a) && t[j].Contiene(a)
    ensures i == j
  {
    if i < j {
      Ascendente(t, ini, fin, i, j);
    } else if j < i {
      Ascendente(t, ini, fin, j, i);
    }
  }

  /** Occupied plus free bytes are the bytes of the covered range. */
  lemma {:induction false} BytesConservados(t: Tabla, ini: int, fin: int)
    requires Cubre(t, ini, fin)
    ensures Bytes(t, true) + Bytes(t, false) == fin - ini + 1
  {
    assert BienFormado(t[0]);
    if |t| == 1 {
      assert t[1..] == [];
    } else {
      BytesConservados(t[1..], t[1].inicio, fin);
    }
  }

  // ---- Choosing a partition ----

  /** Index i is the choice of the algorithm for n bytes; ties go to the lowest index. */
  ghost predicate Elige(alg: Algoritmo, t: Tabla, n: int, i: int) {
    && 0 <= i < |t| && t[i].Elegible(n)
    && match alg
       case FIRST => forall j :: 0 <= j < i ==> !t[j].Elegible(n)
       case BEST => forall j :: 0 <= j < |t| && t[j].Elegible(n) ==>
                      t[i].tamanio <= t[j].tamanio && (j < i ==> t[i].tamanio < t[j].tamanio)
       case WORST => forall j :: 0 <= j < |t| && t[j].Elegible(n) ==>
                       t[i].tamanio >= t[j].tamanio && (j < i ==> t[i].tamanio > t[j].tamanio)
       case DESCONOCIDO => false
  }

  ghost predicate HayElegible(t: Tabla, n: int) {
    exists i :: 0 <= i < |t| && t[i].Elegible(n)
  }

  ghost function Entra(t: Tabla, tam: int, n: int): OpCode {
    if tam < n then MAX_SIZE_ERROR else if HayElegible(t, n) then SUCCESS else SIZE_ERROR
  }

  lemma EleccionUnica(alg: Algoritmo, t: Tabla, n: int, i: int, j: int)
    requires Elige(alg, t, n, i) && Elige(alg, t, n, j)
    ensures i == j
  {
  }

  /** The algorithm has a partition to choose. */
  ghost predicate Encuentra(alg: Algoritmo, t: Tabla, n: int) {
    exists i :: Elige(alg, t, n, i)
  }

  /** Every configured fit finds a partition exactly when some free one is large enough. */
  lemma EleccionExiste(alg: Algoritmo, t: Tabla, n: int)
    requires alg != DESCONOCIDO
    ensures Encuentra(alg, t, n) <==> HayElegible(t, n)
  {
    if HayElegible(t, n) {
      var i :| 0 <= i < |t| && t[i].Elegible(n);
      var m := MejorHasta(alg, t, n, i, |t|);
      assert t[..|t|] == t;
    }
  }

  /** The best of the first k partitions, once one of them is large enough. */
  lemma {:induction false} MejorHasta(alg: Algoritmo, t: Tabla, n: int, i: nat, k: nat) returns (m: nat)
    requires alg != DESCONOCIDO && i < k <= |t| && t[i].Elegible(n)
    ensures Elige(alg, t[..k], n, m)
    decreases k
  {
    if j: nat :| j < k - 1 && t[j].Elegible(n) {
      m := MejorHasta(alg, t, n, j, k - 1);
      var ultima := t[k - 1];
      var mejora := if alg == BEST then ultima.tamanio < t[m].tamanio
                    else alg == WORST && ultima.tamanio > t[m].tamanio;
      if ultima.Elegible(n) && mejora {
        m := k - 1;
      }
    } else {
      m := i;
    }
  }

  /** A free range of n bytes exists whenever the table answers SUCCESS; the converse needs the
      free neighbours to be merged. Then the table refuses only requests that cannot be met. */
  lemma EntraSiYSoloSiHayHueco(t: Tabla, tam: int, n: int)
    requires Teselada(t, tam) && n >= 1
    ensures Entra(t, tam, n) == SUCCESS ==> exists base :: Hueco(t, tam, base, n)
    ensures Coalescida(t) && (exists base :: Hueco(t, tam, base, n)) ==> Entra(t, tam, n) == SUCCESS
  {
    if i :| 0 <= i < |t| && t[i].Elegible(n) {
      forall a | t[i].inicio <= a < t[i].inicio + n
        ensures !Ocupada(t, a)
      {
        assert BienFormado(t[i]);
        forall j | 0 <= j < |t| && t[j].Contiene(a)
          ensures j == i
        {
          BloqueUnico(t, 0, tam - 1, i, j, a);
        }
      }
      DentroDelRango(t, 0, tam - 1, i);
      assert Hueco(t, tam, t[i].inicio, n);
    }
    if base :| Coalescida(t) && Hueco(t, tam, base, n) {
      var i := BloqueDe(t, 0, tam - 1, base);
      assert !Ocupada(t, base);
      assert BienFormado(t[i]);
      if t[i].fin < base + n - 1 {
        var siguiente := t[i].fin + 1;
        assert i + 1 < |t| && BienFormado(t[i + 1]);
        assert t[i + 1].ocupado && t[i + 1].Contiene(siguiente) && Ocupada(t, siguiente);
        assert false;
      }
      assert t[i].Elegible(n);
    }
  }

  lemma DentroDelRango(t: Tabla, ini: int, fin: int, i: int)
    requires Cubre(t, ini, fin) && 0 <= i < |t|
    ensures ini <= t[i].inicio <= t[i].fin <= fin
  {
    assert BienFormado(t[i]) && BienFormado(t[0]) && BienFormado(t[|t| - 1]);
    if 0 < i {
      Ascendente(t, ini, fin, 0, i);
    }
    if i < |t| - 1 {
      Ascendente(t, ini, fin, i, |t| - 1);
    }
  }

  // ---- Replacing a stretch of the table ----

  ghost function Reemplazo(t: Tabla, lo: nat, hi: nat, m: Tabla): Tabla
    requires lo <= hi <= |t|
  {
    t[..lo] + m + t[hi..]
  }

  /** Where each entry of the new table comes from. */
  lemma ReemplazoIndice(t: Tabla, lo: nat, hi: nat, m: Tabla, k: int)
    requires lo <= hi <= |t| && 0 <= k < lo + |m| + |t| - hi
    ensures Reemplazo(t, lo, hi, m)[k]
            == if k < lo then t[k] else if k < lo + |m| then m[k - lo] else t[k - lo - |m| + hi]
  {
  }

  lemma ReemplazoCubre(t: Tabla, lo: nat, hi: nat, m: Tabla, ini: int, fin: int)
    requires Cubre(t, ini, fin) && lo < hi <= |t|
    requires Cubre(m, t[lo].inicio, t[hi - 1].fin)
    ensures Cubre(Reemplazo(t, lo, hi, m), ini, fin)
  {
    var r := Reemplazo(t, lo, hi, m);
    assert |r| == lo + |m| + |t| - hi;
    hide Reemplazo, BienFormado;
    forall k | 0 <= k < |r|
      ensures BienFormado(r[k]) && (0 < k ==> r[k].inicio == r[k - 1].fin + 1)
    {
      ReemplazoIndice(t, lo, hi, m, k);
      if 0 < k {
        ReemplazoIndice(t, lo, hi, m, k - 1);
      }
    }
    ReemplazoIndice(t, lo, hi, m, 0);
    ReemplazoIndice(t, lo, hi, m, |r| - 1);
  }

  /** Which addresses are occupied after a replacement. */
  lemma ReemplazoOcupa(t: Tabla, lo: nat, hi: nat, m: Tabla, ini: int, fin: int, a: int)
    requires Cubre(t, ini, fin) && lo < hi <= |t|
    requires Cubre(m, t[lo].inicio, t[hi - 1].fin)
    ensures Ocupada(Reemplazo(t, lo, hi, m), a)
            <==> if t[lo].inicio <= a <= t[hi - 1].fin then Ocupada(m, a) else Ocupada(t, a)
  {
    var r := Reemplazo(t, lo, hi, m);
    assert |r| == lo + |m| + |t| - hi;
    hide Reemplazo, BienFormado;
    forall k | 0 <= k < |m| && m[k].Contiene(a)
      ensures t[lo].inicio <= a <= t[hi - 1].fin
      ensures m[k].ocupado ==> Ocupada(r, a)
    {
      DentroDelRango(m, t[lo].inicio, t[hi - 1].fin, k);
      ReemplazoIndice(t, lo, hi, m, lo + k);
    }
    forall k | 0 <= k < |t| && t[k].Contiene(a)
      ensures lo <= k < hi <==> t[lo].inicio <= a <= t[hi - 1].fin
      ensures t[k].ocupado && !(lo <= k < hi) ==> Ocupada(r, a)
    {
      if k < lo {
        Ascendente(t, ini, fin, k, lo);
        ReemplazoIndice(t, lo, hi, m, k);
      } else if k < hi {
        DentroDelTramo(t, ini, fin, lo, hi, k);
      } else {
        Ascendente(t, ini, fin, hi - 1, k);
        ReemplazoIndice(t, lo, hi, m, k - hi + lo + |m|);
      }
    }
    if k :| 0 <= k < |r| && r[k].ocupado && r[k].Contiene(a) {
      ReemplazoIndice(t, lo, hi, m, k);
      if lo <= k < lo + |m| {
        assert m[k - lo].Contiene(a);
      } else {
        var i := if k < lo then k else k - lo - |m| + hi;
        assert t[i].Contiene(a) && !(lo <= i < hi);
      }
    }
  }

  lemma DentroDelTramo(t: Tabla, ini: int, fin: int, lo: nat, hi: nat, i: int)
    requires Cubre(t, ini, fin) && lo <= i < hi <= |t|
    ensures t[lo].inicio <= t[i].inicio && t[i].fin <= t[hi - 1].fin
  {
    assert BienFormado(t[lo]) && BienFormado(t[hi - 1]);
    if lo < i {
      Ascendente(t, ini, fin, lo, i);
    }
    if i < hi - 1 {
      Ascendente(t, ini, fin, i, hi - 1);
    }
  }

  /** Replacing a stretch without occupied neighbours' changes keeps every other entry. */
  lemma ReemplazoMiembros(t: Tabla, lo: nat, hi: nat, m: Tabla, b: Bloque)
    requires lo <= hi <= |t|
    ensures b in Reemplazo(t, lo, hi, m) <==> b in t[..lo] || b in m || b in t[hi..]
    ensures b in t <==> b in t[..lo] || b in t[lo..hi] || b in t[hi..]
  {
    assert t == t[..lo] + t[lo..hi] + t[hi..];
  }

  // ---- Allocation ----

  ghost function Recorte(b: Bloque, n: int): Bloque {
    Bloque(b.inicio, if n == 0 then b.inicio else b.inicio + n - 1, n, true)
  }

  ghost function Resto(b: Bloque, n: int): Bloque {
    if n == 0 then Bloque(b.inicio, b.inicio + b.tamanio, b.tamanio, false)
    else Bloque(b.inicio + n, b.inicio + n + (b.tamanio - n) - 1, b.tamanio - n, false)
  }

  ghost predicate Ordenada(t: Tabla) {
    forall i, j :: 0 <= i < j < |t| ==> t[i].inicio <= t[j].inicio
  }

  ghost predicate Estricta(t: Tabla) {
    forall i, j :: 0 <= i < j < |t| ==> t[i].inicio < t[j].inicio
  }

  ghost predicate SeDivide(e: Esquema, b: Bloque, n: int) {
    e == DINAMICAS && b.tamanio > n
  }

  /** What allocating n bytes in partition i does, knowing of list_sort only that its result is a
      sorted permutation. */
  ghost predicate PasoAsignar(e: Esquema, t: Tabla, t': Tabla, i: int, n: int)
    requires 0 <= i < |t|
  {
    if SeDivide(e, t[i], n) then
      Ordenada(t') && multiset(t') == multiset(t[i := Recorte(t[i], n)] + [Resto(t[i], n)])
    else
      t' == t[i := t[i].(ocupado := true)]
  }

  ghost function Asignada(e: Esquema, t: Tabla, i: int, n: int): Tabla
    requires 0 <= i < |t|
  {
    Reemplazo(t, i, i + 1,
              if SeDivide(e, t[i], n) then [Recorte(t[i], n), Resto(t[i], n)] else [t[i].(ocupado := true)])
  }

  /** A sorted list whose keys all differ is the only sorted permutation of itself. */
  lemma {:induction false} OrdenUnico(a: Tabla, b: Tabla)
    requires Ordenada(a) && multiset(a) == multiset(b)
    requires Estricta(b)
    ensures a == b
  {
    hide Estricta, Ordenada;
    MismoTamanio(a, b);
    if a == [] {
    } else {
      CabezaDelOrden(a, b);
      ColaOrdenada(a, b);
      MismaCola(a, b);
      OrdenUnico(a[1..], b[1..]);
      assert a == [a[0]] + a[1..] && b == [b[0]] + b[1..];
    }
  }

  lemma MismoTamanio<T>(a: seq<T>, b: seq<T>)
    requires multiset(a) == multiset(b)
    ensures |a| == |b|
  {
    assert |multiset(a)| == |a| && |multiset(b)| == |b|;
  }

  lemma MismaCola<T>(a: seq<T>, b: seq<T>)
    requires a != [] && b != [] && a[0] == b[0] && multiset(a) == multiset(b)
    ensures multiset(a[1..]) == multiset(b[1..])
  {
    assert a == [a[0]] + a[1..] && b == [a[0]] + b[1..];
    assert multiset(a[1..]) == multiset(a) - multiset{a[0]};
    assert multiset(b[1..]) == multiset(b) - multiset{a[0]};
  }

  lemma ColaOrdenada(a: Tabla, b: Tabla)
    requires a != [] && b != [] && Ordenada(a) && Estricta(b)
    ensures Ordenada(a[1..]) && Estricta(b[1..])
  {
  }

  /** Appending an element or inserting it after position i gives the same multiset. */
  lemma InsertarEsPermutar<T>(s: seq<T>, i: int, x: T, y: T)
    requires 0 <= i < |s|
    ensures multiset(s[i := x] + [y]) == multiset(s[..i] + [x, y] + s[i + 1..])
  {
    var a, c := s[..i], s[i + 1..];
    assert s[i := x] + [y] == a + [x] + c + [y];
    assert a + [x, y] + c == a + [x] + [y] + c;
  }

  lemma CabezaDelOrden(a: Tabla, b: Tabla)
    requires a != [] && b != [] && Ordenada(a) && multiset(a) == multiset(b)
    requires Estricta(b)
    ensures a[0] == b[0]
  {
    assert a[0] in multiset(a) && b[0] in multiset(b);
    var j :| 0 <= j < |b| && b[j] == a[0];
    var k :| 0 <= k < |a| && a[k] == b[0];
    assert a[0].inicio <= a[k].inicio;
  }

  lemma CubreOrdenada(t: Tabla, ini: int, fin: int)
    requires Cubre(t, ini, fin)
    ensures Estricta(t)
  {
    forall i, j | 0 <= i < j < |t|
      ensures t[i].inicio < t[j].inicio
    {
      Ascendente(t, ini, fin, i, j);
      assert BienFormado(t[i]);
    }
  }

  lemma AsignadaTeselada(e: Esquema, t: Tabla, tam: int, i: int, n: int)
    requires Teselada(t, tam) && 0 <= i < |t| && t[i].Elegible(n) && n >= 1
    ensures Teselada(Asignada(e, t, i, n), tam)
  {
    assert BienFormado(t[i]);
    var m := if SeDivide(e, t[i], n) then [Recorte(t[i], n), Resto(t[i], n)] else [t[i].(ocupado := true)];
    assert Cubre(m, t[i].inicio, t[i].fin);
    ReemplazoCubre(t, i, i + 1, m, 0, tam - 1);
  }

  /** Whatever sorting algorithm is used, the new table is the old one with the chosen partition
      cut in place. */
  lemma AsignarEsEnElLugar(e: Esquema, t: Tabla, t': Tabla, tam: int, i: int, n: int)
    requires Teselada(t, tam) && 0 <= i < |t| && t[i].Elegible(n) && n >= 1
    requires PasoAsignar(e, t, t', i, n)
    ensures t' == Asignada(e, t, i, n)
  {
    var r := Asignada(e, t, i, n);
    if SeDivide(e, t[i], n) {
      AsignadaTeselada(e, t, tam, i, n);
      CubreOrdenada(r, 0, tam - 1);
      InsertarEsPermutar(t, i, Recorte(t[i], n), Resto(t[i], n));
      OrdenUnico(t', r);
    } else {
      assert r == t[i := t[i].(ocupado := true)];
    }
  }

  /** Under DINAMICAS the tiling survives an allocation exactly when the process is not empty. */
  lemma AsignarTeselaSiYSoloSi(t: Tabla, t': Tabla, tam: int, i: int, n: int)
    requires Teselada(t, tam) && 0 <= i < |t| && t[i].Elegible(n) && n >= 0
    requires PasoAsignar(DINAMICAS, t, t', i, n)
    ensures Teselada(t', tam) <==> n >= 1
  {
    if n >= 1 {
      AsignarEsEnElLugar(DINAMICAS, t, t', tam, i, n);
      AsignadaTeselada(DINAMICAS, t, tam, i, n);
    } else {
      assert BienFormado(t[i]);
      var malo := Recorte(t[i], 0);
      assert t[i := malo][i] == malo && malo in multiset(t[i := malo]);
      assert malo in multiset(t');
      var k :| 0 <= k < |t'| && t'[k] == malo;
      assert !BienFormado(t'[k]);
    }
  }

  /** An allocation occupies the first n bytes of the chosen partition (all of it when it is not
      cut) and nothing else; no other occupied partition moves or changes size. */
  lemma AsignadaOcupa(e: Esquema, t: Tabla, tam: int, i: int, n: int, a: int, b: Bloque)
    requires Teselada(t, tam) && 0 <= i < |t| && t[i].Elegible(n) && n >= 1
    ensures var t' := Asignada(e, t, i, n);
            && t'[i].ocupado && t'[i].inicio == t[i].inicio
            && (e == DINAMICAS ==> t'[i].tamanio == n)
            && (Ocupada(t', a) <==> Ocupada(t, a) || t'[i].Contiene(a))
            && (b.ocupado ==> (b in t' <==> b in t || b == t'[i]))
  {
    var t' := Asignada(e, t, i, n);
    assert BienFormado(t[i]);
    var m := if SeDivide(e, t[i], n) then [Recorte(t[i], n), Resto(t[i], n)] else [t[i].(ocupado := true)];
    assert Cubre(m, t[i].inicio, t[i].fin);
    ReemplazoOcupa(t, i, i + 1, m, 0, tam - 1, a);
    ReemplazoMiembros(t, i, i + 1, m, b);
    assert t' == Reemplazo(t, i, i + 1, m) && t'[i] == m[0];
    assert Ocupada(m, a) <==> m[0].Contiene(a);
    assert t[i..i + 1] == [t[i]];
    hide Ocupada, Cubre;
    if t[i].Contiene(a) {
      NoOcupadaEnLibre(t, tam, i, a);
    }
  }

  lemma NoOcupadaEnLibre(t: Tabla, tam: int, i: int, a: int)
    requires Teselada(t, tam) && 0 <= i < |t| && !t[i].ocupado && t[i].Contiene(a)
    ensures !Ocupada(t, a)
  {
    if j :| 0 <= j < |t| && t[j].ocupado && t[j].Contiene(a) {
      BloqueUnico(t, 0, tam - 1, i, j, a);
    }
  }

  lemma CeroNoRecorta(b: Bloque)
    requires !b.ocupado && b.tamanio >= 1
    ensures var t' := [Bloque(b.inicio, b.inicio, 0, true), Bloque(b.inicio, b.inicio + b.tamanio, b.tamanio, false)];
            PasoAsignar(DINAMICAS, [b], t', 0, 0)
  {
    assert [b][0 := Recorte(b, 0)] + [Resto(b, 0)] == [Recorte(b, 0), Resto(b, 0)];
  }

  lemma PrimeraSirve(b: Bloque, tam: int, n: int)
    requires b.Elegible(n) && n <= tam
    ensures Entra([b], tam, n) == SUCCESS && Elige(FIRST, [b], n, 0)
  {
    assert [b][0] == b;
  }

  /** A process of no bytes is let in: the table of a fresh memory of 10 bytes gains an entry that holds
      nothing. */
  lemma TamanioCeroRompe()
    ensures var t, t' := [Bloque(0, 9, 10, false)], [Bloque(0, 0, 0, true), Bloque(0, 10, 10, false)];
            && Teselada(t, 10) && Entra(t, 10, 0) == SUCCESS && Elige(FIRST, t, 0, 0)
            && PasoAsignar(DINAMICAS, t, t', 0, 0) && !Teselada(t', 10)
  {
    hide Cubre, PasoAsignar, Entra, Elige;
    CubreUno(Bloque(0, 9, 10, false));
    PrimeraSirve(Bloque(0, 9, 10, false), 10, 0);
    CeroNoRecorta(Bloque(0, 9, 10, false));
    EntradaVaciaNoTesela([Bloque(0, 0, 0, true), Bloque(0, 10, 10, false)], 10, 0);
  }

  // ---- Release ----

  ghost function Fusion(b: Bloque, c: Bloque): Bloque {
    b.(fin := c.fin, tamanio := b.tamanio + c.tamanio)
  }

  ghost predicate Libre(t: Tabla, i: int) {
    0 <= i < |t| && !t[i].ocupado
  }

  /** The stretch of the table that releasing partition i rewrites: first index, one past the last
      index, and the single free block that takes its place. */
  ghost function Tramo(e: Esquema, t: Tabla, i: int): (r: (nat, nat, Bloque))
    requires 0 <= i < |t|
    ensures r.0 <= i < r.1 <= |t|
  {
    var libre := t[i].(ocupado := false);
    if i == 0 || e == FIJAS then (i, i + 1, libre)
    else if Libre(t, i - 1) then
      if Libre(t, i + 1) then (i - 1, i + 2, Fusion(Fusion(t[i - 1], libre), t[i + 1]))
      else (i - 1, i + 1, Fusion(t[i - 1], libre))
    else if Libre(t, i + 1) then (i, i + 2, Fusion(libre, t[i + 1]))
    else (i, i + 1, libre)
  }

  ghost function Liberada(e: Esquema, t: Tabla, i: int): Tabla
    requires 0 <= i < |t|
  {
    var (lo, hi, b) := Tramo(e, t, i);
    Reemplazo(t, lo, hi, [b])
  }

  lemma TramoCubre(e: Esquema, t: Tabla, tam: int, i: int)
    requires Teselada(t, tam) && 0 <= i < |t|
    ensures var (lo, hi, b) := Tramo(e, t, i);
            Cubre([b], t[lo].inicio, t[hi - 1].fin) && !b.ocupado
  {
    assert BienFormado(t[i]);
    assert i > 0 ==> BienFormado(t[i - 1]);
    assert i + 1 < |t| ==> BienFormado(t[i + 1]);
  }

  /** Releasing keeps the tiling, whichever neighbours it merges. */
  lemma LiberadaTeselada(e: Esquema, t: Tabla, tam: int, i: int)
    requires Teselada(t, tam) && 0 <= i < |t|
    ensures Teselada(Liberada(e, t, i), tam)
  {
    TramoCubre(e, t, tam, i);
    var (lo, hi, b) := Tramo(e, t, i);
    ReemplazoCubre(t, lo, hi, [b], 0, tam - 1);
  }

  /** Of the rewritten stretch, only the released partition was occupied. */
  lemma TramoSoloUnoOcupado(e: Esquema, t: Tabla, i: int, k: int)
    requires 0 <= i < |t|
    requires var (lo, hi, b) := Tramo(e, t, i); lo <= k < hi && t[k].ocupado
    ensures k == i
  {
  }

  /** A release frees the bytes of its partition and nothing else. */
  lemma LiberadaLibera(e: Esquema, t: Tabla, tam: int, i: int, a: int)
    requires Teselada(t, tam) && 0 <= i < |t| && t[i].ocupado
    ensures Ocupada(Liberada(e, t, i), a) <==> Ocupada(t, a) && !t[i].Contiene(a)
  {
    TramoCubre(e, t, tam, i);
    var (lo, hi, m) := Tramo(e, t, i);
    hide Tramo, BienFormado, Reemplazo;
    ReemplazoOcupa(t, lo, hi, [m], 0, tam - 1, a);
    DentroDelTramo(t, 0, tam - 1, lo, hi, i);
    if t[lo].inicio <= a <= t[hi - 1].fin {
      if j :| 0 <= j < |t| && t[j].ocupado && t[j].Contiene(a) {
        if j < lo {
          Ascendente(t, 0, tam - 1, j, lo);
        } else if j >= hi {
          Ascendente(t, 0, tam - 1, hi - 1, j);
        } else {
          TramoSoloUnoOcupado(e, t, i, j);
        }
      }
    }
  }

  /** A release takes away no occupied partition but its own. */
  lemma LiberadaConserva(e: Esquema, t: Tabla, tam: int, i: int, b: Bloque)
    requires Teselada(t, tam) && 0 <= i < |t| && t[i].ocupado && b.ocupado
    ensures b in Liberada(e, t, i) <==> b in t && b != t[i]
  {
    TramoCubre(e, t, tam, i);
    var (lo, hi, m) := Tramo(e, t, i);
    ReemplazoMiembros(t, lo, hi, [m], b);
    CubreOrdenada(t, 0, tam - 1);
    hide Tramo, BienFormado, Reemplazo;
    if k :| lo <= k < hi && t[k] == b {
      TramoSoloUnoOcupado(e, t, i, k);
    }
    assert t[i] !in t[..lo] && t[i] !in t[hi..];
  }

  /** From a merged table, a release leaves a merged table in every case but one: the partition at
      address 0 is never merged with a free successor. */
  lemma LiberadaCoalescidaSiYSoloSi(t: Tabla, tam: int, i: int)
    requires Teselada(t, tam) && Coalescida(t) && 0 <= i < |t| && t[i].ocupado
    ensures Coalescida(Liberada(DINAMICAS, t, i)) <==> !(i == 0 && Libre(t, 1))
  {
    var (lo, hi, b) := Tramo(DINAMICAS, t, i);
    var r := Liberada(DINAMICAS, t, i);
    if i == 0 && Libre(t, 1) {
      assert !r[0].ocupado && r[1] == t[1];
    } else {
      forall k | 0 < k < |r|
        ensures r[k - 1].ocupado || r[k].ocupado
      {
        if k < lo {
          assert r[k] == t[k] && r[k - 1] == t[k - 1];
        } else if k == lo {
          assert r[k - 1] == t[lo - 1];
        } else if k == lo + 1 {
          assert r[k] == t[hi];
        } else {
          assert r[k] == t[k - lo - 1 + hi] && r[k - 1] == t[k - lo - 2 + hi];
        }
      }
    }
  }

  lemma AsignadaCoalescida(t: Tabla, i: int, n: int)
    requires Coalescida(t) && 0 <= i < |t| && t[i].Elegible(n)
    ensures Coalescida(Asignada(DINAMICAS, t, i, n))
  {
    var r := Asignada(DINAMICAS, t, i, n);
    var m := |r| - |t| + 1;
    forall k | 0 < k < |r|
      ensures r[k - 1].ocupado || r[k].ocupado
    {
      if k < i {
        assert r[k] == t[k] && r[k - 1] == t[k - 1];
      } else if k >= i + m {
        assert r[k] == t[k - m + 1];
        assert k - 1 >= i + m ==> r[k - 1] == t[k - m];
      }
    }
  }

  lemma LiberarLoCortado(t: Tabla, i: int, n: int)
    requires Coalescida(t) && 0 < i < |t| && t[i].Elegible(n) && BienFormado(t[i]) && t[i].tamanio > n >= 1
    ensures Liberada(DINAMICAS, Asignada(DINAMICAS, t, i, n), i) == t
  {
    var r := Asignada(DINAMICAS, t, i, n);
    assert r[i] == Recorte(t[i], n) && r[i + 1] == Resto(t[i], n);
    assert r[..i] == t[..i] && r[i + 2..] == t[i + 1..];
    assert r[i - 1] == t[i - 1];
    assert Tramo(DINAMICAS, r, i) == (i, i + 2, t[i]);
    assert t == t[..i] + [t[i]] + t[i + 1..];
  }

  lemma LiberarLoEntero(t: Tabla, i: int, n: int)
    requires Coalescida(t) && 0 <= i < |t| && t[i].Elegible(n) && t[i].tamanio == n
    ensures Liberada(DINAMICAS, Asignada(DINAMICAS, t, i, n), i) == t
  {
    var r := Asignada(DINAMICAS, t, i, n);
    assert r == t[i := t[i].(ocupado := true)];
    assert Tramo(DINAMICAS, r, i) == (i, i + 1, t[i]);
  }

  lemma LiberarElPrimerCorte(t: Tabla, n: int)
    requires |t| > 0 && t[0].tamanio > n
    ensures |Liberada(DINAMICAS, Asignada(DINAMICAS, t, 0, n), 0)| == |t| + 1
  {
  }

  lemma TieneForma(t: Tabla, tam: int, i: int)
    requires Teselada(t, tam) && 0 <= i < |t|
    ensures BienFormado(t[i])
  {
  }

  /** Allocating in a merged table and releasing at once restores the identical table, except when
      the partition at address 0 was cut. */
  lemma LiberarDeshaceAsignar(t: Tabla, tam: int, i: int, n: int)
    requires Teselada(t, tam) && Coalescida(t) && 0 <= i < |t| && t[i].Elegible(n) && n >= 1
    ensures Liberada(DINAMICAS, Asignada(DINAMICAS, t, i, n), i) == t <==> i > 0 || t[i].tamanio == n
  {
    hide Teselada, Coalescida, Liberada, Asignada, BienFormado;
    TieneForma(t, tam, i);
    if t[i].tamanio == n {
      LiberarLoEntero(t, i, n);
    } else if i > 0 {
      LiberarLoCortado(t, i, n);
    } else {
      LiberarElPrimerCorte(t, n);
    }
  }

  /** Cutting a partition that is alone in its table, whatever the sort does. */
  lemma PasoCortarLaUnica(b: Bloque, n: int)
    requires b.Elegible(n) && b.tamanio > n >= 1
    ensures PasoAsignar(DINAMICAS, [b], [Recorte(b, n), Resto(b, n)], 0, n)
  {
    assert [b][0 := Recorte(b, n)] + [Resto(b, n)] == [Recorte(b, n), Resto(b, n)];
  }

  lemma CortarLaUnica(b: Bloque, n: int)
    requires b.Elegible(n) && b.tamanio > n
    ensures Asignada(DINAMICAS, [b], 0, n) == [Recorte(b, n), Resto(b, n)]
  {
  }

  lemma LiberarLaPrimera(b: Bloque, c: Bloque)
    ensures Liberada(DINAMICAS, [b, c], 0) == [b.(ocupado := false), c]
  {
  }

  lemma DosLibres(b: Bloque, c: Bloque, tam: int)
    requires !b.ocupado && !c.ocupado && b.tamanio < tam && c.tamanio < tam
    ensures !Coalescida([b, c]) && Hueco([b, c], tam, 0, tam) && Entra([b, c], tam, tam) == SIZE_ERROR
  {
    assert !Coalescida([b, c]) by {
      assert ![b, c][0].ocupado && ![b, c][1].ocupado;
    }
    hide Coalescida;
  }

  /** The exception is reachable: fill the front of a fresh memory and release it. */
  lemma PrimeraParticionNoSeFusiona()
    ensures var t := [Bloque(0, 9, 10, false)];
            var u := Liberada(DINAMICAS, Asignada(DINAMICAS, t, 0, 4), 0);
            && Teselada(u, 10) && !Coalescida(u)
            && Hueco(u, 10, 0, 10) && Entra(u, 10, 10) == SIZE_ERROR
  {
    hide Cubre, Coalescida, Hueco, Entra, Liberada, Asignada;
    var b, c := Bloque(0, 3, 4, true), Bloque(4, 9, 6, false);
    CortarLaUnica(Bloque(0, 9, 10, false), 4);
    LiberarLaPrimera(b, c);
    DosLibres(b.(ocupado := false), c, 10);
    CubreUno(b.(ocupado := false));
    CubreAgregar([b.(ocupado := false)], 0, 3, c);
    assert [b.(ocupado := false)] + [c] == [b.(ocupado := false), c];
  }
}
