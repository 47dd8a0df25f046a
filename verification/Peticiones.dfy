/** What the requests of the kernel mean: which reply each gets, what happens to the entry of every thread,
    which partition each fit takes and, with fixed partitions, that their limits never move.
    Sources: memoria/src/operaciones_kernel.c, administrativo.c and algoritmos_busqueda.c. */
module Peticiones {
  import opened Opcion
  import opened Particiones
  import opened Procesos

  // ---- Replies ----

  /** A free partition of n bytes at least. */
  ghost predicate HayLibre(t: Tabla, n: int) {
    exists i :: 0 <= i < |t| && !t[i].ocupado && t[i].tamanio >= n
  }

  /** Each reply and exactly when it is given. */
  lemma RespuestaExacta(m: Mem, op: Op, m': Mem, r: OpCode)
    requires Paso(m, op, m', r)
    ensures match op
            case CrearProceso(pid, n, legible) =>
              && (r == MAX_SIZE_ERROR <==> n > m.tam)
              && (r == SIZE_ERROR <==> n <= m.tam && (!HayLibre(m.tabla, n) || m.alg == DESCONOCIDO))
              && (r == PATH_ERROR <==> n <= m.tam && HayLibre(m.tabla, n) && m.alg != DESCONOCIDO && !legible)
              && (r == SUCCESS <==> n <= m.tam && HayLibre(m.tabla, n) && m.alg != DESCONOCIDO && legible)
            case FinProceso(pid) => r == if Vive(m.pcbs, pid) then SUCCESS else PID_NOT_FOUND
            case CrearHilo(_, _, legible) => r == if legible then SUCCESS else PATH_ERROR
            case FinHilo(pid, tid) =>
              r == if exists x :: x in m.pcbs && x.pid == pid && x.tid == tid then SUCCESS else TID_NOT_FOUND
  {
    hide PasoAsignar, Elige, LiberaAsiento;
    match op
    case CrearProceso(pid, n, legible) => LibreEsElegible(m.tabla, n);
    case FinHilo(pid, tid) =>
      if Buscar(m.pcbs, pid, tid).Some? {
        assert Buscar(m.pcbs, pid, tid).value in m.pcbs;
      }
    case _ =>
  }

  lemma LibreEsElegible(t: Tabla, n: int)
    ensures HayElegible(t, n) <==> HayLibre(t, n)
  {
    if HayElegible(t, n) {
      var i :| 0 <= i < |t| && t[i].Elegible(n);
      assert !t[i].ocupado && t[i].tamanio >= n;
    }
    if HayLibre(t, n) {
      var i :| 0 <= i < |t| && !t[i].ocupado && t[i].tamanio >= n;
      assert t[i].Elegible(n);
    }
  }

  // ---- The fits ----

  /** Of the partitions that would do, BEST takes one no larger than any, WORST one no smaller, and FIRST the
      one with the lowest address; the one FIRST takes is in between. */
  lemma AjustesOrdenados(t: Tabla, tam: int, n: int, f: int, b: int, w: int, i: int)
    requires Teselada(t, tam) && Elige(FIRST, t, n, f) && Elige(BEST, t, n, b) && Elige(WORST, t, n, w)
    requires 0 <= i < |t| && !t[i].ocupado && t[i].tamanio >= n
    ensures t[b].tamanio <= t[i].tamanio <= t[w].tamanio && t[f].inicio <= t[i].inicio
    ensures t[b].tamanio <= t[f].tamanio <= t[w].tamanio && n <= t[b].tamanio
    ensures (t[b].tamanio == t[i].tamanio ==> t[b].inicio <= t[i].inicio)
            && (t[w].tamanio == t[i].tamanio ==> t[w].inicio <= t[i].inicio)
  {
    assert t[i].Elegible(n) && t[f].Elegible(n);
    EnOrden(t, tam, f, i);
    EnOrden(t, tam, b, i);
    EnOrden(t, tam, w, i);
  }

  lemma EnOrden(t: Tabla, tam: int, i: int, j: int)
    requires Teselada(t, tam) && 0 <= i < |t| && 0 <= j < |t|
    ensures i <= j <==> t[i].inicio <= t[j].inicio
  {
    CubreOrdenada(t, 0, tam - 1);
    hide Cubre;
  }

  // ---- The entries as a map from threads ----

  /** What the table says of thread (p, t) after each request: CREAR_PROCESO brings in the first thread of the
      process with the limits of its partition and its size, CREAR_HILO one more with those of the first,
      FIN_PROCESO takes out every thread of the process and FIN_HILO that one; nobody else notices. */
  ghost predicate EntradaTras(m: Mem, op: Op, m': Mem, r: OpCode, p: int, t: int) {
    var antes, x := Buscar(m.pcbs, p, t), Buscar(m'.pcbs, p, t);
    match op
    case CrearProceso(pid, n, _) =>
      if r == SUCCESS && p == pid && t == 0 then
        && x.Some? && x.value.tamanio == n && n <= x.value.limite - x.value.base + 1
        && Asiento(m'.tabla, x.value.base, x.value.limite) && !Asiento(m.tabla, x.value.base, x.value.limite)
        && (m.e == DINAMICAS ==> x.value.limite - x.value.base + 1 == n)
      else x == antes
    case CrearHilo(pid, tid, _) =>
      if r == SUCCESS && p == pid && t == tid then
        x.Some? && Buscar(m.pcbs, pid, 0).Some? && x.value == Buscar(m.pcbs, pid, 0).value.(tid := tid)
      else x == antes
    case FinProceso(pid) => if p == pid then x == None else x == antes
    case FinHilo(pid, tid) => if p == pid && t == tid then x == None else x == antes
  }

  lemma {:induction false} BuscarAlFinal(s: seq<Entrada>, y: Entrada, p: int, t: int)
    ensures Buscar(s + [y], p, t)
            == if Buscar(s, p, t).Some? then Buscar(s, p, t)
               else if y.pid == p && y.tid == t then Some(y) else None
  {
    if s == [] {
      assert s + [y] == [y];
    } else {
      assert (s + [y])[1..] == s[1..] + [y];
      BuscarAlFinal(s[1..], y, p, t);
    }
  }

  lemma {:induction false} BuscarSinPid(s: seq<Entrada>, pid: int, p: int, t: int)
    ensures Buscar(SinPid(s, pid), p, t) == if p == pid then None else Buscar(s, p, t)
  {
    if s == [] {
    } else {
      BuscarSinPid(s[1..], pid, p, t);
      var r := SinPid(s[1..], pid);
      if s[0].pid == pid {
        assert SinPid(s, pid) == r;
      } else {
        assert SinPid(s, pid) == [s[0]] + r && ([s[0]] + r)[1..] == r;
      }
    }
  }

  lemma {:induction false} BuscarSinHilo(s: seq<Entrada>, pid: int, tid: int, p: int, t: int)
    requires Distintas(s)
    ensures Buscar(SinHilo(s, pid, tid), p, t) == if p == pid && t == tid then None else Buscar(s, p, t)
  {
    if s == [] {
    } else {
      DistintasResto(s);
      if !(s[0].pid == pid && s[0].tid == tid) {
        BuscarSinHilo(s[1..], pid, tid, p, t);
        var r := SinHilo(s[1..], pid, tid);
        assert SinHilo(s, pid, tid) == [s[0]] + r && ([s[0]] + r)[1..] == r;
      }
    }
  }

  /** Each request is that change of the map, whatever the thread one asks about. */
  lemma EntradasComoMapa(m: Mem, op: Op, m': Mem, r: OpCode, p: int, t: int)
    requires Inv(m) && Guarda(m, op) && Paso(m, op, m', r)
    ensures EntradaTras(m, op, m', r, p, t)
  {
    match op
    case CrearProceso(pid, n, legible) => MapaAlCrear(m, pid, n, legible, m', r, p, t);
    case CrearHilo(pid, tid, legible) =>
      if legible {
        BuscarAlFinal(m.pcbs, Buscar(m.pcbs, pid, 0).value.(tid := tid), p, t);
      }
    case FinProceso(pid) =>
      BuscarSinPid(m.pcbs, pid, p, t);
      hide LiberaAsiento;
      if !Vive(m.pcbs, pid) && p == pid && Buscar(m.pcbs, p, t).Some? {
        VivoSiEsta(m.pcbs, Buscar(m.pcbs, p, t).value);
      }
    case FinHilo(pid, tid) => BuscarSinHilo(m.pcbs, pid, tid, p, t);
  }

  lemma VivoSiEsta(s: seq<Entrada>, x: Entrada)
    requires x in s
    ensures Vive(s, x.pid)
  {
  }

  lemma MapaAlCrear(m: Mem, pid: int, n: int, legible: bool, m': Mem, r: OpCode, p: int, t: int)
    requires Inv(m) && Guarda(m, CrearProceso(pid, n, legible)) && Paso(m, CrearProceso(pid, n, legible), m', r)
    ensures EntradaTras(m, CrearProceso(pid, n, legible), m', r, p, t)
  {
    if r == SUCCESS || r == PATH_ERROR {
      var i := IndiceAsignado(m, pid, n, legible, m', r);
      hide Paso;
      if legible {
        BuscarAlFinal(m.pcbs, NuevoPrincipal(m.e, m.tabla[i], pid, n), p, t);
        if p == pid && t == 0 {
          NoEstaba(m, pid, 0);
          AsientoNuevo(m, i, n, pid);
        }
      }
    }
  }

  lemma NoEstaba(m: Mem, pid: int, tid: int)
    requires !Vive(m.pcbs, pid)
    ensures Buscar(m.pcbs, pid, tid).None?
  {
    if Buscar(m.pcbs, pid, tid).Some? {
      VivoSiEsta(m.pcbs, Buscar(m.pcbs, pid, tid).value);
    }
  }

  /** The limits of the new entry are those of an occupied partition that was not there before. */
  lemma AsientoNuevo(m: Mem, i: int, n: int, pid: int)
    requires Teselada(m.tabla, m.alcance) && 0 <= i < |m.tabla| && m.tabla[i].Elegible(n) && n >= 1
    ensures var x := NuevoPrincipal(m.e, m.tabla[i], pid, n);
            && x.tamanio == n && n <= x.limite - x.base + 1
            && Asiento(Asignada(m.e, m.tabla, i, n), x.base, x.limite) && !Asiento(m.tabla, x.base, x.limite)
            && (m.e == DINAMICAS ==> x.limite - x.base + 1 == n)
  {
    var b, t' := m.tabla[i], Asignada(m.e, m.tabla, i, n);
    var x := NuevoPrincipal(m.e, b, pid, n);
    assert BienFormado(b);
    AsignadaEn(m.e, m.tabla, i, n);
    SinAsientoLibre(m.tabla, m.alcance, i, x.limite);
    hide Asignada, Asiento, Cubre;
    AsientoDe(t', i);
  }

  lemma AsignadaEn(e: Esquema, t: Tabla, i: int, n: int)
    requires 0 <= i < |t|
    ensures var t' := Asignada(e, t, i, n);
            i < |t'| && t'[i] == if SeDivide(e, t[i], n) then Recorte(t[i], n) else t[i].(ocupado := true)
  {
  }

  lemma AsientoDe(t: Tabla, i: int)
    requires 0 <= i < |t| && t[i].ocupado
    ensures Asiento(t, t[i].inicio, t[i].fin)
  {
    assert EsAsiento(t[i], t[i].inicio, t[i].fin);
  }

  lemma SinAsientoLibre(t: Tabla, tam: int, i: int, limite: int)
    requires Teselada(t, tam) && 0 <= i < |t| && !t[i].ocupado
    ensures !Asiento(t, t[i].inicio, limite)
  {
    if Asiento(t, t[i].inicio, limite) {
      var y :| y in t && EsAsiento(y, t[i].inicio, limite);
      var j :| 0 <= j < |t| && t[j] == y;
      EnOrden(t, tam, i, j);
      EnOrden(t, tam, j, i);
    }
  }

  // ---- Fixed partitions ----

  /** The partitions of a table, whoever holds them. */
  ghost function Moldes(t: Tabla): (s: Tabla)
    ensures |s| == |t| && forall i :: 0 <= i < |t| ==> s[i] == t[i].(ocupado := false)
  {
    seq(|t|, i requires 0 <= i < |t| => t[i].(ocupado := false))
  }

  /** With fixed partitions a request changes at most whether one of them is held. */
  lemma PasoFijas(m: Mem, op: Op, m': Mem, r: OpCode)
    requires Inv(m) && Guarda(m, op) && Paso(m, op, m', r) && m.e == FIJAS
    ensures Moldes(m'.tabla) == Moldes(m.tabla)
  {
    match op
    case CrearProceso(pid, n, legible) =>
      if r == SUCCESS || r == PATH_ERROR {
        var i := IndiceAsignado(m, pid, n, legible, m', r);
        hide Paso;
        AsignadaFija(m.tabla, i, n);
      }
    case FinProceso(pid) =>
      if Vive(m.pcbs, pid) {
        var x, i := IndiceLiberado(m, pid, m', r);
        hide Paso;
        LiberadaFija(m.tabla, i);
      }
    case _ =>
  }

  lemma AsignadaFija(t: Tabla, i: int, n: int)
    requires 0 <= i < |t| && t[i].Elegible(n)
    ensures Moldes(Asignada(FIJAS, t, i, n)) == Moldes(t)
  {
    assert Asignada(FIJAS, t, i, n) == t[i := t[i].(ocupado := true)];
  }

  lemma LiberadaFija(t: Tabla, i: int)
    requires 0 <= i < |t|
    ensures Moldes(Liberada(FIJAS, t, i)) == Moldes(t)
  {
    assert Liberada(FIJAS, t, i) == t[i := t[i].(ocupado := false)];
  }

  /** Over every run with fixed partitions their number, limits and sizes are those of the configuration. */
  lemma {:induction false} FijasNoSeMueven(ms: seq<Mem>, ops: seq<Op>, rs: seq<OpCode>, k: nat)
    requires Corrida(ms, ops, rs) && k <= |ops| && ms[0].e == FIJAS
    ensures Moldes(ms[k].tabla) == ms[0].tabla && ms[k].e == FIJAS
  {
    hide Moldes, Paso, Inv, Guarda;
    if k == 0 {
      TodosLibresAlEmpezar(ms[0]);
    } else {
      FijasNoSeMueven(ms, ops, rs, k - 1);
      TodaCorrida(ms, ops, rs, k - 1);
      CorridaEn(ms, ops, rs, k - 1);
      PasoFijas(ms[k - 1], ops[k - 1], ms[k], rs[k - 1]);
      MismoEsquema(ms[k - 1], ops[k - 1], ms[k], rs[k - 1]);
    }
  }

  lemma MismoEsquema(m: Mem, op: Op, m': Mem, r: OpCode)
    requires Paso(m, op, m', r)
    ensures m'.e == m.e
  {
  }

  lemma TodosLibresAlEmpezar(m: Mem)
    requires Inicial(m)
    ensures Moldes(m.tabla) == m.tabla
  {
  }
}
