/** Runs of the memory module: the partition table together with the table of (pid, tid) entries,
    one step per request of the kernel.
    Sources: memoria/src/operaciones_kernel.c and memoria/src/administrativo.c. */
module Procesos {
  import opened Opcion
  import opened Particiones

  /** What the kernel requests can see of a t_pcb_memoria. */
  datatype Entrada = Entrada(pid: int, tid: int, base: int, limite: int, tamanio: int)

  /** `alcance` is the number of bytes the table covers: the whole memory under DINAMICAS, the sum
      of the configured sizes under FIJAS. */
  datatype Mem = Mem(e: Esquema, alg: Algoritmo, tam: int, alcance: int, tabla: Tabla, pcbs: seq<Entrada>)

  /** `legible`: the instruction file can be opened. */
  datatype Op =
    | CrearProceso(pid: int, tamanio: int, legible: bool)
    | FinProceso(pid: int)
    | CrearHilo(pid: int, tid: int, legible: bool)
    | FinHilo(pid: int, tid: int)

  // ---- Table lookups ----

  ghost predicate Vive(s: seq<Entrada>, pid: int) {
    exists k :: 0 <= k < |s| && s[k].pid == pid
  }

  ghost function Buscar(s: seq<Entrada>, pid: int, tid: int): (r: Option<Entrada>)
    ensures r.Some? ==> r.value in s && r.value.pid == pid && r.value.tid == tid
    ensures r.None? ==> forall x :: x in s ==> !(x.pid == pid && x.tid == tid)
  {
    if s == [] then None
    else if s[0].pid == pid && s[0].tid == tid then Some(s[0])
    else Buscar(s[1..], pid, tid)
  }

  ghost function SinPid(s: seq<Entrada>, pid: int): (r: seq<Entrada>)
    ensures forall x :: x in r <==> x in s && x.pid != pid
  {
    if s == [] then [] else (if s[0].pid == pid then [] else [s[0]]) + SinPid(s[1..], pid)
  }

  ghost function SinHilo(s: seq<Entrada>, pid: int, tid: int): (r: seq<Entrada>)
    ensures forall x :: x in r ==> x in s
    ensures forall x :: x in s && !(x.pid == pid && x.tid == tid) ==> x in r
  {
    if s == [] then []
    else if s[0].pid == pid && s[0].tid == tid then s[1..]
    else [s[0]] + SinHilo(s[1..], pid, tid)
  }

  /** The partition whose limits are exactly base..limite. */
  ghost predicate EsAsiento(b: Bloque, base: int, limite: int) {
    b.ocupado && b.inicio == base && b.fin == limite
  }

  ghost predicate Asiento(t: Tabla, base: int, limite: int) {
    exists b :: b in t && EsAsiento(b, base, limite)
  }

  ghost predicate LiberaAsiento(e: Esquema, t: Tabla, t': Tabla, base: int, limite: int) {
    if Asiento(t, base, limite) then
      exists i :: 0 <= i < |t| && EsAsiento(t[i], base, limite) && t' == Liberada(e, t, i)
    else
      t' == t
  }

  // ---- One request ----

  ghost predicate Paso(m: Mem, op: Op, m': Mem, r: OpCode) {
    && m'.e == m.e && m'.alg == m.alg && m'.tam == m.tam && m'.alcance == m.alcance
    && match op
       case CrearProceso(pid, n, legible) => PasoCrearProceso(m, pid, n, legible, m', r)
       case FinProceso(pid) => PasoFinProceso(m, pid, m', r)
       case CrearHilo(pid, tid, legible) =>
         m'.tabla == m.tabla
         && (match Buscar(m.pcbs, pid, 0)
             case None => false
             case Some(principal) =>
               if legible then
                 r == SUCCESS && m'.pcbs == m.pcbs + [principal.(tid := tid)]
               else
                 r == PATH_ERROR && m'.pcbs == m.pcbs)
       case FinHilo(pid, tid) =>
         m'.tabla == m.tabla && m'.pcbs == SinHilo(m.pcbs, pid, tid)
         && r == if Buscar(m.pcbs, pid, tid).None? then TID_NOT_FOUND else SUCCESS
  }

  ghost predicate PasoCrearProceso(m: Mem, pid: int, n: int, legible: bool, m': Mem, r: OpCode) {
    if Entra(m.tabla, m.tam, n) != SUCCESS then
      r == Entra(m.tabla, m.tam, n) && m'.tabla == m.tabla && m'.pcbs == m.pcbs
    else if m.alg == DESCONOCIDO then
      r == SIZE_ERROR && m'.tabla == m.tabla && m'.pcbs == m.pcbs
    else
      exists i :: Toma(m, pid, n, legible, m', r, i)
  }

  /** The creation takes partition i. */
  ghost predicate Toma(m: Mem, pid: int, n: int, legible: bool, m': Mem, r: OpCode, i: int) {
    && 0 <= i < |m.tabla|
    && Elige(m.alg, m.tabla, n, i) && PasoAsignar(m.e, m.tabla, m'.tabla, i, n)
    && if legible then
         r == SUCCESS && m'.pcbs == m.pcbs + [NuevoPrincipal(m.e, m.tabla[i], pid, n)]
       else
         r == PATH_ERROR && m'.pcbs == m.pcbs
  }

  ghost function NuevoPrincipal(e: Esquema, b: Bloque, pid: int, n: int): Entrada {
    Entrada(pid, 0, b.inicio, if SeDivide(e, b, n) then Recorte(b, n).fin else b.fin, n)
  }

  ghost predicate PasoFinProceso(m: Mem, pid: int, m': Mem, r: OpCode) {
    if !Vive(m.pcbs, pid) then
      r == PID_NOT_FOUND && m'.tabla == m.tabla && m'.pcbs == m.pcbs
    else
      && r == SUCCESS && m'.pcbs == SinPid(m.pcbs, pid)
      && match Buscar(m.pcbs, pid, 0)
         case None => m'.tabla == m.tabla
         case Some(p) => LiberaAsiento(m.e, m.tabla, m'.tabla, p.base, p.limite)
  }

  /** What the callers of the memory module respect: processes are not empty, pids and tids are
      new, threads belong to live processes, and the main thread ends with its process. */
  ghost predicate Guarda(m: Mem, op: Op) {
    match op
    case CrearProceso(pid, n, _) => n >= 1 && !Vive(m.pcbs, pid)
    case FinProceso(_) => true
    case CrearHilo(pid, tid, _) => Vive(m.pcbs, pid) && Buscar(m.pcbs, pid, tid).None?
    case FinHilo(_, tid) => tid != 0
  }

  // ---- What every reachable state satisfies ----

  ghost predicate Distintas(s: seq<Entrada>) {
    forall i, j :: 0 <= i < j < |s| ==> !(s[i].pid == s[j].pid && s[i].tid == s[j].tid)
  }

  /** Entries of one process share one range, the ranges of different processes start apart. */
  ghost predicate Coherentes(x: Entrada, y: Entrada) {
    if x.pid == y.pid then x.base == y.base && x.limite == y.limite else x.base != y.base
  }

  ghost predicate Propiedad(s: seq<Entrada>, t: Tabla) {
    && Distintas(s)
    && (forall x :: x in s ==> Asiento(t, x.base, x.limite))
    && (forall x, y :: x in s && y in s ==> Coherentes(x, y))
    && (forall x :: x in s ==> Buscar(s, x.pid, 0).Some?)
  }

  ghost predicate Inv(m: Mem) {
    Teselada(m.tabla, m.alcance) && Propiedad(m.pcbs, m.tabla)
  }

  /** The rest of a list of distinct entries, and what its head has to do with the others. */
  lemma DistintasResto(s: seq<Entrada>)
    requires s != [] && Distintas(s)
    ensures Distintas(s[1..]) && forall x :: x in s[1..] ==> !(x.pid == s[0].pid && x.tid == s[0].tid)
    ensures forall x :: x in s <==> x == s[0] || x in s[1..]
  {
    assert s == [s[0]] + s[1..];
  }

  lemma DistintasCon(x: Entrada, r: seq<Entrada>)
    requires Distintas(r) && forall y :: y in r ==> !(y.pid == x.pid && y.tid == x.tid)
    ensures Distintas([x] + r) && forall y :: y in [x] + r <==> y == x || y in r
  {
  }

  lemma {:induction false} SinPidDistintas(s: seq<Entrada>, pid: int)
    requires Distintas(s)
    ensures Distintas(SinPid(s, pid))
  {
    if s == [] {
    } else {
      SinPidDistintas(s[1..], pid);
      DistintasResto(s);
      DistintasCon(s[0], SinPid(s[1..], pid));
      hide Distintas;
      assert [] + SinPid(s[1..], pid) == SinPid(s[1..], pid);
    }
  }

  lemma {:induction false} SinHiloDistintas(s: seq<Entrada>, pid: int, tid: int)
    requires Distintas(s)
    ensures Distintas(SinHilo(s, pid, tid))
    ensures forall x :: x in SinHilo(s, pid, tid) <==> x in s && !(x.pid == pid && x.tid == tid)
  {
    hide Distintas;
    if s == [] {
    } else {
      DistintasResto(s);
      if !(s[0].pid == pid && s[0].tid == tid) {
        SinHiloDistintas(s[1..], pid, tid);
        DistintasCon(s[0], SinHilo(s[1..], pid, tid));
      }
    }
  }

  lemma AsientoUnico(t: Tabla, tam: int, b: Bloque, c: Bloque)
    requires Teselada(t, tam) && b in t && c in t && b.inicio == c.inicio
    ensures b == c
  {
    CubreOrdenada(t, 0, tam - 1);
    var i :| 0 <= i < |t| && t[i] == b;
    var j :| 0 <= j < |t| && t[j] == c;
    if i < j || j < i { assert false; }
  }

  lemma AsientoEn(t: Tabla, base: int, limite: int) returns (i: int)
    requires Asiento(t, base, limite)
    ensures 0 <= i < |t| && t[i].ocupado && t[i].inicio == base && t[i].fin == limite
  {
    var b :| b in t && EsAsiento(b, base, limite);
    i :| 0 <= i < |t| && t[i] == b;
  }

  /** Ranges of different live processes share no address. */
  lemma RangosDisjuntos(m: Mem, x: Entrada, y: Entrada, a: int)
    requires Inv(m) && x in m.pcbs && y in m.pcbs && x.pid != y.pid
    ensures !(x.base <= a <= x.limite && y.base <= a <= y.limite)
  {
    assert Coherentes(x, y) && Asiento(m.tabla, x.base, x.limite) && Asiento(m.tabla, y.base, y.limite);
    hide Inv, Asiento, Propiedad, Cubre;
    var i := AsientoEn(m.tabla, x.base, x.limite);
    var j := AsientoEn(m.tabla, y.base, y.limite);
    if m.tabla[i].Contiene(a) && m.tabla[j].Contiene(a) {
      TeseladaCubre(m);
      BloqueUnico(m.tabla, 0, m.alcance - 1, i, j, a);
    }
  }

  lemma TeseladaCubre(m: Mem)
    requires Inv(m)
    ensures Cubre(m.tabla, 0, m.alcance - 1)
  {
  }

  /** The table may lose free blocks and gain occupied ones: seats stay. */
  lemma PropiedadAlCrecer(s: seq<Entrada>, t: Tabla, t': Tabla)
    requires Propiedad(s, t)
    requires forall b: Bloque :: b.ocupado && b in t ==> b in t'
    ensures Propiedad(s, t')
  {
    forall x | x in s
      ensures Asiento(t', x.base, x.limite)
    {
      var b :| b in t && EsAsiento(b, x.base, x.limite);
      assert b in t';
    }
  }

  lemma {:induction false} BuscarEnPrefijo(s: seq<Entrada>, x: Entrada, pid: int, tid: int)
    ensures Buscar(s, pid, tid).Some? ==> Buscar(s + [x], pid, tid) == Buscar(s, pid, tid)
    ensures Buscar(s, pid, tid).None? && x.pid == pid && x.tid == tid ==> Buscar(s + [x], pid, tid) == Some(x)
  {
    if s == [] {
    } else {
      BuscarEnPrefijo(s[1..], x, pid, tid);
      assert (s + [x])[1..] == s[1..] + [x];
    }
  }

  lemma DistintasAlFinal(s: seq<Entrada>, x: Entrada)
    requires Distintas(s) && forall y :: y in s ==> !(y.pid == x.pid && y.tid == x.tid)
    ensures Distintas(s + [x]) && forall y :: y in s + [x] <==> y in s || y == x
  {
  }

  /** A new entry whose key is new, whose seat exists and which agrees with the others. */
  lemma PropiedadAlAgregar(s: seq<Entrada>, t: Tabla, x: Entrada)
    requires Propiedad(s, t) && Buscar(s, x.pid, x.tid).None?
    requires Asiento(t, x.base, x.limite)
    requires forall y :: y in s ==> Coherentes(x, y) && Coherentes(y, x)
    requires Coherentes(x, x) && (x.tid == 0 || Buscar(s, x.pid, 0).Some?)
    ensures Propiedad(s + [x], t)
  {
    var s' := s + [x];
    DistintasAlFinal(s, x);
    hide Distintas, Asiento, Coherentes, Buscar;
    forall y | y in s'
      ensures Buscar(s', y.pid, 0).Some?
    {
      BuscarEnPrefijo(s, x, y.pid, 0);
    }
  }

  /** Entries may go, as long as the main entry of every remaining process stays. */
  lemma PropiedadAlQuitar(s: seq<Entrada>, s': seq<Entrada>, t: Tabla)
    requires Propiedad(s, t) && Distintas(s')
    requires forall x :: x in s' ==> x in s
    requires forall x, y :: x in s' && y in s && y.pid == x.pid && y.tid == 0 ==> y in s'
    ensures Propiedad(s', t)
  {
    forall x | x in s'
      ensures Buscar(s', x.pid, 0).Some?
    {
      var p := Buscar(s, x.pid, 0).value;
      assert p in s';
    }
  }

  /** The partition a creation took, when it took one. */
  lemma IndiceAsignado(m: Mem, pid: int, n: int, legible: bool, m': Mem, r: OpCode) returns (i: int)
    requires Inv(m) && n >= 1 && Paso(m, CrearProceso(pid, n, legible), m', r)
    requires r == SUCCESS || r == PATH_ERROR
    ensures 0 <= i < |m.tabla| && m.tabla[i].Elegible(n) && Elige(m.alg, m.tabla, n, i)
    ensures m'.tabla == Asignada(m.e, m.tabla, i, n)
    ensures m'.pcbs == if legible then m.pcbs + [NuevoPrincipal(m.e, m.tabla[i], pid, n)] else m.pcbs
    ensures legible <==> r == SUCCESS
  {
    hide Elige, PasoAsignar, Asignada, Teselada, Propiedad, NuevoPrincipal;
    i :| Toma(m, pid, n, legible, m', r, i);
    EligeElegible(m.alg, m.tabla, n, i);
    AsignarEsEnElLugar(m.e, m.tabla, m'.tabla, m.alcance, i, n);
  }

  lemma EligeElegible(alg: Algoritmo, t: Tabla, n: int, i: int)
    requires Elige(alg, t, n, i)
    ensures 0 <= i < |t| && t[i].Elegible(n)
  {
  }

  /** The partition an ended process gives back. */
  lemma IndiceLiberado(m: Mem, pid: int, m': Mem, r: OpCode) returns (p: Entrada, i: int)
    requires Inv(m) && Paso(m, FinProceso(pid), m', r) && Vive(m.pcbs, pid)
    ensures Buscar(m.pcbs, pid, 0) == Some(p)
    ensures 0 <= i < |m.tabla| && EsAsiento(m.tabla[i], p.base, p.limite)
    ensures m'.tabla == Liberada(m.e, m.tabla, i) && m'.pcbs == SinPid(m.pcbs, pid) && r == SUCCESS
  {
    hide Liberada, Teselada, EsAsiento, SinPid;
    var k :| 0 <= k < |m.pcbs| && m.pcbs[k].pid == pid;
    assert m.pcbs[k] in m.pcbs;
    p := Buscar(m.pcbs, pid, 0).value;
    assert p in m.pcbs && Asiento(m.tabla, p.base, p.limite);
    i :| 0 <= i < |m.tabla| && EsAsiento(m.tabla[i], p.base, p.limite)
      && m'.tabla == Liberada(m.e, m.tabla, i);
  }

  /** After a creation the occupied partitions are the old ones and the new one. */
  lemma OcupadosTrasAsignar(e: Esquema, t: Tabla, tam: int, i: int, n: int)
    requires Teselada(t, tam) && 0 <= i < |t| && t[i].Elegible(n) && n >= 1
    ensures Teselada(Asignada(e, t, i, n), tam)
    ensures forall b: Bloque :: b.ocupado ==>
      (b in Asignada(e, t, i, n) <==> b in t || b == Asignada(e, t, i, n)[i])
  {
    AsignadaTeselada(e, t, tam, i, n);
    forall b: Bloque | b.ocupado
      ensures b in Asignada(e, t, i, n) <==> b in t || b == Asignada(e, t, i, n)[i]
    {
      AsignadaOcupa(e, t, tam, i, n, 0, b);
    }
  }

  lemma NuevoAsiento(e: Esquema, t: Tabla, i: int, pid: int, n: int)
    requires 0 <= i < |t| && t[i].Elegible(n) && n >= 1
    ensures var x := NuevoPrincipal(e, t[i], pid, n);
            && EsAsiento(Asignada(e, t, i, n)[i], x.base, x.limite)
            && Asiento(Asignada(e, t, i, n), x.base, x.limite)
            && x.pid == pid && x.tid == 0 && x.base == t[i].inicio
  {
    var r := Asignada(e, t, i, n);
    assert r[i] in r;
  }

  lemma CrearProcesoConserva(m: Mem, pid: int, n: int, legible: bool, m': Mem, r: OpCode)
    requires Inv(m) && Guarda(m, CrearProceso(pid, n, legible))
    requires Paso(m, CrearProceso(pid, n, legible), m', r)
    ensures Inv(m')
    ensures r == SUCCESS ==> exists x :: m'.pcbs == m.pcbs + [x] && x.pid == pid && x.tid == 0
  {
    if r == SUCCESS || r == PATH_ERROR {
      var i := IndiceAsignado(m, pid, n, legible, m', r);
      OcupadosTrasAsignar(m.e, m.tabla, m.alcance, i, n);
      PropiedadAlCrecer(m.pcbs, m.tabla, m'.tabla);
      if legible {
        var x := NuevoPrincipal(m.e, m.tabla[i], pid, n);
        NuevoAsiento(m.e, m.tabla, i, pid, n);
        hide Asignada, NuevoPrincipal, Paso, Elige;
        forall y | y in m.pcbs
          ensures Coherentes(x, y) && Coherentes(y, x)
        {
          OtroAsiento(m.tabla, m.alcance, i, y.base, y.limite);
        }
        PropiedadAlAgregar(m.pcbs, m'.tabla, x);
      }
    }
  }

  /** No live process starts where a free partition does. */
  lemma OtroAsiento(t: Tabla, tam: int, i: int, base: int, limite: int)
    requires Teselada(t, tam) && 0 <= i < |t| && !t[i].ocupado && Asiento(t, base, limite)
    ensures base != t[i].inicio
  {
    var b :| b in t && EsAsiento(b, base, limite);
    if b.inicio == t[i].inicio {
      AsientoUnico(t, tam, b, t[i]);
    }
  }

  /** Ending a process removes every entry of the pid and frees exactly its one partition: no other
      occupied partition changes, and the entries of the other processes stay in order. */
  lemma FinProcesoExacto(m: Mem, pid: int, m': Mem, r: OpCode, a: int, b: Bloque)
    requires Inv(m) && Paso(m, FinProceso(pid), m', r) && Vive(m.pcbs, pid)
    ensures r == SUCCESS && !Vive(m'.pcbs, pid) && m'.pcbs == SinPid(m.pcbs, pid)
    ensures var p := Buscar(m.pcbs, pid, 0);
            && p.Some?
            && (Ocupada(m'.tabla, a) <==> Ocupada(m.tabla, a) && !(p.value.base <= a <= p.value.limite))
            && (b.ocupado ==> (b in m'.tabla <==> b in m.tabla && !EsAsiento(b, p.value.base, p.value.limite)))
    ensures Teselada(m'.tabla, m.alcance)
  {
    var p, i := IndiceLiberado(m, pid, m', r);
    hide Liberada, Paso, Propiedad, Teselada;
    LiberadaTeselada(m.e, m.tabla, m.alcance, i);
    LiberadaLibera(m.e, m.tabla, m.alcance, i, a);
    if b.ocupado {
      LiberadaConserva(m.e, m.tabla, m.alcance, i, b);
      if b in m.tabla && EsAsiento(b, p.base, p.limite) {
        AsientoUnico(m.tabla, m.alcance, b, m.tabla[i]);
      }
    }
  }

  lemma FinProcesoConserva(m: Mem, pid: int, m': Mem, r: OpCode)
    requires Inv(m) && Paso(m, FinProceso(pid), m', r)
    ensures Inv(m')
  {
    if Vive(m.pcbs, pid) {
      FinProcesoExacto(m, pid, m', r, 0, Bloque(0, 0, 0, false));
      var p := Buscar(m.pcbs, pid, 0).value;
      SinPidDistintas(m.pcbs, pid);
      PropiedadAlQuitar(m.pcbs, m'.pcbs, m.tabla);
      hide Paso, Teselada, SinPid;
      forall x | x in m'.pcbs
        ensures Asiento(m'.tabla, x.base, x.limite)
      {
        var b :| b in m.tabla && EsAsiento(b, x.base, x.limite);
        assert Coherentes(x, p);
        FinProcesoExacto(m, pid, m', r, 0, b);
      }
    }
  }

  /** x is an entry for a thread of a process that s has: it shares the range of every other thread of it. */
  ghost predicate Acompania(s: seq<Entrada>, x: Entrada) {
    && (forall y :: y in s && y.pid == x.pid ==> x.base == y.base && x.limite == y.limite)
    && (forall y :: y in s ==> Coherentes(x, y) && Coherentes(y, x))
  }

  lemma OtroDelProceso(m: Mem, p: Entrada, tid: int)
    requires Propiedad(m.pcbs, m.tabla) && p in m.pcbs
    ensures Acompania(m.pcbs, p.(tid := tid)) && Asiento(m.tabla, p.base, p.limite)
  {
    var x := p.(tid := tid);
    forall y | y in m.pcbs
      ensures Coherentes(x, y) && Coherentes(y, x) && (y.pid == x.pid ==> x.base == y.base && x.limite == y.limite)
    {
      assert Coherentes(p, y) && Coherentes(y, p);
    }
    hide Propiedad;
    assert Asiento(m.tabla, p.base, p.limite) by { TieneAsiento(m, p); }
  }

  lemma TieneAsiento(m: Mem, p: Entrada)
    requires Propiedad(m.pcbs, m.tabla) && p in m.pcbs
    ensures Asiento(m.tabla, p.base, p.limite)
  {
  }

  /** A new thread shares the range of every other thread of its process, and nothing else changes. */
  lemma CrearHiloConserva(m: Mem, pid: int, tid: int, legible: bool, m': Mem, r: OpCode)
    requires Inv(m) && Guarda(m, CrearHilo(pid, tid, legible)) && Paso(m, CrearHilo(pid, tid, legible), m', r)
    ensures Inv(m') && m' == m.(pcbs := m'.pcbs) && (r == SUCCESS || (r == PATH_ERROR && m' == m))
    ensures r == SUCCESS <==> legible
    ensures r == SUCCESS ==>
      exists x :: m'.pcbs == m.pcbs + [x] && x.pid == pid && x.tid == tid && Acompania(m.pcbs, x)
  {
    hide Teselada, Propiedad, Vive, Asiento;
    if legible {
      var p := Buscar(m.pcbs, pid, 0).value;
      var x := p.(tid := tid);
      OtroDelProceso(m, p, tid);
      PropiedadAlAgregar(m.pcbs, m.tabla, x);
    }
  }

  /** Every guarded request keeps the tiling and the ownership of partitions, whichever fit is
      configured and whatever the reply is. */
  lemma PasoConserva(m: Mem, op: Op, m': Mem, r: OpCode)
    requires Inv(m) && Guarda(m, op) && Paso(m, op, m', r)
    ensures Inv(m') && m'.e == m.e && m'.alg == m.alg && m'.tam == m.tam && m'.alcance == m.alcance
  {
    match op
    case CrearProceso(pid, n, legible) => CrearProcesoConserva(m, pid, n, legible, m', r);
    case FinProceso(pid) => FinProcesoConserva(m, pid, m', r);
    case CrearHilo(pid, tid, legible) => CrearHiloConserva(m, pid, tid, legible, m', r);
    case FinHilo(pid, tid) =>
      SinHiloDistintas(m.pcbs, pid, tid);
      PropiedadAlQuitar(m.pcbs, m'.pcbs, m.tabla);
  }

  // ---- Runs ----

  ghost predicate Inicial(m: Mem) {
    && m.pcbs == [] && Teselada(m.tabla, m.alcance)
    && (forall i :: 0 <= i < |m.tabla| ==> !m.tabla[i].ocupado)
    && (m.e == DINAMICAS ==> |m.tabla| == 1 && m.alcance == m.tam)
  }

  ghost predicate Corrida(ms: seq<Mem>, ops: seq<Op>, rs: seq<OpCode>) {
    && |ms| == |ops| + 1 && |rs| == |ops| && Inicial(ms[0])
    && forall k :: 0 <= k < |ops| ==> Guarda(ms[k], ops[k]) && Paso(ms[k], ops[k], ms[k + 1], rs[k])
  }

  lemma CorridaEn(ms: seq<Mem>, ops: seq<Op>, rs: seq<OpCode>, k: nat)
    requires Corrida(ms, ops, rs) && k < |ops|
    ensures |ms| == |ops| + 1 && |rs| == |ops|
    ensures Guarda(ms[k], ops[k]) && Paso(ms[k], ops[k], ms[k + 1], rs[k])
  {
  }

  lemma CorridaLargo(ms: seq<Mem>, ops: seq<Op>, rs: seq<OpCode>)
    requires Corrida(ms, ops, rs)
    ensures |ms| == |ops| + 1 && |rs| == |ops| && Inicial(ms[0])
  {
  }

  /** The step does not release the partition at address 0 while its successor is free. */
  ghost predicate Fusiona(m: Mem, op: Op) {
    match op
    case FinProceso(pid) =>
      var p := Buscar(m.pcbs, pid, 0);
      p.Some? && p.value.base == 0 ==> !Libre(m.tabla, 1)
    case _ => true
  }

  lemma PasoCoalescida(m: Mem, op: Op, m': Mem, r: OpCode)
    requires Inv(m) && Guarda(m, op) && Paso(m, op, m', r)
    requires m.e == DINAMICAS && Coalescida(m.tabla)
    ensures Coalescida(m'.tabla) <==> Fusiona(m, op)
  {
    match op
    case CrearProceso(pid, n, legible) =>
      if r == SUCCESS || r == PATH_ERROR {
        var i := IndiceAsignado(m, pid, n, legible, m', r);
        hide Inv, Paso;
        AsignadaCoalescida(m.tabla, i, n);
      }
    case FinProceso(pid) =>
      if Vive(m.pcbs, pid) {
        hide Paso;
        FinCoalescida(m, pid, m', r);
      }
    case _ =>
  }

  lemma FinCoalescida(m: Mem, pid: int, m': Mem, r: OpCode)
    requires Inv(m) && Paso(m, FinProceso(pid), m', r) && Vive(m.pcbs, pid)
    requires m.e == DINAMICAS && Coalescida(m.tabla)
    ensures Coalescida(m'.tabla) <==> Fusiona(m, FinProceso(pid))
  {
    hide Paso, Liberada;
    var p, i := IndiceLiberado(m, pid, m', r);
    LiberadaCoalescidaSiYSoloSi(m.tabla, m.alcance, i);
    CubreOrdenada(m.tabla, 0, m.alcance - 1);
    assert i == 0 <==> p.base == 0;
  }

  /** Over every run: the table tiles its range, no byte is lost, and every live process owns one
      occupied partition that no other process shares. */
  lemma {:induction false} TodaCorrida(ms: seq<Mem>, ops: seq<Op>, rs: seq<OpCode>, k: nat)
    requires Corrida(ms, ops, rs) && k <= |ops|
    ensures Inv(ms[k]) && ms[k].alcance == ms[0].alcance
    ensures Bytes(ms[k].tabla, true) + Bytes(ms[k].tabla, false) == ms[0].alcance
  {
    if k == 0 {
    } else {
      TodaCorrida(ms, ops, rs, k - 1);
      PasoConserva(ms[k - 1], ops[k - 1], ms[k], rs[k - 1]);
    }
    BytesConservados(ms[k].tabla, 0, ms[k].alcance - 1);
  }

  /** Allocator completeness over every DINAMICAS run whose releases all merge: a process is
      admitted exactly when its bytes are free somewhere in one piece, and exactly then each of the
      three fits finds a partition. */
  lemma AsignadorCompleto(ms: seq<Mem>, ops: seq<Op>, rs: seq<OpCode>, k: nat, n: int)
    requires Corrida(ms, ops, rs) && k <= |ops| && ms[0].e == DINAMICAS && n >= 1
    requires forall j :: 0 <= j < k ==> Fusiona(ms[j], ops[j])
    ensures ms[k].e == DINAMICAS && ms[k].tam == ms[0].tam == ms[k].alcance && Coalescida(ms[k].tabla)
    ensures Entra(ms[k].tabla, ms[k].tam, n) == SUCCESS <==> exists base :: Hueco(ms[k].tabla, ms[k].tam, base, n)
    ensures forall alg :: alg != DESCONOCIDO ==>
      (Entra(ms[k].tabla, ms[k].tam, n) == SUCCESS <==> Encuentra(alg, ms[k].tabla, n))
  {
    hide *;
    CorridaLargo(ms, ops, rs);
    SigueCoalescida(ms, ops, rs, k);
    TodaCorrida(ms, ops, rs, k);
    InvTesela(ms[k]);
    EntraSiYSoloSiHayHueco(ms[k].tabla, ms[k].tam, n);
    CadaAjusteEncuentra(ms[k].tabla, ms[k].tam, n);
  }

  lemma InvTesela(m: Mem)
    requires Inv(m)
    ensures Teselada(m.tabla, m.alcance)
  {
  }

  lemma InicialCoalescida(m: Mem)
    requires Inicial(m) && m.e == DINAMICAS
    ensures Coalescida(m.tabla) && m.tam == m.alcance
  {
  }

  lemma {:induction false} SigueCoalescida(ms: seq<Mem>, ops: seq<Op>, rs: seq<OpCode>, k: nat)
    requires Corrida(ms, ops, rs) && k <= |ops| && ms[0].e == DINAMICAS
    requires forall j :: 0 <= j < k ==> Fusiona(ms[j], ops[j])
    ensures ms[k].e == DINAMICAS && ms[k].tam == ms[0].tam == ms[k].alcance && Coalescida(ms[k].tabla)
  {
    hide *;
    CorridaLargo(ms, ops, rs);
    if k == 0 {
      InicialCoalescida(ms[0]);
    } else {
      SigueCoalescida(ms, ops, rs, k - 1);
      TodaCorrida(ms, ops, rs, k - 1);
      CorridaEn(ms, ops, rs, k - 1);
      PasoConserva(ms[k - 1], ops[k - 1], ms[k], rs[k - 1]);
      PasoCoalescida(ms[k - 1], ops[k - 1], ms[k], rs[k - 1]);
    }
  }

  lemma CadaAjusteEncuentra(t: Tabla, tam: int, n: int)
    requires Teselada(t, tam)
    ensures forall alg :: alg != DESCONOCIDO ==> (Entra(t, tam, n) == SUCCESS <==> Encuentra(alg, t, n))
  {
    if i :| 0 <= i < |t| && t[i].Elegible(n) {
      DentroDelRango(t, 0, tam - 1, i);
      assert BienFormado(t[i]);
    }
    forall alg | alg != DESCONOCIDO
      ensures Entra(t, tam, n) == SUCCESS <==> Encuentra(alg, t, n)
    {
      EleccionExiste(alg, t, n);
    }
  }

  // ---- Leaks ----

  ghost function Ocupados(t: Tabla): nat {
    if t == [] then 0 else (if t[0].ocupado then 1 else 0) + Ocupados(t[1..])
  }

  ghost function Principales(s: seq<Entrada>): nat {
    if s == [] then 0 else (if s[0].tid == 0 then 1 else 0) + Principales(s[1..])
  }

  ghost function ErroresDeRuta(ops: seq<Op>, rs: seq<OpCode>): nat
    requires |ops| == |rs|
  {
    if ops == [] then 0
    else var n := |ops| - 1;
      (if ops[n].CrearProceso? && rs[n] == PATH_ERROR then 1 else 0) + ErroresDeRuta(ops[..n], rs[..n])
  }

  lemma {:induction false} OcupadosSuma(a: Tabla, b: Tabla)
    ensures Ocupados(a + b) == Ocupados(a) + Ocupados(b)
  {
    if a == [] {
      assert a + b == b;
    } else {
      OcupadosSuma(a[1..], b);
      assert (a + b)[1..] == a[1..] + b;
    }
  }

  lemma {:induction false} PrincipalesSuma(a: seq<Entrada>, b: seq<Entrada>)
    ensures Principales(a + b) == Principales(a) + Principales(b)
  {
    if a == [] {
      assert a + b == b;
    } else {
      PrincipalesSuma(a[1..], b);
      assert (a + b)[1..] == a[1..] + b;
    }
  }

  lemma OcupadosReemplazo(t: Tabla, lo: nat, hi: nat, m: Tabla)
    requires lo <= hi <= |t|
    ensures Ocupados(Reemplazo(t, lo, hi, m)) - Ocupados(t) == Ocupados(m) - Ocupados(t[lo..hi])
  {
    OcupadosSuma(t[..lo] + m, t[hi..]);
    OcupadosSuma(t[..lo], m);
    OcupadosSuma(t[..lo] + t[lo..hi], t[hi..]);
    OcupadosSuma(t[..lo], t[lo..hi]);
    assert t[..lo] + t[lo..hi] == t[..hi] && t[..hi] + t[hi..] == t;
  }

  lemma OcupadosAsignada(e: Esquema, t: Tabla, i: int, n: int)
    requires 0 <= i < |t| && !t[i].ocupado
    ensures Ocupados(Asignada(e, t, i, n)) == Ocupados(t) + 1
  {
    var ocupado, libre := Recorte(t[i], n), Resto(t[i], n);
    assert [ocupado, libre] == [ocupado] + [libre];
    OcupadosSuma([ocupado], [libre]);
    OcupadosReemplazo(t, i, i + 1, [ocupado, libre]);
    OcupadosReemplazo(t, i, i + 1, [t[i].(ocupado := true)]);
    assert t[i..i + 1] == [t[i]];
  }

  lemma OcupadosLiberada(e: Esquema, t: Tabla, i: int)
    requires 0 <= i < |t| && t[i].ocupado
    ensures Ocupados(Liberada(e, t, i)) == Ocupados(t) - 1
  {
    var (lo, hi, b) := Tramo(e, t, i);
    assert !b.ocupado;
    forall k | lo <= k < hi && k != i
      ensures !t[k].ocupado
    {
      if t[k].ocupado {
        TramoSoloUnoOcupado(e, t, i, k);
      }
    }
    hide Tramo;
    OcupadosReemplazo(t, lo, hi, [b]);
    OcupadosTramo(t, lo, hi, i);
  }

  lemma OcupadosTramo(t: Tabla, lo: nat, hi: nat, i: int)
    requires lo <= i < hi <= |t| && t[i].ocupado
    requires forall k :: lo <= k < hi && k != i ==> !t[k].ocupado
    ensures Ocupados(t[lo..hi]) == 1
  {
    SinOcupados(t[lo..i]);
    SinOcupados(t[i + 1..hi]);
    OcupadosSuma(t[lo..i], t[i..hi]);
    assert t[lo..i] + t[i..hi] == t[lo..hi] && t[i..hi][1..] == t[i + 1..hi];
  }

  lemma {:induction false} PrincipalesSinPid(s: seq<Entrada>, pid: int)
    requires Distintas(s)
    ensures Principales(SinPid(s, pid)) == Principales(s) - (if Buscar(s, pid, 0).Some? then 1 else 0)
  {
    if s == [] {
    } else {
      PrincipalesSinPid(s[1..], pid);
      PrincipalesSuma(if s[0].pid == pid then [] else [s[0]], SinPid(s[1..], pid));
      if s[0].pid == pid && s[0].tid == 0 {
        assert forall k :: 0 < k < |s| ==> !(s[k].pid == pid && s[k].tid == 0);
        assert Buscar(s[1..], pid, 0).None?;
      }
    }
  }

  lemma {:induction false} PrincipalesSinHilo(s: seq<Entrada>, pid: int, tid: int)
    requires tid != 0
    ensures Principales(SinHilo(s, pid, tid)) == Principales(s)
  {
    if s != [] && !(s[0].pid == pid && s[0].tid == tid) {
      PrincipalesSinHilo(s[1..], pid, tid);
      assert ([s[0]] + SinHilo(s[1..], pid, tid))[1..] == SinHilo(s[1..], pid, tid);
    }
  }

  /** Occupied partitions beyond one for each live process. */
  ghost function Sobran(m: Mem): int {
    Ocupados(m.tabla) - Principales(m.pcbs)
  }

  lemma BalanceAlCrear(m: Mem, pid: int, n: int, legible: bool, m': Mem, r: OpCode)
    requires Inv(m) && n >= 1 && Paso(m, CrearProceso(pid, n, legible), m', r)
    ensures Sobran(m') == Sobran(m) + (if r == PATH_ERROR then 1 else 0)
  {
    hide Inv, Asignada, Principales, Ocupados, NuevoPrincipal, Elige, PasoAsignar;
    if r == SUCCESS || r == PATH_ERROR {
      var i := IndiceAsignado(m, pid, n, legible, m', r);
      OcupadosAsignada(m.e, m.tabla, i, n);
      PrincipalesMas(m.pcbs, NuevoPrincipal(m.e, m.tabla[i], pid, n));
      EsPrincipal(m.e, m.tabla[i], pid, n);
    }
  }

  lemma EsPrincipal(e: Esquema, b: Bloque, pid: int, n: int)
    ensures NuevoPrincipal(e, b, pid, n).tid == 0
  {
  }

  lemma PrincipalesMas(s: seq<Entrada>, x: Entrada)
    ensures Principales(s + [x]) == Principales(s) + if x.tid == 0 then 1 else 0
  {
    PrincipalesSuma(s, [x]);
  }

  lemma BalanceAlTerminar(m: Mem, pid: int, m': Mem, r: OpCode)
    requires Inv(m) && Paso(m, FinProceso(pid), m', r)
    ensures Sobran(m') == Sobran(m)
  {
    if Vive(m.pcbs, pid) {
      assert Distintas(m.pcbs);
      hide Inv, Paso, Liberada, Principales, Ocupados, Distintas, SinPid;
      var p, i := IndiceLiberado(m, pid, m', r);
      OcupadosLiberada(m.e, m.tabla, i);
      PrincipalesSinPid(m.pcbs, pid);
    }
  }

  /** How one request moves the balance between occupied partitions and live processes. */
  lemma PasoBalance(m: Mem, op: Op, m': Mem, r: OpCode)
    requires Inv(m) && Guarda(m, op) && Paso(m, op, m', r)
    ensures Ocupados(m'.tabla) - Principales(m'.pcbs)
            == Ocupados(m.tabla) - Principales(m.pcbs) + (if op.CrearProceso? && r == PATH_ERROR then 1 else 0)
  {
    hide Inv, Vive, Ocupados, Principales, SinHilo, Buscar, PasoCrearProceso, PasoFinProceso;
    match op
    case CrearProceso(pid, n, legible) => BalanceAlCrear(m, pid, n, legible, m', r);
    case FinProceso(pid) => BalanceAlTerminar(m, pid, m', r);
    case CrearHilo(pid, tid, legible) =>
      if legible {
        PrincipalesMas(m.pcbs, Buscar(m.pcbs, pid, 0).value.(tid := tid));
        SegundoHilo(m.pcbs, pid, tid);
      }
    case FinHilo(pid, tid) => PrincipalesSinHilo(m.pcbs, pid, tid);
  }

  /** A thread whose entry is new, in a process whose first thread has one, is not the first. */
  lemma SegundoHilo(s: seq<Entrada>, pid: int, tid: int)
    requires Buscar(s, pid, tid).None? && Buscar(s, pid, 0).Some?
    ensures tid != 0
  {
  }

  /** Over every run the occupied partitions are the live processes plus one partition for each
      creation that failed to open its file: those are never released. */
  lemma {:induction false} FugasExactas(ms: seq<Mem>, ops: seq<Op>, rs: seq<OpCode>)
    requires Corrida(ms, ops, rs)
    ensures Ocupados(ms[|ops|].tabla) == Principales(ms[|ops|].pcbs) + ErroresDeRuta(ops, rs)
  {
    var n := |ops|;
    if n == 0 {
      SinOcupados(ms[0].tabla);
    } else {
      FugasExactas(ms[..n], ops[..n - 1], rs[..n - 1]);
      TodaCorrida(ms, ops, rs, n - 1);
      PasoBalance(ms[n - 1], ops[n - 1], ms[n], rs[n - 1]);
    }
  }

  // ---- The partition a process that could not be read leaves behind ----

  /** An occupied partition that belongs to no live process. */
  ghost predicate Huerfana(m: Mem, b: Bloque) {
    b.ocupado && b in m.tabla && forall x :: x in m.pcbs ==> x.base != b.inicio
  }

  lemma HuerfanaAlCrear(m: Mem, pid: int, n: int, legible: bool, m': Mem, r: OpCode, b: Bloque)
    requires Inv(m) && n >= 1 && Paso(m, CrearProceso(pid, n, legible), m', r) && Huerfana(m, b)
    ensures Huerfana(m', b)
  {
    if r == SUCCESS || r == PATH_ERROR {
      var i := IndiceAsignado(m, pid, n, legible, m', r);
      OcupadosTrasAsignar(m.e, m.tabla, m.alcance, i, n);
      if b.inicio == m.tabla[i].inicio {
        AsientoUnico(m.tabla, m.alcance, b, m.tabla[i]);
      }
      hide Inv, Paso, Asignada, Elige;
    } else {
      hide Inv, Entra, Toma;
    }
  }

  lemma HuerfanaAlTerminar(m: Mem, pid: int, m': Mem, r: OpCode, b: Bloque)
    requires Inv(m) && Paso(m, FinProceso(pid), m', r) && Huerfana(m, b)
    ensures Huerfana(m', b)
  {
    if Vive(m.pcbs, pid) {
      FinProcesoExacto(m, pid, m', r, 0, b);
      hide Inv, Paso, Teselada;
    } else {
      hide Inv;
    }
  }

  /** No request ever gives back a partition that belongs to nobody. */
  lemma PasoHuerfana(m: Mem, op: Op, m': Mem, r: OpCode, b: Bloque)
    requires Inv(m) && Guarda(m, op) && Paso(m, op, m', r) && Huerfana(m, b)
    ensures Huerfana(m', b)
  {
    hide Inv, PasoCrearProceso, PasoFinProceso;
    match op
    case CrearProceso(pid, n, legible) => HuerfanaAlCrear(m, pid, n, legible, m', r, b);
    case FinProceso(pid) => HuerfanaAlTerminar(m, pid, m', r, b);
    case CrearHilo(_, _, _) =>
    case FinHilo(_, _) =>
  }

  /** A PATH_ERROR leaves such a partition, one that was not there before. */
  lemma RutaDejaHuerfana(m: Mem, pid: int, n: int, legible: bool, m': Mem) returns (b: Bloque)
    requires Inv(m) && n >= 1 && Paso(m, CrearProceso(pid, n, legible), m', PATH_ERROR)
    ensures Huerfana(m', b) && b !in m.tabla && (m.e == DINAMICAS ==> b.tamanio == n)
  {
    var i := IndiceAsignado(m, pid, n, legible, m', PATH_ERROR);
    b := m'.tabla[i];
    AsignadaOcupa(m.e, m.tabla, m.alcance, i, n, 0, b);
    forall y | y in m.pcbs
      ensures y.base != b.inicio
    {
      assert Asiento(m.tabla, y.base, y.limite);
      OtroAsiento(m.tabla, m.alcance, i, y.base, y.limite);
    }
    if b in m.tabla {
      AsientoUnico(m.tabla, m.alcance, b, m.tabla[i]);
    }
  }

  lemma {:induction false} HuerfanaParaSiempre(ms: seq<Mem>, ops: seq<Op>, rs: seq<OpCode>, j: nat, k: nat, b: Bloque)
    requires Corrida(ms, ops, rs) && j <= k <= |ops| && Huerfana(ms[j], b)
    ensures Huerfana(ms[k], b)
  {
    hide *;
    CorridaLargo(ms, ops, rs);
    if j == k {
    } else {
      HuerfanaParaSiempre(ms, ops, rs, j, k - 1, b);
      TodaCorrida(ms, ops, rs, k - 1);
      CorridaEn(ms, ops, rs, k - 1);
      PasoHuerfana(ms[k - 1], ops[k - 1], ms[k], rs[k - 1], b);
    }
  }

  /** Over every run, the very partition taken by a process whose program could not be read stays occupied
      for ever, and no process ever has it. */
  lemma FugaParaSiempre(ms: seq<Mem>, ops: seq<Op>, rs: seq<OpCode>, j: nat) returns (b: Bloque)
    requires Corrida(ms, ops, rs) && j < |ops| && ops[j].CrearProceso? && rs[j] == PATH_ERROR
    ensures b !in ms[j].tabla && (ms[j].e == DINAMICAS ==> b.tamanio == ops[j].tamanio)
    ensures forall k :: j < k <= |ops| ==> Huerfana(ms[k], b)
  {
    TodaCorrida(ms, ops, rs, j);
    hide Inv, Paso, Huerfana;
    b := RutaDejaHuerfana(ms[j], ops[j].pid, ops[j].tamanio, ops[j].legible, ms[j + 1]);
    forall k | j < k <= |ops|
      ensures Huerfana(ms[k], b)
    {
      HuerfanaParaSiempre(ms, ops, rs, j + 1, k, b);
    }
  }

  lemma UnPasoEsCorrida(m: Mem, op: Op, m': Mem, r: OpCode)
    requires Inicial(m) && Guarda(m, op) && Paso(m, op, m', r)
    ensures Corrida([m, m'], [op], [r])
  {
    hide Inicial, Guarda, Paso;
  }

  lemma EsFresca(b: Bloque)
    requires b.inicio == 0 && b.tamanio >= 1 && b.fin == b.tamanio - 1 && !b.ocupado
    ensures Inicial(Mem(DINAMICAS, FIRST, b.tamanio, b.tamanio, [b], []))
  {
    CubreUno(b);
    hide Cubre;
  }

  lemma EsRutaIlegible(b: Bloque, n: int)
    requires b.Elegible(n) && b.tamanio > n >= 1
    ensures var m := Mem(DINAMICAS, FIRST, b.tamanio, b.tamanio, [b], []);
            && Guarda(m, CrearProceso(1, n, false))
            && Paso(m, CrearProceso(1, n, false), m.(tabla := [Recorte(b, n), Resto(b, n)]), PATH_ERROR)
  {
    var m := Mem(DINAMICAS, FIRST, b.tamanio, b.tamanio, [b], []);
    PrimeraSirve(b, b.tamanio, n);
    PasoCortarLaUnica(b, n);
    hide Entra, Elige, PasoAsignar, Recorte, Resto;
    assert Toma(m, 1, n, false, m.(tabla := [Recorte(b, n), Resto(b, n)]), PATH_ERROR, 0);
  }

  /** Such a run: a fresh memory of 10 bytes and a process of 4 whose program cannot be read. */
  lemma RutaIlegible()
    ensures var m0 := Mem(DINAMICAS, FIRST, 10, 10, [Bloque(0, 9, 10, false)], []);
            var m1 := m0.(tabla := [Bloque(0, 3, 4, true), Bloque(4, 9, 6, false)]);
            Corrida([m0, m1], [CrearProceso(1, 4, false)], [PATH_ERROR])
  {
    var b := Bloque(0, 9, 10, false);
    var m0 := Mem(DINAMICAS, FIRST, 10, 10, [b], []);
    hide Corrida, Guarda, Paso, Inicial;
    EsFresca(b);
    EsRutaIlegible(b, 4);
    UnPasoEsCorrida(m0, CrearProceso(1, 4, false), m0.(tabla := [Recorte(b, 4), Resto(b, 4)]), PATH_ERROR);
  }

  lemma {:induction false} SinOcupados(t: Tabla)
    requires forall i :: 0 <= i < |t| ==> !t[i].ocupado
    ensures Ocupados(t) == 0
  {
    if t == [] {
    } else {
      SinOcupados(t[1..]);
    }
  }
}
