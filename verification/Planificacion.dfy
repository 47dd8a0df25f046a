/** The choice of the next thread from the ready queue, and what it guarantees to those that wait.
    Source: kernel/src/algoritmos_planificacion.c. */
module Planificacion {
  import opened Listas

  datatype Algoritmo = FIFO | PRIORIDADES | CMN

  datatype Hilo = Hilo(pid: nat, tid: nat)

  /** A thread in the ready queue; `desde` is the instant it was enqueued. */
  datatype Listo = Listo(h: Hilo, prioridad: nat, desde: nat)

  // ---- The scan ----

  /** Smaller numbers are more urgent; among equals, the longer wait. */
  predicate MayorPrioridadNuevo(hilo: Listo, nuevo: Listo, ahora: nat) {
    var esperaNuevo, esperaHilo := ahora - nuevo.desde, ahora - hilo.desde;
    nuevo.prioridad < hilo.prioridad || (nuevo.prioridad == hilo.prioridad && esperaNuevo > esperaHilo)
  }

  /** Best index among the first n, as the loop finds it. */
  function Recorrer(c: seq<Listo>, n: nat, ahora: nat): (m: nat)
    requires 1 <= n <= |c|
    ensures m < n
  {
    if n == 1 then 0
    else
      var m := Recorrer(c, n - 1, ahora);
      if MayorPrioridadNuevo(c[m], c[n - 1], ahora) then n - 1 else m
  }

  function Eleccion(alg: Algoritmo, c: seq<Listo>, ahora: nat): (m: nat)
    requires c != []
    ensures m < |c|
  {
    if alg == FIFO then 0 else Recorrer(c, |c|, ahora)
  }

  /** The queue is in the order its threads arrived. */
  predicate Ordenada(c: seq<Listo>) {
    forall i, j :: 0 <= i < j < |c| ==> c[i].desde <= c[j].desde
  }

  /** m is the first of the threads with the smallest priority number. */
  predicate PrimeroMasUrgente(c: seq<Listo>, m: nat) {
    m < |c| && (forall j :: 0 <= j < |c| ==> c[m].prioridad <= c[j].prioridad)
    && forall j :: 0 <= j < m ==> c[m].prioridad < c[j].prioridad
  }

  /** Whatever the order of the queue, the scan finds the most urgent thread that has waited longest,
      the lowest index among equals. */
  lemma {:induction false} RecorrerMinimo(c: seq<Listo>, n: nat, ahora: nat)
    requires 1 <= n <= |c|
    ensures var m := Recorrer(c, n, ahora);
            && (forall j :: 0 <= j < n ==> c[m].prioridad < c[j].prioridad
                                           || (c[m].prioridad == c[j].prioridad && c[m].desde <= c[j].desde))
            && (forall j :: 0 <= j < m ==> c[m].prioridad < c[j].prioridad
                                           || (c[m].prioridad == c[j].prioridad && c[m].desde < c[j].desde))
  {
    if n > 1 {
      RecorrerMinimo(c, n - 1, ahora);
    }
  }

  /** In a queue in arrival order the tie-break on waiting times never moves the choice: it is the
      first thread of the most urgent class. */
  lemma EligePrimeroMasUrgente(alg: Algoritmo, c: seq<Listo>, ahora: nat)
    requires alg != FIFO && c != [] && Ordenada(c)
    ensures PrimeroMasUrgente(c, Eleccion(alg, c, ahora))
  {
    RecorrerMinimo(c, |c|, ahora);
  }

  // ---- Draining the queue is a stable sort ----

  ghost function Drenar(c: seq<Listo>, ahora: nat): seq<Listo>
    decreases |c|
  {
    if c == [] then []
    else
      var m := Recorrer(c, |c|, ahora);
      [c[m]] + Drenar(Sin(c, m), ahora)
  }

  /** The threads of priority p, in order. */
  ghost function DePrioridad(c: seq<Listo>, p: nat): seq<Listo> {
    if c == [] then [] else (if c[0].prioridad == p then [c[0]] else []) + DePrioridad(c[1..], p)
  }

  lemma {:induction false} DePrioridadSuma(a: seq<Listo>, b: seq<Listo>, p: nat)
    ensures DePrioridad(a + b, p) == DePrioridad(a, p) + DePrioridad(b, p)
  {
    if a == [] {
      assert a + b == b;
    } else {
      var s := a + b;
      assert s[0] == a[0] && s[1..] == a[1..] + b;
      DePrioridadSuma(a[1..], b, p);
      Asociar(if a[0].prioridad == p then [a[0]] else [], DePrioridad(a[1..], p), DePrioridad(b, p));
    }
  }

  lemma {:induction false} SinPrioridad(c: seq<Listo>, p: nat)
    requires forall j :: 0 <= j < |c| ==> c[j].prioridad != p
    ensures DePrioridad(c, p) == []
  {
    if c == [] {
    } else {
      SinPrioridad(c[1..], p);
    }
  }

  /** Taking the first of a class leaves the rest of the class, and the other classes, in order. */
  lemma QuitarPrimero(c: seq<Listo>, m: nat, p: nat)
    requires PrimeroMasUrgente(c, m)
    ensures DePrioridad(c, p) == DePrioridad([c[m]], p) + DePrioridad(Sin(c, m), p)
  {
    var a, b := c[..m], c[m + 1..];
    assert c == a + ([c[m]] + b) && Sin(c, m) == a + b;
    DePrioridadSuma(a, [c[m]] + b, p);
    DePrioridadSuma([c[m]], b, p);
    DePrioridadSuma(a, b, p);
    if p == c[m].prioridad {
      SinPrioridad(a, p);
    } else {
      SinPrioridad([c[m]], p);
    }
    hide DePrioridad;
  }

  ghost predicate Acotada(d: seq<Listo>, p: nat) {
    forall i :: 0 <= i < |d| ==> p <= d[i].prioridad
  }

  lemma {:induction false} DrenarAcotada(c: seq<Listo>, ahora: nat, p: nat)
    requires Acotada(c, p)
    ensures Acotada(Drenar(c, ahora), p)
    decreases |c|
  {
    hide Recorrer;
    if c == [] {
    } else {
      DrenarAcotada(Sin(c, Recorrer(c, |c|, ahora)), ahora, p);
    }
  }

  ghost predicate PorPrioridad(d: seq<Listo>) {
    forall i, j :: 0 <= i < j < |d| ==> d[i].prioridad <= d[j].prioridad
  }

  /** Dispatching until the queue is empty serves the classes from most to least urgent, and each
      class in its order of arrival. */
  lemma {:induction false} DrenarEsOrdenEstable(c: seq<Listo>, ahora: nat, p: nat)
    requires Ordenada(c)
    ensures PorPrioridad(Drenar(c, ahora)) && DePrioridad(Drenar(c, ahora), p) == DePrioridad(c, p)
    decreases |c|
  {
    hide Recorrer, DePrioridad;
    if c == [] {
    } else {
      EligePrimeroMasUrgente(CMN, c, ahora);
      var m := Recorrer(c, |c|, ahora);
      QuitarPrimero(c, m, p);
      DrenarEsOrdenEstable(Sin(c, m), ahora, p);
      var d := Drenar(Sin(c, m), ahora);
      DrenarAcotada(Sin(c, m), ahora, c[m].prioridad);
      DePrioridadSuma([c[m]], d, p);
    }
  }

  // ---- Bounded bypass ----

  /** Threads served before the one at index i: the more urgent ones, and those of its class that
      arrived earlier. Under FIFO, everybody in front. */
  ghost function Rango(alg: Algoritmo, c: seq<Listo>, i: nat): nat
    requires i < |c|
  {
    if alg == FIFO then i else Delante(c, c[i].prioridad, i)
  }

  ghost function Delante(c: seq<Listo>, p: nat, i: int): nat {
    if c == [] then 0
    else
      var n := |c| - 1;
      Delante(c[..n], p, i) + (if c[n].prioridad < p || (c[n].prioridad == p && n < i) then 1 else 0)
  }

  /** Taking out index m renumbers those behind it. */
  ghost function Corrido(i: int, m: nat): int {
    if i > m then i - 1 else i
  }

  lemma {:induction false} DelanteSin(c: seq<Listo>, p: nat, i: int, m: nat)
    requires m < |c|
    ensures Delante(Sin(c, m), p, Corrido(i, m)) ==
            Delante(c, p, i) - (if c[m].prioridad < p || (c[m].prioridad == p && m < i) then 1 else 0)
  {
    var n := |c| - 1;
    if m < n {
      DelanteSin(c[..n], p, i, m);
      assert Sin(c, m)[..n - 1] == Sin(c[..n], m);
    } else {
      assert Sin(c, m) == c[..n];
      DelanteCorte(c[..n], p, i);
    }
  }

  /** Positions past the end of the queue all look the same from inside it. */
  lemma {:induction false} DelanteCorte(c: seq<Listo>, p: nat, i: int)
    ensures Delante(c, p, Corrido(i, |c|)) == Delante(c, p, i)
  {
    if c == [] {
    } else {
      var n := |c| - 1;
      DelanteIgual(c[..n], p, Corrido(i, |c|), i);
    }
  }

  lemma {:induction false} DelanteIgual(c: seq<Listo>, p: nat, i: int, j: int)
    requires i == j || (i >= |c| && j >= |c|)
    ensures Delante(c, p, i) == Delante(c, p, j)
  {
    if c == [] {
    } else {
      DelanteIgual(c[..|c| - 1], p, i, j);
    }
  }

  lemma {:induction false} DelanteCero(c: seq<Listo>, p: nat, i: int)
    requires forall j :: 0 <= j < |c| ==> !(c[j].prioridad < p || (c[j].prioridad == p && j < i))
    ensures Delante(c, p, i) == 0
  {
    if c == [] {
    } else {
      DelanteCero(c[..|c| - 1], p, i);
    }
  }

  lemma {:induction false} DelantePositivo(c: seq<Listo>, p: nat, i: int, j: nat)
    requires j < |c| && (c[j].prioridad < p || (c[j].prioridad == p && j < i))
    ensures Delante(c, p, i) > 0
  {
    if j < |c| - 1 {
      DelantePositivo(c[..|c| - 1], p, i, j);
    }
  }

  /** The same for the first thread m of the most urgent class, counting who is ahead. */
  lemma MasUrgenteAcerca(c: seq<Listo>, i: nat, m: nat)
    requires i < |c| && PrimeroMasUrgente(c, m)
    ensures m == i <==> Delante(c, c[i].prioridad, i) == 0
    ensures m != i ==> Delante(Sin(c, m), c[i].prioridad, Corrido(i, m)) == Delante(c, c[i].prioridad, i) - 1
  {
    hide Delante;
    if m == i {
      DelanteCero(c, c[i].prioridad, i);
    } else {
      DelantePositivo(c, c[i].prioridad, i, m);
      DelanteSin(c, c[i].prioridad, i, m);
    }
  }

  lemma CorridoDe<T>(c: seq<T>, i: nat, m: nat)
    requires i < |c| && m < |c| && i != m
    ensures 0 <= Corrido(i, m) < |c| - 1 && Sin(c, m)[Corrido(i, m)] == c[i]
  {
  }

  lemma SinOrdenada(c: seq<Listo>, m: nat)
    requires Ordenada(c) && m < |c|
    ensures Ordenada(Sin(c, m))
  {
  }

  /** The thread at i is chosen exactly when nobody is ahead of it; a dispatch of anybody else brings
      it one place closer. */
  lemma DespachoAcerca(alg: Algoritmo, c: seq<Listo>, i: nat, ahora: nat)
    requires i < |c| && Ordenada(c)
    ensures var m := Eleccion(alg, c, ahora);
            && (m == i <==> Rango(alg, c, i) == 0)
            && (m != i ==> 0 <= Corrido(i, m) < |c| - 1 && Sin(c, m)[Corrido(i, m)] == c[i]
                           && Rango(alg, Sin(c, m), Corrido(i, m)) == Rango(alg, c, i) - 1)
            && Ordenada(Sin(c, m))
  {
    hide Delante, Ordenada, PrimeroMasUrgente;
    var m := Eleccion(alg, c, ahora);
    SinOrdenada(c, m);
    if m != i {
      CorridoDe(c, i, m);
    }
    if alg != FIFO {
      EligePrimeroMasUrgente(alg, c, ahora);
      hide Eleccion;
      MasUrgenteAcerca(c, i, m);
    }
  }

  /** Arrivals of no more urgent threads do not push anybody back. */
  lemma LlegadaNoAtrasa(alg: Algoritmo, c: seq<Listo>, i: nat, x: Listo)
    requires i < |c| && (alg == FIFO || x.prioridad >= c[i].prioridad)
    ensures Rango(alg, c + [x], i) == Rango(alg, c, i)
  {
    assert (c + [x])[..|c|] == c;
  }

  /** A thread that comes back goes behind every thread of its class, which is what makes the slices
      of a class rotate. */
  lemma LlegadaAlFinalDeSuClase(alg: Algoritmo, c: seq<Listo>, x: Listo, j: nat)
    requires alg != FIFO && j < |c| && c[j].prioridad <= x.prioridad && Ordenada(c)
    ensures Rango(alg, c + [x], j) < Rango(alg, c + [x], |c|)
  {
    var d := c + [x];
    assert d[..|c|] == c;
    DelanteIgual(c, x.prioridad, |c|, |c| + 1);
    DelanteMenor(c, c[j].prioridad, j, x.prioridad, j);
  }

  /** Everybody ahead of j is ahead of the newcomer too, and so is j itself. */
  lemma {:induction false} DelanteMenor(c: seq<Listo>, p: nat, i: nat, q: nat, j: nat)
    requires j < |c| && p == c[j].prioridad <= q && i == j
    ensures Delante(c, p, i) < Delante(c, q, |c|)
  {
    var n := |c| - 1;
    DelanteIgual(c[..n], q, |c|, n);
    if j < n {
      DelanteMenor(c[..n], p, i, q, j);
    } else {
      DelanteHasta(c[..n], p, n, q);
    }
  }

  lemma {:induction false} DelanteHasta(c: seq<Listo>, p: nat, i: int, q: nat)
    requires p <= q && i >= |c|
    ensures Delante(c, p, i) <= Delante(c, q, |c|)
  {
    if c == [] {
    } else {
      var n := |c| - 1;
      DelanteHasta(c[..n], p, i, q);
      DelanteIgual(c[..n], q, |c|, n);
    }
  }

  // ---- Runs of the queue ----

  datatype Suceso = Despacha(ahora: nat) | Llega(x: Listo)

  /** Arrivals come in order of time, and none is more urgent than p (which FIFO does not look at). */
  ghost predicate Permitidos(alg: Algoritmo, c: seq<Listo>, ss: seq<Suceso>, p: nat)
    decreases |ss|
  {
    ss == []
    || (match ss[0]
        case Llega(x) =>
          && (alg == FIFO || x.prioridad >= p) && (forall j :: 0 <= j < |c| ==> c[j].desde <= x.desde)
          && Permitidos(alg, c + [x], ss[1..], p)
        case Despacha(t) => c != [] && Permitidos(alg, Sin(c, Eleccion(alg, c, t)), ss[1..], p))
  }

  ghost function Despachos(ss: seq<Suceso>): nat {
    if ss == [] then 0 else (if ss[0].Despacha? then 1 else 0) + Despachos(ss[1..])
  }

  /** The number of dispatches, counting its own, until the thread at index i is the one chosen; None
      when the run ends before. */
  datatype Espera = Nunca | Turno(n: nat)

  ghost function Atendido(alg: Algoritmo, c: seq<Listo>, ss: seq<Suceso>, i: nat): Espera
    requires i < |c|
    decreases |ss|
  {
    if ss == [] then Nunca
    else match ss[0]
      case Llega(x) => Atendido(alg, c + [x], ss[1..], i)
      case Despacha(t) =>
        var m := Eleccion(alg, c, t);
        if m == i then Turno(1)
        else
          var e := Atendido(alg, Sin(c, m), ss[1..], Corrido(i, m));
          if e.Nunca? then Nunca else Turno(e.n + 1)
  }

  /** No starvation among equals: if nobody more urgent arrives, a waiting thread is dispatched at
      exactly the dispatch its rank says, and surely once there are that many. */
  lemma {:induction false} EsperaAcotada(alg: Algoritmo, c: seq<Listo>, ss: seq<Suceso>, i: nat)
    requires i < |c| && Ordenada(c) && Permitidos(alg, c, ss, c[i].prioridad)
    ensures Atendido(alg, c, ss, i) ==
            if Despachos(ss) > Rango(alg, c, i) then Turno(Rango(alg, c, i) + 1) else Nunca
    decreases |ss|
  {
    if ss == [] {
    } else {
      match ss[0]
      case Llega(x) =>
        LlegadaNoAtrasa(alg, c, i, x);
        EsperaAcotada(alg, c + [x], ss[1..], i);
      case Despacha(t) =>
        DespachoAcerca(alg, c, i, t);
        var m := Eleccion(alg, c, t);
        if m != i {
          EsperaAcotada(alg, Sin(c, m), ss[1..], Corrido(i, m));
        }
    }
  }
}
