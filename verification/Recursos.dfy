/** Which mutex a name selects, and what locking and unlocking it does to the others.
    Sources: kernel/src/utils.c (buscar_recurso) and kernel/src/syscalls.c (mutex_lock, mutex_unlock). */
module Recursos {
  import opened Opcion
  import opened Planificacion
  import opened Kernel

  // ---- Names ----

  /** The same character, or the same letter of A-Z in one case and the other. */
  predicate MismoCaracter(a: char, b: char) {
    || a == b
    || ('A' <= a <= 'Z' && b as int == a as int + 32)
    || ('A' <= b <= 'Z' && a as int == b as int + 32)
  }

  predicate MismoNombre(a: string, b: string) {
    |a| == |b| && forall i :: 0 <= i < |a| ==> MismoCaracter(a[i], b[i])
  }

  /** The first mutex of that name, and the last of the list exactly when there is none. */
  ghost predicate Elegido(ms: seq<Recurso>, nombre: string, i: nat) {
    && i < |ms| && (forall j :: 0 <= j < i ==> !MismoNombre(ms[j].nombre, nombre))
    && (MismoNombre(ms[i].nombre, nombre) || i == |ms| - 1)
  }

  lemma IgualEsMismoNombre(a: string, b: string)
    ensures IgualSinCaja(a, b) == MismoNombre(a, b)
  {
  }

  /** The search selects exactly the mutex the name stands for. */
  lemma {:induction false} BuscaAlElegido(ms: seq<Recurso>, nombre: string, i: nat)
    ensures BuscarRecurso(ms, nombre) == Some(i) <==> Elegido(ms, nombre, i)
  {
    hide IgualSinCaja, MismoNombre;
    if ms != [] {
      IgualEsMismoNombre(ms[0].nombre, nombre);
      if |ms| > 1 && !MismoNombre(ms[0].nombre, nombre) && i > 0 {
        BuscaAlElegido(ms[1..], nombre, i - 1);
        ElegidoEnCola(ms, nombre, i);
      }
    }
  }

  lemma ElegidoEnCola(ms: seq<Recurso>, nombre: string, i: nat)
    requires |ms| > 1 && i > 0 && !MismoNombre(ms[0].nombre, nombre)
    ensures Elegido(ms[1..], nombre, i - 1) <==> Elegido(ms, nombre, i)
  {
    hide MismoNombre;
    if Elegido(ms[1..], nombre, i - 1) {
      forall j | 0 <= j < i
        ensures !MismoNombre(ms[j].nombre, nombre)
      {
        if j > 0 {
          assert ms[j] == ms[1..][j - 1];
        }
      }
    }
  }

  // ---- Locking and unlocking by name ----

  /** No two mutexes of the list share a name. */
  ghost predicate NombresDistintos(ms: seq<Recurso>) {
    forall i, j :: 0 <= i < j < |ms| ==> !MismoNombre(ms[i].nombre, ms[j].nombre)
  }

  /** The mutexes of every process are as before, but for number j of the process p, which is r now. */
  ghost predicate SoloElMutex(k: K, k': K, p: nat, j: nat, r: Recurso) {
    && j < |Proceso(k, p).mutex| && Proceso(k', p).mutex == Proceso(k, p).mutex[j := r]
    && Proceso(k', p).threads == Proceso(k, p).threads
    && forall q: nat :: q != p ==> Proceso(k', q) == Proceso(k, q)
  }

  lemma MismoNombreTransitiva(a: string, b: string, c: string)
    requires MismoNombre(a, b) && MismoNombre(c, b)
    ensures MismoNombre(a, c)
  {
  }

  /** With different names, the mutex a name stands for is the one that has it, wherever it is. */
  lemma ElDelNombre(ms: seq<Recurso>, nombre: string, j: nat)
    requires NombresDistintos(ms) && j < |ms| && MismoNombre(ms[j].nombre, nombre)
    ensures BuscarRecurso(ms, nombre) == Some(j)
  {
    hide MismoNombre;
    forall i | 0 <= i < j
      ensures !MismoNombre(ms[i].nombre, nombre)
    {
      if MismoNombre(ms[i].nombre, nombre) {
        MismoNombreTransitiva(ms[i].nombre, nombre, ms[j].nombre);
      }
    }
    BuscaAlElegido(ms, nombre, j);
  }

  /** mutex_lock by the name of mutex j touches no other one: the caller owns it if it was free, and is the
      last of its waiters if it was not. */
  lemma LockPorNombre(k: K, h: Hilo, nombre: string, j: nat)
    requires var ms := Proceso(k, h.pid).mutex;
             NombresDistintos(ms) && j < |ms| && MismoNombre(ms[j].nombre, nombre)
    ensures var r := Proceso(k, h.pid).mutex[j];
            SoloElMutex(k, MutexLock(k, h, nombre), h.pid, j,
                        if r.owner == -1 then Recurso(r.nombre, h.tid, r.hilos)
                        else Recurso(r.nombre, r.owner, r.hilos + [h.tid]))
  {
    ElDelNombre(Proceso(k, h.pid).mutex, nombre, j);
    hide BuscarRecurso, NombresDistintos, MismoNombre, Quitar;
  }

  /** mutex_unlock by the name of mutex j touches no other one: if the caller owns it, the first waiter is
      its owner now, or nobody when there is none; if not, nothing changes. */
  lemma UnlockPorNombre(k: K, h: Hilo, nombre: string, j: nat)
    requires var ms := Proceso(k, h.pid).mutex;
             NombresDistintos(ms) && j < |ms| && MismoNombre(ms[j].nombre, nombre)
    ensures var r, k' := Proceso(k, h.pid).mutex[j], MutexUnlock(k, h, nombre);
            && (r.owner != h.tid ==> k' == k)
            && (r.owner == h.tid ==>
                  SoloElMutex(k, k', h.pid, j, if r.hilos == [] then Recurso(r.nombre, -1, [])
                                               else Recurso(r.nombre, r.hilos[0], r.hilos[1..])))
  {
    ElDelNombre(Proceso(k, h.pid).mutex, nombre, j);
    hide BuscarRecurso, NombresDistintos, MismoNombre, Quitar;
  }
}
