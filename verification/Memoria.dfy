/** The memory module: its two global tables as lists of records updated in place, and the requests
    of the kernel. Every request is proved to be a step of module Procesos.
    Sources: memoria/src/administrativo.c, algoritmos_busqueda.c, algoritmos_particiones.c and
    operaciones_kernel.c. */
module Memoria {
  import opened Opcion
  import opened Bytes
  import opened Listas
  import Cpu
  import P = Particiones
  import R = Procesos

  /** t_particion */
  class Particion {
    var tamanio: int
    var inicio: int
    var fin: int
    var estaOcupado: bool

    constructor (tamanio: int, inicio: int, fin: int)
      ensures Valor() == P.Bloque(inicio, fin, tamanio, false)
    {
      this.tamanio, this.inicio, this.fin, this.estaOcupado := tamanio, inicio, fin, false;
    }

    ghost function Valor(): P.Bloque
      reads this
    {
      P.Bloque(inicio, fin, tamanio, estaOcupado)
    }

    /** Grows over the partition that follows it. */
    method Absorber(siguiente: Particion)
      requires siguiente != this
      modifies this
      ensures Valor() == P.Fusion(old(Valor()), siguiente.Valor())
    {
      fin := siguiente.fin;
      tamanio := tamanio + siguiente.tamanio;
    }

    /** Keeps the first n bytes for the process; the rest becomes a new free partition. */
    method Dividir(n: nat) returns (nueva: Particion)
      requires tamanio > n && estaOcupado
      modifies this
      ensures fresh(nueva)
      ensures Valor() == P.Recorte(old(Valor()), n) && nueva.Valor() == P.Resto(old(Valor()), n)
    {
      var tamanioRestante := tamanio - n;
      tamanio := n;
      fin := inicio + n - 1;
      if n == 0 {
        fin := inicio;
      }
      if n == 0 {
        nueva := new Particion(tamanioRestante, inicio, inicio + tamanioRestante);
      } else {
        nueva := new Particion(tamanioRestante, fin + 1, fin + 1 + tamanioRestante - 1);
      }
    }
  }

  /** t_pcb_memoria */
  class PcbMemoria {
    const pid: int
    const tid: int
    const tamanio: int
    const instrucciones: seq<Cpu.Instruccion>
    var AX: Uint32
    var BX: Uint32
    var CX: Uint32
    var DX: Uint32
    var EX: Uint32
    var FX: Uint32
    var GX: Uint32
    var HX: Uint32
    var PC: Uint32
    var base: int
    var limite: int

    constructor (pid: int, tid: int, tamanio: int, base: int, limite: int, instrucciones: seq<Cpu.Instruccion>)
      ensures Valor() == R.Entrada(pid, tid, base, limite, tamanio) && this.instrucciones == instrucciones
      ensures AX == BX == CX == DX == EX == FX == GX == HX == PC == 0
    {
      this.pid, this.tid, this.tamanio, this.instrucciones := pid, tid, tamanio, instrucciones;
      AX, BX, CX, DX, EX, FX, GX, HX, PC := 0, 0, 0, 0, 0, 0, 0, 0, 0;
      this.base, this.limite := base, limite;
    }

    ghost function Valor(): R.Entrada
      reads this
    {
      R.Entrada(pid, tid, base, limite, tamanio)
    }
  }

  ghost function Bloques(ps: seq<Particion>): (t: P.Tabla)
    reads ps
    ensures |t| == |ps| && forall i :: 0 <= i < |ps| ==> t[i] == ps[i].Valor()
  {
    seq(|ps|, i requires 0 <= i < |ps| reads ps => ps[i].Valor())
  }

  ghost function Entradas(ps: seq<PcbMemoria>): (t: seq<R.Entrada>)
    reads ps
    ensures |t| == |ps| && forall i :: 0 <= i < |ps| ==> t[i] == ps[i].Valor()
  {
    seq(|ps|, i requires 0 <= i < |ps| reads ps => ps[i].Valor())
  }

  /** The table took in, at its end, the record of a thread that is about to run the first line of its
      program with every register at 0. */
  ghost predicate Carga(ps: seq<PcbMemoria>, ps': seq<PcbMemoria>, pid: int, tid: int,
                        programa: seq<Cpu.Instruccion>)
    reads ps'
  {
    && |ps'| == |ps| + 1 && ps'[..|ps|] == ps
    && var p := ps'[|ps|];
       && p.pid == pid && p.tid == tid && p.instrucciones == programa && p.PC == 0
       && p.AX == p.BX == p.CX == p.DX == p.EX == p.FX == p.GX == p.HX == 0
  }

  /** None of the first n records is that of the thread. */
  ghost predicate NoAntes(ps: seq<PcbMemoria>, pid: int, tid: int, n: int) {
    0 <= n <= |ps| && forall j :: 0 <= j < n ==> !(ps[j].pid == pid && ps[j].tid == tid)
  }

  class Memoria {
    const esquema: P.Esquema
    const algoritmo: P.Algoritmo
    const tamanioMemoria: nat
    ghost const alcance: int
    var tablaParticiones: seq<Particion>
    var tablaPCBs: seq<PcbMemoria>

    ghost function Tabla(): P.Tabla
      reads this, tablaParticiones
    {
      Bloques(tablaParticiones)
    }

    ghost function Vista(): R.Mem
      reads this, tablaParticiones, tablaPCBs
    {
      R.Mem(esquema, algoritmo, tamanioMemoria, alcance, Tabla(), Entradas(tablaPCBs))
    }

    ghost predicate Valid()
      reads this, tablaParticiones
      ensures Valid() ==> SinDup(tablaPCBs)
    {
      && SinDup(tablaParticiones) && SinDup(tablaPCBs)
      && P.Teselada(Tabla(), alcance)
    }

    /** The whole memory is one free partition. */
    constructor Dinamicas(algoritmo: P.Algoritmo, tamanioMemoria: nat)
      requires tamanioMemoria > 0
      ensures Valid() && R.Inicial(Vista()) && esquema == P.DINAMICAS && alcance == tamanioMemoria
      ensures this.algoritmo == algoritmo && this.tamanioMemoria == tamanioMemoria
    {
      esquema, this.algoritmo, this.tamanioMemoria := P.DINAMICAS, algoritmo, tamanioMemoria;
      alcance := tamanioMemoria;
      var particion := new Particion(tamanioMemoria, 0, tamanioMemoria - 1);
      tablaParticiones, tablaPCBs := [particion], [];
    }

    /** The configured sizes, laid end to end. The memory is well formed exactly when there is a partition
        and none is empty. */
    constructor Fijas(algoritmo: P.Algoritmo, tamanioMemoria: nat, particiones: seq<int>)
      ensures Tabla() == P.Fijada(particiones) && tablaPCBs == []
      ensures esquema == P.FIJAS && this.algoritmo == algoritmo && this.tamanioMemoria == tamanioMemoria
      ensures Valid() <==> particiones != [] && forall k :: 0 <= k < |particiones| ==> particiones[k] >= 1
      ensures Valid() ==> R.Inicial(Vista())
    {
      hide P.Cubre, Bloques;
      var i, inicio: int := 0, 0;
      var tabla: seq<Particion> := [];
      while i < |particiones|
        invariant 0 <= i <= |particiones| && |tabla| == i
        invariant SinDup(tabla) && forall k :: 0 <= k < i ==> fresh(tabla[k])
        invariant inicio == P.Suma(particiones[..i]) && Bloques(tabla) == P.Fijada(particiones[..i])
      {
        var tamanioParticion := particiones[i];
        var particion := new Particion(tamanioParticion, inicio, inicio + tamanioParticion - 1);
        assert particiones[..i + 1][..i] == particiones[..i];
        assert Bloques(tabla + [particion]) == Bloques(tabla) + [particion.Valor()];
        inicio := inicio + tamanioParticion;
        tabla := tabla + [particion];
        i := i + 1;
      }
      assert particiones[..i] == particiones;
      P.FijadaTeselaSiYSoloSi(particiones);
      P.FijadaLibre(particiones);
      esquema, this.algoritmo, this.tamanioMemoria := P.FIJAS, algoritmo, tamanioMemoria;
      alcance := inicio;
      tablaParticiones, tablaPCBs := tabla, [];
    }

    // ---- Searching ----

    method EntraEnMemoria(tamanioProceso: int) returns (r: P.OpCode)
      ensures r == P.Entra(Tabla(), tamanioMemoria, tamanioProceso)
    {
      if tamanioMemoria < tamanioProceso {
        return P.MAX_SIZE_ERROR;
      }
      var i := 0;
      while i < |tablaParticiones|
        invariant 0 <= i <= |tablaParticiones|
        invariant forall j :: 0 <= j < i ==> !Tabla()[j].Elegible(tamanioProceso)
      {
        var particion := tablaParticiones[i];
        if !particion.estaOcupado && particion.tamanio >= tamanioProceso {
          assert Tabla()[i].Elegible(tamanioProceso);
          return P.SUCCESS;
        }
        i := i + 1;
      }
      return P.SIZE_ERROR;
    }

    method FirstFit(tamanioProceso: int) returns (particion: Particion?, ghost donde: int)
      ensures particion == null ==> !P.HayElegible(Tabla(), tamanioProceso)
      ensures particion != null ==>
                P.Elige(P.FIRST, Tabla(), tamanioProceso, donde) && tablaParticiones[donde] == particion
    {
      var i := 0;
      while i < |tablaParticiones|
        invariant 0 <= i <= |tablaParticiones|
        invariant forall j :: 0 <= j < i ==> !Tabla()[j].Elegible(tamanioProceso)
      {
        particion := tablaParticiones[i];
        if !particion.estaOcupado && particion.tamanio >= tamanioProceso {
          assert Tabla()[i].Elegible(tamanioProceso);
          return particion, i;
        }
        i := i + 1;
      }
      return null, -1;
    }

    method BestFit(tamanioProceso: int) returns (mejor: Particion?, ghost donde: int)
      ensures mejor == null ==> !P.HayElegible(Tabla(), tamanioProceso)
      ensures mejor != null ==> P.Elige(P.BEST, Tabla(), tamanioProceso, donde) && tablaParticiones[donde] == mejor
    {
      mejor, donde := null, -1;
      var i := 0;
      while i < |tablaParticiones|
        invariant 0 <= i <= |tablaParticiones|
        invariant mejor == null ==> forall j :: 0 <= j < i ==> !Tabla()[j].Elegible(tamanioProceso)
        invariant mejor != null ==>
          && 0 <= donde < i && tablaParticiones[donde] == mejor && Tabla()[donde].Elegible(tamanioProceso)
          && forall j :: 0 <= j < i && Tabla()[j].Elegible(tamanioProceso) ==>
               mejor.tamanio <= Tabla()[j].tamanio && (j < donde ==> mejor.tamanio < Tabla()[j].tamanio)
      {
        var particion := tablaParticiones[i];
        if !particion.estaOcupado && particion.tamanio >= tamanioProceso {
          if mejor == null || particion.tamanio < mejor.tamanio {
            mejor, donde := particion, i;
          }
        }
        i := i + 1;
      }
    }

    method WorstFit(tamanioProceso: int) returns (peor: Particion?, ghost donde: int)
      ensures peor == null ==> !P.HayElegible(Tabla(), tamanioProceso)
      ensures peor != null ==> P.Elige(P.WORST, Tabla(), tamanioProceso, donde) && tablaParticiones[donde] == peor
    {
      peor, donde := null, -1;
      var i := 0;
      while i < |tablaParticiones|
        invariant 0 <= i <= |tablaParticiones|
        invariant peor == null ==> forall j :: 0 <= j < i ==> !Tabla()[j].Elegible(tamanioProceso)
        invariant peor != null ==>
          && 0 <= donde < i && tablaParticiones[donde] == peor && Tabla()[donde].Elegible(tamanioProceso)
          && forall j :: 0 <= j < i && Tabla()[j].Elegible(tamanioProceso) ==>
               peor.tamanio >= Tabla()[j].tamanio && (j < donde ==> peor.tamanio > Tabla()[j].tamanio)
      {
        var particion := tablaParticiones[i];
        if !particion.estaOcupado && particion.tamanio >= tamanioProceso {
          if peor == null || particion.tamanio > peor.tamanio {
            peor, donde := particion, i;
          }
        }
        i := i + 1;
      }
    }

    // ---- Allocating ----

    /** list_sort by inicio: a sorted permutation of the same records. */
    method OrdenarPorInicio()
      requires SinDup(tablaParticiones)
      modifies this`tablaParticiones
      ensures OrdenDe(tablaParticiones, old(tablaParticiones))
    {
      ghost var antes := tablaParticiones;
      var ordenadas: seq<Particion> := [];
      var i := 0;
      OrdenVacio();
      hide OrdenDe;
      while i < |tablaParticiones|
        invariant 0 <= i <= |tablaParticiones| && tablaParticiones == antes
        invariant OrdenDe(ordenadas, antes[..i])
      {
        assert antes[i] !in antes[..i] && antes[..i + 1] == antes[..i] + [antes[i]];
        ordenadas := Insertar(ordenadas, tablaParticiones[i], antes[..i]);
        i := i + 1;
      }
      assert antes[..i] == antes;
      tablaParticiones := ordenadas;
    }

    static method Insertar(r: seq<Particion>, p: Particion, ghost s: seq<Particion>) returns (r': seq<Particion>)
      requires p !in s && OrdenDe(r, s)
      ensures OrdenDe(r', s + [p])
    {
      var k := 0;
      while k < |r| && r[k].inicio <= p.inicio
        invariant 0 <= k <= |r|
        invariant forall j :: 0 <= j < k ==> r[j].inicio <= p.inicio
      {
        k := k + 1;
      }
      InsercionPermuta(r, k, p, s);
      r' := r[..k] + [p] + r[k..];
    }

    /** list_add and list_sort. */
    method AgregarParticion(nueva: Particion)
      requires SinDup(tablaParticiones) && nueva !in tablaParticiones
      modifies this`tablaParticiones
      ensures SinDup(tablaParticiones) && P.Ordenada(Tabla())
      ensures multiset(Tabla()) == multiset(old(Tabla()) + [nueva.Valor()])
      ensures forall p: Particion :: p in tablaParticiones ==> p in old(tablaParticiones) || p == nueva
    {
      tablaParticiones := tablaParticiones + [nueva];
      ghost var sinOrden, t := tablaParticiones, old(Tabla()) + [nueva.Valor()];
      assert Bloques(sinOrden) == t;
      hide OrdenDe, Bloques;
      OrdenarPorInicio();
      OrdenDeUsos(tablaParticiones, sinOrden, t);
    }

    method ElegirParticion(tamanioProceso: nat) returns (particion: Particion?, ghost donde: int)
      ensures particion == null ==> algoritmo == P.DESCONOCIDO || !P.HayElegible(Tabla(), tamanioProceso)
      ensures particion != null ==>
                && P.Elige(algoritmo, Tabla(), tamanioProceso, donde)
                && Tabla()[donde].Elegible(tamanioProceso) && tablaParticiones[donde] == particion
    {
      particion, donde := null, -1;
      match algoritmo {
        case FIRST => particion, donde := FirstFit(tamanioProceso);
        case BEST => particion, donde := BestFit(tamanioProceso);
        case WORST => particion, donde := WorstFit(tamanioProceso);
        case DESCONOCIDO =>
      }
    }

    /** Marks the chosen partition and cuts off what is left over. */
    method OcuparParticion(particion: Particion, tamanioProceso: nat, ghost donde: int)
      requires Valid() && 0 <= donde < |tablaParticiones| && tablaParticiones[donde] == particion
      modifies this`tablaParticiones, particion
      ensures P.PasoAsignar(esquema, old(Tabla()), Tabla(), donde, tamanioProceso)
      ensures particion.Valor() == (if P.SeDivide(esquema, old(Tabla())[donde], tamanioProceso)
                                    then P.Recorte(old(Tabla())[donde], tamanioProceso)
                                    else old(Tabla())[donde].(ocupado := true))
      ensures SinDup(tablaParticiones)
      ensures forall p: Particion :: p in tablaParticiones ==> p in old(tablaParticiones) || fresh(p)
    {
      ghost var t, b := Tabla(), particion.Valor();
      hide P.Ordenada, P.Teselada, Bloques, P.Resto, P.Recorte;
      particion.estaOcupado := true;
      if esquema == P.DINAMICAS && particion.tamanio > tamanioProceso {
        var nuevaParticion := particion.Dividir(tamanioProceso);
        RecorteYResto(b, tamanioProceso);
        assert Tabla() == t[donde := P.Recorte(b, tamanioProceso)];
        AgregarParticion(nuevaParticion);
      } else {
        assert Tabla() == t[donde := b.(ocupado := true)];
      }
    }

    method AsignarParticion(tamanioProceso: nat) returns (particion: Particion?, ghost donde: int)
      requires Valid()
      modifies this`tablaParticiones, tablaParticiones
      ensures particion == null ==>
                && (algoritmo == P.DESCONOCIDO || !P.HayElegible(old(Tabla()), tamanioProceso))
                && Tabla() == old(Tabla())
      ensures particion != null ==>
                && P.Elige(algoritmo, old(Tabla()), tamanioProceso, donde)
                && 0 <= donde < |old(Tabla())|
                && P.PasoAsignar(esquema, old(Tabla()), Tabla(), donde, tamanioProceso)
                && particion.Valor() == (if P.SeDivide(esquema, old(Tabla())[donde], tamanioProceso)
                                         then P.Recorte(old(Tabla())[donde], tamanioProceso)
                                         else old(Tabla())[donde].(ocupado := true))
      ensures particion == null || tamanioProceso >= 1 ==> Valid()
      ensures forall p: Particion :: p in tablaParticiones ==> p in old(tablaParticiones) || fresh(p)
    {
      particion, donde := ElegirParticion(tamanioProceso);
      if particion != null {
        ghost var t := Tabla();
        hide P.Elige;
        OcuparParticion(particion, tamanioProceso, donde);
        if tamanioProceso >= 1 {
          P.AsignarEsEnElLugar(esquema, t, Tabla(), alcance, donde, tamanioProceso);
          P.AsignadaTeselada(esquema, t, alcance, donde, tamanioProceso);
        }
      }
    }

    // ---- Releasing ----

    /** Partition k grows over partition j. */
    method Absorber(k: nat, j: nat)
      requires SinDup(tablaParticiones) && k < |tablaParticiones| && j < |tablaParticiones| && j != k
      modifies tablaParticiones[k]
      ensures Tabla() == old(Tabla())[k := P.Fusion(old(Tabla())[k], old(Tabla())[j])]
    {
      tablaParticiones[k].Absorber(tablaParticiones[j]);
    }

    method MarcarLibre(k: nat)
      requires SinDup(tablaParticiones) && k < |tablaParticiones|
      modifies tablaParticiones[k]
      ensures Tabla() == old(Tabla())[k := old(Tabla())[k].(ocupado := false)]
    {
      tablaParticiones[k].estaOcupado := false;
    }

    /** The branch of Compactar in which the previous partition is free. */
    method FusionarConAnterior(i: nat, ghost t: P.Tabla)
      requires SinDup(tablaParticiones)
      requires 0 < i < |tablaParticiones| == |t| && Tabla() == t[i := t[i].(ocupado := false)]
      requires P.Libre(t, i - 1)
      modifies this`tablaParticiones, tablaParticiones[i - 1]
      ensures SinDup(tablaParticiones)
      ensures Tabla() ==
              if P.Libre(t, i + 1) then
                t[..i - 1] + [P.Fusion(P.Fusion(t[i - 1], t[i].(ocupado := false)), t[i + 1])] + t[i + 2..]
              else
                t[..i - 1] + [P.Fusion(t[i - 1], t[i].(ocupado := false))] + t[i + 1..]
      ensures forall p: Particion :: p in tablaParticiones ==> p in old(tablaParticiones)
    {
      hide P.Fusion, SinDup, Sin;
      ghost var libre := t[i].(ocupado := false);
      Absorber(i - 1, i);
      ghost var b := P.Fusion(t[i - 1], libre);
      if |tablaParticiones| > i + 1 && !tablaParticiones[i + 1].estaOcupado {
        Absorber(i - 1, i + 1);
        b := P.Fusion(b, t[i + 1]);
        assert Tabla() == t[i := libre][i - 1 := b];
        QuitarDeLista(i + 1);
      }
      SinVecinos(t, i, libre, b);
      QuitarDeLista(i);
    }

    /** Merges the freed partition i with its free neighbours. `t` is the table before the release. */
    method Compactar(i: nat, ghost t: P.Tabla)
      requires SinDup(tablaParticiones)
      requires 0 < i < |tablaParticiones| == |t| && Tabla() == t[i := t[i].(ocupado := false)]
      modifies this`tablaParticiones, tablaParticiones
      ensures Tabla() == P.Liberada(P.DINAMICAS, t, i) && SinDup(tablaParticiones)
      ensures forall p: Particion :: p in tablaParticiones ==> p in old(tablaParticiones)
    {
      LiberadaForma(P.DINAMICAS, t, i);
      hide P.Liberada, P.Fusion, Sin, SinDup;
      if !tablaParticiones[i - 1].estaOcupado {
        FusionarConAnterior(i, t);
      } else if |tablaParticiones| > i + 1 && !tablaParticiones[i + 1].estaOcupado {
        Absorber(i, i + 1);
        ghost var b := P.Fusion(t[i].(ocupado := false), t[i + 1]);
        assert Tabla() == t[i := b];
        SinVecinos(t, i, b, b);
        QuitarDeLista(i + 1);
      }
    }

    /** list_remove */
    method QuitarDeLista(k: nat)
      requires k < |tablaParticiones| && SinDup(tablaParticiones)
      modifies this`tablaParticiones
      ensures Tabla() == Sin(old(Tabla()), k) && SinDup(tablaParticiones)
      ensures |tablaParticiones| == |old(tablaParticiones)| - 1
      ensures forall p: Particion :: p in tablaParticiones ==> p in old(tablaParticiones)
    {
      tablaParticiones := tablaParticiones[..k] + tablaParticiones[k + 1..];
    }

    method LiberarProceso(pcb: PcbMemoria)
      requires Valid()
      modifies this`tablaParticiones, tablaParticiones, pcb`base, pcb`limite
      ensures R.LiberaAsiento(esquema, old(Tabla()), Tabla(), old(pcb.base), old(pcb.limite))
      ensures Valid()
      ensures forall p: Particion :: p in tablaParticiones ==> p in old(tablaParticiones)
    {
      ghost var t, liberado := Tabla(), false;
      hide Bloques, P.Liberada, P.Teselada, R.LiberaAsiento;
      var i := 0;
      while i < |tablaParticiones|
        invariant 0 <= i <= |tablaParticiones| && tablaParticiones == old(tablaParticiones) && !liberado
        invariant Tabla() == t && pcb.base == old(pcb.base) && pcb.limite == old(pcb.limite) && Valid()
        invariant forall j :: 0 <= j < i ==> !R.EsAsiento(t[j], pcb.base, pcb.limite)
      {
        var particion := tablaParticiones[i];
        if particion.inicio == pcb.base && particion.fin == pcb.limite && particion.estaOcupado {
          SueltaAsiento(esquema, t, pcb.base, pcb.limite, i);
          LiberarIndice(i);
          liberado := true;
          pcb.base := 0;
          pcb.limite := 0;
          break;
        }
        i := i + 1;
      }
      if !liberado {
        SinAsiento(esquema, t, pcb.base, pcb.limite);
      }
    }

    /** The body of the search loop once partition i is found. */
    method LiberarIndice(i: nat)
      requires Valid() && i < |tablaParticiones| && tablaParticiones[i].estaOcupado
      modifies this`tablaParticiones, tablaParticiones
      ensures Tabla() == P.Liberada(esquema, old(Tabla()), i)
      ensures Valid()
      ensures forall p: Particion :: p in tablaParticiones ==> p in old(tablaParticiones)
    {
      hide Bloques, P.Cubre, P.Liberada, P.Estricta, SinDup;
      ghost var t := Tabla();
      P.CubreOrdenada(t, 0, alcance - 1);
      P.LiberadaTeselada(esquema, t, alcance, i);
      MarcarLibre(i);
      if i > 0 && esquema == P.DINAMICAS {
        OrdenarYCompactar(i, t);
      } else {
        LiberadaSinFusion(esquema, t, i);
      }
    }

    method OrdenarYCompactar(i: nat, ghost t: P.Tabla)
      requires SinDup(tablaParticiones) && P.Estricta(t)
      requires 0 < i < |tablaParticiones| == |t| && Tabla() == t[i := t[i].(ocupado := false)]
      modifies this`tablaParticiones, tablaParticiones
      ensures Tabla() == P.Liberada(P.DINAMICAS, t, i) && SinDup(tablaParticiones)
      ensures forall p: Particion :: p in tablaParticiones ==> p in old(tablaParticiones)
    {
      hide Bloques, P.Liberada;
      ghost var antes := tablaParticiones;
      MarcarLibreEstricta(t, i);
      OrdenarPorInicio();
      OrdenSinCambio(tablaParticiones, antes);
      Compactar(i, t);
    }

    // ---- The table of threads ----

    method BuscarPcb(pid: int) returns (lista: seq<PcbMemoria>)
      ensures lista == DePid(tablaPCBs, pid)
      ensures EsListaDe(lista, tablaPCBs, pid)
      ensures SinDup(tablaPCBs) ==> SinDup(lista)
    {
      hide DePid, EsListaDe, SinDup;
      lista := [];
      var i := 0;
      DePidVacia(pid);
      while i < |tablaPCBs|
        invariant 0 <= i <= |tablaPCBs|
        invariant lista == DePid(tablaPCBs[..i], pid)
      {
        var pcb := tablaPCBs[i];
        DePidUnoMas(tablaPCBs, i, pid);
        if pcb.pid == pid {
          lista := lista + [pcb];
        }
        i := i + 1;
      }
      assert tablaPCBs[..i] == tablaPCBs;
      DePidEsLista(tablaPCBs, pid);
    }

    method BuscarPcbTid(pid: int, tid: int) returns (pcb: PcbMemoria?, ghost donde: int)
      ensures pcb == null ==> R.Buscar(Entradas(tablaPCBs), pid, tid) == None
      ensures NoAntes(tablaPCBs, pid, tid, if pcb == null then |tablaPCBs| else donde)
      ensures pcb != null ==>
                && 0 <= donde < |tablaPCBs| && tablaPCBs[donde] == pcb && pcb.pid == pid && pcb.tid == tid
                && R.Buscar(Entradas(tablaPCBs), pid, tid) == Some(pcb.Valor())
                && R.SinHilo(Entradas(tablaPCBs), pid, tid) == Sin(Entradas(tablaPCBs), donde)
    {
      ghost var s := Entradas(tablaPCBs);
      var i := 0;
      while i < |tablaPCBs|
        invariant 0 <= i <= |tablaPCBs|
        invariant forall j :: 0 <= j < i ==> !(s[j].pid == pid && s[j].tid == tid)
        invariant NoAntes(tablaPCBs, pid, tid, i)
      {
        pcb := tablaPCBs[i];
        if pcb.pid == pid && pcb.tid == tid {
          BuscarIndice(s, i, pid, tid);
          return pcb, i;
        }
        i := i + 1;
      }
      return null, -1;
    }

    /** list_remove_element: takes the record itself out of the table. */
    method LiberarHilo(pcb: PcbMemoria)
      requires Valid() && pcb in tablaPCBs
      modifies this`tablaPCBs
      ensures Valid() && Tabla() == old(Tabla())
      ensures tablaPCBs == Sin(old(tablaPCBs), Posicion(old(tablaPCBs), pcb))
    {
      var i := 0;
      while tablaPCBs[i] != pcb
        invariant 0 <= i < |tablaPCBs| && pcb in tablaPCBs[i..]
        decreases |tablaPCBs| - i
      {
        i := i + 1;
      }
      tablaPCBs := tablaPCBs[..i] + tablaPCBs[i + 1..];
    }

    // ---- Requests of the kernel ----

    /** `archivo` is the instruction file, None when it cannot be opened. */
    method CreacionDeProceso(pid: int, tamanio: nat, archivo: Option<seq<Cpu.Instruccion>>) returns (r: P.OpCode)
      requires Valid()
      modifies this`tablaParticiones, this`tablaPCBs, tablaParticiones
      ensures R.Paso(old(Vista()), R.CrearProceso(pid, tamanio, archivo.Some?), Vista(), r)
      ensures r == P.SUCCESS ==> archivo.Some? && Carga(old(tablaPCBs), tablaPCBs, pid, 0, archivo.value)
      ensures r == P.SUCCESS ==> fresh(tablaPCBs[|old(tablaPCBs)|])
      ensures r != P.SUCCESS ==> tablaPCBs == old(tablaPCBs)
      ensures tamanio >= 1 ==> Valid()
    {
      ghost var m := Vista();
      hide P.PasoAsignar, P.Teselada, R.Paso, P.Entra, SinDup, Entradas, Bloques;
      r := EntraEnMemoria(tamanio);
      if r != P.SUCCESS {
        PasoRechazado(m, pid, tamanio, archivo.Some?, r);
        return;
      }
      var particion, donde := AsignarParticion(tamanio);
      if particion == null {
        PasoRechazado(m, pid, tamanio, archivo.Some?, P.SIZE_ERROR);
        return P.SIZE_ERROR;
      }
      assert algoritmo != P.DESCONOCIDO;
      hide P.Elige, Carga;
      r := Cargar(pid, 0, tamanio, particion.inicio, particion.fin, archivo);
      PasoDeToma(m, pid, tamanio, archivo.Some?, Vista(), r, donde);
    }

    /** Reads the instruction file, if it can be opened, into a new record at the end of the table. */
    method Cargar(pid: int, tid: int, tamanio: int, base: int, limite: int, archivo: Option<seq<Cpu.Instruccion>>)
      returns (r: P.OpCode)
      modifies this`tablaPCBs
      ensures match archivo
              case None => r == P.PATH_ERROR && tablaPCBs == old(tablaPCBs)
              case Some(instrucciones) =>
                && r == P.SUCCESS && Carga(old(tablaPCBs), tablaPCBs, pid, tid, instrucciones)
                && fresh(tablaPCBs[|old(tablaPCBs)|])
                && Entradas(tablaPCBs) == old(Entradas(tablaPCBs)) + [R.Entrada(pid, tid, base, limite, tamanio)]
      ensures old(SinDup(tablaPCBs)) ==> SinDup(tablaPCBs)
    {
      hide Entradas;
      match archivo {
        case None =>
          r := P.PATH_ERROR;
        case Some(instrucciones) =>
          var pcb := new PcbMemoria(pid, tid, tamanio, base, limite, instrucciones);
          AgregarPcb(pcb);
          r := P.SUCCESS;
      }
    }

    /** list_add */
    method AgregarPcb(pcb: PcbMemoria)
      requires pcb !in tablaPCBs
      modifies this`tablaPCBs
      ensures tablaPCBs == old(tablaPCBs) + [pcb]
      ensures Entradas(tablaPCBs) == old(Entradas(tablaPCBs)) + [pcb.Valor()]
      ensures old(SinDup(tablaPCBs)) ==> SinDup(tablaPCBs)
    {
      tablaPCBs := tablaPCBs + [pcb];
    }

    /** Round i of the loop that ends a process: `ps` is the table before the loop, `S` holds the
        partitions the loop may touch. */
    method TerminarHilo(lista: seq<PcbMemoria>, i: nat, ghost ps: seq<PcbMemoria>, ghost S: set<Particion>)
      requires Valid() && SinDup(ps) && i < |lista| && lista[i] in ps && lista[i] !in lista[..i]
      requires tablaPCBs == Fuera(ps, lista[..i])
      requires forall k :: 0 <= k < |tablaParticiones| ==> tablaParticiones[k] in S
      modifies this`tablaParticiones, this`tablaPCBs, S, lista[i]
      ensures Valid() && tablaPCBs == Fuera(ps, lista[..i + 1])
      ensures lista[i].tid == 0 ==>
                R.LiberaAsiento(esquema, old(Tabla()), Tabla(), old(lista[i].base), old(lista[i].limite))
      ensures lista[i].tid != 0 ==> Tabla() == old(Tabla())
      ensures forall k :: 0 <= k < |tablaParticiones| ==> tablaParticiones[k] in S
    {
      hide *;
      FueraPaso(ps, lista, i);
      var pcb := lista[i];
      ghost var antes := tablaParticiones;
      if pcb.tid == 0 {
        LiberarProceso(pcb);
        assert forall k :: 0 <= k < |tablaParticiones| ==> tablaParticiones[k] in antes;
      }
      LiberarHilo(pcb);
    }

    /** Ends every thread of the list; the one with tid 0 gives the partition back. */
    method TerminarHilos(pid: int, lista: seq<PcbMemoria>)
      requires Valid() && R.Distintas(Entradas(tablaPCBs))
      requires SinDup(lista) && EsListaDe(lista, tablaPCBs, pid)
      modifies this`tablaParticiones, this`tablaPCBs, tablaParticiones, lista
      ensures Valid()
      ensures tablaPCBs == Fuera(old(tablaPCBs), lista)
      ensures match R.Buscar(old(Entradas(tablaPCBs)), pid, 0)
              case None => Tabla() == old(Tabla())
              case Some(p) => R.LiberaAsiento(esquema, old(Tabla()), Tabla(), p.base, p.limite)
    {
      hide *;
      ghost var ps, s, t := tablaPCBs, Entradas(tablaPCBs), Tabla();
      ghost var v, S := Entradas(lista), set p | p in tablaParticiones;
      BuscarPrincipal(ps, s, lista, pid);
      var i := 0;
      FueraVacio(ps);
      assert lista[..i] == [];
      while i < |lista|
        invariant 0 <= i <= |lista| && Valid()
        invariant forall k :: 0 <= k < |tablaParticiones| ==> tablaParticiones[k] in S
        invariant tablaPCBs == Fuera(ps, lista[..i])
        invariant forall k :: i <= k < |lista| ==> lista[k].base == v[k].base && lista[k].limite == v[k].limite
        invariant (forall k :: 0 <= k < i ==> lista[k].tid != 0) ==> Tabla() == t
        invariant forall k :: 0 <= k < i && lista[k].tid == 0 ==>
                    R.LiberaAsiento(esquema, t, Tabla(), v[k].base, v[k].limite)
      {
        TerminarHilo(lista, i, ps, S);
        i := i + 1;
      }
      assert lista[..i] == lista;
    }

    method FinalizacionDeProceso(pid: int) returns (r: P.OpCode)
      requires Valid() && R.Distintas(Entradas(tablaPCBs))
      modifies this`tablaParticiones, this`tablaPCBs, tablaParticiones, tablaPCBs
      ensures R.Paso(old(Vista()), R.FinProceso(pid), Vista(), r)
      ensures tablaPCBs == Fuera(old(tablaPCBs), DePid(old(tablaPCBs), pid))
      ensures forall p :: p in old(tablaPCBs) && p.pid != pid ==> unchanged(p)
      ensures Valid()
    {
      hide EsListaDe, DePid, SinDup, R.Distintas, P.Teselada, R.LiberaAsiento, Fuera, R.Paso, R.Vive, R.Buscar, Bloques,
        R.SinPid;
      ghost var m, ps, s := Vista(), tablaPCBs, Entradas(tablaPCBs);
      var lista := BuscarPcb(pid);
      ListaYEntradas(lista, ps, s, pid);
      if lista == [] {
        FueraVacio(ps);
        EsFinProceso(m, pid, Vista(), P.PID_NOT_FOUND);
        return P.PID_NOT_FOUND;
      }
      TerminarHilos(pid, lista);
      FueraEsSinPid(ps, s, lista, pid);
      r := P.SUCCESS;
      EsFinProceso(m, pid, Vista(), r);
    }

    /** The new thread shares the partition of the main thread of its process. */
    method CreacionDeHilo(pid: int, tid: int, archivo: Option<seq<Cpu.Instruccion>>) returns (r: P.OpCode)
      requires Valid() && R.Buscar(Entradas(tablaPCBs), pid, 0).Some?
      modifies this`tablaPCBs
      ensures R.Paso(old(Vista()), R.CrearHilo(pid, tid, archivo.Some?), Vista(), r)
      ensures r == P.SUCCESS ==> archivo.Some? && Carga(old(tablaPCBs), tablaPCBs, pid, tid, archivo.value)
      ensures r == P.SUCCESS ==> fresh(tablaPCBs[|old(tablaPCBs)|])
      ensures r != P.SUCCESS ==> tablaPCBs == old(tablaPCBs)
      ensures Valid()
    {
      hide P.Teselada, Bloques, NoAntes, R.Paso, R.Buscar, SinDup, R.SinHilo, Carga;
      var principal, donde := BuscarPcbTid(pid, 0);
      ghost var m := Vista();
      r := Cargar(pid, tid, principal.tamanio, principal.base, principal.limite, archivo);
      EsCrearHilo(m, pid, tid, archivo.Some?, Vista(), r);
    }

    method FinalizacionDeHilo(pid: int, tid: int) returns (r: P.OpCode)
      requires Valid()
      modifies this`tablaPCBs
      ensures R.Paso(old(Vista()), R.FinHilo(pid, tid), Vista(), r)
      ensures forall p :: p in tablaPCBs ==> p in old(tablaPCBs)
      ensures forall p :: p in old(tablaPCBs) && !(p.pid == pid && p.tid == tid) ==> p in tablaPCBs
      ensures Valid()
    {
      hide P.Teselada, Bloques, R.SinHilo, R.Buscar, NoAntes, R.Paso, SinDup;
      ghost var m, s := Vista(), Entradas(tablaPCBs);
      var pcb, donde := BuscarPcbTid(pid, tid);
      if pcb == null {
        SinHiloAusente(s, pid, tid);
        EsFinHilo(m, pid, tid, Vista(), P.TID_NOT_FOUND);
        return P.TID_NOT_FOUND;
      }
      ghost var ps := tablaPCBs;
      LiberarHilo(pcb);
      PosicionUnica(ps, donde);
      SinUno(ps, donde);
      assert Entradas(Sin(ps, donde)) == Sin(s, donde);
      r := P.SUCCESS;
      EsFinHilo(m, pid, tid, Vista(), r);
    }
  }

  lemma EsFinProceso(m: R.Mem, pid: int, m': R.Mem, r: P.OpCode)
    requires !R.Vive(m.pcbs, pid) ==> r == P.PID_NOT_FOUND && m' == m
    requires R.Vive(m.pcbs, pid) ==> r == P.SUCCESS && m' == m.(tabla := m'.tabla, pcbs := R.SinPid(m.pcbs, pid))
    requires R.Vive(m.pcbs, pid) ==>
               match R.Buscar(m.pcbs, pid, 0)
               case None => m'.tabla == m.tabla
               case Some(p) => R.LiberaAsiento(m.e, m.tabla, m'.tabla, p.base, p.limite)
    ensures R.Paso(m, R.FinProceso(pid), m', r)
  {
  }

  lemma EsFinHilo(m: R.Mem, pid: int, tid: int, m': R.Mem, r: P.OpCode)
    requires m' == m.(pcbs := R.SinHilo(m.pcbs, pid, tid))
    requires r == if R.Buscar(m.pcbs, pid, tid).None? then P.TID_NOT_FOUND else P.SUCCESS
    ensures R.Paso(m, R.FinHilo(pid, tid), m', r)
  {
  }

  lemma EsCrearHilo(m: R.Mem, pid: int, tid: int, legible: bool, m': R.Mem, r: P.OpCode)
    requires R.Buscar(m.pcbs, pid, 0).Some?
    requires legible ==> r == P.SUCCESS && m' == m.(pcbs := m.pcbs + [R.Buscar(m.pcbs, pid, 0).value.(tid := tid)])
    requires !legible ==> r == P.PATH_ERROR && m' == m
    ensures R.Paso(m, R.CrearHilo(pid, tid, legible), m', r)
  {
  }

  lemma {:induction false} SinHiloAusente(s: seq<R.Entrada>, pid: int, tid: int)
    requires R.Buscar(s, pid, tid).None?
    ensures R.SinHilo(s, pid, tid) == s
  {
    if s == [] {
    } else {
      SinHiloAusente(s[1..], pid, tid);
    }
  }

  lemma SinUno(ps: seq<PcbMemoria>, k: int)
    requires SinDup(ps) && 0 <= k < |ps|
    ensures forall p :: p in Sin(ps, k) <==> p in ps && p != ps[k]
  {
    forall p | p in ps && p != ps[k]
      ensures p in Sin(ps, k)
    {
      var j := Posicion(ps, p);
      assert Sin(ps, k)[if j < k then j else j - 1] == p;
    }
  }

  lemma PosicionUnica(ps: seq<PcbMemoria>, k: int)
    requires SinDup(ps) && 0 <= k < |ps|
    ensures Posicion(ps, ps[k]) == k
  {
    var j := Posicion(ps, ps[k]);
    assert ps[j] == ps[k];
  }

  lemma PasoRechazado(m: R.Mem, pid: int, n: int, legible: bool, r: P.OpCode)
    requires if P.Entra(m.tabla, m.tam, n) != P.SUCCESS then r == P.Entra(m.tabla, m.tam, n)
             else r == P.SIZE_ERROR && (m.alg == P.DESCONOCIDO || !P.HayElegible(m.tabla, n))
    ensures R.Paso(m, R.CrearProceso(pid, n, legible), m, r)
  {
  }

  lemma PasoDeToma(m: R.Mem, pid: int, n: int, legible: bool, m': R.Mem, r: P.OpCode, i: int)
    requires m' == m.(tabla := m'.tabla, pcbs := m'.pcbs)
    requires P.Entra(m.tabla, m.tam, n) == P.SUCCESS && m.alg != P.DESCONOCIDO
    requires R.Toma(m, pid, n, legible, m', r, i)
    ensures R.Paso(m, R.CrearProceso(pid, n, legible), m', r)
  {
  }

  /** The records of the process, as often as the table has them and in the order of the table. */
  ghost function DePid(ps: seq<PcbMemoria>, pid: int): seq<PcbMemoria> {
    if ps == [] then []
    else
      var n := |ps| - 1;
      DePid(ps[..n], pid) + if ps[n].pid == pid then [ps[n]] else []
  }

  lemma DePidVacia(pid: int)
    ensures DePid([], pid) == []
  {
  }

  lemma DePidUnoMas(ps: seq<PcbMemoria>, i: nat, pid: int)
    requires i < |ps|
    ensures DePid(ps[..i + 1], pid) == DePid(ps[..i], pid) + if ps[i].pid == pid then [ps[i]] else []
  {
    assert ps[..i + 1][..i] == ps[..i];
  }

  lemma {:induction false} DePidEsLista(ps: seq<PcbMemoria>, pid: int)
    ensures EsListaDe(DePid(ps, pid), ps, pid)
    ensures SinDup(ps) ==> SinDup(DePid(ps, pid))
  {
    if ps == [] {
    } else {
      var n := |ps| - 1;
      DePidEsLista(ps[..n], pid);
      assert ps == ps[..n] + [ps[n]];
      assert SinDup(ps) ==> ps[n] !in ps[..n];
      hide DePid;
      DePidUnoMas(ps, n, pid);
      assert ps[..n + 1] == ps;
    }
  }

  /** The records of the process, and only them. */
  ghost predicate EsListaDe(lista: seq<PcbMemoria>, ps: seq<PcbMemoria>, pid: int) {
    && (forall k :: 0 <= k < |lista| ==> lista[k] in ps && lista[k].pid == pid)
    && (forall k :: 0 <= k < |ps| && ps[k].pid == pid ==> ps[k] in lista)
  }

  lemma ListaYEntradas(lista: seq<PcbMemoria>, ps: seq<PcbMemoria>, s: seq<R.Entrada>, pid: int)
    requires EsListaDe(lista, ps, pid) && s == Entradas(ps)
    ensures lista != [] <==> R.Vive(s, pid)
    ensures forall k :: 0 <= k < |lista| ==> lista[k] in ps
    ensures forall k :: 0 <= k < |ps| ==> (ps[k] in lista <==> s[k].pid == pid)
  {
    if lista != [] {
      assert s[Posicion(ps, lista[0])].pid == pid;
    }
  }

  /** Records of ps that are not in q. */
  ghost function Fuera(ps: seq<PcbMemoria>, q: seq<PcbMemoria>): seq<PcbMemoria> {
    if ps == [] then [] else (if ps[0] in q then [] else [ps[0]]) + Fuera(ps[1..], q)
  }

  ghost function Posicion(ps: seq<PcbMemoria>, x: PcbMemoria): (k: int)
    requires x in ps
    ensures 0 <= k < |ps| && ps[k] == x
  {
    if ps[0] == x then 0 else 1 + Posicion(ps[1..], x)
  }

  lemma {:induction false} FueraVacio(ps: seq<PcbMemoria>)
    ensures Fuera(ps, []) == ps
  {
    if ps == [] {
    } else {
      FueraVacio(ps[1..]);
    }
  }

  lemma FueraCons(ps: seq<PcbMemoria>, q: seq<PcbMemoria>)
    requires ps != []
    ensures Fuera(ps, q) == if ps[0] in q then Fuera(ps[1..], q) else [ps[0]] + Fuera(ps[1..], q)
  {
    assert [] + Fuera(ps[1..], q) == Fuera(ps[1..], q);
  }

  lemma SinCons(x: PcbMemoria, g: seq<PcbMemoria>, y: PcbMemoria)
    requires y in g && x != y
    ensures Sin([x] + g, Posicion([x] + g, y)) == [x] + Sin(g, Posicion(g, y))
  {
    assert ([x] + g)[1..] == g;
    var k := Posicion(g, y);
    assert Posicion([x] + g, y) == 1 + k;
    assert ([x] + g)[..1 + k] == [x] + g[..k];
  }

  /** Taking one more record out of the list. */
  lemma {:induction false} FueraPaso(ps: seq<PcbMemoria>, q: seq<PcbMemoria>, i: int)
    requires SinDup(ps) && 0 <= i < |q| && q[i] in ps && q[i] !in q[..i]
    ensures q[i] in Fuera(ps, q[..i])
    ensures Fuera(ps, q[..i + 1]) == Sin(Fuera(ps, q[..i]), Posicion(Fuera(ps, q[..i]), q[i]))
  {
    var a, y := q[..i], q[i];
    assert q[..i + 1] == a + [y];
    FueraCons(ps, a);
    FueraCons(ps, a + [y]);
    hide Fuera;
    if ps[0] == y {
      assert y !in ps[1..];
      FueraIgual(ps[1..], a, y);
      assert Sin([y] + Fuera(ps[1..], a), 0) == Fuera(ps[1..], a);
    } else {
      FueraPaso(ps[1..], q, i);
      SinCons(ps[0], Fuera(ps[1..], a), y);
    }
  }

  lemma {:induction false} FueraIgual(ps: seq<PcbMemoria>, q: seq<PcbMemoria>, x: PcbMemoria)
    requires x !in ps
    ensures Fuera(ps, q + [x]) == Fuera(ps, q)
  {
    if ps == [] {
    } else {
      FueraIgual(ps[1..], q, x);
    }
  }

  lemma {:induction false} FueraEsSinPid(ps: seq<PcbMemoria>, s: seq<R.Entrada>, lista: seq<PcbMemoria>, pid: int)
    requires |s| == |ps| && forall k :: 0 <= k < |ps| ==> (ps[k] in lista <==> s[k].pid == pid)
    requires forall k :: 0 <= k < |ps| && s[k].pid != pid ==> ps[k].Valor() == s[k]
    ensures Entradas(Fuera(ps, lista)) == R.SinPid(s, pid)
  {
    if ps == [] {
    } else {
      assert ps[0] in lista <==> s[0].pid == pid;
      assert s[0].pid != pid ==> ps[0].Valor() == s[0];
      SinPidCons(s, pid);
      hide Fuera, R.SinPid, Entradas;
      FueraEsSinPid(ps[1..], s[1..], lista, pid);
      FueraCons(ps, lista);
      EntradasCons(ps[0], Fuera(ps[1..], lista));
    }
  }

  lemma SinPidCons(s: seq<R.Entrada>, pid: int)
    requires s != []
    ensures R.SinPid(s, pid) == if s[0].pid == pid then R.SinPid(s[1..], pid) else [s[0]] + R.SinPid(s[1..], pid)
  {
    assert [] + R.SinPid(s[1..], pid) == R.SinPid(s[1..], pid);
  }

  lemma EntradasCons(p: PcbMemoria, ps: seq<PcbMemoria>)
    ensures Entradas([p] + ps) == [p.Valor()] + Entradas(ps)
  {
  }

  /** The lookup of the main thread finds the one record of the list with tid 0, if there is one. */
  lemma BuscarPrincipal(ps: seq<PcbMemoria>, s: seq<R.Entrada>, lista: seq<PcbMemoria>, pid: int)
    requires s == Entradas(ps) && R.Distintas(s)
    requires SinDup(lista) && EsListaDe(lista, ps, pid)
    ensures forall k :: 0 <= k < |lista| ==> lista[k] in ps && lista[k] !in lista[..k]
    ensures forall k :: 0 <= k < |lista| ==>
      Entradas(lista)[k].base == lista[k].base && Entradas(lista)[k].limite == lista[k].limite
    ensures forall k :: 0 <= k < |lista| && lista[k].tid == 0 ==> R.Buscar(s, pid, 0) == Some(lista[k].Valor())
    ensures forall j, k :: 0 <= j < k < |lista| ==> !(lista[j].tid == 0 && lista[k].tid == 0)
    ensures R.Buscar(s, pid, 0).Some? ==> exists k :: 0 <= k < |lista| && lista[k].tid == 0
  {
    forall k | 0 <= k < |lista| && lista[k].tid == 0
      ensures R.Buscar(s, pid, 0) == Some(lista[k].Valor())
    {
      BuscarIndice(s, Posicion(ps, lista[k]), pid, 0);
    }
    forall j, k | 0 <= j < k < |lista| && lista[j].tid == 0
      ensures lista[k].tid != 0
    {
      var a, b := Posicion(ps, lista[j]), Posicion(ps, lista[k]);
      assert a != b;
    }
    if R.Buscar(s, pid, 0).Some? {
      var x := R.Buscar(s, pid, 0).value;
      var k :| 0 <= k < |s| && s[k] == x;
      assert ps[k] in lista;
    }
    forall k | 0 <= k < |lista|
      ensures lista[k] !in lista[..k]
    {
      hide EsListaDe;
    }
  }

  lemma BuscarMasAlla(s: seq<R.Entrada>, pid: int, tid: int)
    requires s != [] && !(s[0].pid == pid && s[0].tid == tid)
    ensures R.Buscar(s, pid, tid) == R.Buscar(s[1..], pid, tid)
    ensures R.SinHilo(s, pid, tid) == [s[0]] + R.SinHilo(s[1..], pid, tid)
  {
  }

  lemma BuscarAqui(s: seq<R.Entrada>, pid: int, tid: int)
    requires s != [] && s[0].pid == pid && s[0].tid == tid
    ensures R.Buscar(s, pid, tid) == Some(s[0]) && R.SinHilo(s, pid, tid) == Sin(s, 0)
  {
  }

  lemma {:induction false} BuscarIndice(s: seq<R.Entrada>, k: int, pid: int, tid: int)
    requires 0 <= k < |s| && s[k].pid == pid && s[k].tid == tid
    requires forall j :: 0 <= j < k ==> !(s[j].pid == pid && s[j].tid == tid)
    ensures R.Buscar(s, pid, tid) == Some(s[k])
    ensures R.SinHilo(s, pid, tid) == Sin(s, k)
  {
    hide R.Buscar, R.SinHilo;
    if k > 0 {
      BuscarMasAlla(s, pid, tid);
      BuscarIndice(s[1..], k - 1, pid, tid);
      assert Sin(s, k) == [s[0]] + Sin(s[1..], k - 1);
    } else {
      BuscarAqui(s, pid, tid);
    }
  }

  lemma SinVecinos<T>(t: seq<T>, i: int, c: T, b: T)
    requires 0 < i < |t|
    ensures Sin(t[i := c][i - 1 := b], i) == t[..i - 1] + [b] + t[i + 1..]
    ensures i + 1 < |t| ==> Sin(t[i := b], i + 1) == t[..i] + [b] + t[i + 2..]
    ensures i + 1 < |t| ==> |Sin(t[i := c][i - 1 := b], i + 1)| == |t| - 1
    ensures i + 1 < |t| ==> Sin(Sin(t[i := c][i - 1 := b], i + 1), i) == t[..i - 1] + [b] + t[i + 2..]
  {
  }

  /** The five shapes a release can give the table. */
  lemma LiberadaForma(e: P.Esquema, t: P.Tabla, i: int)
    requires 0 <= i < |t|
    ensures var libre := t[i].(ocupado := false);
            P.Liberada(e, t, i) ==
            if i == 0 || e != P.DINAMICAS then t[i := libre]
            else if P.Libre(t, i - 1) && P.Libre(t, i + 1) then
              t[..i - 1] + [P.Fusion(P.Fusion(t[i - 1], libre), t[i + 1])] + t[i + 2..]
            else if P.Libre(t, i - 1) then t[..i - 1] + [P.Fusion(t[i - 1], libre)] + t[i + 1..]
            else if P.Libre(t, i + 1) then t[..i] + [P.Fusion(libre, t[i + 1])] + t[i + 2..]
            else t[i := libre]
  {
    hide P.Fusion;
  }

  lemma LiberadaSinFusion(e: P.Esquema, t: P.Tabla, i: int)
    requires 0 <= i < |t| && (i == 0 || e != P.DINAMICAS)
    ensures P.Liberada(e, t, i) == t[i := t[i].(ocupado := false)]
  {
    LiberadaForma(e, t, i);
  }

  lemma MarcarLibreEstricta(t: P.Tabla, i: int)
    requires 0 <= i < |t| && P.Estricta(t)
    ensures P.Estricta(t[i := t[i].(ocupado := false)])
  {
  }

  /** Sorting a list that is strictly sorted already leaves the very same list. */
  lemma OrdenSinCambio(r: seq<Particion>, s: seq<Particion>)
    requires OrdenDe(r, s) && P.Estricta(Bloques(s))
    ensures r == s
  {
    P.OrdenUnico(Bloques(r), Bloques(s));
    hide P.Ordenada, Bloques;
    forall k | 0 <= k < |r|
      ensures r[k] == s[k]
    {
      assert Bloques(r)[k] == Bloques(s)[k];
      var j :| 0 <= j < |s| && s[j] == r[k];
      assert Bloques(s)[j].inicio == Bloques(s)[k].inicio;
      if j < k || k < j { assert false; }
    }
  }

  lemma SueltaAsiento(e: P.Esquema, t: P.Tabla, base: int, limite: int, i: nat)
    requires i < |t| && R.EsAsiento(t[i], base, limite)
    ensures R.LiberaAsiento(e, t, P.Liberada(e, t, i), base, limite)
  {
    hide P.Liberada;
    assert t[i] in t;
  }

  lemma SinAsiento(e: P.Esquema, t: P.Tabla, base: int, limite: int)
    requires forall i :: 0 <= i < |t| ==> !R.EsAsiento(t[i], base, limite)
    ensures R.LiberaAsiento(e, t, t, base, limite)
  {
  }

  lemma OrdenDeUsos(r: seq<Particion>, s: seq<Particion>, t: P.Tabla)
    requires OrdenDe(r, s) && Bloques(s) == t
    ensures SinDup(r) && P.Ordenada(Bloques(r)) && multiset(Bloques(r)) == multiset(t)
    ensures forall k :: 0 <= k < |r| ==> r[k] in s
  {
  }

  lemma OrdenVacio()
    ensures OrdenDe([], [])
  {
  }

  lemma RecorteYResto(b: P.Bloque, n: int)
    ensures P.Recorte(b.(ocupado := true), n) == P.Recorte(b, n)
    ensures P.Resto(b.(ocupado := true), n) == P.Resto(b, n)
  {
  }

  /** r holds the records of s, each once, in the order of their start. */
  ghost predicate OrdenDe(r: seq<Particion>, s: seq<Particion>)
    reads r, s
  {
    && SinDup(r)
    && (forall i :: 0 <= i < |r| ==> r[i] in s) && (forall i :: 0 <= i < |s| ==> s[i] in r)
    && P.Ordenada(Bloques(r)) && multiset(Bloques(r)) == multiset(Bloques(s))
  }

  lemma InsercionPermuta(r: seq<Particion>, k: nat, p: Particion, s: seq<Particion>)
    requires k <= |r| && p !in s && OrdenDe(r, s)
    requires forall j :: 0 <= j < k ==> r[j].inicio <= p.inicio
    requires k < |r| ==> p.inicio < r[k].inicio
    ensures OrdenDe(r[..k] + [p] + r[k..], s + [p])
  {
    var r' := r[..k] + [p] + r[k..];
    assert SinDup(r');
    hide SinDup;
    InsercionOrdenada(r, k, p);
    InsercionMultiset(Bloques(r), k, p.Valor());
    BloquesCon(r, s, k, p);
  }

  lemma BloquesCon(r: seq<Particion>, s: seq<Particion>, k: nat, p: Particion)
    requires k <= |r|
    ensures Bloques(r[..k] + [p] + r[k..]) == Bloques(r)[..k] + [p.Valor()] + Bloques(r)[k..]
    ensures Bloques(s + [p]) == Bloques(s) + [p.Valor()]
  {
  }

  lemma InsercionMultiset<T>(b: seq<T>, k: nat, x: T)
    requires k <= |b|
    ensures multiset(b[..k] + [x] + b[k..]) == multiset(b + [x])
  {
    assert b == b[..k] + b[k..];
  }

  lemma InsercionOrdenada(r: seq<Particion>, k: nat, p: Particion)
    requires k <= |r| && P.Ordenada(Bloques(r))
    requires forall j :: 0 <= j < k ==> r[j].inicio <= p.inicio
    requires k < |r| ==> p.inicio < r[k].inicio
    ensures P.Ordenada(Bloques(r[..k] + [p] + r[k..]))
  {
    var b := Bloques(r);
    assert forall j :: 0 <= j < k ==> b[j].inicio <= p.Valor().inicio;
    assert Bloques(r[..k] + [p] + r[k..]) == b[..k] + [p.Valor()] + b[k..];
    hide Bloques;
    OrdenAlInsertar(b, k, p.Valor());
  }

  lemma OrdenAlInsertar(b: P.Tabla, k: nat, x: P.Bloque)
    requires k <= |b| && P.Ordenada(b) && (forall j :: 0 <= j < k ==> b[j].inicio <= x.inicio)
    requires k < |b| ==> x.inicio < b[k].inicio
    ensures P.Ordenada(b[..k] + [x] + b[k..])
  {
    forall j | k <= j < |b|
      ensures x.inicio < b[j].inicio
    {
      assert b[k].inicio <= b[j].inicio;
    }
  }
}
