/** The processor as it runs: one shared context, the eviction flags and the dispatch loop body.
    Sources: cpu/src/servidor_cpu.c, ciclo_instruccion.c, instrucciones.c, utils.c and
    operaciones_memoria.c. */
module ServidorCpu {
  import opened Bytes
  import opened Listas
  import opened Opcion
  import opened Cpu
  import opened Conmutacion
  import opened Paquete
  import opened Memoria
  import opened AtencionCpu

  /** When, in a round of the instruction cycle, the interrupt server raises its flag. */
  datatype Momento = Nunca | AntesDeFetch | AntesDeDecode | AntesDeExecute | AlFinal

  class Procesador {
    const memoria: AtencionCpu
    var pid: Uint32
    var tid: Uint32
    var pc: Uint32
    var ax: Uint32
    var bx: Uint32
    var cx: Uint32
    var dx: Uint32
    var ex: Uint32
    var fx: Uint32
    var gx: Uint32
    var hx: Uint32
    var base: Uint32
    var limite: Uint32
    var direccionFisica: Uint32
    var instruccion: Option<Instruccion>   // None between rounds
    var flagEjecutando: bool
    var flagDesalojo: bool
    var flagInterrupt: bool
    var flagFinPrograma: bool
    var motivoDesalojo: Motivo

    ghost function Ctx(): Contexto
      reads this
    {
      Contexto(pc, ax, bx, cx, dx, ex, fx, gx, hx, base, limite)
    }

    /** Ready for the next dispatch. */
    ghost predicate EnReposo()
      reads this
    {
      !flagEjecutando && !flagDesalojo && !flagInterrupt && motivoDesalojo == CONTINUE && instruccion == None
    }

    constructor (memoria: AtencionCpu)
      ensures this.memoria == memoria && EnReposo() && !flagFinPrograma
    {
      this.memoria := memoria;
      pid, tid, pc, ax, bx, cx, dx, ex, fx, gx, hx := 0, 0, 0, 0, 0, 0, 0, 0, 0, 0, 0;
      base, limite, direccionFisica, instruccion := 0, 0, 0, None;
      flagEjecutando, flagDesalojo, flagInterrupt, flagFinPrograma, motivoDesalojo := false, false,
          false, false, CONTINUE;
    }

    // ---- Registers and flags ----

    method GetRegistry(registro: Registro) returns (v: Uint32)
      modifies `flagDesalojo, `motivoDesalojo
      ensures v == Cpu.GetRegistry(Ctx(), registro)
      ensures flagDesalojo == (old(flagDesalojo) || registro.Otro?)
      ensures motivoDesalojo == if registro.Otro? then SEGFAULT else old(motivoDesalojo)
    {
      match registro
      case AX => v := ax;
      case BX => v := bx;
      case CX => v := cx;
      case DX => v := dx;
      case EX => v := ex;
      case FX => v := fx;
      case GX => v := gx;
      case HX => v := hx;
      case Otro(_) =>
        flagDesalojo := true;
        motivoDesalojo := SEGFAULT;
        v := 0;
    }

    method SetRegistry(registro: Registro, value: Uint32)
      modifies `ax, `bx, `cx, `dx, `ex, `fx, `gx, `hx, `flagDesalojo, `motivoDesalojo
      ensures Ctx() == Cpu.SetRegistry(old(Ctx()), registro, value)
      ensures flagDesalojo == (old(flagDesalojo) || registro.Otro?)
      ensures motivoDesalojo == if registro.Otro? then SEGFAULT else old(motivoDesalojo)
    {
      match registro
      case AX => ax := value;
      case BX => bx := value;
      case CX => cx := value;
      case DX => dx := value;
      case EX => ex := value;
      case FX => fx := value;
      case GX => gx := value;
      case HX => hx := value;
      case Otro(_) =>
        flagDesalojo := true;
        motivoDesalojo := SEGFAULT;
    }

    method CheckDesalojo(nuevoMotivo: Motivo)
      modifies `flagDesalojo, `motivoDesalojo
      ensures motivoDesalojo == nuevoMotivo && flagDesalojo == (old(flagDesalojo) || flagInterrupt)
    {
      if flagInterrupt {
        flagDesalojo := true;
      }
      motivoDesalojo := nuevoMotivo;
    }

    method CleanContexto()
      modifies `pid, `tid, `pc, `ax, `bx, `cx, `dx, `ex, `fx, `gx, `hx, `base, `limite, `direccionFisica, `instruccion
      ensures Ctx() == Contexto(0, 0, 0, 0, 0, 0, 0, 0, 0, 0, 0) && pid == 0 && tid == 0
      ensures direccionFisica == 0 && instruccion == None
    {
      pid := 0;
      tid := 0;
      CleanRegistros();
      base := 0;
      limite := 0;
      direccionFisica := 0;
      instruccion := None;
    }

    method CleanRegistros()
      modifies `pc, `ax, `bx, `cx, `dx, `ex, `fx, `gx, `hx
      ensures Ctx() == Contexto(0, 0, 0, 0, 0, 0, 0, 0, 0, base, limite)
    {
      pc := 0;
      ax := 0;
      bx := 0;
      cx := 0;
      dx := 0;
      ex := 0;
      fx := 0;
      gx := 0;
      hx := 0;
    }

    // ---- Instructions ----

    /** What every instruction leaves behind: the effect of the value-level instruction on the
        context and the memory, and the flags that say whether the slice goes on. */
    ghost predicate Deja(e: Efecto, interrupcion: bool)
      reads this, memoria.memoria
    {
      && !e.Indefinido? && Ctx() == e.ctx && memoria.memoria[..] == e.mem
      && (flagDesalojo || flagInterrupt <==> e.Desaloja? || interrupcion)
      && (interrupcion ==> flagInterrupt) && (flagInterrupt ==> interrupcion || motivoDesalojo == SEGFAULT)
      && motivoDesalojo == if e.Desaloja? then e.motivo else CONTINUE
    }

    method Set(destino: Registro, valor: Uint32)
      requires !flagDesalojo
      modifies this
      ensures unchanged(`pid) && unchanged(`tid) && unchanged(`flagFinPrograma) && unchanged(`flagEjecutando)
      ensures Deja(Ejecutar(Instruccion.Set(destino, valor), old(Ctx()), memoria.memoria[..]), old(flagInterrupt))
    {
      hide Cpu.SetRegistry;
      SetRegistry(destino, valor);
      CheckDesalojo(CONTINUE);
    }

    method Sum(registroDestino: Registro, registroOrigen: Registro)
      requires !flagDesalojo
      modifies this
      ensures unchanged(`pid) && unchanged(`tid) && unchanged(`flagFinPrograma) && unchanged(`flagEjecutando)
      ensures Deja(Ejecutar(Instruccion.Sum(registroDestino, registroOrigen), old(Ctx()), memoria.memoria[..]),
                   old(flagInterrupt))
    {
      hide Cpu.GetRegistry, Cpu.SetRegistry;
      var destino := GetRegistry(registroDestino);
      var origen := GetRegistry(registroOrigen);
      var res := (destino + origen) % MODULO;
      SetRegistry(registroDestino, res);
      CheckDesalojo(CONTINUE);
    }

    method Sub(registroDestino: Registro, registroOrigen: Registro)
      requires !flagDesalojo
      modifies this
      ensures unchanged(`pid) && unchanged(`tid) && unchanged(`flagFinPrograma) && unchanged(`flagEjecutando)
      ensures Deja(Ejecutar(Instruccion.Sub(registroDestino, registroOrigen), old(Ctx()), memoria.memoria[..]),
                   old(flagInterrupt))
    {
      hide Cpu.GetRegistry, Cpu.SetRegistry;
      var destino := GetRegistry(registroDestino);
      var origen := GetRegistry(registroOrigen);
      var res := (destino - origen) % MODULO;
      SetRegistry(registroDestino, res);
      CheckDesalojo(CONTINUE);
    }

    method Jnz(registro: Registro, instruccionPc: Uint32)
      requires !flagDesalojo
      modifies this
      ensures unchanged(`pid) && unchanged(`tid) && unchanged(`flagFinPrograma) && unchanged(`flagEjecutando)
      ensures Deja(Ejecutar(Instruccion.Jnz(registro, instruccionPc), old(Ctx()), memoria.memoria[..]),
                   old(flagInterrupt))
    {
      hide Cpu.GetRegistry;
      var valor := GetRegistry(registro);
      if valor != 0 {
        pc := instruccionPc;
      }
      CheckDesalojo(CONTINUE);
    }

    method Log(registro: Registro)
      requires !flagDesalojo
      modifies this
      ensures unchanged(`pid) && unchanged(`tid) && unchanged(`flagFinPrograma) && unchanged(`flagEjecutando)
      ensures Deja(Ejecutar(Instruccion.Log(registro), old(Ctx()), memoria.memoria[..]), old(flagInterrupt))
    {
      var valor := GetRegistry(registro);
      CheckDesalojo(CONTINUE);
    }

    method Mmu(registro: Registro) returns (df: Uint32)
      modifies `flagDesalojo, `motivoDesalojo
      ensures df == Cpu.Mmu(Ctx(), Cpu.GetRegistry(Ctx(), registro))
      ensures flagDesalojo == (old(flagDesalojo) || Falla(registro))
      ensures motivoDesalojo == if Falla(registro) then SEGFAULT else old(motivoDesalojo)
    {
      var desplazamiento := GetRegistry(registro);
      if desplazamiento + PALABRA > limite {
        flagDesalojo := true;
        motivoDesalojo := SEGFAULT;
        return MODULO - 1;
      }
      return (base + desplazamiento) % MODULO;
    }

    ghost predicate Falla(registro: Registro)
      reads this
    {
      registro.Otro? || Cpu.GetRegistry(Ctx(), registro) + PALABRA > limite
    }

    // ---- Accesses to the memory ----

    /** The state decode leaves for an access through register dir. */
    ghost predicate Traducida(dir: Registro)
      reads this
    {
      && direccionFisica == Cpu.Mmu(Ctx(), Cpu.GetRegistry(Ctx(), dir))
      && flagDesalojo == Falla(dir) && motivoDesalojo == if Falla(dir) then SEGFAULT else CONTINUE
    }

    ghost predicate MemoriaValida()
      reads memoria
    {
      PALABRA <= memoria.memoria.Length < 0x8000_0000
    }

    /** The address words of a request. */
    method Pedir(codigo: Byte) returns (request: Package)
      ensures fresh(request) && fresh(request.buffer) && fresh(request.buffer.stream)
      ensures request.codigoOperacion == codigo && Trae(request, [Le32(pid), Le32(tid), Le32(direccionFisica)])
    {
      hide Codificar, Enviable, Le32;
      CodificarVacio();
      var b := new Buffer.Vacio();
      request := new Package(codigo, b);
      ghost var items := AgregarPalabra(request, pid, []);
      items := AgregarPalabra(request, tid, items);
      items := AgregarPalabra(request, direccionFisica, items);
      assert items == [Le32(pid), Le32(tid), Le32(direccionFisica)];
    }

    /** The exchange with the memory: the word at the physical address, or None when rejected. */
    method PedirLectura() returns (valor: Option<Uint32>)
      requires MemoriaValida() && Acceder(direccionFisica, memoria.memoria.Length) != FueraDeMemoria
      ensures if Acceder(direccionFisica, memoria.memoria.Length) == Valido
              then direccionFisica + PALABRA <= memoria.memoria.Length
                && valor == Some(DeLe32(memoria.memoria[..][direccionFisica..direccionFisica + PALABRA]))
              else valor == None
    {
      hide Codificar, Decodificar, Enviable, Le32, DeLe32, Acceder;
      var request := Pedir(CODIGO_READ_MEM);
      var response := memoria.ReadMem(request, pid, tid, direccionFisica);
      if response.codigoOperacion != CODIGO_INFO {
        return None;
      }
      ghost var palabra := memoria.memoria[direccionFisica..direccionFisica + PALABRA];
      DecodificarCodificar([palabra]);
      var datos := response.Deserealizar();
      assert memoria.memoria[..][direccionFisica..direccionFisica + PALABRA] == palabra;
      return Some(DeLe32(datos[0]));
    }

    /** The exchange with the memory: whether it stored the word. */
    method PedirEscritura(valor: Uint32) returns (hecho: bool)
      requires MemoriaValida() && Acceder(direccionFisica, memoria.memoria.Length) != FueraDeMemoria
      modifies memoria.memoria
      ensures hecho <==> Acceder(direccionFisica, memoria.memoria.Length) == Valido
      ensures var m, df := old(memoria.memoria[..]), direccionFisica;
              if hecho then df + PALABRA <= |m| && memoria.memoria[..] == m[..df] + Le32(valor) + m[df + PALABRA..]
              else memoria.memoria[..] == m
    {
      hide Codificar, Decodificar, Enviable, Le32, DeLe32, Acceder;
      ghost var m, df := memoria.memoria[..], direccionFisica;
      var request := Pedir(CODIGO_WRITE_MEM);
      ghost var items := AgregarPalabra(request, valor, [Le32(pid), Le32(tid), Le32(direccionFisica)]);
      assert items == [Le32(pid), Le32(tid), Le32(direccionFisica), Le32(valor)];
      var response := memoria.WriteMem(request, pid, tid, direccionFisica, valor);
      if df + PALABRA <= |m| {
        assert memoria.memoria[..df] == memoria.memoria[..][..df];
        assert old(memoria.memoria[..df]) == m[..df] && old(memoria.memoria[df + PALABRA..]) == m[df + PALABRA..];
      }
      return response.codigoOperacion == CODIGO_SUCCESS;
    }

    method ReadMem(dat: Registro, ghost dir: Registro)
      requires MemoriaValida() && Traducida(dir)
      requires !Ejecutar(Instruccion.ReadMem(dat, dir), Ctx(), memoria.memoria[..]).Indefinido?
      modifies this
      ensures unchanged(`pid) && unchanged(`tid) && unchanged(`flagFinPrograma) && unchanged(`flagEjecutando)
      ensures Deja(Ejecutar(Instruccion.ReadMem(dat, dir), old(Ctx()), memoria.memoria[..]), old(flagInterrupt))
    {
      hide DeLe32, Acceder, Cpu.Mmu, Cpu.GetRegistry, Cpu.SetRegistry, Ejecutar;
      LecturaSegun(Ctx(), memoria.memoria[..], dat, dir);
      var valor := PedirLectura();
      if valor == None {
        flagDesalojo := true;
        flagInterrupt := true;
        motivoDesalojo := SEGFAULT;
        return;
      }
      SetRegistry(dat, valor.value);
    }

    method WriteMem(ghost dir: Registro, dat: Registro)
      requires MemoriaValida() && Traducida(dir)
      requires !Ejecutar(Instruccion.WriteMem(dir, dat), Ctx(), memoria.memoria[..]).Indefinido?
      modifies this, memoria.memoria
      ensures unchanged(`pid) && unchanged(`tid) && unchanged(`flagFinPrograma) && unchanged(`flagEjecutando)
      ensures Deja(Ejecutar(Instruccion.WriteMem(dir, dat), old(Ctx()), old(memoria.memoria[..])), old(flagInterrupt))
    {
      hide Le32, Acceder, Cpu.Mmu, Cpu.GetRegistry, Cpu.SetRegistry, Ejecutar;
      EscrituraSegun(Ctx(), memoria.memoria[..], dir, dat);
      var valor := GetRegistry(dat);
      var hecho := PedirEscritura(valor);
      if !hecho {
        flagDesalojo := true;
        flagInterrupt := true;
        motivoDesalojo := SEGFAULT;
      }
    }

    // ---- The instruction cycle ----

    /** The line at pc, whatever the memory knows of the thread: without one, the slice is told to end with
        SEGFAULT and there is no line to decode. The counter moves in every case. */
    method Fetch()
      requires Entero(pc) >= 0 && instruccion == None
      modifies `pc, `instruccion, `flagDesalojo, `motivoDesalojo
      ensures Ctx() == old(Ctx()).(pc := (old(pc) + 1) % MODULO)
      ensures match LineaDe(memoria.tablas.tablaPCBs, pid, tid, old(pc))
              case Linea(i) => instruccion == Some(i) && unchanged(`flagDesalojo) && unchanged(`motivoDesalojo)
              case _ => unchanged(`instruccion) && flagDesalojo && motivoDesalojo == SEGFAULT
    {
      var respuesta := memoria.ObtenerInstruccion(pid, tid, pc);
      if respuesta.Linea? {
        instruccion := Some(respuesta.instruccion);
      } else {
        flagDesalojo := true;
        motivoDesalojo := SEGFAULT;
      }
      pc := (pc + 1) % MODULO;
    }

    ghost predicate Decodificada()
      reads this
    {
      match instruccion
      case Some(ReadMem(_, dir)) => Traducida(dir)
      case Some(WriteMem(dir, _)) => Traducida(dir)
      case Some(Desconocida) => flagDesalojo && motivoDesalojo == SEGFAULT
      case Some(_) => !flagDesalojo && motivoDesalojo == CONTINUE
      case None => false
    }

    method Decode()
      requires !flagDesalojo && motivoDesalojo == CONTINUE && instruccion.Some?
      modifies `direccionFisica, `flagDesalojo, `motivoDesalojo
      ensures Decodificada()
    {
      hide Cpu.Mmu, Cpu.GetRegistry;
      match instruccion.value
      case ReadMem(_, dir) => direccionFisica := Mmu(dir);
      case WriteMem(dir, _) => direccionFisica := Mmu(dir);
      case Desconocida =>
        flagDesalojo := true;
        motivoDesalojo := SEGFAULT;
      case _ =>
    }

    method Execute()
      requires MemoriaValida() && Decodificada() && !Ejecutar(instruccion.value, Ctx(), memoria.memoria[..]).Indefinido?
      modifies this, memoria.memoria
      ensures unchanged(`pid) && unchanged(`tid) && unchanged(`flagFinPrograma) && unchanged(`flagEjecutando)
      ensures Deja(Ejecutar(old(instruccion.value), old(Ctx()), old(memoria.memoria[..])), old(flagInterrupt))
    {
      hide Cpu.Mmu, Cpu.GetRegistry, Cpu.SetRegistry, Acceder, Le32, DeLe32, Traducida;
      match instruccion.value
      case Set(d, v) => Set(d, v);
      case ReadMem(dat, dir) => ReadMem(dat, dir);
      case WriteMem(dir, dat) => WriteMem(dir, dat);
      case Sum(d, o) => Sum(d, o);
      case Sub(d, o) => Sub(d, o);
      case Jnz(r, salto) => Jnz(r, salto);
      case Log(r) => Log(r);
      case Syscall(m) =>
        flagDesalojo := true;
        CheckDesalojo(m);
      case Desconocida =>
        flagDesalojo := true;
        CheckDesalojo(SEGFAULT);
    }

    /** What the interrupt server does while a thread runs. */
    method RecibirInterrupcion(llega: bool)
      modifies `flagInterrupt
      ensures flagInterrupt == (old(flagInterrupt) || llega)
      ensures old(Decodificada()) ==> Decodificada()
    {
      hide Cpu.Mmu, Cpu.GetRegistry;
      if llega {
        flagInterrupt := true;
      }
    }

    /** fetch, decode and execute, with the moments at which the interrupt may arrive before each. */
    method Ronda(llega: Momento, ghost p: PcbMemoria)
      requires MemoriaValida() && !flagDesalojo && !flagInterrupt && motivoDesalojo == CONTINUE && instruccion == None
      requires Buscado(memoria.tablas.tablaPCBs, pid, tid) == Some(p)
      requires !Ciclo(p.instrucciones, Ctx(), memoria.memoria[..]).Indefinido?
      modifies this, memoria.memoria
      ensures unchanged(`pid) && unchanged(`tid) && unchanged(`flagFinPrograma) && unchanged(`flagEjecutando)
      ensures Deja(Ciclo(p.instrucciones, old(Ctx()), old(memoria.memoria[..])), llega != Nunca && llega != AlFinal)
    {
      hide Ejecutar, Ciclo, Buscado, Deja;
      CicloEs(p.instrucciones, Ctx(), memoria.memoria[..]);
      Traer(llega, p);
      Procesar(llega);
    }

    /** decode and execute. */
    method Procesar(llega: Momento)
      requires MemoriaValida() && !flagDesalojo && motivoDesalojo == CONTINUE && instruccion.Some?
      requires !Ejecutar(instruccion.value, Ctx(), memoria.memoria[..]).Indefinido?
      modifies this, memoria.memoria
      ensures unchanged(`pid) && unchanged(`tid) && unchanged(`flagFinPrograma) && unchanged(`flagEjecutando)
      ensures Deja(Ejecutar(old(instruccion.value), old(Ctx()), old(memoria.memoria[..])),
                   old(flagInterrupt) || llega == AntesDeDecode || llega == AntesDeExecute)
    {
      hide Ejecutar, Decodificada, Deja, MemoriaValida, Traducida;
      RecibirInterrupcion(llega == AntesDeDecode);
      Decode();
      RecibirInterrupcion(llega == AntesDeExecute);
      Execute();
    }

    /** fetch, for a thread that the memory knows and whose program has a line at pc. */
    method Traer(llega: Momento, ghost p: PcbMemoria)
      requires instruccion == None && pc < 0x8000_0000 && pc < |p.instrucciones|
      requires Buscado(memoria.tablas.tablaPCBs, pid, tid) == Some(p)
      modifies `pc, `instruccion, `flagDesalojo, `flagInterrupt, `motivoDesalojo
      ensures Ctx() == old(Ctx()).(pc := (old(pc) + 1) % MODULO) && instruccion == Some(p.instrucciones[old(pc)])
      ensures flagInterrupt == (old(flagInterrupt) || llega == AntesDeFetch)
      ensures unchanged(`flagDesalojo) && unchanged(`motivoDesalojo)
    {
      hide Buscado;
      RecibirInterrupcion(llega == AntesDeFetch);
      Fetch();
    }

    /** One round of the loop. The interrupt server may raise its flag at any of its moments, and which one
        makes no difference. */
    method Ciclar(llega: Momento, ghost p: PcbMemoria)
      requires MemoriaValida() && !flagDesalojo && !flagInterrupt && motivoDesalojo == CONTINUE && instruccion == None
      requires Buscado(memoria.tablas.tablaPCBs, pid, tid) == Some(p)
      requires !Ciclo(p.instrucciones, Ctx(), memoria.memoria[..]).Indefinido?
      modifies this, memoria.memoria
      ensures unchanged(`pid) && unchanged(`tid) && unchanged(`flagFinPrograma) && unchanged(`flagEjecutando)
      ensures Deja(Ciclo(p.instrucciones, old(Ctx()), old(memoria.memoria[..])), llega != Nunca)
    {
      hide Ciclo, Buscado, Decodificada;
      Ronda(llega, p);
      RecibirInterrupcion(llega == AlFinal);
    }

    /** One slice: the do-while loop. The interrupt comes during instruction number k, at any moment of its
        round, if the slice lasts that long. */
    method EjecutarHilo(k: nat, llega: Momento, ghost p: PcbMemoria) returns (pasos: nat)
      requires llega != Nunca && MemoriaValida() && !flagDesalojo && !flagInterrupt && !flagFinPrograma
      requires motivoDesalojo == CONTINUE && instruccion == None
      requires Buscado(memoria.tablas.tablaPCBs, pid, tid) == Some(p)
      requires Rafaga(p.instrucciones, Ctx(), memoria.memoria[..], k).Corte?
      modifies this, memoria.memoria
      ensures unchanged(`pid) && unchanged(`tid) && unchanged(`flagFinPrograma) && unchanged(`flagEjecutando)
      ensures Rafaga(p.instrucciones, old(Ctx()), old(memoria.memoria[..]), k)
              == Corte(Ctx(), memoria.memoria[..], motivoDesalojo, pasos)
    {
      hide Ciclo, Buscado;
      ghost var r := Rafaga(p.instrucciones, Ctx(), memoria.memoria[..], k);
      pasos := 0;
      while true
        invariant 0 <= pasos <= k && !flagDesalojo && !flagInterrupt && motivoDesalojo == CONTINUE
        invariant instruccion == None
        invariant unchanged(`pid) && unchanged(`tid) && unchanged(`flagFinPrograma) && unchanged(`flagEjecutando)
        invariant Quedan(r, Rafaga(p.instrucciones, Ctx(), memoria.memoria[..], k - pasos), pasos)
        decreases k - pasos
      {
        Ciclar(if pasos == k then llega else Nunca, p);
        pasos := pasos + 1;
        if flagDesalojo || flagInterrupt || flagFinPrograma {
          break;
        }
        instruccion := None;
      }
      if flagInterrupt {
        if motivoDesalojo == CONTINUE {
          motivoDesalojo := INTERRUPCION;
        }
      }
    }

    // ---- Loading and storing the context ----

    /** The exchange with the memory: the items of the context, or None when there is no such PCB. */
    method PedirContexto() returns (datos: Option<seq<Dato>>)
      ensures match Buscado(memoria.tablas.tablaPCBs, pid, tid)
              case Some(p) => datos == Some(ItemsContexto(ContextoDe(p)))
              case None => datos == None
    {
      hide Codificar, Decodificar, Enviable, Le32, DeLe32, Buscado, ContextoDe, ItemsContexto;
      PaqueteVacio();
      var b := new Buffer.Vacio();
      var request := new Package(CODIGO_OBTENER_CONTEXTO, b);
      ghost var items := AgregarPalabra(request, pid, []);
      items := AgregarPalabra(request, tid, items);
      assert items == [Le32(pid), Le32(tid)];
      var response := memoria.ObtenerContexto(request, pid, tid);
      if response.codigoOperacion != CODIGO_PCONTEXTO {
        return None;
      }
      ghost var c := ContextoDe(Buscado(memoria.tablas.tablaPCBs, pid, tid).value);
      ItemsDelContexto(c);
      DecodificarCodificar(ItemsContexto(c));
      var lista := response.Deserealizar();
      return Some(lista);
    }

    /** Without a PCB there is no context: the processor stops. */
    method ObtenerContexto()
      modifies this
      ensures unchanged(`pid) && unchanged(`tid) && unchanged(`flagEjecutando) && unchanged(`instruccion)
      ensures match Buscado(memoria.tablas.tablaPCBs, pid, tid)
              case Some(p) =>
                && Ctx() == ContextoDe(p) && unchanged(`flagDesalojo) && unchanged(`flagInterrupt)
                && unchanged(`flagFinPrograma) && unchanged(`motivoDesalojo)
              case None =>
                && Ctx() == old(Ctx()) && flagDesalojo && flagInterrupt && flagFinPrograma
                && motivoDesalojo == SEGFAULT
    {
      hide Buscado, ContextoDe, ItemsContexto, LeerContexto, Enviable;
      var datos := PedirContexto();
      if datos == None {
        flagFinPrograma := true;
        flagDesalojo := true;
        flagInterrupt := true;
        motivoDesalojo := SEGFAULT;
        return;
      }
      ItemsDelContexto(ContextoDe(Buscado(memoria.tablas.tablaPCBs, pid, tid).value));
      TomarContexto(datos.value);
    }

    method TomarContexto(datos: seq<Dato>)
      requires SonPalabras(datos, 11)
      modifies `pc, `ax, `bx, `cx, `dx, `ex, `fx, `gx, `hx, `base, `limite
      ensures Ctx() == LeerContexto(datos)
    {
      hide DeLe32;
      TomarPrimeros(datos);
      TomarUltimos(datos);
    }

    method TomarPrimeros(datos: seq<Dato>)
      requires SonPalabras(datos, 11)
      modifies `base, `limite, `ax, `bx, `cx
      ensures base == DeLe32(datos[0]) && limite == DeLe32(datos[1])
      ensures ax == DeLe32(datos[2]) && bx == DeLe32(datos[3]) && cx == DeLe32(datos[4])
    {
      hide DeLe32;
      base := DeLe32(datos[0]);
      limite := DeLe32(datos[1]);
      ax := DeLe32(datos[2]);
      bx := DeLe32(datos[3]);
      cx := DeLe32(datos[4]);
    }

    method TomarUltimos(datos: seq<Dato>)
      requires SonPalabras(datos, 11)
      modifies `pc, `dx, `ex, `fx, `gx, `hx
      ensures dx == DeLe32(datos[5]) && ex == DeLe32(datos[6]) && fx == DeLe32(datos[7])
      ensures gx == DeLe32(datos[8]) && hx == DeLe32(datos[9]) && pc == DeLe32(datos[10])
    {
      hide DeLe32;
      dx := DeLe32(datos[5]);
      ex := DeLe32(datos[6]);
      fx := DeLe32(datos[7]);
      gx := DeLe32(datos[8]);
      hx := DeLe32(datos[9]);
      pc := DeLe32(datos[10]);
    }

    /** The items of the context, as the request lists them. */
    method ArmarActualizacion() returns (request: Package)
      ensures fresh(request) && fresh(request.buffer) && fresh(request.buffer.stream)
      ensures request.codigoOperacion == CODIGO_ACTUALIZAR_CONTEXTO
      ensures Trae(request, ItemsActualizacion(pid, tid, Ctx()))
    {
      hide Codificar, Enviable, Le32, Trae, ItemsActualizacion;
      PaqueteVacio();
      var b := new Buffer.Vacio();
      request := new Package(CODIGO_ACTUALIZAR_CONTEXTO, b);
      TraeNada(request);
      ghost var items := [];
      items := AgregarPalabra(request, pid, items);
      items := AgregarPalabra(request, tid, items);
      items := AgregarPalabra(request, pc, items);
      items := AgregarPalabra(request, ax, items);
      items := AgregarPalabra(request, bx, items);
      items := AgregarPalabra(request, cx, items);
      items := AgregarPalabra(request, dx, items);
      items := AgregarPalabra(request, ex, items);
      items := AgregarPalabra(request, fx, items);
      items := AgregarPalabra(request, gx, items);
      items := AgregarPalabra(request, hx, items);
      items := AgregarPalabra(request, base, items);
      items := AgregarPalabra(request, limite, items);
      ActualizacionEnOrden(pid, tid, Ctx(), items);
    }

    /** The PCB of the thread takes the shared context and no other PCB changes; without a PCB none does and
        the processor stops. */
    method ActualizarContexto()
      modifies `flagFinPrograma, `flagDesalojo, `flagInterrupt, `motivoDesalojo, memoria.tablas.tablaPCBs
      ensures match Buscado(memoria.tablas.tablaPCBs, pid, tid)
              case Some(p) =>
                && p in memoria.tablas.tablaPCBs && ContextoDe(p) == Ctx() && p.base == base && p.limite == limite
                && unchanged(`flagFinPrograma) && unchanged(`flagDesalojo) && unchanged(`flagInterrupt)
                && unchanged(`motivoDesalojo)
              case None => flagFinPrograma && flagDesalojo && flagInterrupt && motivoDesalojo == SEGFAULT
      ensures forall q :: q in memoria.tablas.tablaPCBs && Buscado(memoria.tablas.tablaPCBs, pid, tid) != Some(q) ==>
                unchanged(q)
    {
      hide Codificar, Decodificar, Enviable, Le32, DeLe32, Buscado, ContextoDe, ItemsActualizacion;
      var request := ArmarActualizacion();
      var response := memoria.ActualizarContexto(request, pid, tid, Ctx());
      if response.codigoOperacion != CODIGO_SUCCESS {
        flagFinPrograma := true;
        flagDesalojo := true;
        flagInterrupt := true;
        motivoDesalojo := SEGFAULT;
      }
    }

    /** Loads the context, runs a slice and stores the context: only the PCB of the thread changes. */
    method CorrerHilo(k: nat, llega: Momento, ghost p: PcbMemoria) returns (pasos: nat)
      requires llega != Nunca && MemoriaValida() && !flagDesalojo && !flagInterrupt && !flagFinPrograma
      requires motivoDesalojo == CONTINUE && instruccion == None
      requires Buscado(memoria.tablas.tablaPCBs, pid, tid) == Some(p)
      requires Rafaga(p.instrucciones, ContextoDe(p), memoria.memoria[..], k).Corte?
      modifies this, memoria.memoria, memoria.tablas.tablaPCBs
      ensures p in memoria.tablas.tablaPCBs && !flagFinPrograma
      ensures Rafaga(p.instrucciones, old(ContextoDe(p)), old(memoria.memoria[..]), k)
              == Corte(ContextoDe(p), memoria.memoria[..], motivoDesalojo, pasos)
      ensures p.base == old(DeEntero(p.base)) && p.limite == old(DeEntero(p.limite))
      ensures forall q :: q in memoria.tablas.tablaPCBs && q != p ==> unchanged(q)
    {
      hide Rafaga, Buscado, DeEntero;
      ghost var c, m := ContextoDe(p), memoria.memoria[..];
      ObtenerContexto();
      pasos := EjecutarHilo(k, llega, p);
      RafagaConservaLimites(p.instrucciones, c, m, k);
      ActualizarContexto();
    }

    /** The same, seen on the whole table of PCBs: one dispatch of the system of threads. */
    method CorrerTurno(k: nat, llega: Momento, ghost p: PcbMemoria) returns (pasos: nat)
      requires llega != Nunca && MemoriaValida() && !flagDesalojo && !flagInterrupt && !flagFinPrograma
      requires motivoDesalojo == CONTINUE && instruccion == None
      requires Buscado(memoria.tablas.tablaPCBs, pid, tid) == Some(p)
      requires Rafaga(p.instrucciones, ContextoDe(p), memoria.memoria[..], k).Corte?
      requires SinDup(memoria.tablas.tablaPCBs) && Distintas(Fichas(memoria.tablas.tablaPCBs))
      modifies this, memoria.memoria, memoria.tablas.tablaPCBs
      ensures p in memoria.tablas.tablaPCBs && !flagFinPrograma
      ensures p.base == old(DeEntero(p.base)) && p.limite == old(DeEntero(p.limite))
      ensures forall q :: q in memoria.tablas.tablaPCBs && q != p ==> unchanged(q)
      ensures Distintas(Fichas(memoria.tablas.tablaPCBs))
      ensures Despacho(SistemaDe(old(Fichas(memoria.tablas.tablaPCBs)), old(memoria.memoria[..])),
                       Turno(old(Hilo(pid, tid)), k))
              == Some(Despachado(SistemaDe(Fichas(memoria.tablas.tablaPCBs), memoria.memoria[..]),
                                 motivoDesalojo, pasos))
    {
      hide Rafaga, Buscado, DeEntero, SistemaDe, Distintas, Despacho, FichaDe, ContextoDe;
      PartesDeFicha(p);
      ghost var m, f := memoria.memoria[..], Fichas(memoria.tablas.tablaPCBs);
      ghost var i := BuscadoEn(memoria.tablas.tablaPCBs, pid, tid);
      pasos := CorrerHilo(k, llega, p);
      PartesDeFicha(p);
      forall j | 0 <= j < |f| && j != i
        ensures Fichas(memoria.tablas.tablaPCBs)[j] == f[j]
      {
        var q := memoria.tablas.tablaPCBs[j];
        assert q != p && q in memoria.tablas.tablaPCBs && unchanged(q);
        assert FichaDe(q) == old(FichaDe(q));
      }
      DespachoDe(f, Fichas(memoria.tablas.tablaPCBs), i, m, memoria.memoria[..], k, motivoDesalojo, pasos);
    }

    /** The body of the dispatch loop: one dispatch of the system of threads. The reason sent to the
        kernel is that of the slice, and the processor is ready for the next thread. */
    method AtenderDispatch(pidHilo: Uint32, tidHilo: Uint32, k: nat, llega: Momento, ghost p: PcbMemoria)
      returns (motivo: Motivo, pasos: nat)
      requires EnReposo() && !flagFinPrograma && llega != Nunca && MemoriaValida() && SinDup(memoria.tablas.tablaPCBs)
      requires Distintas(Fichas(memoria.tablas.tablaPCBs))
      requires Buscado(memoria.tablas.tablaPCBs, pidHilo, tidHilo) == Some(p)
      requires Rafaga(p.instrucciones, ContextoDe(p), memoria.memoria[..], k).Corte?
      modifies this, memoria.memoria, memoria.tablas.tablaPCBs
      ensures EnReposo() && !flagFinPrograma && p in memoria.tablas.tablaPCBs
      ensures Ctx() == Contexto(0, 0, 0, 0, 0, 0, 0, 0, 0, 0, 0) && pid == 0 && tid == 0
      ensures p.base == old(DeEntero(p.base)) && p.limite == old(DeEntero(p.limite))
      ensures forall q :: q in memoria.tablas.tablaPCBs && q != p ==> unchanged(q)
      ensures Distintas(Fichas(memoria.tablas.tablaPCBs))
      ensures Despacho(SistemaDe(old(Fichas(memoria.tablas.tablaPCBs)), old(memoria.memoria[..])),
                       Turno(Hilo(pidHilo, tidHilo), k))
              == Some(Despachado(SistemaDe(Fichas(memoria.tablas.tablaPCBs), memoria.memoria[..]), motivo, pasos))
    {
      hide Rafaga, Buscado, DeEntero, SistemaDe, Distintas, Despacho, Fichas, FichaDe, ContextoDe, SinDup;
      pid, tid := pidHilo, tidHilo;
      flagEjecutando := true;
      pasos := CorrerTurno(k, llega, p);
      motivo := motivoDesalojo;
      Reposar();
    }

    /** What the loop resets before the next thread. */
    method Reposar()
      modifies this
      ensures EnReposo() && unchanged(`flagFinPrograma)
      ensures Ctx() == Contexto(0, 0, 0, 0, 0, 0, 0, 0, 0, 0, 0) && pid == 0 && tid == 0
    {
      CleanContexto();
      flagEjecutando := false;
      flagDesalojo := false;
      flagInterrupt := false;
      motivoDesalojo := CONTINUE;
    }
  }

  lemma CicloEs(programa: seq<Instruccion>, c: Contexto, mem: seq<Byte>)
    requires !Ciclo(programa, c, mem).Indefinido?
    ensures c.pc < |programa| && c.pc < 0x8000_0000
    ensures Ciclo(programa, c, mem) == Ejecutar(programa[c.pc], c.(pc := (c.pc + 1) % MODULO), mem)
  {
    hide Ejecutar;
  }

  /** The two memory accesses, by what the memory answers. A defined one did not fault. */
  lemma LecturaSegun(c: Contexto, mem: seq<Byte>, dat: Registro, dir: Registro)
    requires PALABRA <= |mem| < 0x8000_0000 && !Ejecutar(Instruccion.ReadMem(dat, dir), c, mem).Indefinido?
    ensures var df, e := Cpu.Mmu(c, Cpu.GetRegistry(c, dir)), Ejecutar(Instruccion.ReadMem(dat, dir), c, mem);
            && Acceder(df, |mem|) != FueraDeMemoria && Cpu.GetRegistry(c, dir) + PALABRA <= c.limite
            && (Acceder(df, |mem|) == Valido <==> df + PALABRA < |mem|)
            && e == if df + PALABRA < |mem|
                    then Segun(!dat.Otro? && !dir.Otro?, Cpu.SetRegistry(c, dat, DeLe32(mem[df..df + PALABRA])), mem,
                               SEGFAULT)
                    else Desaloja(c, mem, SEGFAULT)
  {
    FallaEsIndefinido(c, mem, dir, dat);
    hide Cpu.Mmu, Cpu.GetRegistry, Cpu.SetRegistry, Acceder, DeLe32;
  }

  lemma EscrituraSegun(c: Contexto, mem: seq<Byte>, dir: Registro, dat: Registro)
    requires PALABRA <= |mem| < 0x8000_0000 && !Ejecutar(Instruccion.WriteMem(dir, dat), c, mem).Indefinido?
    ensures var df, e := Cpu.Mmu(c, Cpu.GetRegistry(c, dir)), Ejecutar(Instruccion.WriteMem(dir, dat), c, mem);
            && Acceder(df, |mem|) != FueraDeMemoria && Cpu.GetRegistry(c, dir) + PALABRA <= c.limite
            && (Acceder(df, |mem|) == Valido <==> df + PALABRA < |mem|)
            && e == if df + PALABRA < |mem|
                    then Segun(!dat.Otro? && !dir.Otro?, c,
                               mem[..df] + Le32(Cpu.GetRegistry(c, dat)) + mem[df + PALABRA..], SEGFAULT)
                    else Desaloja(c, mem, SEGFAULT)
  {
    FallaEsIndefinido(c, mem, dir, dat);
    hide Cpu.Mmu, Cpu.GetRegistry, Cpu.SetRegistry, Acceder, Le32;
  }

  /** The slice r, with n of its instructions already run, is what s says of the rest. */
  ghost predicate Quedan(r: Corte, s: Corte, n: nat) {
    r.Corte? && s.Corte? && r == s.(pasos := s.pasos + n)
  }

  /** A faulting address is never one the memory can serve, so a defined access did not fault. */
  lemma FallaEsIndefinido(c: Contexto, mem: seq<Byte>, dir: Registro, dat: Registro)
    requires PALABRA <= |mem| < 0x8000_0000
    ensures var df := Cpu.Mmu(c, Cpu.GetRegistry(c, dir));
            && (Acceder(df, |mem|) == FueraDeMemoria <==> Ejecutar(Instruccion.ReadMem(dat, dir), c, mem) == Indefinido)
            && (Acceder(df, |mem|) == FueraDeMemoria <==>
                  Ejecutar(Instruccion.WriteMem(dir, dat), c, mem) == Indefinido)
            && (Acceder(df, |mem|) == Valido <==> df + PALABRA < |mem|)
            && (Cpu.GetRegistry(c, dir) + PALABRA > c.limite ==> Acceder(df, |mem|) == FueraDeMemoria)
  {
    AccesoSiYSoloSi(Cpu.Mmu(c, Cpu.GetRegistry(c, dir)), |mem|);
    hide Le32, DeLe32, Cpu.SetRegistry, Cpu.GetRegistry;
  }

  lemma PaqueteVacio()
    ensures Enviable([]) && Codificar([]) == []
  {
  }

  lemma TraeNada(p: Package)
    requires p.Valid() && p.buffer.Contenido() == []
    ensures Trae(p, [])
  {
  }

  lemma ItemsDelContexto(c: Contexto)
    ensures SonPalabras(ItemsContexto(c), 11) && LeerContexto(ItemsContexto(c)) == c && Enviable(ItemsContexto(c))
  {
    hide Le32, DeLe32;
    forall n: Uint32
      ensures DeLe32(Le32(n)) == n
    {
      IdaYVuelta32(n);
    }
  }

  lemma ActualizacionEnOrden(pid: Uint32, tid: Uint32, c: Contexto, items: seq<Dato>)
    requires items == [] + [Le32(pid)] + [Le32(tid)] + [Le32(c.pc)] + [Le32(c.ax)] + [Le32(c.bx)] + [Le32(c.cx)]
                      + [Le32(c.dx)] + [Le32(c.ex)] + [Le32(c.fx)] + [Le32(c.gx)] + [Le32(c.hx)] + [Le32(c.base)]
                      + [Le32(c.limite)]
    ensures items == ItemsActualizacion(pid, tid, c)
  {
    hide Le32;
  }

  lemma {:induction false} RafagaConservaLimites(programa: seq<Instruccion>, c: Contexto, mem: seq<Byte>, k: nat)
    requires Rafaga(programa, c, mem, k).Corte?
    ensures var r := Rafaga(programa, c, mem, k);
            r.ctx.base == c.base && r.ctx.limite == c.limite && |r.mem| == |mem|
    decreases k
  {
    CicloConservaLimites(programa, c, mem);
    hide Ciclo;
    var e := Ciclo(programa, c, mem);
    if e.Sigue? && k > 0 {
      RafagaConservaLimites(programa, e.ctx, e.mem, k - 1);
    }
  }

  // ---- The table of PCBs as a system of threads ----

  datatype Ficha = Ficha(h: Hilo, pcb: Pcb)

  ghost function FichaDe(p: PcbMemoria): Ficha
    reads p
  {
    Ficha(Hilo(DeEntero(p.pid), DeEntero(p.tid)), Pcb(p.instrucciones, ContextoDe(p)))
  }

  ghost function Fichas(ps: seq<PcbMemoria>): (f: seq<Ficha>)
    reads ps
    ensures |f| == |ps| && forall i :: 0 <= i < |ps| ==> f[i] == FichaDe(ps[i])
  {
    seq(|ps|, i requires 0 <= i < |ps| reads ps => FichaDe(ps[i]))
  }

  ghost predicate Distintas(f: seq<Ficha>) {
    forall i, j :: 0 <= i < j < |f| ==> f[i].h != f[j].h
  }

  ghost function SistemaDe(f: seq<Ficha>, mem: seq<Byte>): Sistema
    requires Distintas(f)
  {
    Sistema(map i | 0 <= i < |f| :: f[i].h := f[i].pcb, mem)
  }

  lemma {:induction false} BuscadoEn(ps: seq<PcbMemoria>, pid: Uint32, tid: Uint32) returns (i: nat)
    requires Buscado(ps, pid, tid).Some?
    ensures i < |ps| && ps[i] == Buscado(ps, pid, tid).value
    ensures DeEntero(ps[i].pid) == pid && DeEntero(ps[i].tid) == tid
  {
    if ps[0].pid == Entero(pid) && ps[0].tid == Entero(tid) {
      i := 0;
    } else {
      var j := BuscadoEn(ps[1..], pid, tid);
      i := j + 1;
    }
  }

  lemma PartesDeFicha(p: PcbMemoria)
    ensures FichaDe(p).h == Hilo(DeEntero(p.pid), DeEntero(p.tid))
    ensures FichaDe(p).pcb.programa == p.instrucciones && FichaDe(p).pcb.ctx == ContextoDe(p)
  {
  }

  lemma MismasClaves(f: seq<Ficha>, f': seq<Ficha>, i: nat)
    requires |f'| == |f| && i < |f| && f'[i].h == f[i].h
    requires forall j :: 0 <= j < |f| && j != i ==> f'[j] == f[j]
    ensures Distintas(f') == Distintas(f)
  {
    assert forall j :: 0 <= j < |f| ==> f'[j].h == f[j].h;
  }

  lemma SistemaEn(f: seq<Ficha>, mem: seq<Byte>)
    requires Distintas(f)
    ensures var p := SistemaDe(f, mem).pcbs;
            && (forall j :: 0 <= j < |f| ==> f[j].h in p && p[f[j].h] == f[j].pcb)
            && (forall h :: h in p ==> exists j :: 0 <= j < |f| && f[j].h == h)
    ensures SistemaDe(f, mem).mem == mem
  {
  }

  lemma SistemaConOtro(f: seq<Ficha>, f': seq<Ficha>, i: nat, mem: seq<Byte>, mem': seq<Byte>)
    requires |f'| == |f| && i < |f| && f'[i].h == f[i].h && f'[i].pcb.programa == f[i].pcb.programa
    requires forall j :: 0 <= j < |f| && j != i ==> f'[j] == f[j]
    requires Distintas(f) && Distintas(f')
    ensures var s := SistemaDe(f, mem);
            && f[i].h in s.pcbs && s.pcbs[f[i].h] == f[i].pcb && s.mem == mem
            && SistemaDe(f', mem') == Con(s, f[i].h, f'[i].pcb.ctx, mem')
  {
    hide SistemaDe, Distintas;
    SistemaEn(f, mem);
    SistemaEn(f', mem');
    var p, p', h := SistemaDe(f, mem).pcbs, SistemaDe(f', mem').pcbs, f[i].h;
    forall x | x in p
      ensures x in p' && (x != h ==> p'[x] == p[x])
    {
      var j :| 0 <= j < |f| && f[j].h == x;
      assert f'[j].h == x;
    }
    forall x | x in p'
      ensures x in p
    {
      var j :| 0 <= j < |f| && f'[j].h == x;
      assert f[j].h == x;
    }
    assert p' == p[h := p[h].(ctx := f'[i].pcb.ctx)];
  }

  /** Replacing the context of one PCB and the memory is what a dispatch does to the system. */
  lemma DespachoDe(f: seq<Ficha>, f': seq<Ficha>, i: nat, mem: seq<Byte>, mem': seq<Byte>, k: nat,
                   m: Motivo, pasos: nat)
    requires |f'| == |f| && i < |f| && f'[i].h == f[i].h && f'[i].pcb.programa == f[i].pcb.programa
    requires forall j :: 0 <= j < |f| && j != i ==> f'[j] == f[j]
    requires Rafaga(f[i].pcb.programa, f[i].pcb.ctx, mem, k) == Corte(f'[i].pcb.ctx, mem', m, pasos)
    ensures Distintas(f') == Distintas(f)
    ensures Distintas(f) ==>
              Despacho(SistemaDe(f, mem), Turno(f[i].h, k)) == Some(Despachado(SistemaDe(f', mem'), m, pasos))
  {
    hide Rafaga, Cargar, Guardar, Distintas, SistemaDe, Con;
    MismasClaves(f, f', i);
    if Distintas(f) {
      var h := f[i].h;
      ContextoIdaYVuelta(h.pid, h.tid, f[i].pcb.ctx);
      ContextoIdaYVuelta(h.pid, h.tid, f'[i].pcb.ctx);
      SistemaConOtro(f, f', i, mem, mem');
    }
  }
}
