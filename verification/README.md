# A verified model of "The Last of C"

The repository simulates an operating system in four processes that talk over sockets: a kernel that schedules
threads, a processor that runs them in slices, a memory that allocates partitions and keeps contexts, and a file
system that stores memory dumps. This project models the parts where they keep state and proves what they keep.

Each part has two layers. A value layer defines states, single steps and runs as datatypes and functions, and proves
the properties of every run. An imperative layer follows the C loops and branches: partitions, PCBs of the memory,
packets, buffers and the block space are objects and arrays updated in place, and the kernel is one object whose queues
and tables its methods reassign, with the TCBs, PCBs and mutexes as values in those tables. Each method is proved to
take exactly the step of the value layer, so the properties are those of the code.
Identifiers are the repository's own, in PascalCase.

| file | what it models |
|---|---|
| `Opcion.dfy`, `Listas.dfy` | optional values and lists, as every module uses them |
| `Bytes.dfy`, `Paquete.dfy` | words, raw copies, packets and their framing on a stream (`utils/src/utils`) |
| `Particiones.dfy` | the partition table as a value: search, split, release, merge |
| `Procesos.dfy` | runs of the memory: partition table plus table of (pid, tid) entries |
| `Peticiones.dfy` | the replies of the memory, its entries as a map, the fits, fixed partitions |
| `Memoria.dfy` | the memory's records and lists, updated in place |
| `Dump.dfy`, `ArchivoDump.dfy` | the dump store: as a map from names to bytes, and as bitmap plus blocks |
| `Cpu.dfy`, `Conmutacion.dfy` | one instruction, one slice, and context switches among threads |
| `Instrucciones.dfy` | what each instruction computes, a loop of them, and what a slice tells the kernel |
| `Volcado.dfy` | a dump from end to end: memory, packet, store |
| `AtencionCpu.dfy`, `ServidorCpu.dfy` | the two ends of the context exchange and the dispatch loop |
| `Planificacion.dfy` | choosing a thread from the ready queue |
| `Kernel.dfy` | the kernel's state and one function per event |
| `Invariantes.dfy`, `Bloqueos.dfy`, `Salidas.dfy`, `FinDeProceso.dfy`, `Corridas.dfy` | what every event and every run of the kernel keeps |
| `Inanicion.dfy` | bounded waiting over kernel runs |
| `Recursos.dfy` | which mutex a name selects |
| `Efectos.dfy` | tokens of the ready semaphore, who is dispatched, who inherits a mutex, what a refusal loses |
| `Olvidos.dfy`, `Cancelacion.dfy` | joiners that are never woken, and threads lost by thread_cancel |
| `Testigos.dfy` | runs that reach the states in which the kernel does what one would not expect |
| `Admision.dfy` | kernel and memory together: the admission gate |
| `Nucleo.dfy` | the kernel's queues, tables and loops, updated in place |

`dafny verify dfyconfig.toml` checks the whole project.

## What the code does that one would not expect

Where a desirable property fails, the code is modelled as it is. For each item one statement says exactly when the
property holds, or what is lost, over all inputs; where a failing input is not plain from it, another one gives an input
or a run.

- Releasing the partition at address 0 never merges it with a free successor (`LiberadaCoalescidaSiYSoloSi`,
  `PrimeraParticionNoSeFusiona`).
- A process of size 0 breaks the tiling of the partition table (`AsignarTeselaSiYSoloSi`, `TamanioCeroRompe`).
- A process whose program cannot be opened leaves its partition occupied for ever: that very partition is in every later
  table, without an entry (`FugaParaSiempre`, `FugasExactas`, `RutaIlegible`).
- A dump is accepted without counting its index block, so the reservation can run past the last block
  (`DesbordaSiYSoloSi`, `UltimoBloqueDesborda`).
- The data of a dump is written four bytes at a time from an item of exactly `size` bytes (`malloc(size)`,
  utils/src/utils/paquete.c:39), so the last copy reads past the item exactly when `size` is not a multiple of 4
  (`LeeDeMasSiYSoloSi`; a dump of one byte is enough). What it reads is a parameter, `relleno`, of every dump.
- The mmu compares an offset with the last address of the partition, so it does not confine a process
  (`MmuAislaSiYSoloSi`, `MmuEscapa`).
- After a fault the access is carried out all the same, at address -1 (`FallaSeEjecutaIgual`, `FallaLeeAfuera`).
- An instruction with an unknown register reports CONTINUE instead of SEGFAULT (`InvalidoAvisaSiYSoloSi`,
  `RegistroInexistente`); if the interrupt arrives during that very instruction, and it is no memory access, it reports
  INTERRUPCION and the thread goes on past it as if nothing had happened (`InvalidaEnRafaga`, `InvalidaSinAviso`).
- `liberar_hilo` skips the thread that follows each one it wakes (`TodosDespiertanSiYSoloSi`, `QuienSigueDormido`), and
  a joiner it skips is never woken again (`SalteadoNuncaDespierta`, `OlvidoAlcanzable`).
- `liberar_hilo` hands a mutex over without taking the new owner out of its waiters (`ThreadExitConservaSiYSoloSi`,
  `DisputaAlcanzable`).
- `liberar_pcb` frees every other thread only, and a contended mutex sends a thread of the dying process back to the
  ready queue (`PurgaSiYSoloSi`, `PurgaIncompletaAlcanzable`).
- A thread that cancels another one is neither sent back to the processor nor queued (`CancelarConservaSiYSoloSi`,
  `PerdidoAlcanzable`).
- A thread the memory refuses ends its whole process, and the scheduler then dereferences the thread it was running: the
  caller of thread_create is still executing exactly when the memory took the thread or did not end the process
  (`SigueTrasCrearSiYSoloSi`, `HiloRechazado`, `RechazoAlcanzable`). A program that cannot be read is answered so
  (`HiloIlegible`).
- A thread or process whose end the memory refuses leaves the processor but stays alive, in no queue
  (`FinRechazadoPierde`), and so does a thread refused together with the end of its process (`HiloRechazadoDosVeces`).
  In the runs of kernel and memory together no end is refused (`SaleConserva`, `TerminaHiloConserva`).
- The end of a process leaves in the ready semaphore one token for each of its threads that was ready, and each of them
  lets one later dispatch find the queue empty (`ValesEnCorrida`).
- A dump blocks its thread with M_DUMP_MEMORY, which as a reason of blocking is the number of MUTEX: a thread with that
  reason waits for a mutex exactly when it has no handler pending (`MotivoMutexSiYSoloSi`, `MutexSinMutexAlcanzable`).
- `liberar_pcb` removes by index from the list of mutexes it runs over, so the mutexes at odd places are not freed
  (`LiberarMutexes`, whose contract says which).

The repository's README speaks of paging and segmentation in the memory and of reading and deleting in the file
system; the code has partitions, fixed or dynamic, and only writes dumps. The code is what is modelled.

## Model

Functions without a row are the specifications that the contracts below mention; lemmas without a row are steps of
the proofs.

| member | source | states |
|---|---|---|
| `Bytes.IdaYVuelta32` | utils/src/utils/paquete.c:12-15 | a 32-bit word copied into a stream and back is the same word |
| `Bytes.VueltaEIda32` | utils/src/utils/paquete.c:38 | four bytes are the image of exactly the word they load as |
| `Bytes.Memmove` | utils/src/utils/buffer.c:26 | the overlapping shift to the front moves every byte once |
| `Paquete.DecodificarCodificar` | utils/src/utils/paquete.c:32-45 | the reader gets back exactly the items that were added, in order |
| `Paquete.CodificarDecodificar` | utils/src/utils/paquete.c:32-45 | a well-formed payload re-encodes to the same bytes |
| `Paquete.CodecBiyectivo` | utils/src/utils/paquete.c:12-45 | different item lists never share a payload, and a payload is readable exactly when some list wrote it |
| `Paquete.CodificarAlFinal` | utils/src/utils/paquete.c:12-15 | appending length and item at the end of the stream appends the item to the list |
| `Paquete.Buffer.Agregar` | utils/src/utils/buffer.c:17-21 | the contents grow by the bytes added, at the end |
| `Paquete.Buffer.Quitar` | utils/src/utils/buffer.c:23-28 | the first n bytes come out and the rest shift to the front |
| `Paquete.Package.Agregar` | utils/src/utils/paquete.c:12-15 | a packet that carried a list of items carries it with one more |
| `Paquete.Package.Deserealizar` | utils/src/utils/paquete.c:32-45 | the loop ends with an empty buffer and the items in the order they were added |
| `Paquete.DesenmarcarEnmarcar` | utils/src/utils/comunications.c:93-139 | a frame followed by anything reads back as that frame and that rest |
| `Paquete.LeerEnmarcadas` | utils/src/utils/comunications.c:93-139 | any sequence of frames on a reliable stream is read back frame by frame with no residue |
| `Paquete.Flujo.EnviarPaquete` | utils/src/utils/comunications.c:93-115 | the bytes sent are code, size and payload at their offsets |
| `Paquete.Flujo.RecibirPaquete` | utils/src/utils/comunications.c:127-139 | the packet received is the first frame of the stream, and the stream loses exactly it |
| `Paquete.BytesDeLaTrama` | utils/src/utils/comunications.c:93-115 | byte 0 is the code, bytes 1 to 4 the size with the least significant first, and the payload follows |
| `Paquete.BytesDeLaCarga` | utils/src/utils/paquete.c:12-15 | four bytes of size, the item, and then the items after it |
| `Particiones.BytesConservados` | memoria/src/administrativo.c:119-152 | in a tiling, occupied plus free bytes are the whole range |
| `Particiones.EleccionUnica` | memoria/src/algoritmos_busqueda.c:4-60 | each fit, ties to the lowest index, determines one partition |
| `Particiones.EleccionExiste` | memoria/src/algoritmos_busqueda.c:4-60 | each fit finds a partition exactly when some free one is large enough |
| `Particiones.FijadaTeselaSiYSoloSi` | memoria/src/algoritmos_particiones.c:3-22 | the configured sizes tile the addresses below their sum exactly when there is one at least and all are positive |
| `Particiones.EntraSiYSoloSiHayHueco` | memoria/src/administrativo.c:62-80 | SUCCESS implies n consecutive free bytes, and the converse holds when free neighbours are merged |
| `Particiones.AsignarEsEnElLugar` | memoria/src/administrativo.c:119-152 | appending the remainder and sorting, by whatever sort, is cutting the chosen partition in place |
| `Particiones.AsignarTeselaSiYSoloSi` | memoria/src/administrativo.c:119-152 | an allocation keeps the tiling exactly when the process is not empty |
| `Particiones.TamanioCeroRompe` | memoria/src/administrativo.c:130-140 | a fresh memory of 10 bytes lets a process of 0 bytes in and its table stops being a tiling |
| `Particiones.AsignadaOcupa` | memoria/src/administrativo.c:119-152 | exactly the allocated bytes become occupied and no other occupied partition moves or changes size |
| `Particiones.LiberadaTeselada` | memoria/src/administrativo.c:211-257 | a release keeps the tiling, whichever neighbours it merges |
| `Particiones.LiberadaLibera` | memoria/src/administrativo.c:211-257 | a release frees exactly the bytes of its partition |
| `Particiones.LiberadaConserva` | memoria/src/administrativo.c:211-257 | no other occupied partition is lost or changed by a release |
| `Particiones.LiberadaCoalescidaSiYSoloSi` | memoria/src/administrativo.c:218-255 | from a merged table, a release leaves a merged one except when it is the first partition and the second is free |
| `Particiones.AsignadaCoalescida` | memoria/src/administrativo.c:119-152 | an allocation leaves no two free neighbours if there were none |
| `Particiones.LiberarDeshaceAsignar` | memoria/src/administrativo.c:119-255 | releasing right after allocating restores the identical table exactly when the partition was not the first one cut |
| `Particiones.PrimeraParticionNoSeFusiona` | memoria/src/administrativo.c:218 | a fresh memory of 10 bytes, allocated at the front and released, refuses 10 bytes although all are free |
| `Procesos.RangosDisjuntos` | memoria/src/operaciones_kernel.c:83-97 | ranges of different live processes share no address |
| `Procesos.CrearProcesoConserva` | memoria/src/operaciones_kernel.c:32-144 | creating a process keeps tiling and ownership, whatever the reply |
| `Procesos.CrearHiloConserva` | memoria/src/operaciones_kernel.c:183-253 | a new thread shares the range of its process and nothing else changes |
| `Procesos.FinProcesoExacto` | memoria/src/operaciones_kernel.c:146-181 | ending a process removes every entry of the pid and frees exactly its one partition |
| `Procesos.FinProcesoConserva` | memoria/src/operaciones_kernel.c:146-181 | ending a process keeps tiling and ownership |
| `Procesos.PasoConserva` | memoria/src/operaciones_kernel.c:3-30 | every request keeps tiling and ownership |
| `Procesos.PasoCoalescida` | memoria/src/administrativo.c:92-255 | a step keeps free neighbours merged exactly when it does not release the partition at 0 before a free one |
| `Procesos.TodaCorrida` | memoria/src/operaciones_kernel.c:3-30 | over every run the table tiles the memory, no byte is lost, and every live process owns one partition alone |
| `Procesos.AsignadorCompleto` | memoria/src/administrativo.c:62-80 | over every DINAMICAS run whose releases merge, a process enters exactly when its bytes are free in one piece, and exactly then each of the three fits finds a partition |
| `Procesos.PasoBalance` | memoria/src/operaciones_kernel.c:107-117 | each step changes occupied partitions by as much as live processes plus PATH_ERROR replies |
| `Procesos.FugasExactas` | memoria/src/operaciones_kernel.c:107-117 | over every run, occupied partitions are the live processes plus one for each PATH_ERROR |
| `Procesos.FugaParaSiempre` | memoria/src/operaciones_kernel.c:107-117 | the partition a PATH_ERROR occupies is in every later table, occupied and without an entry |
| `Procesos.RutaIlegible` | memoria/src/operaciones_kernel.c:107-117 | a run of one request on a fresh memory of 10 bytes that ends so |
| `Peticiones.RespuestaExacta` | memoria/src/operaciones_kernel.c:32-281 | each reply of each request and exactly when it is given, by free bytes, entries and whether the program can be read |
| `Peticiones.AjustesOrdenados` | memoria/src/algoritmos_busqueda.c:4-60 | of the partitions that would do, BEST takes a smallest, WORST a largest, FIRST the lowest, and the lowest among equals |
| `Peticiones.EntradasComoMapa` | memoria/src/operaciones_kernel.c:32-281 | the entries are a map from threads: each request adds or removes those it names, with limits, size and partition, and no other |
| `Peticiones.FijasNoSeMueven` | memoria/src/administrativo.c:119-257 | over every run with fixed partitions their number, limits and sizes stay as configured |
| `Memoria.Particion.Dividir` | memoria/src/administrativo.c:124-147 | the record keeps the first n bytes and a new one gets the rest |
| `Memoria.Memoria.Dinamicas` | memoria/src/algoritmos_particiones.c:24-33 | one free partition over the whole memory, with the configured fit |
| `Memoria.Memoria.Fijas` | memoria/src/algoritmos_particiones.c:3-22 | the running sums lay any configured sizes end to end; the memory is well formed exactly when there is a partition and all sizes are positive |
| `Memoria.Memoria.EntraEnMemoria` | memoria/src/administrativo.c:62-80 | the reply of the scan: too big for the memory, some free partition is large enough, or none is |
| `Memoria.Memoria.FirstFit` | memoria/src/algoritmos_busqueda.c:4-16 | the first free partition large enough, or null when there is none |
| `Memoria.Memoria.BestFit` | memoria/src/algoritmos_busqueda.c:19-38 | the smallest free partition large enough, the lowest index among equals |
| `Memoria.Memoria.WorstFit` | memoria/src/algoritmos_busqueda.c:41-60 | the largest free partition large enough, the lowest index among equals |
| `Memoria.Memoria.OrdenarPorInicio` | memoria/src/administrativo.c:84-89 | a permutation of the records sorted by inicio |
| `Memoria.Memoria.AsignarParticion` | memoria/src/administrativo.c:92-170 | the configured fit chooses, the table takes the allocation step, and the tiling survives for n at least 1 |
| `Memoria.Memoria.LiberarIndice` | memoria/src/administrativo.c:213-255 | the index-shifting merges and removals leave the released table |
| `Memoria.Memoria.LiberarProceso` | memoria/src/administrativo.c:206-258 | the partition with the limits of the entry, and only that one, is released |
| `Memoria.Memoria.BuscarPcb` | memoria/src/administrativo.c:172-189 | the entries of the pid, as often and in the order in which the table has them |
| `Memoria.Memoria.BuscarPcbTid` | memoria/src/administrativo.c:191-202 | the first entry with that pid and tid, or null when there is none |
| `Memoria.Memoria.LiberarHilo` | memoria/src/administrativo.c:288-293 | the record, by identity, leaves the table |
| `Memoria.Memoria.CreacionDeProceso` | memoria/src/operaciones_kernel.c:32-144 | the request is the creation step of the run model, with its reply; on SUCCESS a fresh PCB joins the end of the table with the lines of the file, PC and registers at 0, and otherwise the table of PCBs is as it was |
| `Memoria.Memoria.TerminarHilos` | memoria/src/operaciones_kernel.c:163-173 | the loop removes every entry of the list and releases the partition of the main thread once |
| `Memoria.Memoria.FinalizacionDeProceso` | memoria/src/operaciones_kernel.c:146-181 | the request is the termination step of the run model, with its reply; the records of the pid leave the table and no field of another one changes |
| `Memoria.Memoria.CreacionDeHilo` | memoria/src/operaciones_kernel.c:183-253 | the request is the thread creation step, with its reply; on SUCCESS a fresh PCB joins the end of the table with the lines of its own file, PC and registers at 0, and otherwise nothing changes |
| `Memoria.Memoria.FinalizacionDeHilo` | memoria/src/operaciones_kernel.c:255-281 | the request is the thread termination step, with its reply; every other record stays in the table |
| `Dump.PosicionEnBloque` | filesystem/src/archivo_dump.c:6 | position j of a file falls in one of the ceil(size / block_size) blocks reserved for it |
| `Dump.LibresTrasMarcar` | filesystem/src/archivo_dump.c:96-118 | reserving sets exactly as many bits as it lists |
| `Dump.ReservaUnica` | filesystem/src/archivo_dump.c:96-118 | "the n lowest clear bits, ascending" is one list |
| `Dump.HayReservaSiYSoloSi` | filesystem/src/archivo_dump.c:96-118 | the unbounded scan stays inside the bitmap exactly when there are that many clear bits |
| `Dump.FueraDeLosBloques` | filesystem/src/archivo_dump.c:166-198 | the scattered writes touch no byte outside the listed blocks |
| `Dump.DentroDeLosBloques` | filesystem/src/archivo_dump.c:166-198 | byte r of data block k is byte r of piece k of the content |
| `Dump.DumpNoTocaOtros` | filesystem/src/archivo_dump.c:142-198 | a dump writes only inside the blocks it reserved |
| `Dump.ArchivoIntacto` | filesystem/src/archivo_dump.c:142-198 | every other recorded file keeps its blocks and its bytes |
| `Dump.PunteroNuevo` | filesystem/src/archivo_dump.c:142-157 | word k of the index block is where data block k starts |
| `Dump.UsadosNuevo` | filesystem/src/archivo_dump.c:19-25 | the new file owns exactly the reserved blocks |
| `Dump.ArchivoNuevo` | filesystem/src/archivo_dump.c:142-198 | following INDEX_BLOCK and SIZE gives back exactly the bytes dumped |
| `Dump.DumpConserva` | filesystem/src/archivo_dump.c:3-36 | files go on being registered and owning disjoint blocks |
| `Dump.DumpEsActualizacion` | filesystem/src/archivo_dump.c:3-36 | an accepted dump is a map update from name to bytes |
| `Dump.DesbordaSiYSoloSi` | filesystem/src/archivo_dump.c:57-73 | an accepted dump runs past the last block exactly when its data blocks are all the free ones |
| `Dump.RespuestaEnBytes` | filesystem/src/archivo_dump.c:6-8 | rejected exactly when the dump is larger than the blocks an index can point at or than the free ones; past the end exactly when it would fit only without an index block; accepted otherwise |
| `Dump.RespuestaEnCorrida` | filesystem/src/archivo_dump.c:57-73 | over any run, which dumps are accepted follows from the sizes of those before |
| `Dump.UltimoBloqueDesborda` | filesystem/src/archivo_dump.c:63 | with one free block, a dump of one byte is accepted and has nowhere to put its data |
| `Dump.LeeDeMasSiYSoloSi` | filesystem/src/archivo_dump.c:166-198 | some piece of the content is read beyond its size exactly when the size is not a multiple of 4 |
| `Dump.PasoRefina` | filesystem/src/archivo_dump.c:3-36 | a rejected dump changes nothing; an accepted one updates the map and takes ceil + 1 blocks |
| `Dump.CorridaRefinaMapa` | filesystem/src/archivo_dump.c:3-36 | over any run the store is the map its users expect and the set bits are the sum over accepted dumps |
| `ArchivoDump.FileSystem.VerificarEspacioBitmap` | filesystem/src/archivo_dump.c:38-74 | accepted exactly when the index block can hold the pointers and the data blocks are free |
| `ArchivoDump.FileSystem.ReservarBitmap` | filesystem/src/archivo_dump.c:76-121 | exactly the lowest required + 1 clear bits, ascending, are listed and set; it overruns exactly when there are fewer |
| `ArchivoDump.FileSystem.CrearArchivoMetadata` | filesystem/src/archivo_dump.c:123-140 | SIZE and INDEX_BLOCK are recorded under the name |
| `ArchivoDump.FileSystem.ActualizarBloqueIndices` | filesystem/src/archivo_dump.c:142-157 | the index block holds the start of every data block and nothing else changes |
| `ArchivoDump.FileSystem.ActualizarBloqueDatos` | filesystem/src/archivo_dump.c:166-198 | the nested loops of four-byte copies spread the content over the data blocks |
| `ArchivoDump.FileSystem.CrearArchivoDump` | filesystem/src/archivo_dump.c:3-36 | a request is one step of the value-level store, and which of the three answers it gets is a matter of its bytes, the block size and the free bits |
| `Volcado.NombreInyectivo` | memoria/src/operaciones_kernel.c:292 | dumps of different threads, or at different times, never share a name |
| `Volcado.NombreSeLee` | memoria/src/operaciones_kernel.c:292 | the name reads as pid, tid and time, in that order |
| `Volcado.CadenaIdaYVuelta` | memoria/src/operaciones_kernel.c:314 | a name sent with its final zero is the name the store reads |
| `Volcado.AtenderMemoryDump` | filesystem/src/filesystemServer.c:82-110 | the size, name and content of the request reach the store, and the answer is SUCCESS exactly for an accepted dump |
| `Volcado.MemoryDump` | memoria/src/operaciones_kernel.c:283-339 | the store records exactly the bytes base..limite of the process under the name of the dump, or is as it was; each answer is given exactly when the size of the process and the free blocks say; the memory does not change |
| `Volcado.VolcadoPropio` | memoria/src/operaciones_kernel.c:308-311 | in every reachable state the bytes of a dump are among those the partitions cover and of no other live process |
| `Cpu.RegistroGuardado` | cpu/src/utils.c:3-87 | a register holds what was last stored in it and storing moves nothing else |
| `Cpu.AccesoSiYSoloSi` | memoria/src/operaciones_cpu.c:185-193 | an access is served exactly when df + 4 is below the size, and escapes exactly when the sum wraps |
| `Cpu.MmuAislaSiYSoloSi` | cpu/src/instrucciones.c:52-63 | the check confines a process exactly when its partition starts at 0 or 1 or is too small to reach |
| `Cpu.MmuEscapa` | cpu/src/instrucciones.c:55 | a process of 50 bytes at address 100 is given address 245 |
| `Cpu.FallaSeEjecutaIgual` | cpu/src/instrucciones.c:55-60 | a fault leads to an access outside the memory; exactly the addresses in the last four do |
| `Cpu.FallaLeeAfuera` | cpu/src/instrucciones.c:55-60 | a load at offset 200 of a process of 50 bytes asks for an address outside the memory, whatever its size |
| `Cpu.CicloConservaLimites` | cpu/src/ciclo_instruccion.c:3-147 | no instruction changes base, limite or the size of the memory |
| `Cpu.LeeLoEscrito` | memoria/src/operaciones_cpu.c:177-248 | a store followed by a load through the same register gives the stored value |
| `Cpu.InvalidoAvisaSiYSoloSi` | cpu/src/utils.c:171-178 | an unknown register ends the slice, with SEGFAULT exactly for the two memory accesses and CONTINUE for the rest |
| `Cpu.RegistroInexistente` | cpu/src/utils.c:171-178 | SET on a register that does not exist is reported as CONTINUE |
| `Cpu.InvalidaEnRafaga` | cpu/src/ciclo_instruccion.c:165-173 | the first unknown register of a slice ends it with INTERRUPCION exactly when the interrupt arrives then and it is no memory access; the thread is then past it with nothing else changed |
| `Cpu.InvalidaSinAviso` | cpu/src/ciclo_instruccion.c:165-173 | a slice of one SET on an unknown register that is reported as INTERRUPCION |
| `Cpu.RafagaEsAvanzar` | cpu/src/ciclo_instruccion.c:149-174 | a slice of n instructions is n instructions in place |
| `Instrucciones.SetGuarda` | cpu/src/instrucciones.c:3-9 | the register holds the literal, nothing else moves, and the thread is at the next line |
| `Instrucciones.SumSuma` | cpu/src/instrucciones.c:11-20 | the sum, less 2^32 when it does not fit; nothing else moves |
| `Instrucciones.SubResta` | cpu/src/instrucciones.c:22-31 | the difference, plus 2^32 when it is negative; nothing else moves |
| `Instrucciones.JnzSalta` | cpu/src/instrucciones.c:33-43 | the target exactly when the register is not 0, and the next line otherwise |
| `Instrucciones.SinCalculo` | cpu/src/ciclo_instruccion.c:55-147 | LOG goes on, a system call hands over its own reason, an unknown mnemonic is a SEGFAULT; no register or byte changes |
| `Instrucciones.LecturaLee` | cpu/src/operaciones_memoria.c:141-176 | the register holds the word at base plus offset, or a SEGFAULT exactly when it does not fit; a name that is no register reads as offset 0 and is told SEGFAULT |
| `Instrucciones.EscrituraEscribe` | cpu/src/operaciones_memoria.c:178-210 | the word at base plus offset is the register, and no other byte or register moves, on the same conditions |
| `Instrucciones.ContadorCuenta` | cpu/src/instrucciones.c:22-43 | the loop SUB, JNZ back to it runs exactly n rounds: after j of them n - j are left, and after the last one the thread is just past it |
| `Instrucciones.DesalojoEnRafaga` | cpu/src/ciclo_instruccion.c:149-174 | the reason of the instruction that ends a slice is what the kernel hears; only CONTINUE gives way to an interrupt at that very instruction |
| `Instrucciones.LlamadaEnRafaga` | cpu/src/ciclo_instruccion.c:166-171 | a system call is heard even if the interrupt arrives during it, and the thread is past it |
| `Instrucciones.QuantumEnRafaga` | cpu/src/ciclo_instruccion.c:165-173 | a slice whose instructions all go on ends with INTERRUPCION after k + 1 of them |
| `Instrucciones.MotivoDice` | cpu/src/ciclo_instruccion.c:149-174 | INTERRUPCION exactly when k + 1 instructions went on, none of them a system call; otherwise the last instruction is the one with that reason |
| `Instrucciones.TurnoDice` | cpu/src/servidor_cpu.c:56-69 | a dispatch runs that thread's program on its own registers, k + 1 instructions at most and exactly so many when the interrupt ends it, and touches no other PCB |
| `Conmutacion.ContextoIdaYVuelta` | cpu/src/operaciones_memoria.c:24-139 | every field of a context arrives where it left from, in both directions of the exchange |
| `Conmutacion.DespachoTransparente` | cpu/src/servidor_cpu.c:56-69 | load, run and store leave what the same instructions leave in place |
| `Conmutacion.ConmutacionTransparente` | cpu/src/servidor_cpu.c:56-69 | any run of slices of any threads equals the instruction-level interleaving with registers in each PCB |
| `Conmutacion.CortesFinosAlcanzan` | cpu/src/ciclo_instruccion.c:149-174 | every interleaving of instructions is a run of slices cut at each instruction |
| `Conmutacion.CortesIrrelevantes` | cpu/src/ciclo_instruccion.c:165-173 | two runs of slices with the same instruction order end alike, wherever interrupts fall |
| `Conmutacion.CicloLocal` | cpu/src/ciclo_instruccion.c:3-147 | an instruction depends on no byte it does not touch |
| `Conmutacion.CicloAjeno` | cpu/src/ciclo_instruccion.c:3-147 | an instruction changes no byte it does not write |
| `Conmutacion.DesalojadoComoSolo` | cpu/src/servidor_cpu.c:56-69 | a preempted thread computes what it would compute alone, if nobody else writes what it touches |
| `AtencionCpu.AtencionCpu.ObtenerContexto` | memoria/src/operaciones_cpu.c:39-80 | the reply carries the context of the PCB item by item, or PID_NOT_FOUND |
| `AtencionCpu.AtencionCpu.ActualizarContexto` | memoria/src/operaciones_cpu.c:82-131 | the PCB takes the context of the request and no other PCB changes |
| `AtencionCpu.AtencionCpu.ObtenerInstruccion` | memoria/src/operaciones_cpu.c:133-175 | the line the program counter selects, or which of the two errors: no such thread, no such line |
| `AtencionCpu.CargadaSeEjecuta` | memoria/src/operaciones_kernel.c:115-136 | a thread just loaded is handed the lines of its own file, from registers at 0, and other threads are handed what they were |
| `AtencionCpu.AtencionCpu.ReadMem` | memoria/src/operaciones_cpu.c:177-215 | the four bytes at df, or a reply of SEGFAULT |
| `AtencionCpu.AtencionCpu.WriteMem` | memoria/src/operaciones_cpu.c:217-248 | exactly the four bytes at df change, or none and a reply of SEGFAULT |
| `ServidorCpu.Procesador.GetRegistry` | cpu/src/utils.c:46-87 | the value of the register; an unknown name gives 0 and flags the eviction |
| `ServidorCpu.Procesador.SetRegistry` | cpu/src/utils.c:3-44 | only that register changes; an unknown name flags the eviction |
| `ServidorCpu.Procesador.CheckDesalojo` | cpu/src/utils.c:171-178 | the reason is overwritten and a pending interrupt flags the eviction |
| `ServidorCpu.Procesador.Mmu` | cpu/src/instrucciones.c:52-63 | base plus offset modulo 2^32, or -1 and a flagged fault |
| `ServidorCpu.Procesador.Sum` | cpu/src/instrucciones.c:11-20 | context, memory, flags and reason are those of the value-level instruction, modulo 2^32 |
| `ServidorCpu.Procesador.Sub` | cpu/src/instrucciones.c:22-31 | context, memory, flags and reason are those of the value-level instruction, modulo 2^32 |
| `ServidorCpu.Procesador.Set` | cpu/src/instrucciones.c:3-9 | context, memory, flags and reason are those of the value-level instruction |
| `ServidorCpu.Procesador.Jnz` | cpu/src/instrucciones.c:33-43 | context, memory, flags and reason are those of the value-level instruction |
| `ServidorCpu.Procesador.Log` | cpu/src/instrucciones.c:45-50 | context, memory, flags and reason are those of the value-level instruction |
| `ServidorCpu.Procesador.ReadMem` | cpu/src/operaciones_memoria.c:141-176 | the exchange leaves what the value-level load leaves |
| `ServidorCpu.Procesador.WriteMem` | cpu/src/operaciones_memoria.c:178-210 | the exchange leaves what the value-level store leaves |
| `ServidorCpu.Procesador.Fetch` | cpu/src/ciclo_instruccion.c:3-8 | the line at pc, or the slice told to end with SEGFAULT and no line to decode; pc moves modulo 2^32 in every case |
| `ServidorCpu.Procesador.Decode` | cpu/src/ciclo_instruccion.c:10-53 | the translated address and the flags a fault or an unknown mnemonic leaves |
| `ServidorCpu.Procesador.Execute` | cpu/src/ciclo_instruccion.c:55-147 | the effect of the instruction at value level |
| `ServidorCpu.Procesador.Ciclar` | cpu/src/ciclo_instruccion.c:151-157 | one round is one instruction at value level, whenever the interrupt arrives during it |
| `ServidorCpu.Procesador.EjecutarHilo` | cpu/src/ciclo_instruccion.c:149-174 | the do-while loop is one slice: same context, memory, reason and number of instructions, whenever in its round the interrupt arrives |
| `ServidorCpu.Procesador.ObtenerContexto` | cpu/src/operaciones_memoria.c:24-59 | the shared context becomes that of the PCB, or the processor stops |
| `ServidorCpu.Procesador.ActualizarContexto` | cpu/src/operaciones_memoria.c:106-139 | the PCB becomes the shared context and no other PCB changes; without a PCB the processor stops |
| `ServidorCpu.Procesador.CleanContexto` | cpu/src/utils.c:202-229 | every field of the context is cleared, the cached line and address too |
| `ServidorCpu.Procesador.AtenderDispatch` | cpu/src/servidor_cpu.c:56-69 | the loop body is one dispatch of the system of threads and leaves the processor ready |
| `Planificacion.RecorrerMinimo` | kernel/src/algoritmos_planificacion.c:63-80 | the scan finds the most urgent thread that has waited longest, lowest index among equals, in any queue |
| `Planificacion.EligePrimeroMasUrgente` | kernel/src/algoritmos_planificacion.c:34-80 | in a queue in arrival order the choice is the first thread of the most urgent class |
| `Planificacion.DrenarEsOrdenEstable` | kernel/src/algoritmos_planificacion.c:34-80 | emptying the queue is a stable sort by priority |
| `Planificacion.DespachoAcerca` | kernel/src/algoritmos_planificacion.c:25-80 | a thread is chosen exactly at rank 0, and a dispatch of another lowers its rank by one |
| `Planificacion.LlegadaNoAtrasa` | kernel/src/utils.c:195-208 | enqueuing a thread that is not more urgent raises nobody's rank |
| `Planificacion.LlegadaAlFinalDeSuClase` | kernel/src/syscalls.c:3-9 | a thread that returns goes behind everybody of its class |
| `Planificacion.EsperaAcotada` | kernel/src/algoritmos_planificacion.c:25-80 | without more urgent arrivals a thread is dispatched at exactly its rank plus one |
| `Invariantes.DespachoConserva` | kernel/src/planificador_corto_plazo.c:21-42 | a dispatch keeps places, queue order, semaphores, mutexes and reasons of waiting |
| `Invariantes.InterrupcionConserva` | kernel/src/syscalls.c:3-9 | an interrupted thread is at the end of the ready queue and nowhere else |
| `Invariantes.EsperaConserva` | kernel/src/syscalls.c:32-66 | a thread that asks for IO or a dump is blocked, once, with its handler pending |
| `Invariantes.VolverConserva` | kernel/src/syscalls.c:11-53 | the handler that went well takes its thread from the blocked queue to the end of the ready one, and nobody else notices |
| `Invariantes.IniciarConserva` | kernel/src/utils.c:3-36 | a new process has a new pid and one thread, in no queue but NEW, and nobody else notices |
| `Invariantes.CrearHiloConserva` | kernel/src/syscalls.c:74-94 | the new thread is ready and everybody else stays where they were |
| `Bloqueos.JoinConserva` | kernel/src/syscalls.c:96-118 | a join on a live thread blocks the caller; any other changes nothing |
| `Bloqueos.MutexCreateConserva` | kernel/src/syscalls.c:144-149 | a new mutex is free and without waiters |
| `Bloqueos.LockConserva` | kernel/src/syscalls.c:151-178 | the caller owns a free mutex or waits, once, at the end of a taken one; also when the name falls back to the last mutex |
| `Bloqueos.UnlockConserva` | kernel/src/syscalls.c:180-212 | the owner frees the mutex or gives it to the first waiter, who becomes ready |
| `Recursos.BuscaAlElegido` | kernel/src/utils.c:171-183 | the first mutex whose name is the same character by character, upper or lower case, and the last one exactly when there is none |
| `Recursos.LockPorNombre` | kernel/src/syscalls.c:151-178 | locking by the name of mutex j makes the caller its owner or its last waiter, and no other mutex of any process changes |
| `Recursos.UnlockPorNombre` | kernel/src/syscalls.c:180-212 | unlocking by the name of mutex j passes it to its first waiter or to nobody, only for its owner, and no other mutex changes |
| `Salidas.QuienSigueDormido` | kernel/src/utils.c:94-105 | thread_exit leaves asleep exactly each joiner that has an odd number of joiners side by side right before it in the blocked queue, and wakes the others |
| `Salidas.TodosDespiertanSiYSoloSi` | kernel/src/utils.c:94-105 | every joiner is woken exactly when no two of them are side by side in the blocked queue |
| `FinDeProceso.ThreadExitConserva` | kernel/src/syscalls.c:214-236 | a thread that owns no contended mutex dies and the invariant holds |
| `FinDeProceso.ThreadExitConservaSiYSoloSi` | kernel/src/utils.c:106-123 | thread_exit keeps the invariant exactly when the thread owns no contended mutex |
| `FinDeProceso.ProcessExitPurga` | kernel/src/utils.c:50-79 | no thread of the process is left in a queue, the others keep their order, and the gate opens |
| `FinDeProceso.FinPurga` | kernel/src/syscalls.c:244-263 | the same, whichever thread of the process ends it and wherever it is |
| `FinDeProceso.PurgaSiYSoloSi` | kernel/src/utils.c:56-66 | the purge is complete exactly when no thread at an even place of the list owns a contended mutex |
| `FinDeProceso.ProcessExitConserva` | kernel/src/syscalls.c:244-263 | process_exit keeps the invariant |
| `FinDeProceso.DumpFallidoConserva` | kernel/src/syscalls.c:23-27 | a dump that fails ends its process: its threads leave every queue, the gate opens and nobody else notices |
| `FinDeProceso.SigueTrasCrearSiYSoloSi` | kernel/src/syscalls.c:83-88 | after thread_create the caller is still executing exactly when the memory took the thread or did not end the process; otherwise nobody is |
| `FinDeProceso.HiloRechazado` | kernel/src/syscalls.c:83-88 | a refused thread takes its process out of every queue and table, and the others keep their order |
| `Cancelacion.CancelarPierdeAlLlamador` | kernel/src/syscalls.c:120-142 | whoever cancels another thread is left alive and executing by its record, and nowhere |
| `Cancelacion.CancelarConservaSiYSoloSi` | kernel/src/planificador_corto_plazo.c:161-164 | thread_cancel keeps the invariant exactly when the thread cancels itself, is not the first and owns no contended mutex |
| `Corridas.AdmitidoConserva` | kernel/src/planificador_largo_plazo.c:47-55 | the first thread of the admitted process goes to the end of the ready queue |
| `Corridas.SinLugarConserva` | kernel/src/planificador_largo_plazo.c:72-76 | without room only the gate changes |
| `Corridas.RechazadoConserva` | kernel/src/planificador_largo_plazo.c:56-71 | a refused process leaves the system and nobody else notices |
| `Corridas.PasoConserva` | kernel/src/planificador_corto_plazo.c:128-193 | every event keeps the invariant |
| `Corridas.CancelarEsSalir` | kernel/src/planificador_corto_plazo.c:161-164 | a thread that cancels itself ends as with thread_exit, so runs go on after it |
| `Corridas.TerminaPurga` | kernel/src/syscalls.c:244-263 | whichever event ends a process, its threads leave every queue and nobody else notices |
| `Corridas.CorridaConserva` | kernel/src/planificador_corto_plazo.c:17-62 | every run keeps the invariant |
| `Corridas.UnSoloLugar` | kernel/src/utils.c:195-249 | in every reachable state each thread of an admitted process is in exactly one place, once, the one its record says |
| `Corridas.SemaforosCubren` | kernel/src/utils.c:185-208 | in every reachable state the semaphores cover the queues, so no wake-up is lost and the head of an empty NEW is never read |
| `Corridas.DespachoEnCorrida` | kernel/src/planificador_corto_plazo.c:28-42 | in every reachable state a dispatch takes the first thread of the most urgent class |
| `Corridas.MutexEnCorrida` | kernel/src/syscalls.c:151-212 | in every reachable state a free mutex has no waiters, a taken one a live owner, and each waiter is blocked for it alone |
| `Corridas.MotivoMutexSiYSoloSi` | kernel/src/syscalls.c:32-40 | in every reachable state a thread blocked with the number of MUTEX waits for a mutex exactly when no handler is to come back for it |
| `Corridas.FilaEnUnPaso` | kernel/src/syscalls.c:151-212 | whoever is served was first, and whoever arrives goes last |
| `Corridas.OrdenDeLlegada` | kernel/src/syscalls.c:151-212 | over any run, those served followed by those waiting are the initial waiters followed by the arrivals |
| `Corridas.SalenEnOrden` | kernel/src/planificador_largo_plazo.c:32-76 | processes leave NEW in increasing order of pid |
| `Efectos.ValesEnUnPaso` | kernel/src/utils.c:195-208 | every event posts one token for each thread it makes ready, and a dispatch takes exactly one |
| `Efectos.ValesEnCorrida` | kernel/src/planificador_corto_plazo.c:21-33 | over any run the tokens are the ready threads, plus those that were ready when their process ended, less the dispatches of an empty queue |
| `Efectos.LlegadasFechadas` | kernel/src/utils.c:195-208 | every event stamps the threads it makes ready with the time at which it does |
| `Efectos.DespachoPorPrioridad` | kernel/src/planificador_corto_plazo.c:28-42 | the thread dispatched is the first of the queue under FIFO, and else the first with the smallest priority number in its record |
| `Efectos.CrearNumera` | kernel/src/utils.c:21-36 | a new thread is listed last under the next number of its process, above every other, and the number grows by one |
| `Efectos.ExitHereda` | kernel/src/utils.c:106-123 | each mutex of a thread that exits is nobody's, or its first waiter's if somebody waits, and the other mutexes stay |
| `Efectos.FinRechazadoPierde` | kernel/src/syscalls.c:214-263 | a thread whose end the memory refuses is left alive and in no queue, and nothing else changes |
| `Efectos.HiloRechazadoDosVeces` | kernel/src/syscalls.c:83-88 | a thread refused together with the end of its process is left alive and in no queue, while the caller goes on |
| `Inanicion.OtrosExtienden` | kernel/src/utils.c:195-208 | only a dispatch or the end of a process takes anybody out of the ready queue |
| `Inanicion.RondaAcerca` | kernel/src/planificador_corto_plazo.c:28-42 | each dispatch of another thread brings a ready thread one place closer |
| `Inanicion.SinInanicion` | kernel/src/algoritmos_planificacion.c:25-80 | over any run without more urgent arrivals a ready thread is dispatched within its rank plus one, or its process ends |
| `Olvidos.OlvidadoParaSiempre` | kernel/src/utils.c:94-105 | over any run, a thread that waits for one that has ended goes on waiting until its process ends |
| `Olvidos.SalteadoNuncaDespierta` | kernel/src/utils.c:94-105 | a joiner that thread_exit skips is blocked in every later state until its process ends |
| `Testigos.DisputaAlcanzable` | kernel/src/utils.c:106-123 | a run reaches a thread that owns a contended mutex and executes; its exit breaks the mutex protocol |
| `Testigos.PurgaIncompletaAlcanzable` | kernel/src/utils.c:56-63 | a run reaches a process whose exit leaves one of its threads in a queue |
| `Testigos.OlvidoAlcanzable` | kernel/src/utils.c:94-105 | a run reaches two joiners of the executing thread side by side; once it ends, the second one never wakes up |
| `Testigos.PerdidoAlcanzable` | kernel/src/planificador_corto_plazo.c:161-164 | a run reaches a thread that cancels another one and is lost |
| `Testigos.RechazoAlcanzable` | kernel/src/syscalls.c:83-88 | a run reaches a thread that asks for another one, is refused, and executes no more |
| `Testigos.MutexSinMutexAlcanzable` | kernel/src/syscalls.c:32-40 | a run reaches a thread blocked with the number of MUTEX in a process without mutexes |
| `Admision.AdmiteConserva` | kernel/src/planificador_largo_plazo.c:32-85 | the gate closes, with nothing else changed, exactly when the head does not fit now; otherwise the head leaves NEW, and lives exactly when it fits and can be read |
| `Admision.SaleConserva` | kernel/src/syscalls.c:244-263 | FIN_PROCESO is answered with SUCCESS, both tables lose the process and the gate opens |
| `Admision.FallaDumpConserva` | kernel/src/syscalls.c:23-27 | a failed dump ends its process in both tables, answered with SUCCESS, and the gate opens |
| `Admision.CreaHiloConserva` | kernel/src/syscalls.c:74-94 | CREAR_HILO for a program that can be read is answered with SUCCESS, and both tables gain that thread and no other |
| `Admision.HiloIlegible` | memoria/src/operaciones_kernel.c:217-225 | CREAR_HILO for a program that cannot be read is answered with PATH_ERROR without a trace in the memory, the process is then taken out of it, and nobody executes |
| `Admision.SeCancelaConserva` | kernel/src/syscalls.c:120-142 | a thread that cancels itself leaves both tables, and no other thread does |
| `Admision.TerminaHiloConserva` | kernel/src/syscalls.c:214-236 | FIN_HILO is answered with SUCCESS and both tables lose that thread and no other |
| `Admision.PuertaJusta` | kernel/src/planificador_largo_plazo.c:17-86 | with the gate closed there is a head and no free partition, and in merged memory no run of free bytes, is large enough for it |
| `Admision.MemoriaConoceHilos` | kernel/src/operaciones_memoria.c:15-67 | in every reachable state the memory holds an entry exactly for the live threads of admitted processes |
| `Nucleo.Nucleo.BuscarProceso` | kernel/src/utils.c:143-155 | the process with the pid, or the last of the list |
| `Nucleo.Nucleo.BuscarHilo` | kernel/src/utils.c:157-169 | the thread with the tid, or the last of the process |
| `Nucleo.Nucleo.BuscarMutex` | kernel/src/utils.c:171-183 | the first mutex with the name in any case, or the last one when there is none |
| `Nucleo.Nucleo.EncolarEnReady` | kernel/src/utils.c:195-208 | one more thread at the end, its record and one more token; nothing else |
| `Nucleo.Nucleo.EncolarEnBlocked` | kernel/src/utils.c:210-220 | one more thread at the end with its reason; nothing else |
| `Nucleo.Nucleo.DesencolarEstadoActual` | kernel/src/utils.c:222-249 | the thread leaves the queue its state names; nothing else |
| `Nucleo.Nucleo.AlgoritmoPrioridades` | kernel/src/algoritmos_planificacion.c:63-80 | the thread the scan chooses leaves the queue and the rest keep their order |
| `Nucleo.Nucleo.AlgoritmoFifo` | kernel/src/algoritmos_planificacion.c:25-32 | the first thread leaves the queue |
| `Nucleo.Nucleo.RondaCortoPlazo` | kernel/src/planificador_corto_plazo.c:21-42 | one round is the dispatch step, also when the queue is empty |
| `Nucleo.Nucleo.ManejarCambioEstado` | kernel/src/planificador_corto_plazo.c:64-83 | on shutdown or at the end of its quantum a thread goes back to ready instead of running; only the quantum is used up |
| `Nucleo.Nucleo.Interrupcion` | kernel/src/syscalls.c:3-9 | the step of an interrupt |
| `Nucleo.Nucleo.PeticionIO` | kernel/src/syscalls.c:55-66 | the step of an IO request |
| `Nucleo.Nucleo.DumpMemory` | kernel/src/syscalls.c:32-40 | the step of a dump request |
| `Nucleo.Nucleo.FinDeEspera` | kernel/src/syscalls.c:42-53 | the step of a handler that comes back |
| `Nucleo.Nucleo.DumpMemoryHandler` | kernel/src/syscalls.c:11-30 | the end of a dump for each answer of the memory: its thread is ready again, or its process ends |
| `Nucleo.Nucleo.CrearPcb` | kernel/src/utils.c:3-19 | the step of a process creation |
| `Nucleo.Nucleo.CrearTcb` | kernel/src/utils.c:21-36 | a record with the next tid at the end of the process's threads |
| `Nucleo.Nucleo.ThreadCreate` | kernel/src/syscalls.c:74-94 | the step of a thread creation for each answer of the memory |
| `Nucleo.Nucleo.ThreadJoin` | kernel/src/syscalls.c:96-118 | the step of a join, and whether the caller goes on executing |
| `Nucleo.Nucleo.ThreadCancel` | kernel/src/syscalls.c:120-142 | the thread with the tid, or the last of the process, leaves its queue and is freed |
| `Nucleo.Nucleo.MutexCreate` | kernel/src/syscalls.c:144-149 | the step of a mutex creation |
| `Nucleo.Nucleo.MutexLock` | kernel/src/syscalls.c:151-178 | the step of a lock, and whether the caller goes on executing |
| `Nucleo.Nucleo.MutexUnlock` | kernel/src/syscalls.c:180-212 | the step of an unlock |
| `Nucleo.Nucleo.DespertarUniones` | kernel/src/utils.c:94-105 | the loop that wakes joiners, with its skipped indices |
| `Nucleo.Nucleo.SoltarMutexes` | kernel/src/utils.c:106-123 | the loop that hands mutexes over, with the new owner left in its list |
| `Nucleo.Nucleo.LiberarHilo` | kernel/src/utils.c:81-130 | the step of freeing a thread |
| `Nucleo.Nucleo.DesencolarHilos` | kernel/src/utils.c:56-58 | the loop that takes every thread of a process out of its queue |
| `Nucleo.Nucleo.LiberarHilos` | kernel/src/utils.c:59-63 | the loop that frees every other thread |
| `Nucleo.Nucleo.LiberarMutexes` | kernel/src/utils.c:67-76 | the loop that frees every other mutex: those at odd places, in order, are left |
| `Nucleo.Nucleo.LiberarPcb` | kernel/src/utils.c:50-79 | the step of freeing a process |
| `Nucleo.Nucleo.ThreadExit` | kernel/src/syscalls.c:214-236 | the step of a thread's end for each answer of the memory |
| `Nucleo.Nucleo.ProcessExitThread` | kernel/src/syscalls.c:244-263 | the step of a process's end for any of its threads and each answer of the memory |
| `Nucleo.Nucleo.ProcessExit` | kernel/src/syscalls.c:238-263 | the step of a process's end for each answer of the memory |
| `Nucleo.Nucleo.RondaLargoPlazo` | kernel/src/planificador_largo_plazo.c:26-85 | one round of the admission loop for each answer of the memory |
| `Nucleo.Nucleo.AtenderMotivo` | kernel/src/planificador_corto_plazo.c:85-193 | each reason of eviction is its step for each answer of the memory; with SUCCESS it keeps the invariant and the thread is sent back exactly while it is still executing; after thread_create it is sent back in any case |

## Left out

- Sockets, handshakes, accept loops, thread creation, signals, delays, logging and configuration parsing: a request is a call of the operation that serves it.
- mmap, msync, file opening and the metadata file format: blocks are an array of bytes, metadata a map, and a program a sequence of parsed instructions; splitting a line into mnemonic and parameters is not modelled.
- The so-commons library is not part of this model: its lists are sequences, its bit array an array of booleans, its clock a counter, and list_sort any sorted permutation.
- Concurrency finer than one event at a time: races between kernel threads, an admission reply crossing a process exit, and two dumps reserving blocks at once.
- Integer widths of sizes and addresses in the partition table and of packet and buffer sizes: unbounded here; block space, memory size and single items are kept below the C limits by preconditions.
- The kernel's TCB, PCB and mutex records are values in maps keyed by (pid, tid), pid and position: aliasing between lists and use of freed records are not captured.
- `Corridas.PasoConserva`: runs go on neither after a thread cancels another one, which loses the caller, nor after the memory refuses a thread, which ends in a null dereference; both are single steps here. A dump fails only while no thread of its process is executing.
- `Admision.CreaHiloConserva`: the program of the new thread can be read; `HiloIlegible` is the other case, after which the code dereferences null.
- `Volcado.MemoryDump`: the thread has an entry and its bytes are inside the memory; without an entry the code dereferences null, and configured sizes that add up to more than the memory let a process lie outside.
- `ServidorCpu.Procesador.Decode`: splitting a line into mnemonic and parameters is not modelled, because a program is a sequence of parsed instructions.
- `AtencionCpu.AtencionCpu.ObtenerInstruccion`: the reply is a value, not a packet, because its payload would be the text of the line.
- THREAD_EXIT by the first thread of a process: the code dereferences a null pointer there.
- Runs after a thread dies owning a contended mutex, after a process with pending handlers ends, or after a reservation runs past the bitmap: the model says when that happens and stops. Where the C code goes on through freed records, the model has blank ones.
- Slices that read outside the program or outside the memory: the C code has no defined behaviour, and the model gives no result.
- `ServidorCpu.Procesador.EjecutarHilo`: the interrupt is the number of the instruction during which the flag is raised, and one of four moments of its round; a slice without interrupt is one whose number is large enough.
- `ArchivoDump.FileSystem.ReservarBitmap`: bits of the last byte beyond block_count count as outside the bitmap, and the scan stops at the first index outside instead of writing there.
- malloc and free discipline, and leaks.
- Functions never called (serializar_paquete, stub system calls of the client and server helpers) and the translations of numbers to names.
