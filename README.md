# so_spooler: scheduler simulator and print spooler, modelled in Dafny

The repository holds two operating-systems exercises. This model covers the core of each.

**Scheduler simulator (`m2-escalonadores`).** A `Simulador` owns seven CPU schedulers:
- FCFS, SJF, SRTF;
- Round Robin with quantum 2, and Round Robin with quantum 4;
- Priority and Priority Preemptivo.

It also keeps a base list of processes, read from a text file or taken from a built-in example. It hands the list to every scheduler and runs a scheduler chosen by name.

Each scheduler simulates its policy tick by tick. Its state is a clock, a working copy of the processes and the list of originals it was given. When the simulation ends, it computes the waiting, turnaround and response statistics.

**Print spooler server (`servidor.c`, `fila.c`, `fila.h`).**
- The server reads fixed-size job records from a named pipe and puts them in a bounded FIFO queue.
- The queue is guarded by the counters `vazio` (jobs available) and `cheio` (free slots).
- Five printer threads take jobs from the queue.
- A signal stops the server.

Modules, one per file:

| file | module | models |
|---|---|---|
| `processo.dfy` | `Processos` | `Processo` (Processo.h / Processo.cpp) as a value |
| `somas.dfy` | `Somas` | sums over a process list |
| `estado.dfy` | `Simulacao` | the invariant of a running simulation and one lemma per step a scheduler takes |
| `metricas.dfy` | `Metricas` | the integer part of `calcularEstatisticas` and what it satisfies after a run |
| `politicas.dfy` | `Politicas` | the policies as functions on values: the pick, one round of each loop, a whole run |
| `escalonador.dfy` | `Escalonadores` | class `Escalonador`, whose methods carry out those rounds on its fields |
| `leitura.dfy` | `Leitura` | the line format `carregarProcessosArquivo` reads, as `std::istringstream` extractions |
| `simulador.dfy` | `Simuladores` | class `Simulador` |
| `fila.dfy` | `Fila` | the job record, its bytes on the pipe, and class `FilaImpressao` |
| `servidor.dfy` | `Servidor` | the read-outcome dispatch, the signal handler, the printer loop and the shutdown, as class `Servidor` |
| `wrappers.dfy` | `Wrappers` | `Option` |

### How the model is built

**The scheduler class.** The C++ class hierarchy of schedulers is one Dafny class. A constant `algoritmo` names the subclass, and each subclass constructor is a named constructor.

**Pointers become indices.** A `Processo*` into the `processos` vector is an index. The `std::queue<Processo*>` ready queue is a sequence of indices.

**The simulations are proved against a specification.** The module `Politicas` defines each policy on values: one round of the outer `while (!todosProcessosTerminaram())` loop is a function from a state (process list, clock, ready queue) to the next state, and a run is the sequence of rounds from the reset originals at clock 0. Lemmas about these functions state what a round does: which process is picked, how far the clock moves, which entry changes and when it is stamped.

Each class method that performs a round ends in exactly the state the round function computes from its old state, and every `executarSimulacao` ends in the state of that run at the first round after which every process has finished. That state is also shown to be complete:
- every process has finished and is consistent at the final clock;
- no more CPU work was done than clock ticks;
- the last completion was stamped at the final clock.

The statistics returned are the statistics of that list. Each policy is proved to terminate for every input it accepts.

**The spooler has no threads.**
- Each queue operation is one atomic step.
- A `sem_wait` that must not block is a precondition.
- A read from the pipe is an abstract outcome: a byte count, plus the job a full record decodes to.

### Behaviour kept from the source

These are all modelled as the code behaves.

- **FCFS and Round Robin queue an arriving process twice** when it arrives at the instant a slice ends. The inner loop pushes it after the tick, and the next round pushes it again at the same clock. Its second turn at the queue front finds it finished and stamps it again at a later clock.
  - Example: P1(0,1), P2(1,1), P3(1,1), P4(5,1) gives P2 a finish stamp of 3 where 2 is expected.
  - The model keeps this behaviour and proves that the run still ends and ends consistent.
- **`reiniciarSimulacao` keeps `processosOriginais`.** So every `distribuirProcessos` appends another copy of the base list to each scheduler. `limparProcessos` restores the schedulers' lists rather than emptying them.
- **The header test is a letter test.** It treats the first line as a header whenever it contains a letter, so a data line whose process name has a letter is lost when it comes first (`PrimeiroProcessoDoExemploPerdidoSemCabecalho`).
- **The two Round Robin schedulers share the name "Round Robin".** A lookup by name never reaches the one with quantum 4.
- **A second signal posts `vazio` again.** Printer threads stop at the loop head even with jobs queued, and `finalizar_servidor` destroys the queue with whatever it still holds.

## Model

| member | source | states |
|---|---|---|
| Processos.NovoProcesso | m2-escalonadores/src/Processo.cpp:5-9 | the constructor: remaining time equals CPU time, start/finish/response -1, wait 0, not yet run; the given identity and priority (default 0) |
| Processos.Processo.Executar | m2-escalonadores/src/Processo.cpp:11-17 | only the remaining time changes; if positive it drops by exactly 1 and the flag is true iff it reached 0; if not positive nothing changes and the flag is true, even for a negative value that `terminou` rejects |
| Processos.Processo.Reiniciar | m2-escalonadores/src/Processo.cpp:28-35 | identity (pid, name, arrival, CPU, priority) kept and every timing field back to its constructor value |
| Processos.ReiniciarRestauraConstrutor | m2-escalonadores/src/Processo.cpp:28-35 | `reiniciar` yields exactly the freshly constructed process, is idempotent, and leaves an initial process unchanged |
| Processos.Processo.MarcarInicio | m2-escalonadores/src/Escalonador.cpp:142-146 | on first dispatch the start is the clock and the response time is clock minus arrival and the flag is set; on later dispatches nothing changes |
| Processos.Processo.Carimbar | m2-escalonadores/src/Escalonador.cpp:163-164 | the finish time is the clock and the waiting time is turnaround minus CPU time; nothing else changes |
| Processos.ExecutarPreserva | m2-escalonadores/src/Processo.cpp:11-15 | one unit of an unfinished dispatched process keeps it within its bounds one tick later, and the flag is exactly "finished" |
| Processos.CarimbarPreserva | m2-escalonadores/src/Escalonador.cpp:163-164 | stamping a finished process at the clock leaves it consistent (finish after start plus CPU time, wait = finish - arrival - CPU) |
| Processos.CoerenteMonotono | m2-escalonadores/src/Escalonador.cpp:167-170 | a consistent process stays consistent as the clock advances |
| Processos.TurnaroundDeProcessoConcluido | m2-escalonadores/src/Processo.cpp:19-22 | for a finished consistent process turnaround = wait + CPU time, 0 <= response <= wait, turnaround >= CPU > 0 |
| Processos.TerminaAposRestante | m2-escalonadores/src/Processo.cpp:11-26 | after k <= remaining calls of `executar` the remaining time is the old one minus k, the identity is kept, and `terminou` holds iff k equals the old remaining time |
| Simulacao.Reiniciados | m2-escalonadores/src/Escalonador.cpp:18-21 | the reset list has the originals' length and holds each original reset |
| Simulacao.PassoInicial | m2-escalonadores/src/Escalonador.cpp:16-22 | a freshly reset list satisfies the simulation invariant at clock 0 |
| Simulacao.PassoDespacho | m2-escalonadores/src/Escalonador.cpp:142-146 | dispatching an arrived process keeps the invariant, the work left, the identities and which processes finished |
| Simulacao.PassoExecucao | m2-escalonadores/src/Escalonador.cpp:151-153 | one executed unit with the clock advanced keeps the invariant and lowers the work left by exactly 1 |
| Simulacao.PassoCarimbo | m2-escalonadores/src/Escalonador.cpp:163-164 | stamping the finished process restores the full invariant and records the clock as the last finish |
| Simulacao.PassoSemExcecao | m2-escalonadores/src/Escalonador.cpp:263-266 | an unfinished process needs no stamp: the invariant holds without exception |
| Simulacao.PassoOcioso | m2-escalonadores/src/Escalonador.cpp:167-170 | an idle tick keeps the invariant |
| Simulacao.ConcluiSimulacao | m2-escalonadores/src/Escalonador.cpp:131 | once every process has finished, the invariant gives the completed state |
| Simulacao.ChegadosAposEnfileirar | m2-escalonadores/src/Escalonador.cpp:133-136 | after pushing the arrivals every unfinished process that has arrived is in the ready queue |
| Simulacao.ChegadosAposRetirar | m2-escalonadores/src/Escalonador.cpp:165 | popping a finished front loses no unfinished process |
| Simulacao.ChegadosAposAnexar | m2-escalonadores/src/Escalonador.cpp:321-324 | pushing the preempted process back keeps every unfinished arrived process queued |
| Simulacao.ContaConcat | m2-escalonadores/src/Escalonador.cpp:134-136 | finished entries of concatenated queues add up |
| Metricas.MaxFinalizacaoNoRelogio | m2-escalonadores/src/Escalonador.cpp:55 | the running maximum of finish stamps is at most the clock, and equals it when some process finished at the clock |
| Metricas.EstatisticasDeSimulacaoConcluida | m2-escalonadores/src/Escalonador.cpp:41-74 | after a completed run: throughput counts exactly the processes needing CPU, total turnaround = total wait + total CPU, 0 <= total response <= total wait, and 0 < total CPU <= run length = final clock when anything ran |
| Politicas.PrecedeOrdemFraca | m2-escalonadores/src/Escalonador.cpp:351-357 | each comparator (least CPU, least remaining, lower priority value then earlier arrival) is irreflexive, transitive and transitive in incomparability, as `std::min_element` needs |
| Politicas.EscolhaUnica | m2-escalonadores/src/Escalonador.cpp:192-197 | at most one available process is both unbeaten and strictly preferred to every earlier available one |
| Politicas.SelecaoEscolha | m2-escalonadores/src/Escalonador.cpp:183-197 | the reference pick is none iff nothing is available, and otherwise the one `std::min_element` returns over the available processes in list order |
| Politicas.ChegandoCaracteriza | m2-escalonadores/src/Escalonador.cpp:24-32 | in list order, exactly the indices of the unfinished processes arriving at the clock |
| Politicas.ExecutadoAteOFim | m2-escalonadores/src/Escalonador.cpp:199-216 | the pick keeps its identity, is marked as run, finishes, and is stamped at the clock plus its remaining time |
| Politicas.ExecutadoUmaUnidade | m2-escalonadores/src/Escalonador.cpp:250-266 | the pick keeps its identity, is marked as run, loses one unit if it had any, and if finished is stamped one tick later |
| Politicas.RodadaSemPreempcaoServe | m2-escalonadores/src/Escalonador.cpp:181-221 | SJF/Priority round: one idle tick iff nothing is available; otherwise only the `min_element` pick changes, it finishes, the clock advances by its remaining time and it is stamped at the new clock |
| Politicas.RodadaComPreempcaoServe | m2-escalonadores/src/Escalonador.cpp:232-271 | SRTF/Priority Preemptivo round: one idle tick iff nothing is available; otherwise only the pick changes, losing one unit, the clock advances by 1, and a pick that finished is stamped at the new clock |
| Politicas.CorridaAteTerminarCorre | m2-escalonadores/src/Escalonador.cpp:151-160 | the FCFS inner loop advances the clock by exactly the remaining time, zeroes only that entry, and only grows the queue at the back |
| Politicas.FatiaCircularCorre | m2-escalonadores/src/Escalonador.cpp:305-316 | a slice of at most n units runs exactly min(n, remaining) units, changes only that entry, and only grows the queue at the back |
| Politicas.AtendimentoPorChegadaServe | m2-escalonadores/src/Escalonador.cpp:138-165 | FCFS serving the front: clock + its remaining time, only the front changes, finished and stamped at the new clock, popped with the rest of the queue kept in order |
| Politicas.AtendimentoCircularServe | m2-escalonadores/src/Escalonador.cpp:291-324 | Round Robin serving the front: clock + min(quantum, remaining); within the quantum it finishes and is stamped at the new clock, otherwise it loses exactly a quantum and goes to the very back |
| Politicas.ExecucaoDeterminada | m2-escalonadores/src/Escalonador.cpp:131 | a run ends at one round count only (the first after which every process has finished), so its final list and clock are unique |
| Escalonadores.Escalonador.FCFS | m2-escalonadores/include/Escalonador.h:100 | named "FCFS", quantum 1, empty lists, clock 0 |
| Escalonadores.Escalonador.SJF | m2-escalonadores/include/Escalonador.h:109 | named "SJF", quantum 1, empty lists, clock 0 |
| Escalonadores.Escalonador.SRTF | m2-escalonadores/include/Escalonador.h:118 | named "SRTF", quantum 1, empty lists, clock 0 |
| Escalonadores.Escalonador.RoundRobin | m2-escalonadores/include/Escalonador.h:127 | named "Round Robin" with the given quantum (default 2) |
| Escalonadores.Escalonador.Priority | m2-escalonadores/include/Escalonador.h:136 | named "Priority", quantum 1, empty lists, clock 0 |
| Escalonadores.Escalonador.PriorityPreemptivo | m2-escalonadores/include/Escalonador.h:145 | named "Priority Preemptivo", quantum 1, empty lists, clock 0 |
| Escalonadores.Escalonador.SetQuantum | m2-escalonadores/include/Escalonador.h:75-76 | the quantum becomes q and nothing else changes |
| Escalonadores.Escalonador.AdicionarProcesso | m2-escalonadores/src/Escalonador.cpp:11-14 | the process is appended to both lists, clock and quantum unchanged |
| Escalonadores.Escalonador.ReiniciarSimulacao | m2-escalonadores/src/Escalonador.cpp:16-22 | clock 0, working list = each original reset, originals and quantum unchanged |
| Escalonadores.Escalonador.ObterProcessosChegando | m2-escalonadores/src/Escalonador.cpp:24-32 | in list order, exactly the unfinished processes arriving at the clock |
| Escalonadores.Escalonador.TodosProcessosTerminaram | m2-escalonadores/src/Escalonador.cpp:34-39 | true iff every process has no remaining time |
| Escalonadores.Escalonador.ObterDisponiveis | m2-escalonadores/src/Escalonador.cpp:183-188 | in list order, exactly the arrived unfinished processes |
| Escalonadores.Escalonador.MinElement | m2-escalonadores/src/Escalonador.cpp:192-197 | the first position holding an element no other precedes |
| Escalonadores.Escalonador.Selecionar | m2-escalonadores/src/Escalonador.cpp:183-197 | none iff no process is available; otherwise an available process nothing available precedes, strictly preferred to every earlier available one |
| Escalonadores.Escalonador.Iniciar | m2-escalonadores/src/Escalonador.cpp:177-181 | the reset establishes the invariant at clock 0, and the loop test is "all finished" |
| Escalonadores.Escalonador.Despachar | m2-escalonadores/src/Escalonador.cpp:199-204 | only the chosen entry changes, by the first-dispatch marking; the invariant is kept |
| Escalonadores.Escalonador.ExecutarUnidade | m2-escalonadores/src/Escalonador.cpp:259-261 | the entry's remaining time drops by 1, the clock advances by 1, the result is "finished" |
| Escalonadores.Escalonador.Ocioso | m2-escalonadores/src/Escalonador.cpp:218-221 | processes unchanged, clock advances by exactly 1 |
| Escalonadores.Escalonador.ObterHorizonte | m2-escalonadores/src/Escalonador.cpp:218-221 | with unfinished work and nothing available, some arrival is still ahead of the clock |
| Escalonadores.Escalonador.CalcularEstatisticas | m2-escalonadores/src/Escalonador.cpp:41-74 | the result is the statistics of the process list (sums over stamped processes, their count, the latest stamp) |
| Escalonadores.Escalonador.ExecutarAteTerminar | m2-escalonadores/src/Escalonador.cpp:209-212 | only the chosen entry changes; it finishes and the clock advances by its remaining time |
| Escalonadores.Escalonador.DespacharEExecutarAteTerminar | m2-escalonadores/src/Escalonador.cpp:199-212 | only the pick changes, to its first-dispatch marking with no time left; the clock advances by its remaining time, and stamping it there gives `ExecutadoAteOFim` |
| Escalonadores.Escalonador.ExecutarAteOFim | m2-escalonadores/src/Escalonador.cpp:197-216 | the new list is the old one with only the pick replaced by `ExecutadoAteOFim` (dispatched at the old clock, run to completion, stamped at the new clock); the clock advances by its remaining time; invariant kept |
| Escalonadores.Escalonador.ExecutarUmaUnidade | m2-escalonadores/src/Escalonador.cpp:248-266 | the new list is the old one with only the pick replaced by `ExecutadoUmaUnidade` (dispatched, one unit, stamped at the new clock iff that finished it); the clock advances by 1 and the work left drops by exactly 1 |
| Escalonadores.Escalonador.DespacharEExecutar | m2-escalonadores/src/Escalonador.cpp:250-261 | only the pick changes, to its first-dispatch marking after one `executar`; the result is that call's flag and equals "finished"; the clock advances by 1 |
| Escalonadores.Escalonador.RodadaNaoPreemptivo | m2-escalonadores/src/Escalonador.cpp:181-221 | the new list and clock are exactly `RodadaSemPreempcao` of the old ones; the invariant is kept and the round makes progress (less work left, or the clock closer to the last arrival) |
| Escalonadores.Escalonador.RodadaPreemptivo | m2-escalonadores/src/Escalonador.cpp:232-271 | the new list and clock are exactly `RodadaComPreempcao` of the old ones; the invariant is kept and the round makes progress |
| Escalonadores.Escalonador.Finalizar | m2-escalonadores/src/Escalonador.cpp:224 | when every process has finished the run is complete and the statistics are those of the list |
| Escalonadores.Escalonador.AvancarNaoPreemptivo | m2-escalonadores/src/Escalonador.cpp:181-221 | from the state after k rounds of the SJF/Priority run, one round reaches the state after k + 1, keeping the invariant and making progress |
| Escalonadores.Escalonador.AvancarPreemptivo | m2-escalonadores/src/Escalonador.cpp:232-271 | from the state after k rounds of the SRTF/Priority Preemptivo run, one round reaches the state after k + 1 |
| Escalonadores.Escalonador.SimularSJF | m2-escalonadores/src/Escalonador.cpp:176-225 | ends in the state of the SJF run (`Execucao` with criterion least CPU time), complete, with its statistics; originals and quantum unchanged |
| Escalonadores.Escalonador.SimularSRTF | m2-escalonadores/src/Escalonador.cpp:227-275 | ends in the state of the SRTF run (criterion least remaining time), complete, with its statistics |
| Escalonadores.Escalonador.SimularPriority | m2-escalonadores/src/Escalonador.cpp:335-387 | ends in the state of the non-preemptive Priority run, complete, with its statistics |
| Escalonadores.Escalonador.SimularPriorityPreemptivo | m2-escalonadores/src/Escalonador.cpp:389-439 | ends in the state of the preemptive Priority run, complete, with its statistics |
| Escalonadores.Escalonador.SimularNaoPreemptivo | m2-escalonadores/src/Escalonador.cpp:181-224 | the shared loop of SJF and Priority ends in the state of the run of `RodadaSemPreempcao` rounds from the reset originals, complete |
| Escalonadores.Escalonador.SimularPreemptivo | m2-escalonadores/src/Escalonador.cpp:232-274 | the shared loop of SRTF and Priority Preemptivo ends in the state of the run of `RodadaComPreempcao` rounds, complete |
| Escalonadores.Escalonador.EnfileirarChegando | m2-escalonadores/src/Escalonador.cpp:133-136 | the new queue is the old one followed by `Chegando` (the unfinished processes arriving at the clock, in list order); every arrived unfinished process is queued |
| Escalonadores.Escalonador.ExecutarUnidadeEnfileirando | m2-escalonadores/src/Escalonador.cpp:152-159 | the new list, clock and queue are exactly `Tique` of the old ones: one unit, one tick, the arrivals pushed; the work left drops by 1 |
| Escalonadores.Escalonador.ExecutarFrenteFCFS | m2-escalonadores/src/Escalonador.cpp:151-160 | the new list, clock and queue are exactly `CorridaAteTerminar` of the old ones: the front runs until finished, the clock advancing by its remaining time; a front already finished changes nothing |
| Escalonadores.Escalonador.AtenderFrenteFCFS | m2-escalonadores/src/Escalonador.cpp:138-165 | the new list, clock and queue are exactly `AtendimentoPorChegada` of the old ones (dispatch, run to completion, stamp, pop); both invariants kept; progress, or one fewer finished entry queued |
| Escalonadores.Escalonador.RetirarFrente | m2-escalonadores/src/Escalonador.cpp:163-165 | the finished front is stamped at the clock and popped; nothing else changes and the queue holds one fewer finished entry |
| Escalonadores.Escalonador.RodadaFCFS | m2-escalonadores/src/Escalonador.cpp:131-171 | the new list, clock and queue are exactly `RodadaPorChegada` of the old ones; both invariants kept; progress |
| Escalonadores.Escalonador.SimularFCFS | m2-escalonadores/src/Escalonador.cpp:125-174 | ends in the state of the FCFS run of `RodadaPorChegada` rounds, complete, with its statistics |
| Escalonadores.Escalonador.ExecutarQuantum | m2-escalonadores/src/Escalonador.cpp:305-316 | runs exactly min(quantum, remaining time) units (none for a quantum below 1); the new list, clock and queue are those `Tiques` units of the old ones; the clock and the work left move by that count |
| Escalonadores.Escalonador.UnidadeDaFatia | m2-escalonadores/src/Escalonador.cpp:307-315 | after k units of the slice, one more unit reaches the state of k + 1 `Tiques`; the clock and the work left move by 1 |
| Escalonadores.Escalonador.AtenderFrenteRR | m2-escalonadores/src/Escalonador.cpp:291-324 | the new list, clock and queue are exactly `AtendimentoCircular` of the old ones (pop, dispatch, slice, then stamp if finished or push back); both invariants kept |
| Escalonadores.Escalonador.EncerrarFatia | m2-escalonadores/src/Escalonador.cpp:318-324 | a finished front is stamped at the clock with the queue unchanged; an unfinished one is appended to the queue with the list unchanged |
| Escalonadores.Escalonador.RodadaRoundRobin | m2-escalonadores/src/Escalonador.cpp:284-330 | the new list, clock and queue are exactly `RodadaCircular` of the old ones; both invariants kept; progress |
| Escalonadores.Escalonador.AvancarRoundRobin | m2-escalonadores/src/Escalonador.cpp:284-330 | from the state after k rounds of the Round Robin run, one round reaches the state after k + 1 |
| Escalonadores.Escalonador.SimularRoundRobin | m2-escalonadores/src/Escalonador.cpp:277-333 | ends in the state of the Round Robin run with its quantum, complete, with its statistics |
| Escalonadores.Escalonador.ExecutarSimulacao | m2-escalonadores/include/Escalonador.h:54 | the virtual call, dispatched on the subclass: ends in the state of the run of the subclass's policy, complete, with its statistics; originals and quantum unchanged |
| Leitura.PularEspacos | m2-escalonadores/src/Simulador.cpp:52 | what is left starts with a non-space and is no longer than the input |
| Leitura.PularEspacosConsome | m2-escalonadores/src/Simulador.cpp:52 | skipping consumes a prefix made only of whitespace |
| Leitura.AcumularDigitos | m2-escalonadores/src/Simulador.cpp:52 | consumes something iff the text starts with a digit; what is left does not start with a digit |
| Leitura.AcumularDigitosConsome | m2-escalonadores/src/Simulador.cpp:52 | reading digits consumes a prefix made only of digits |
| Leitura.SepararPalavra | m2-escalonadores/src/Simulador.cpp:52 | word + rest = input, the word has no whitespace, the rest is empty or starts with whitespace |
| Leitura.LerNumero | m2-escalonadores/src/Simulador.cpp:52 | fails iff no digit follows the optional sign; on success consumes at least one character and stops before a non-digit |
| Leitura.LerInteiro | m2-escalonadores/src/Simulador.cpp:52-53 | `iss >> int`: fails iff, after the whitespace and an optional sign, no digit follows; on success consumes at least one character and stops before a non-digit |
| Leitura.LerInteiroConsome | m2-escalonadores/src/Simulador.cpp:52-53 | the integer extraction leaves a suffix of the line |
| Leitura.LerPalavra | m2-escalonadores/src/Simulador.cpp:52 | `iss >> string`: fails iff only whitespace is left, otherwise a non-empty word without whitespace |
| Leitura.AnalisarLinha | m2-escalonadores/src/Simulador.cpp:45-58 | skipped iff the line is empty or starts with '#'; an accepted process is in its constructor state (the field-by-field outcomes are the lemmas below) |
| Leitura.AnalisarCamposSemPrioridade | m2-escalonadores/src/Simulador.cpp:51-56 | four fields followed by nothing, or by text that is not an integer, are accepted with priority 0 |
| Leitura.CamposIncompletosInvalida | m2-escalonadores/src/Simulador.cpp:51-58 | a line holding only the first one, two or three fields is rejected |
| Leitura.PrimeiroCampoNaoNumerico | m2-escalonadores/src/Simulador.cpp:51-58 | a non-comment line whose first token starts with a letter, such as a header, is rejected |
| Leitura.LinhasDeDados | m2-escalonadores/src/Simulador.cpp:31-41 | the first line is dropped iff it contains an ASCII letter |
| Leitura.AnalisarFormatarLinha | m2-escalonadores/src/Simulador.cpp:51-55 | round trip: "pid name arrival cpu priority" with a whitespace-free name reads back as that process |
| Leitura.PrimeiraLinhaComNomeEDescartada | m2-escalonadores/src/Simulador.cpp:31-41 | a first data line whose name holds a letter is taken for a header and its process is lost |
| Leitura.PrimeiraLinhaSemLetrasEDado | m2-escalonadores/src/Simulador.cpp:36-39 | a first line without letters is read as data |
| Leitura.AceitosConcat | m2-escalonadores/src/Simulador.cpp:43-60 | the processes of consecutive runs of lines concatenate, in file order |
| Leitura.AceitosAnexar | m2-escalonadores/src/Simulador.cpp:55 | one more line appends exactly what that line is accepted as |
| Leitura.AceitosDasLinhas | m2-escalonadores/src/Simulador.cpp:43-60 | formatted lines of legible processes load exactly those processes, in order |
| Leitura.CarregarArquivoFormatado | m2-escalonadores/src/Simulador.cpp:31-60 | a header line followed by one formatted line per process loads exactly those processes |
| Simuladores.ExemploValido | m2-escalonadores/src/Simulador.cpp:322-330 | the example `criarExemploProcessos` installs: five processes in constructor state, pids 1..5 arriving at 0..4, each needing CPU, legible names |
| Simuladores.ContemTrechoPosicao | m2-escalonadores/src/Simulador.cpp:144 | the substring test holds iff the name occurs at some position |
| Simuladores.PrimeiroQueContem | m2-escalonadores/src/Simulador.cpp:142-145 | `find_if`: none iff no name contains the text; otherwise the first index whose name does |
| Simuladores.RoundRobin4Inalcancavel | m2-escalonadores/src/Simulador.cpp:13-14 | no name lookup selects the Round Robin scheduler with quantum 4 |
| Simuladores.NomeVazioEscolheFCFS | m2-escalonadores/src/Simulador.cpp:142-145 | the empty name selects FCFS |
| Simuladores.PrimeiroProcessoDoExemploPerdidoSemCabecalho | m2-escalonadores/src/Simulador.cpp:31-41 | a header-less file of the example's lines loads only the last four processes |
| Simuladores.LinhasDeFrente | m2-escalonadores/src/Simulador.cpp:43-60 | the lines of a process list are the first process's line followed by the others' |
| Simuladores.EscalonadoresSemPrioridade | m2-escalonadores/src/Simulador.cpp:10-13 | fresh distinct empty FCFS, SJF, SRTF and Round Robin (quantum 2), with those names |
| Simuladores.EscalonadoresComPrioridade | m2-escalonadores/src/Simulador.cpp:14-16 | fresh distinct empty Round Robin (quantum 4), Priority and Priority Preemptivo |
| Simuladores.Simulador.constructor | m2-escalonadores/src/Simulador.cpp:8-17 | seven fresh distinct empty schedulers in the order FCFS, SJF, SRTF, RR(2), RR(4), Priority, Priority Preemptivo; empty base |
| Simuladores.Simulador.DistribuirProcessos | m2-escalonadores/src/Simulador.cpp:87-94 | each scheduler: originals = old originals + base, working list = old originals reset + base, clock 0, quantum kept |
| Simuladores.Simulador.AdicionarProcesso | m2-escalonadores/src/Simulador.cpp:75-78 | the base gains the process at the end and is redistributed |
| Simuladores.Simulador.AdicionarEscalonador | m2-escalonadores/src/Simulador.cpp:80-85 | the scheduler is appended; all are redistributed iff the base is non-empty |
| Simuladores.Simulador.CriarExemploProcessos | m2-escalonadores/src/Simulador.cpp:322-332 | the base becomes exactly the five example processes; schedulers untouched |
| Simuladores.Simulador.LimparProcessos | m2-escalonadores/src/Simulador.cpp:290-295 | the base is empty; every scheduler is reset with its originals kept |
| Simuladores.Simulador.LerLinhas | m2-escalonadores/src/Simulador.cpp:26-60 | the base becomes the processes the file's lines yield |
| Simuladores.Simulador.CarregarProcessosArquivo | m2-escalonadores/src/Simulador.cpp:19-73 | false and nothing changed iff the file cannot be opened; otherwise the file's processes, distributed, or the example when none is accepted, not distributed |
| Simuladores.Simulador.ExecutarAlgoritmo | m2-escalonadores/src/Simulador.cpp:141-156 | no run iff no name contains the text; otherwise the first match ends in the state of its policy's run, complete, its statistics returned, and every other scheduler is unchanged |
| Fila.Int32Volta | fila.h:24-28 | four bytes read as an `int` and written back are the same four bytes |
| Fila.Codificar | fila.h:24-28 | a job is a 60-byte record (id, 50-byte name, 2 padding bytes, page count) |
| Fila.DecodificarCodificar | servidor.c:135-137 | every job read back from its record is the same job |
| Fila.CodificarDecodificar | servidor.c:135-137 | a record with zero padding is the encoding of the job it decodes to |
| Fila.FilaImpressao.constructor | fila.c:4-15 | empty list, size 0, `vazio` 0, `cheio` MAX_TRABALHOS |
| Fila.FilaImpressao.Limites | fila.c:13-14 | in a valid queue 0 <= size <= 100 and the list is empty iff the size is 0 |
| Fila.FilaImpressao.Enfileirar | fila.c:41-75 | success appends the job at the tail, size +1, `cheio` -1, `vazio` +1, returns 0; allocation failure returns -1 and changes nothing; validity kept |
| Fila.FilaImpressao.Desenfileirar | fila.c:78-108 | on a non-empty list returns the head job and removes it, size -1, `vazio` -1, `cheio` +1, returns 0; on an empty list returns -1 with the list and `vazio` restored |
| Fila.DesenfileirarValidaNaoFalha | fila.c:84-88 | on a valid queue, whenever `vazio` is positive, the list is non-empty |
| Fila.FilaImpressao.Destruir | fila.c:18-38 | the list is empty and the size 0; the counters are untouched |
| Servidor.Classificar | servidor.c:137-174 | a read is a full record iff it returned the record size, end of pipe iff 0, an error iff -1, otherwise partial |
| Servidor.Ingestao | servidor.c:134-175 | the loop consumes at most the given outcomes and enqueues at most one job per full record |
| Servidor.NadaAposEncerrar | servidor.c:162-173 | nothing after an error, a failed reopen or the signal is read or enqueued |
| Servidor.LeiturasSemEfeito | servidor.c:155-167 | partial records and reopened closures are consumed and enqueue nothing |
| Servidor.IngestaoSemFalhas | servidor.c:137-154 | with only full records and no failures, every job is enqueued, in order |
| Servidor.Servidor.constructor | servidor.c:71-95 | empty fresh queue, server active |
| Servidor.Servidor.HandlerSinal | servidor.c:39-55 | inactive, `vazio` raised by MAX_IMPRESSORAS, jobs unchanged |
| Servidor.Servidor.TratarEvento | servidor.c:135-174 | an error, or an end of pipe whose reopen fails, ends the loop; a signal clears the active flag and raises `vazio` by MAX_IMPRESSORAS; exactly a full record with a successful allocation appends its job, takes a free slot and raises `vazio` by 1 |
| Servidor.Servidor.ProcessarTrabalhos | servidor.c:119-180 | nothing if the pipe cannot be opened; otherwise the outcomes consumed, the jobs appended and the server state are those of `Ingestao`, and `vazio` rises by the jobs appended, plus MAX_IMPRESSORAS if the signal arrived |
| Servidor.Servidor.ConsumirEvento | servidor.c:134-175 | one iteration of the read loop: the jobs appended, `vazio` and the outcomes still to consume stay those `Ingestao` predicts |
| Servidor.Servidor.IteracaoImpressora | servidor.c:21-30 | stop once the server is inactive, even with jobs queued; otherwise print the head job, or retry when the list was empty; `vazio` loses and `cheio` gains exactly the job taken, and a signal during the wait raises `vazio` by MAX_IMPRESSORAS |
| Servidor.Servidor.FinalizarServidor | servidor.c:97-117 | the queue is destroyed and the jobs still in it are discarded, never printed |

## Left out

- Console, log and report output: `exibirResultado`, `exibirEstadoAtual`, `toString`, `exibirProcessos`, `gerarRelatorioComparativo`, `menuInterativo`, `log_evento`, `imprimir_trabalho`'s `sleep`, and the error messages with line numbers in `carregarProcessosArquivo`. These are I/O only.
- `executarTodosAlgoritmos` and `main.cpp`: they are menus and stdin pauses around calls that are modelled.
- Floating point: the averages and the CPU utilisation of `calcularEstatisticas`. `Estatisticas` keeps the integer sums, the count and the latest finish stamp from which they are divided.
- Threads, the mutex, blocking `sem_wait`, `pthread_create`/`pthread_join` and signal delivery. Each operation is one atomic step, and a wait that must not block is a precondition.
- The named pipe (create, open, read, close, unlink) and the file opened by `carregarProcessosArquivo`:
  - an open is a boolean or `Option` input;
  - a file is its list of lines;
  - the pipe is a finite list of read outcomes, so the server's endless loop is modelled on a finite prefix.
- `malloc`/`free`: allocation failure is a boolean input. The linked `NoFila` nodes are the sequence of jobs they hold, front first, so pointer aliasing inside the list is not modelled.
- `Processo` is a value: its setters are field updates and its getters field selectors. In-place updates through `Processo*` are updates of an entry of the scheduler's sequence.
- m1-spooler/cliente.c, Simulador.h and `MemoriaCompartilhada` are not part of this model.
- Escalonadores.Escalonador.ExecutarSimulacao: requires non-negative CPU times for every policy, non-negative arrivals for FCFS and Round Robin, and a quantum of at least 1 for Round Robin. Without these the C++ loops can run forever, so no completion can be promised.
- Simuladores.Simulador.ExecutarAlgoritmo: requires the scheduler it selects to meet those same conditions.
- Leitura.AnalisarLinha: integers are unbounded. A field that overflows `int` makes the C++ extraction fail (and saturates an optional priority), while here it is read as its value.
- 32-bit `int` arithmetic in the scheduler is unbounded here. The model does not capture wrap-around in these places:
  - the sums of `calcularEstatisticas` (Escalonador.cpp:43-45 and 66-69);
  - the clock `tempoAtual++` (Escalonador.cpp:151-153 and 167-170);
  - the response time `tempoAtual - tempoChegada` (Escalonador.cpp:142-146).
  A run long enough to overflow them is outside what the simulator is meant for.
