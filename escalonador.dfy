/**
 * The schedulers of the CPU-scheduling simulator (m2-escalonadores,
 * Escalonador.h and Escalonador.cpp).
 *
 * The C++ abstract class with one subclass per policy is one Dafny class whose
 * `algoritmo` field names the policy; each subclass constructor is a named
 * constructor, each `executarSimulacao` override is a `SimularX` method and the
 * virtual call is `ExecutarSimulacao`. A `Processo*` into the `processos`
 * vector is an index into the `processos` sequence, and the ready queue
 * (`std::queue<Processo*>`) is a sequence of such indices.
 */
module Escalonadores {
  import opened Wrappers
  import opened Processos
  import opened Somas
  import opened Simulacao
  import opened Metricas
  import opened Politicas


  /** The base constructor's default quantum. */
  const QUANTUM_PADRAO := 1

  class Escalonador {
    var processos: seq<Processo>
    var processosOriginais: seq<Processo>
    var tempoAtual: int
    var quantum: int
    const nomeAlgoritmo: string
    const algoritmo: Algoritmo

    /** What every operation keeps: the two lists in step, entry by entry the same processes. */
    ghost predicate Valid()
      reads this
    {
      MesmasIdentidades(processos, processosOriginais) && tempoAtual >= 0
    }

    /** What the simulation loops need of the inputs to terminate. */
    ghost predicate PodeSimular()
      reads this
    {
      && (forall j :: 0 <= j < |processosOriginais| ==> processosOriginais[j].tempoCPU >= 0)
      && (algoritmo == AlgFCFS || algoritmo == AlgRoundRobin ==>
            forall j :: 0 <= j < |processosOriginais| ==> processosOriginais[j].tempoChegada >= 0)
      && (algoritmo == AlgRoundRobin ==> quantum >= 1)
    }

    ghost predicate Concluida()
      reads this
    {
      Valid() && ConcluidaEm(processos, tempoAtual)
    }

    // ----- constructors: one per subclass -----

    constructor FCFS()
      ensures nomeAlgoritmo == "FCFS" && algoritmo == AlgFCFS && quantum == QUANTUM_PADRAO
      ensures processos == [] && processosOriginais == [] && tempoAtual == 0 && Valid()
    {
      nomeAlgoritmo, algoritmo, quantum := "FCFS", AlgFCFS, QUANTUM_PADRAO;
      processos, processosOriginais, tempoAtual := [], [], 0;
    }

    constructor SJF()
      ensures nomeAlgoritmo == "SJF" && algoritmo == AlgSJF && quantum == QUANTUM_PADRAO
      ensures processos == [] && processosOriginais == [] && tempoAtual == 0 && Valid()
    {
      nomeAlgoritmo, algoritmo, quantum := "SJF", AlgSJF, QUANTUM_PADRAO;
      processos, processosOriginais, tempoAtual := [], [], 0;
    }

    constructor SRTF()
      ensures nomeAlgoritmo == "SRTF" && algoritmo == AlgSRTF && quantum == QUANTUM_PADRAO
      ensures processos == [] && processosOriginais == [] && tempoAtual == 0 && Valid()
    {
      nomeAlgoritmo, algoritmo, quantum := "SRTF", AlgSRTF, QUANTUM_PADRAO;
      processos, processosOriginais, tempoAtual := [], [], 0;
    }

    constructor RoundRobin(quantum: int := 2)
      ensures nomeAlgoritmo == "Round Robin" && algoritmo == AlgRoundRobin && this.quantum == quantum
      ensures processos == [] && processosOriginais == [] && tempoAtual == 0 && Valid()
    {
      nomeAlgoritmo, algoritmo, this.quantum := "Round Robin", AlgRoundRobin, quantum;
      processos, processosOriginais, tempoAtual := [], [], 0;
    }

    constructor Priority()
      ensures nomeAlgoritmo == "Priority" && algoritmo == AlgPriority && quantum == QUANTUM_PADRAO
      ensures processos == [] && processosOriginais == [] && tempoAtual == 0 && Valid()
    {
      nomeAlgoritmo, algoritmo, quantum := "Priority", AlgPriority, QUANTUM_PADRAO;
      processos, processosOriginais, tempoAtual := [], [], 0;
    }

    constructor PriorityPreemptivo()
      ensures nomeAlgoritmo == "Priority Preemptivo" && algoritmo == AlgPriorityPreemptivo
      ensures quantum == QUANTUM_PADRAO
      ensures processos == [] && processosOriginais == [] && tempoAtual == 0 && Valid()
    {
      nomeAlgoritmo, algoritmo, quantum := "Priority Preemptivo", AlgPriorityPreemptivo, QUANTUM_PADRAO;
      processos, processosOriginais, tempoAtual := [], [], 0;
    }

    // ----- the base class -----

    /** `setQuantum`: `getQuantum()` (the field) becomes `q`, nothing else changes. */
    method SetQuantum(q: int)
      modifies this
      ensures quantum == q
      ensures processos == old(processos) && processosOriginais == old(processosOriginais)
      ensures tempoAtual == old(tempoAtual)
    {
      quantum := q;
    }

    /** `adicionarProcesso`: a copy goes to the end of both lists. */
    method AdicionarProcesso(processo: Processo)
      requires Valid()
      modifies this
      ensures Valid()
      ensures processos == old(processos) + [processo]
      ensures processosOriginais == old(processosOriginais) + [processo]
      ensures tempoAtual == old(tempoAtual) && quantum == old(quantum)
    {
      processos := processos + [processo];
      processosOriginais := processosOriginais + [processo];
    }

    /**
     * `reiniciarSimulacao`: the clock back to 0 and the working list a reset
     * copy of the originals, which are kept (so later additions accumulate).
     */
    method ReiniciarSimulacao()
      requires Valid()
      modifies this
      ensures Valid()
      ensures tempoAtual == 0 && processos == Reiniciados(processosOriginais)
      ensures processosOriginais == old(processosOriginais) && quantum == old(quantum)
    {
      tempoAtual := 0;
      processos := processosOriginais;
      var i := 0;
      while i < |processos|
        invariant 0 <= i <= |processos| == |processosOriginais|
        invariant tempoAtual == 0
        invariant processosOriginais == old(processosOriginais) && quantum == old(quantum)
        invariant forall j :: 0 <= j < i ==> processos[j] == processosOriginais[j].Reiniciar()
        invariant forall j :: i <= j < |processos| ==> processos[j] == processosOriginais[j]
      {
        processos := processos[i := processos[i].Reiniciar()];
        i := i + 1;
      }
    }

    /**
     * `obterProcessosChegando`: in list order, exactly the unfinished processes
     * whose arrival time equals the clock.
     */
    method ObterProcessosChegando() returns (chegando: seq<nat>)
      ensures chegando == Chegando(processos, tempoAtual)
    {
      chegando := [];
      var i := 0;
      while i < |processos|
        invariant 0 <= i <= |processos|
        invariant chegando == ChegandoEntre(processos, tempoAtual, i)
      {
        if processos[i].tempoChegada == tempoAtual && !processos[i].Terminou() {
          chegando := chegando + [i];
        }
        i := i + 1;
      }
    }

    /** `todosProcessosTerminaram`. */
    method TodosProcessosTerminaram() returns (r: bool)
      ensures r <==> TodosTerminaram(processos)
    {
      var i := 0;
      while i < |processos|
        invariant 0 <= i <= |processos|
        invariant forall j :: 0 <= j < i ==> processos[j].Terminou()
      {
        if !processos[i].Terminou() {
          return false;
        }
        i := i + 1;
      }
      return true;
    }

    /** A process the selecting policies may pick: arrived and unfinished. */
    predicate Disponivel(j: int)
      reads this
    {
      DisponivelEm(processos, tempoAtual, j)
    }

    /** The `disponiveis` loop of SJF, SRTF, Priority and Priority Preemptivo. */
    method ObterDisponiveis() returns (disponiveis: seq<nat>)
      ensures forall k :: 0 <= k < |disponiveis| ==> Disponivel(disponiveis[k])
      ensures forall k, l :: 0 <= k < l < |disponiveis| ==> disponiveis[k] < disponiveis[l]
      ensures forall j :: Disponivel(j) ==> j in disponiveis
    {
      disponiveis := [];
      var i := 0;
      while i < |processos|
        invariant 0 <= i <= |processos|
        invariant forall k :: 0 <= k < |disponiveis| ==> disponiveis[k] < i && Disponivel(disponiveis[k])
        invariant forall k, l :: 0 <= k < l < |disponiveis| ==> disponiveis[k] < disponiveis[l]
        invariant forall j :: 0 <= j < i && Disponivel(j) ==> j in disponiveis
      {
        if processos[i].tempoChegada <= tempoAtual && !processos[i].Terminou() {
          disponiveis := disponiveis + [i];
        }
        i := i + 1;
      }
    }

    /** `std::min_element`: the first position holding a minimal element under `c`. */
    method MinElement(disponiveis: seq<nat>, c: Criterio) returns (k: nat)
      requires |disponiveis| > 0
      requires forall m :: 0 <= m < |disponiveis| ==> disponiveis[m] < |processos|
      ensures k < |disponiveis|
      ensures forall m :: 0 <= m < |disponiveis| ==>
                !Precede(c, processos[disponiveis[m]], processos[disponiveis[k]])
      ensures forall m :: 0 <= m < k ==> Precede(c, processos[disponiveis[k]], processos[disponiveis[m]])
    {
      k := 0;
      var m := 1;
      while m < |disponiveis|
        invariant 1 <= m <= |disponiveis| && k < m
        invariant forall m' :: 0 <= m' < m ==>
                    !Precede(c, processos[disponiveis[m']], processos[disponiveis[k]])
        invariant forall m' :: 0 <= m' < k ==>
                    Precede(c, processos[disponiveis[k]], processos[disponiveis[m']])
      {
        if Precede(c, processos[disponiveis[m]], processos[disponiveis[k]]) {
          forall m' | 0 <= m' < m
            ensures !Precede(c, processos[disponiveis[m']], processos[disponiveis[m]])
            ensures Precede(c, processos[disponiveis[m]], processos[disponiveis[m']])
          {
            PrecedeOrdemFraca(c, processos[disponiveis[m']], processos[disponiveis[m]], processos[disponiveis[k]]);
            PrecedeOrdemFraca(c, processos[disponiveis[m]], processos[disponiveis[k]], processos[disponiveis[m']]);
          }
          k := m;
        }
        m := m + 1;
      }
    }

    /**
     * The selection step of the selecting policies: the first process, in list
     * order, among the arrived unfinished ones that no other is preferred to;
     * none exactly when no process is available.
     */
    method Selecionar(c: Criterio) returns (escolhido: Option<nat>)
      ensures escolhido == Selecao(c, processos, tempoAtual)
      ensures escolhido.None? <==> forall j :: !Disponivel(j)
      ensures escolhido.Some? ==> Disponivel(escolhido.value)
      ensures escolhido.Some? ==> forall j :: Disponivel(j) ==>
                !Precede(c, processos[j], processos[escolhido.value])
      ensures escolhido.Some? ==> forall j :: Disponivel(j) && j < escolhido.value ==>
                Precede(c, processos[escolhido.value], processos[j])
    {
      SelecaoEscolha(c, processos, tempoAtual);
      var disponiveis := ObterDisponiveis();
      if |disponiveis| == 0 {
        forall j
          ensures !DisponivelEm(processos, tempoAtual, j)
        {
          assert !Disponivel(j);
        }
        return None;
      }
      var k := MinElement(disponiveis, c);
      var i := disponiveis[k];
      forall j | Disponivel(j)
        ensures !Precede(c, processos[j], processos[i])
        ensures j < i ==> Precede(c, processos[i], processos[j])
      {
        var m :| 0 <= m < |disponiveis| && disponiveis[m] == j;
        if j < i {
          assert m < k;
        }
      }
      assert Disponivel(i) && DisponivelEm(processos, tempoAtual, i);
      EscolhaUnica(c, processos, tempoAtual, i, Selecao(c, processos, tempoAtual).value);
      return Some(i);
    }

    // ----- the blocks the policies share, each one step of a simulation -----

    /** The loop invariant of every simulation, on the object's state (see `PassoEm`). */
    ghost predicate Passo(emExecucao: int)
      reads this
    {
      Valid() && PassoEm(processos, tempoAtual, emExecucao)
    }

    ghost predicate UltimoCarimbo()
      reads this
    {
      UltimoCarimboEm(processos, tempoAtual)
    }

    /** `reiniciarSimulacao()` and the first loop test of every `executarSimulacao`. */
    method Iniciar() returns (todos: bool)
      requires Valid()
      requires forall j :: 0 <= j < |processosOriginais| ==> processosOriginais[j].tempoCPU >= 0
      modifies this
      ensures Passo(-1) && UltimoCarimbo() && Soma(processos, Restante) >= 0
      ensures todos <==> TodosTerminaram(processos)
      ensures tempoAtual == 0 && processos == Reiniciados(processosOriginais)
      ensures processosOriginais == old(processosOriginais) && quantum == old(quantum)
    {
      ReiniciarSimulacao();
      PassoInicial(processos);
      todos := TodosProcessosTerminaram();
    }

    /** "Marcar início da execução se necessário". */
    method Despachar(atual: nat)
      requires Passo(-1) && atual < |processos|
      requires processos[atual].tempoChegada <= tempoAtual && processos[atual].tempoCPU > 0
      modifies this
      ensures Passo(-1) && atual < |processos| && processos[atual].jaExecutou
      ensures processos == old(processos)[atual := old(processos[atual]).MarcarInicio(old(tempoAtual))]
      ensures MesmasIdentidades(processos, old(processos)) && MesmosTerminos(old(processos), processos)
      ensures tempoAtual == old(tempoAtual)
      ensures processosOriginais == old(processosOriginais) && quantum == old(quantum)
      ensures Soma(processos, Restante) == old(Soma(processos, Restante))
    {
      var novo := processos[atual := processos[atual].MarcarInicio(tempoAtual)];
      PassoDespacho(processos, tempoAtual, atual);
      IdentidadesTransitivas(novo, processos, processosOriginais);
      processos := novo;
    }

    /** `atual->executar(); tempoAtual++;` */
    method ExecutarUnidade(atual: nat) returns (terminou: bool)
      requires Passo(atual) && atual < |processos|
      requires processos[atual].jaExecutou && !processos[atual].Terminou()
      modifies this
      ensures Passo(atual) && atual < |processos| && processos[atual].jaExecutou
      ensures processos == old(processos)[atual := old(processos[atual]).Executar().0]
      ensures MesmasIdentidades(processos, old(processos))
      ensures terminou == processos[atual].Terminou()
      ensures 0 <= processos[atual].tempoRestante == old(processos[atual].tempoRestante) - 1
      ensures tempoAtual == old(tempoAtual) + 1
      ensures processosOriginais == old(processosOriginais) && quantum == old(quantum)
      ensures Soma(processos, Restante) == old(Soma(processos, Restante)) - 1
    {
      var r := processos[atual].Executar();
      PassoExecucao(processos, tempoAtual, atual);
      IdentidadesTransitivas(processos[atual := r.0], processos, processosOriginais);
      processos := processos[atual := r.0];
      terminou := r.1;
      tempoAtual := tempoAtual + 1;
    }

    /** "Processo terminou": the finish stamp and the waiting time. */
    method Carimbar(atual: nat)
      requires Passo(atual) && atual < |processos|
      requires processos[atual].jaExecutou && processos[atual].Terminou()
      modifies this
      ensures Passo(-1) && UltimoCarimbo()
      ensures processos == old(processos)[atual := old(processos[atual]).Carimbar(old(tempoAtual))]
      ensures MesmasIdentidades(processos, old(processos)) && MesmosTerminos(old(processos), processos)
      ensures tempoAtual == old(tempoAtual)
      ensures processosOriginais == old(processosOriginais) && quantum == old(quantum)
      ensures Soma(processos, Restante) == old(Soma(processos, Restante))
    {
      var novo := processos[atual := processos[atual].Carimbar(tempoAtual)];
      PassoCarimbo(processos, tempoAtual, atual);
      IdentidadesTransitivas(novo, processos, processosOriginais);
      processos := novo;
    }

    /** With an unfinished process and nothing available, the last arrival is still ahead. */
    lemma ObterHorizonte(h: int)
      requires Valid() && !TodosTerminaram(processos)
      requires forall j :: 0 <= j < |processosOriginais| ==> processosOriginais[j].tempoChegada <= h
      requires forall j :: !Disponivel(j)
      ensures h > tempoAtual
    {
      var j :| 0 <= j < |processos| && !processos[j].Terminou();
      assert !Disponivel(j);
      assert processos[j].MesmaIdentidade(processosOriginais[j]);
    }

    /** The idle branch: "CPU ociosa", one tick. */
    method Ocioso()
      requires Passo(-1) && !TodosTerminaram(processos)
      modifies this
      ensures Passo(-1) && UltimoCarimbo()
      ensures processos == old(processos) && tempoAtual == old(tempoAtual) + 1
      ensures processosOriginais == old(processosOriginais) && quantum == old(quantum)
    {
      PassoOcioso(processos, tempoAtual);
      tempoAtual := tempoAtual + 1;
    }

    /** `calcularEstatisticas`, its integer parts. */
    method CalcularEstatisticas() returns (stats: Estatisticas)
      ensures stats == EstatisticasDe(processos)
    {
      var total, somaEspera, somaTurnaround, somaResposta, tempoTotalExecucao := 0, 0, 0, 0, 0;
      var i := 0;
      while i < |processos|
        invariant 0 <= i <= |processos|
        invariant total == Soma(processos[..i], UmSeRegistrado)
        invariant somaEspera == Soma(processos[..i], EsperaRegistrada)
        invariant somaTurnaround == Soma(processos[..i], TurnaroundRegistrado)
        invariant somaResposta == Soma(processos[..i], RespostaRegistrada)
        invariant tempoTotalExecucao == MaxFinalizacao(processos[..i])
      {
        var p := processos[i];
        if p.tempoFinalizacao != -1 {
          total := total + 1;
          somaEspera := somaEspera + p.tempoEspera;
          somaTurnaround := somaTurnaround + p.TempoTurnaround();
          if p.tempoResposta != -1 {
            somaResposta := somaResposta + p.tempoResposta;
          }
          tempoTotalExecucao := if tempoTotalExecucao < p.tempoFinalizacao then p.tempoFinalizacao
                                else tempoTotalExecucao;
        }
        SomaPrefixo(processos, i, UmSeRegistrado);
        SomaPrefixo(processos, i, EsperaRegistrada);
        SomaPrefixo(processos, i, TurnaroundRegistrado);
        SomaPrefixo(processos, i, RespostaRegistrada);
        assert processos[..i + 1][..i] == processos[..i];
        i := i + 1;
      }
      assert processos[..i] == processos;
      stats := ESTATISTICAS_PADRAO;
      if total > 0 {
        var tempoCPUTotal := 0;
        var k := 0;
        while k < |processos|
          invariant 0 <= k <= |processos|
          invariant tempoCPUTotal == Soma(processos[..k], CPU)
        {
          SomaPrefixo(processos, k, CPU);
          tempoCPUTotal := tempoCPUTotal + processos[k].tempoCPU;
          k := k + 1;
        }
        assert processos[..k] == processos;
        stats := Estatisticas(somaEspera, somaTurnaround, somaResposta, tempoCPUTotal, tempoTotalExecucao, total);
      }
    }

    /** The inner `while (!atual->terminou())` loop of SJF and Priority: only `atual` changes. */
    method ExecutarAteTerminar(atual: nat)
      requires Passo(atual) && atual < |processos| && processos[atual].jaExecutou
      modifies this
      ensures Passo(atual) && atual < |processos| && processos[atual].jaExecutou
      ensures processos == old(processos)[atual := old(processos[atual]).(tempoRestante := 0)]
      ensures tempoAtual == old(tempoAtual) + old(processos[atual].tempoRestante)
      ensures Soma(processos, Restante) == old(Soma(processos, Restante)) - old(processos[atual].tempoRestante)
      ensures processosOriginais == old(processosOriginais) && quantum == old(quantum)
    {
      while !processos[atual].Terminou()
        invariant Passo(atual) && atual < |processos| && processos[atual].jaExecutou
        invariant processos == old(processos)[atual := old(processos[atual]).(tempoRestante := processos[atual].tempoRestante)]
        invariant tempoAtual - old(tempoAtual) == old(processos[atual].tempoRestante) - processos[atual].tempoRestante
        invariant Soma(processos, Restante) - processos[atual].tempoRestante
                  == old(Soma(processos, Restante)) - old(processos[atual].tempoRestante)
        invariant processosOriginais == old(processosOriginais) && quantum == old(quantum)
        decreases processos[atual].tempoRestante
      {
        var _ := ExecutarUnidade(atual);
      }
    }

    /** A round of SJF or Priority once `atual` is picked: dispatch, run to completion, stamp. */
    method ExecutarAteOFim(atual: nat)
      requires Passo(-1) && Disponivel(atual)
      modifies this
      ensures Passo(-1) && UltimoCarimbo()
      ensures processos == old(processos)[atual := ExecutadoAteOFim(old(processos[atual]), old(tempoAtual))]
      ensures tempoAtual == old(tempoAtual) + old(processos[atual].tempoRestante)
      ensures atual < |processos| && processos[atual].Terminou()
      ensures Soma(processos, Restante) < old(Soma(processos, Restante))
      ensures processosOriginais == old(processosOriginais) && quantum == old(quantum)
    {
      ghost var p0 := processos;
      DespacharEExecutarAteTerminar(atual);
      ghost var p1 := processos;
      Carimbar(atual);
      SubstituiDuasVezes(p0, atual, p1[atual], processos[atual]);
    }

    /** The dispatch and the run of a non-preemptive round, before the finish stamp. */
    method DespacharEExecutarAteTerminar(atual: nat)
      requires Passo(-1) && Disponivel(atual)
      modifies this
      ensures Passo(atual) && atual < |processos| && processos[atual].jaExecutou && processos[atual].Terminou()
      ensures processos == old(processos)[atual := old(processos[atual]).MarcarInicio(old(tempoAtual)).(tempoRestante := 0)]
      ensures tempoAtual == old(tempoAtual) + old(processos[atual].tempoRestante)
      ensures processos[atual].Carimbar(tempoAtual) == ExecutadoAteOFim(old(processos[atual]), old(tempoAtual))
      ensures Soma(processos, Restante) < old(Soma(processos, Restante))
      ensures processosOriginais == old(processosOriginais) && quantum == old(quantum)
    {
      assert processos[atual].EmCurso(tempoAtual);
      ghost var p0 := processos;
      Despachar(atual);
      ghost var p1 := processos;
      ExecutarAteTerminar(atual);
      SubstituiDuasVezes(p0, atual, p1[atual], processos[atual]);
    }

    /** A round of SRTF or Priority Preemptivo once `atual` is picked: dispatch, one tick, stamp if finished. */
    method ExecutarUmaUnidade(atual: nat)
      requires Passo(-1) && Disponivel(atual)
      modifies this
      ensures Passo(-1) && UltimoCarimbo()
      ensures processos == old(processos)[atual := ExecutadoUmaUnidade(old(processos[atual]), old(tempoAtual))]
      ensures tempoAtual == old(tempoAtual) + 1
      ensures Soma(processos, Restante) == old(Soma(processos, Restante)) - 1
      ensures processosOriginais == old(processosOriginais) && quantum == old(quantum)
    {
      ghost var p0 := processos;
      var terminou := DespacharEExecutar(atual);
      if terminou {
        ghost var p1 := processos;
        Carimbar(atual);
        SubstituiDuasVezes(p0, atual, p1[atual], processos[atual]);
      } else {
        PassoSemExcecao(processos, tempoAtual, atual);
      }
    }

    /** The dispatch and the single unit of a preemptive round, before any finish stamp. */
    method DespacharEExecutar(atual: nat) returns (terminou: bool)
      requires Passo(-1) && Disponivel(atual)
      modifies this
      ensures Passo(atual) && atual < |processos| && processos[atual].jaExecutou
      ensures processos == old(processos)[atual := old(processos[atual]).MarcarInicio(old(tempoAtual)).Executar().0]
      ensures terminou == processos[atual].Terminou() == old(processos[atual]).MarcarInicio(old(tempoAtual)).Executar().1
      ensures tempoAtual == old(tempoAtual) + 1
      ensures Soma(processos, Restante) == old(Soma(processos, Restante)) - 1
      ensures processosOriginais == old(processosOriginais) && quantum == old(quantum)
    {
      assert processos[atual].EmCurso(tempoAtual);
      ghost var p0 := processos;
      Despachar(atual);
      ghost var p1 := processos;
      terminou := ExecutarUnidade(atual);
      SubstituiDuasVezes(p0, atual, p1[atual], processos[atual]);
    }

    /** The work left or, with no work done, the clock-distance to the last arrival went down. */
    ghost predicate Avancou(somaAntes: int, horizonteAntes: int, h: int)
      reads this
    {
      var soma := Soma(processos, Restante);
      0 <= soma && (soma < somaAntes || (soma == somaAntes && Horizonte(h, tempoAtual) < horizonteAntes))
    }

    /** One round of SJF or Priority: the pick runs to completion, or the CPU idles for a tick. */
    method RodadaNaoPreemptivo(c: Criterio, ghost h: int) returns (todos: bool)
      requires Passo(-1) && !TodosTerminaram(processos)
      requires forall j :: 0 <= j < |processosOriginais| ==> processosOriginais[j].tempoChegada <= h
      modifies this
      ensures Passo(-1) && UltimoCarimbo() && (todos <==> TodosTerminaram(processos))
      ensures Estado(processos, tempoAtual, []) == RodadaSemPreempcao(c, old(Estado(processos, tempoAtual, [])))
      ensures processosOriginais == old(processosOriginais) && quantum == old(quantum)
      ensures Avancou(old(Soma(processos, Restante)), old(Horizonte(h, tempoAtual)), h)
    {
      var escolhido := Selecionar(c);
      if escolhido.Some? {
        ExecutarAteOFim(escolhido.value);
      } else {
        ObterHorizonte(h);
        Ocioso();
      }
      RestanteNaoNegativo(processos, tempoAtual, -1);
      todos := TodosProcessosTerminaram();
    }

    /** One round of SRTF or Priority Preemptivo: the pick runs one tick, or the CPU idles for a tick. */
    method RodadaPreemptivo(c: Criterio, ghost h: int) returns (todos: bool)
      requires Passo(-1) && !TodosTerminaram(processos)
      requires forall j :: 0 <= j < |processosOriginais| ==> processosOriginais[j].tempoChegada <= h
      modifies this
      ensures Passo(-1) && UltimoCarimbo() && (todos <==> TodosTerminaram(processos))
      ensures Estado(processos, tempoAtual, []) == RodadaComPreempcao(c, old(Estado(processos, tempoAtual, [])))
      ensures processosOriginais == old(processosOriginais) && quantum == old(quantum)
      ensures Avancou(old(Soma(processos, Restante)), old(Horizonte(h, tempoAtual)), h)
    {
      var escolhido := Selecionar(c);
      if escolhido.Some? {
        ExecutarUmaUnidade(escolhido.value);
      } else {
        ObterHorizonte(h);
        Ocioso();
      }
      RestanteNaoNegativo(processos, tempoAtual, -1);
      todos := TodosProcessosTerminaram();
    }

    /** `return calcularEstatisticas();` once the loop has ended: the run is complete. */
    method Finalizar() returns (stats: Estatisticas)
      requires Passo(-1) && UltimoCarimbo() && TodosTerminaram(processos)
      ensures Concluida() && stats == EstatisticasDe(processos)
    {
      ConcluiSimulacao(processos, tempoAtual);
      stats := CalcularEstatisticas();
    }

    /** `RodadaNaoPreemptivo` as the next round of the run `Percurso` describes. */
    method AvancarNaoPreemptivo(c: Criterio, ghost h: int, ghost k: nat) returns (todos: bool)
      requires Passo(-1) && !TodosTerminaram(processos)
      requires forall j :: 0 <= j < |processosOriginais| ==> processosOriginais[j].tempoChegada <= h
      requires Percurso(Rodada(SemPreempcao(c)), Inicial(processosOriginais), k) == (Estado(processos, tempoAtual, []), true)
      modifies this
      ensures Passo(-1) && UltimoCarimbo() && (todos <==> TodosTerminaram(processos))
      ensures Percurso(Rodada(SemPreempcao(c)), Inicial(processosOriginais), k + 1) == (Estado(processos, tempoAtual, []), true)
      ensures processosOriginais == old(processosOriginais) && quantum == old(quantum)
      ensures Avancou(old(Soma(processos, Restante)), old(Horizonte(h, tempoAtual)), h)
    {
      PercursoSeguinte(Rodada(SemPreempcao(c)), Inicial(processosOriginais), k, Estado(processos, tempoAtual, []));
      todos := RodadaNaoPreemptivo(c, h);
    }

    /**
     * SJF (criterion `MenorCPU`) and Priority (criterion `MaiorPrioridade`):
     * each round picks by `Selecionar` and runs the pick to completion; a round
     * with nothing available is one idle tick.
     */
    method SimularNaoPreemptivo(c: Criterio) returns (stats: Estatisticas)
      requires Valid()
      requires forall j :: 0 <= j < |processosOriginais| ==> processosOriginais[j].tempoCPU >= 0
      modifies this
      ensures Concluida() && stats == EstatisticasDe(processos)
      ensures exists k :: Execucao(SemPreempcao(c), processosOriginais, k, processos, tempoAtual)
      ensures processosOriginais == old(processosOriginais) && quantum == old(quantum)
    {
      var todos := Iniciar();
      ghost var h := MaxChegada(processosOriginais);
      ghost var k: nat := 0;
      while !todos
        invariant Passo(-1) && UltimoCarimbo() && Soma(processos, Restante) >= 0
        invariant processosOriginais == old(processosOriginais) && quantum == old(quantum)
        invariant todos <==> TodosTerminaram(processos)
        invariant Percurso(Rodada(SemPreempcao(c)), Inicial(processosOriginais), k) == (Estado(processos, tempoAtual, []), true)
        decreases Soma(processos, Restante), Horizonte(h, tempoAtual)
      {
        todos := AvancarNaoPreemptivo(c, h, k);
        k := k + 1;
      }
      assert Execucao(SemPreempcao(c), processosOriginais, k, processos, tempoAtual);
      stats := Finalizar();
    }

    /** `RodadaPreemptivo` as the next round of the run `Percurso` describes. */
    method AvancarPreemptivo(c: Criterio, ghost h: int, ghost k: nat) returns (todos: bool)
      requires Passo(-1) && !TodosTerminaram(processos)
      requires forall j :: 0 <= j < |processosOriginais| ==> processosOriginais[j].tempoChegada <= h
      requires Percurso(Rodada(ComPreempcao(c)), Inicial(processosOriginais), k) == (Estado(processos, tempoAtual, []), true)
      modifies this
      ensures Passo(-1) && UltimoCarimbo() && (todos <==> TodosTerminaram(processos))
      ensures Percurso(Rodada(ComPreempcao(c)), Inicial(processosOriginais), k + 1) == (Estado(processos, tempoAtual, []), true)
      ensures processosOriginais == old(processosOriginais) && quantum == old(quantum)
      ensures Avancou(old(Soma(processos, Restante)), old(Horizonte(h, tempoAtual)), h)
    {
      PercursoSeguinte(Rodada(ComPreempcao(c)), Inicial(processosOriginais), k, Estado(processos, tempoAtual, []));
      todos := RodadaPreemptivo(c, h);
    }

    /**
     * SRTF (criterion `MenorRestante`) and Priority Preemptivo (criterion
     * `MaiorPrioridade`): each round picks by `Selecionar` and runs the pick
     * for one tick, stamping it if that finished it.
     */
    method SimularPreemptivo(c: Criterio) returns (stats: Estatisticas)
      requires Valid()
      requires forall j :: 0 <= j < |processosOriginais| ==> processosOriginais[j].tempoCPU >= 0
      modifies this
      ensures Concluida() && stats == EstatisticasDe(processos)
      ensures exists k :: Execucao(ComPreempcao(c), processosOriginais, k, processos, tempoAtual)
      ensures processosOriginais == old(processosOriginais) && quantum == old(quantum)
    {
      var todos := Iniciar();
      ghost var h := MaxChegada(processosOriginais);
      ghost var k: nat := 0;
      while !todos
        invariant Passo(-1) && UltimoCarimbo() && Soma(processos, Restante) >= 0
        invariant processosOriginais == old(processosOriginais) && quantum == old(quantum)
        invariant todos <==> TodosTerminaram(processos)
        invariant Percurso(Rodada(ComPreempcao(c)), Inicial(processosOriginais), k) == (Estado(processos, tempoAtual, []), true)
        decreases Soma(processos, Restante), Horizonte(h, tempoAtual)
      {
        todos := AvancarPreemptivo(c, h, k);
        k := k + 1;
      }
      assert Execucao(ComPreempcao(c), processosOriginais, k, processos, tempoAtual);
      stats := Finalizar();
    }

    method SimularSJF() returns (stats: Estatisticas)
      requires Valid()
      requires forall j :: 0 <= j < |processosOriginais| ==> processosOriginais[j].tempoCPU >= 0
      modifies this
      ensures Concluida() && stats == EstatisticasDe(processos)
      ensures exists k :: Execucao(SemPreempcao(MenorCPU), processosOriginais, k, processos, tempoAtual)
      ensures processosOriginais == old(processosOriginais) && quantum == old(quantum)
    {
      stats := SimularNaoPreemptivo(MenorCPU);
    }

    method SimularSRTF() returns (stats: Estatisticas)
      requires Valid()
      requires forall j :: 0 <= j < |processosOriginais| ==> processosOriginais[j].tempoCPU >= 0
      modifies this
      ensures Concluida() && stats == EstatisticasDe(processos)
      ensures exists k :: Execucao(ComPreempcao(MenorRestante), processosOriginais, k, processos, tempoAtual)
      ensures processosOriginais == old(processosOriginais) && quantum == old(quantum)
    {
      stats := SimularPreemptivo(MenorRestante);
    }

    method SimularPriority() returns (stats: Estatisticas)
      requires Valid()
      requires forall j :: 0 <= j < |processosOriginais| ==> processosOriginais[j].tempoCPU >= 0
      modifies this
      ensures Concluida() && stats == EstatisticasDe(processos)
      ensures exists k :: Execucao(SemPreempcao(MaiorPrioridade), processosOriginais, k, processos, tempoAtual)
      ensures processosOriginais == old(processosOriginais) && quantum == old(quantum)
    {
      stats := SimularNaoPreemptivo(MaiorPrioridade);
    }

    method SimularPriorityPreemptivo() returns (stats: Estatisticas)
      requires Valid()
      requires forall j :: 0 <= j < |processosOriginais| ==> processosOriginais[j].tempoCPU >= 0
      modifies this
      ensures Concluida() && stats == EstatisticasDe(processos)
      ensures exists k :: Execucao(ComPreempcao(MaiorPrioridade), processosOriginais, k, processos, tempoAtual)
      ensures processosOriginais == old(processosOriginais) && quantum == old(quantum)
    {
      stats := SimularPreemptivo(MaiorPrioridade);
    }

    // ----- the ready queue of FCFS and Round Robin -----

    ghost predicate FilaValida(fila: seq<nat>)
      reads this
    {
      FilaValidaEm(processos, tempoAtual, fila)
    }

    ghost predicate ChegadosEnfileirados(fila: seq<nat>, limite: int, excluido: int)
      reads this
    {
      ChegadosEm(processos, fila, limite, excluido)
    }

    /** `obterProcessosChegando` pushed onto the back of the ready queue. */
    method EnfileirarChegando(fila: seq<nat>, ghost excluido: int) returns (fila': seq<nat>)
      requires FilaValida(fila) && ChegadosEnfileirados(fila, tempoAtual, excluido)
      requires TodosEmCurso(processos, tempoAtual)
      ensures fila' == fila + Chegando(processos, tempoAtual)
      ensures FilaValida(fila') && ChegadosEnfileirados(fila', tempoAtual + 1, excluido)
      ensures |fila'| >= |fila| && fila'[..|fila|] == fila
      ensures ContaTerminados(processos, fila') == ContaTerminados(processos, fila)
    {
      var chegando := ObterProcessosChegando();
      ChegandoCaracteriza(processos, tempoAtual);
      ContaSemTerminados(processos, chegando);
      ContaConcat(processos, fila, chegando);
      ChegadosAposEnfileirar(processos, fila, chegando, tempoAtual, excluido);
      FilaAposEnfileirar(processos, tempoAtual, fila, chegando);
      fila' := fila + chegando;
      assert fila'[..|fila|] == fila;
    }

    /** The work left went down or, with the clock still, the finished entries of the queue did. */
    ghost predicate AvancouFila(somaAntes: int, horizonteAntes: int, contaAntes: int, h: int, fila: seq<nat>)
      reads this
    {
      var soma := Soma(processos, Restante);
      && 0 <= soma
      && FilaValida(fila)
      && (|| soma < somaAntes
          || (soma == somaAntes && Horizonte(h, tempoAtual) < horizonteAntes)
          || (soma == somaAntes && Horizonte(h, tempoAtual) == horizonteAntes
              && ContaTerminados(processos, fila) < contaAntes))
    }

    /** `atual->executar(); tempoAtual++;` and then the arrivals pushed onto the ready queue. */
    method ExecutarUnidadeEnfileirando(atual: nat, fila: seq<nat>, ghost excluido: int) returns (fila': seq<nat>)
      requires Passo(atual) && atual < |processos| && processos[atual].jaExecutou && !processos[atual].Terminou()
      requires FilaValida(fila) && ChegadosEnfileirados(fila, tempoAtual + 1, excluido)
      requires excluido == atual || atual in fila
      modifies this
      ensures Passo(atual) && atual < |processos| && processos[atual].jaExecutou
      ensures Estado(processos, tempoAtual, fila') == Tique(old(Estado(processos, tempoAtual, fila)), atual)
      ensures 0 <= processos[atual].tempoRestante == old(processos[atual].tempoRestante) - 1
      ensures tempoAtual == old(tempoAtual) + 1
      ensures Soma(processos, Restante) == old(Soma(processos, Restante)) - 1
      ensures FilaValida(fila') && ChegadosEnfileirados(fila', tempoAtual + 1, excluido)
      ensures |fila'| >= |fila| && fila'[..|fila|] == fila
      ensures processosOriginais == old(processosOriginais) && quantum == old(quantum)
    {
      ghost var antes := processos;
      var _ := ExecutarUnidade(atual);
      FilaTransfere(antes, processos, tempoAtual - 1, tempoAtual, fila);
      ChegadosAposExecucao(antes, atual, antes[atual].Executar().0, fila, tempoAtual, excluido);
      fila' := EnfileirarChegando(fila, excluido);
    }

    /** The inner loop of FCFS: the front runs until it finishes, taking in arrivals after every tick. */
    method ExecutarFrenteFCFS(atual: nat, fila: seq<nat>) returns (fila': seq<nat>)
      requires Passo(atual) && atual < |processos| && processos[atual].jaExecutou
      requires FilaValida(fila) && |fila| > 0 && fila[0] == atual && ChegadosEnfileirados(fila, tempoAtual + 1, -1)
      modifies this
      ensures Passo(atual) && atual < |processos| && processos[atual].jaExecutou && processos[atual].Terminou()
      ensures FilaValida(fila') && |fila'| > 0 && fila'[0] == atual && ChegadosEnfileirados(fila', tempoAtual + 1, -1)
      ensures Estado(processos, tempoAtual, fila') == CorridaAteTerminar(old(Estado(processos, tempoAtual, fila)), atual)
      ensures tempoAtual == old(tempoAtual) + old(processos[atual].tempoRestante)
      ensures Soma(processos, Restante) == old(Soma(processos, Restante)) - old(processos[atual].tempoRestante)
      ensures old(processos[atual].tempoRestante) == 0 ==> processos == old(processos) && fila' == fila
      ensures processosOriginais == old(processosOriginais) && quantum == old(quantum)
    {
      fila' := fila;
      ghost var corrida := CorridaAteTerminar(Estado(processos, tempoAtual, fila), atual);
      while !processos[atual].Terminou()
        invariant Passo(atual) && atual < |processos| && processos[atual].jaExecutou
        invariant FilaValida(fila') && |fila'| > 0 && fila'[0] == atual
        invariant ChegadosEnfileirados(fila', tempoAtual + 1, -1)
        invariant CorridaAteTerminar(Estado(processos, tempoAtual, fila'), atual) == corrida
        invariant tempoAtual - old(tempoAtual) == old(processos[atual].tempoRestante) - processos[atual].tempoRestante
        invariant Soma(processos, Restante) - processos[atual].tempoRestante
                  == old(Soma(processos, Restante)) - old(processos[atual].tempoRestante)
        invariant tempoAtual == old(tempoAtual) ==> processos == old(processos) && fila' == fila
        invariant processosOriginais == old(processosOriginais) && quantum == old(quantum)
        decreases processos[atual].tempoRestante
      {
        assert processos[atual].EmCurso(tempoAtual);
        CorridaPasso(Estado(processos, tempoAtual, fila'), atual);
        fila' := ExecutarUnidadeEnfileirando(atual, fila', -1);
      }
      CorridaFim(Estado(processos, tempoAtual, fila'), atual);
    }

    /**
     * FCFS with a non-empty ready queue: the front runs to completion, is
     * stamped and popped. A front that had already finished (queued twice)
     * is stamped again at the current clock.
     */
    method AtenderFrenteFCFS(fila: seq<nat>) returns (fila': seq<nat>)
      requires Passo(-1) && |fila| > 0 && FilaValida(fila) && ChegadosEnfileirados(fila, tempoAtual + 1, -1)
      modifies this
      ensures Passo(-1) && UltimoCarimbo()
      ensures Estado(processos, tempoAtual, fila') == AtendimentoPorChegada(old(Estado(processos, tempoAtual, fila)))
      ensures FilaValida(fila') && ChegadosEnfileirados(fila', tempoAtual, -1)
      ensures processosOriginais == old(processosOriginais) && quantum == old(quantum)
      ensures tempoAtual >= old(tempoAtual)
      ensures || Soma(processos, Restante) < old(Soma(processos, Restante))
              || (&& Soma(processos, Restante) == old(Soma(processos, Restante)) && tempoAtual == old(tempoAtual)
                  && ContaTerminados(processos, fila') < old(ContaTerminados(processos, fila)))
    {
      var atual := fila[0];
      ghost var p0 := processos;
      ghost var e0 := Estado(processos, tempoAtual, fila);
      assert processos[atual].EmCurso(tempoAtual);
      Despachar(atual);
      FilaTransfere(p0, processos, tempoAtual, tempoAtual, fila);
      ChegadosTransfere(p0, processos, fila, tempoAtual + 1, -1);
      fila' := ExecutarFrenteFCFS(atual, fila);
      AtendimentoPorChegadaApos(e0, Estado(processos, tempoAtual, fila'));
      if tempoAtual == old(tempoAtual) {
        ContaMesmosTerminos(p0, processos, fila);
      }
      fila' := RetirarFrente(fila');
    }

    /** The end of an FCFS service: the front, finished, is stamped at the current clock and popped. */
    method RetirarFrente(fila: seq<nat>) returns (fila': seq<nat>)
      requires |fila| > 0 && FilaValida(fila) && ChegadosEnfileirados(fila, tempoAtual + 1, -1)
      requires Passo(fila[0]) && processos[fila[0]].jaExecutou && processos[fila[0]].Terminou()
      modifies this
      ensures Passo(-1) && UltimoCarimbo()
      ensures processos == old(processos)[fila[0] := old(processos[fila[0]]).Carimbar(old(tempoAtual))]
      ensures tempoAtual == old(tempoAtual) && fila' == fila[1..]
      ensures FilaValida(fila') && ChegadosEnfileirados(fila', tempoAtual, -1)
      ensures MesmosTerminos(old(processos), processos)
      ensures Soma(processos, Restante) == old(Soma(processos, Restante))
      ensures ContaTerminados(processos, fila') + 1 == old(ContaTerminados(processos, fila))
      ensures processosOriginais == old(processosOriginais) && quantum == old(quantum)
    {
      var atual := fila[0];
      ghost var antes := processos;
      Carimbar(atual);
      FilaTransfere(antes, processos, tempoAtual, tempoAtual, fila);
      ChegadosTransfere(antes, processos, fila, tempoAtual + 1, -1);
      ChegadosAposRetirar(processos, fila, tempoAtual + 1, tempoAtual);
      ContaMesmosTerminos(antes, processos, fila);
      fila' := fila[1..];
      assert ContaTerminados(processos, fila) == 1 + ContaTerminados(processos, fila');
    }

    /** One round of FCFS: take in arrivals, then serve the front or idle for a tick. */
    method RodadaFCFS(fila: seq<nat>, ghost h: int) returns (fila': seq<nat>, todos: bool)
      requires Passo(-1) && !TodosTerminaram(processos)
      requires FilaValida(fila) && ChegadosEnfileirados(fila, tempoAtual, -1)
      requires forall j :: 0 <= j < |processosOriginais| ==> processosOriginais[j].tempoChegada <= h
      modifies this
      ensures Passo(-1) && UltimoCarimbo() && (todos <==> TodosTerminaram(processos))
      ensures FilaValida(fila') && ChegadosEnfileirados(fila', tempoAtual, -1)
      ensures Estado(processos, tempoAtual, fila') == RodadaPorChegada(old(Estado(processos, tempoAtual, fila)))
      ensures processosOriginais == old(processosOriginais) && quantum == old(quantum)
      ensures AvancouFila(old(Soma(processos, Restante)), old(Horizonte(h, tempoAtual)),
                          old(ContaTerminados(processos, fila)), h, fila')
    {
      fila' := EnfileirarChegando(fila, -1);
      if |fila'| > 0 {
        fila' := AtenderFrenteFCFS(fila');
      } else {
        ObterHorizonte(h);
        Ocioso();
      }
      RestanteNaoNegativo(processos, tempoAtual, -1);
      todos := TodosProcessosTerminaram();
    }

    /** `FCFS::executarSimulacao`. */
    method SimularFCFS() returns (stats: Estatisticas)
      requires Valid()
      requires forall j :: 0 <= j < |processosOriginais| ==>
                 processosOriginais[j].tempoCPU >= 0 && processosOriginais[j].tempoChegada >= 0
      modifies this
      ensures Concluida() && stats == EstatisticasDe(processos)
      ensures exists k :: Execucao(PorChegada, processosOriginais, k, processos, tempoAtual)
      ensures processosOriginais == old(processosOriginais) && quantum == old(quantum)
    {
      var todos := Iniciar();
      ghost var h := MaxChegada(processosOriginais);
      var filaReady: seq<nat> := [];
      ghost var k: nat := 0;
      while !todos
        invariant Passo(-1) && UltimoCarimbo() && Soma(processos, Restante) >= 0
        invariant processosOriginais == old(processosOriginais) && quantum == old(quantum)
        invariant todos <==> TodosTerminaram(processos)
        invariant FilaValida(filaReady) && ChegadosEnfileirados(filaReady, tempoAtual, -1)
        invariant Percurso(Rodada(PorChegada), Inicial(processosOriginais), k) == (Estado(processos, tempoAtual, filaReady), true)
        decreases Soma(processos, Restante), Horizonte(h, tempoAtual), ContaTerminados(processos, filaReady)
      {
        filaReady, todos := RodadaFCFS(filaReady, h);
        k := k + 1;
      }
      assert Execucao(PorChegada, processosOriginais, k, processos, tempoAtual);
      stats := Finalizar();
    }

    /** The inner loop of Round Robin: at most `quantum` ticks, taking in arrivals after every tick. */
    method ExecutarQuantum(atual: nat, fila: seq<nat>) returns (fila': seq<nat>, quantumAtual: int)
      requires Passo(atual) && atual < |processos| && processos[atual].jaExecutou
      requires FilaValida(fila) && ChegadosEnfileirados(fila, tempoAtual + 1, atual)
      modifies this
      ensures Passo(atual) && atual < |processos| && processos[atual].jaExecutou
      ensures FilaValida(fila') && ChegadosEnfileirados(fila', tempoAtual + 1, atual)
      ensures var n, r := if quantum > 0 then quantum else 0, old(processos[atual].tempoRestante);
              quantumAtual == if n <= r then n else r
      ensures 0 <= quantumAtual && (quantumAtual == (if quantum > 0 then quantum else 0) || processos[atual].Terminou())
      ensures Estado(processos, tempoAtual, fila') == Tiques(old(Estado(processos, tempoAtual, fila)), atual, quantumAtual)
      ensures tempoAtual == old(tempoAtual) + quantumAtual
      ensures Soma(processos, Restante) == old(Soma(processos, Restante)) - quantumAtual
      ensures quantumAtual == 0 ==> processos == old(processos) && fila' == fila
      ensures processosOriginais == old(processosOriginais) && quantum == old(quantum)
    {
      fila' := fila;
      quantumAtual := 0;
      ghost var n := if quantum > 0 then quantum else 0;
      ghost var e0 := Estado(processos, tempoAtual, fila);
      ghost var r0, s0, q0, o0 := processos[atual].tempoRestante, Soma(processos, Restante), quantum, processosOriginais;
      assert processos[atual].EmCurso(tempoAtual);
      while quantumAtual < quantum && !processos[atual].Terminou()
        invariant Passo(atual) && atual < |processos| && processos[atual].jaExecutou
        invariant FilaValida(fila') && ChegadosEnfileirados(fila', tempoAtual + 1, atual)
        invariant 0 <= quantumAtual <= n
        invariant Tiques(e0, atual, quantumAtual) == Estado(processos, tempoAtual, fila')
        invariant tempoAtual == e0.t + quantumAtual
        invariant 0 <= processos[atual].tempoRestante == r0 - quantumAtual
        invariant Soma(processos, Restante) == s0 - quantumAtual
        invariant quantumAtual == 0 ==> processos == e0.ps && fila' == fila
        invariant processosOriginais == o0 && quantum == q0
        decreases processos[atual].tempoRestante
      {
        fila' := UnidadeDaFatia(atual, fila', e0, quantumAtual);
        quantumAtual := quantumAtual + 1;
      }
    }

    /** One unit of a Round Robin slice, as the next of the `Tiques` the slice is made of. */
    method UnidadeDaFatia(atual: nat, fila: seq<nat>, ghost e0: Estado, ghost k: nat) returns (fila': seq<nat>)
      requires Passo(atual) && atual < |processos| && processos[atual].jaExecutou && !processos[atual].Terminou()
      requires FilaValida(fila) && ChegadosEnfileirados(fila, tempoAtual + 1, atual)
      requires atual < |e0.ps| && Tiques(e0, atual, k) == Estado(processos, tempoAtual, fila)
      modifies this
      ensures Passo(atual) && atual < |processos| && processos[atual].jaExecutou
      ensures Tiques(e0, atual, k + 1) == Estado(processos, tempoAtual, fila')
      ensures 0 <= processos[atual].tempoRestante == old(processos[atual].tempoRestante) - 1
      ensures tempoAtual == old(tempoAtual) + 1
      ensures Soma(processos, Restante) == old(Soma(processos, Restante)) - 1
      ensures FilaValida(fila') && ChegadosEnfileirados(fila', tempoAtual + 1, atual)
      ensures processosOriginais == old(processosOriginais) && quantum == old(quantum)
    {
      fila' := ExecutarUnidadeEnfileirando(atual, fila, atual);
    }

    /**
     * Round Robin with a non-empty ready queue: the front is popped and runs
     * for at most `quantum` ticks; it is then stamped if finished (again, if
     * it had finished before) or pushed back.
     */
    method AtenderFrenteRR(fila: seq<nat>) returns (fila': seq<nat>)
      requires Passo(-1) && quantum >= 1
      requires |fila| > 0 && FilaValida(fila) && ChegadosEnfileirados(fila, tempoAtual + 1, -1)
      modifies this
      ensures Passo(-1) && UltimoCarimbo()
      ensures Estado(processos, tempoAtual, fila') == AtendimentoCircular(quantum, old(Estado(processos, tempoAtual, fila)))
      ensures FilaValida(fila') && ChegadosEnfileirados(fila', tempoAtual, -1)
      ensures processosOriginais == old(processosOriginais) && quantum == old(quantum)
      ensures tempoAtual >= old(tempoAtual)
      ensures || Soma(processos, Restante) < old(Soma(processos, Restante))
              || (&& Soma(processos, Restante) == old(Soma(processos, Restante)) && tempoAtual == old(tempoAtual)
                  && ContaTerminados(processos, fila') < old(ContaTerminados(processos, fila)))
    {
      var atual := fila[0];
      var resto := fila[1..];
      ChegadosExcluindoFrente(processos, fila, tempoAtual + 1);
      ghost var p0 := processos;
      ghost var e0 := Estado(processos, tempoAtual, fila);
      Despachar(atual);
      FilaTransfere(p0, processos, tempoAtual, tempoAtual, resto);
      ChegadosTransfere(p0, processos, resto, tempoAtual + 1, atual);
      ghost var p1 := processos;
      ghost var e1 := Estado(processos, tempoAtual, resto);
      var quantumAtual;
      fila', quantumAtual := ExecutarQuantum(atual, resto);
      FatiaEmTiques(e1, atual, if quantum > 0 then quantum else 0, quantumAtual);
      AtendimentoCircularApos(quantum, e0, Estado(processos, tempoAtual, fila'));
      ghost var p2 := processos;
      assert processos[atual].MesmaIdentidade(processosOriginais[atual]) && p0[atual].MesmaIdentidade(processosOriginais[atual]);
      fila' := EncerrarFatia(atual, fila');
      if quantumAtual == 0 {
        TerminosTransitivos(p0, p2, processos);
        ContaMesmosTerminos(p0, processos, fila);
      }
    }

    /** The end of a Round Robin slice: a finished front is stamped, an unfinished one goes to the back of the queue. */
    method EncerrarFatia(atual: nat, fila: seq<nat>) returns (fila': seq<nat>)
      requires Passo(atual) && atual < |processos| && processos[atual].jaExecutou
      requires processos[atual].tempoChegada <= tempoAtual && processos[atual].tempoCPU > 0
      requires FilaValida(fila) && ChegadosEnfileirados(fila, tempoAtual + 1, atual)
      modifies this
      ensures Passo(-1) && UltimoCarimbo()
      ensures old(processos[atual].Terminou()) ==>
                processos == old(processos)[atual := old(processos[atual]).Carimbar(old(tempoAtual))] && fila' == fila
      ensures !old(processos[atual].Terminou()) ==> processos == old(processos) && fila' == fila + [atual]
      ensures FilaValida(fila') && ChegadosEnfileirados(fila', tempoAtual, -1)
      ensures tempoAtual == old(tempoAtual) && MesmosTerminos(old(processos), processos)
      ensures Soma(processos, Restante) == old(Soma(processos, Restante))
      ensures processosOriginais == old(processosOriginais) && quantum == old(quantum)
    {
      fila' := fila;
      if processos[atual].Terminou() {
        ghost var antes := processos;
        Carimbar(atual);
        FilaTransfere(antes, processos, tempoAtual, tempoAtual, fila');
        ChegadosTransfere(antes, processos, fila', tempoAtual + 1, atual);
        ChegadosIncluindo(processos, fila', tempoAtual + 1, tempoAtual, atual);
      } else {
        assert processos[atual].EmCurso(tempoAtual);
        PassoSemExcecao(processos, tempoAtual, atual);
        ChegadosAposAnexar(processos, fila', tempoAtual + 1, tempoAtual, atual);
        fila' := fila' + [atual];
      }
    }

    /** One round of Round Robin: take in arrivals, then serve the front or idle for a tick. */
    method RodadaRoundRobin(fila: seq<nat>, ghost h: int) returns (fila': seq<nat>, todos: bool)
      requires Passo(-1) && !TodosTerminaram(processos) && quantum >= 1
      requires FilaValida(fila) && ChegadosEnfileirados(fila, tempoAtual, -1)
      requires forall j :: 0 <= j < |processosOriginais| ==> processosOriginais[j].tempoChegada <= h
      modifies this
      ensures Passo(-1) && UltimoCarimbo() && (todos <==> TodosTerminaram(processos))
      ensures FilaValida(fila') && ChegadosEnfileirados(fila', tempoAtual, -1)
      ensures Estado(processos, tempoAtual, fila') == RodadaCircular(quantum, old(Estado(processos, tempoAtual, fila)))
      ensures processosOriginais == old(processosOriginais) && quantum == old(quantum)
      ensures AvancouFila(old(Soma(processos, Restante)), old(Horizonte(h, tempoAtual)),
                          old(ContaTerminados(processos, fila)), h, fila')
    {
      fila' := EnfileirarChegando(fila, -1);
      if |fila'| > 0 {
        fila' := AtenderFrenteRR(fila');
      } else {
        ObterHorizonte(h);
        Ocioso();
      }
      RestanteNaoNegativo(processos, tempoAtual, -1);
      todos := TodosProcessosTerminaram();
    }

    /** `RodadaRoundRobin` as the next round of the run `Percurso` describes. */
    method AvancarRoundRobin(fila: seq<nat>, ghost h: int, ghost k: nat) returns (fila': seq<nat>, todos: bool)
      requires Passo(-1) && !TodosTerminaram(processos) && quantum >= 1
      requires FilaValida(fila) && ChegadosEnfileirados(fila, tempoAtual, -1)
      requires forall j :: 0 <= j < |processosOriginais| ==> processosOriginais[j].tempoChegada <= h
      requires Percurso(Rodada(Circular(quantum)), Inicial(processosOriginais), k) == (Estado(processos, tempoAtual, fila), true)
      modifies this
      ensures Passo(-1) && UltimoCarimbo() && (todos <==> TodosTerminaram(processos))
      ensures FilaValida(fila') && ChegadosEnfileirados(fila', tempoAtual, -1)
      ensures Percurso(Rodada(Circular(quantum)), Inicial(processosOriginais), k + 1) == (Estado(processos, tempoAtual, fila'), true)
      ensures processosOriginais == old(processosOriginais) && quantum == old(quantum)
      ensures AvancouFila(old(Soma(processos, Restante)), old(Horizonte(h, tempoAtual)),
                          old(ContaTerminados(processos, fila)), h, fila')
    {
      PercursoSeguinte(Rodada(Circular(quantum)), Inicial(processosOriginais), k, Estado(processos, tempoAtual, fila));
      fila', todos := RodadaRoundRobin(fila, h);
    }

    /** `RoundRobin::executarSimulacao`. */
    method SimularRoundRobin() returns (stats: Estatisticas)
      requires Valid() && quantum >= 1
      requires forall j :: 0 <= j < |processosOriginais| ==>
                 processosOriginais[j].tempoCPU >= 0 && processosOriginais[j].tempoChegada >= 0
      modifies this
      ensures Concluida() && stats == EstatisticasDe(processos)
      ensures exists k :: Execucao(Circular(quantum), processosOriginais, k, processos, tempoAtual)
      ensures processosOriginais == old(processosOriginais) && quantum == old(quantum)
    {
      var todos := Iniciar();
      ghost var h := MaxChegada(processosOriginais);
      var filaReady: seq<nat> := [];
      ghost var k: nat := 0;
      ghost var pol := Circular(quantum);
      while !todos
        invariant Passo(-1) && UltimoCarimbo() && Soma(processos, Restante) >= 0
        invariant processosOriginais == old(processosOriginais) && quantum == old(quantum)
        invariant todos <==> TodosTerminaram(processos)
        invariant FilaValida(filaReady) && ChegadosEnfileirados(filaReady, tempoAtual, -1)
        invariant Percurso(Rodada(pol), Inicial(processosOriginais), k) == (Estado(processos, tempoAtual, filaReady), true)
        decreases Soma(processos, Restante), Horizonte(h, tempoAtual), ContaTerminados(processos, filaReady)
      {
        filaReady, todos := AvancarRoundRobin(filaReady, h, k);
        k := k + 1;
      }
      assert Execucao(pol, processosOriginais, k, processos, tempoAtual);
      stats := Finalizar();
    }

    /** The virtual `executarSimulacao`, dispatched on the subclass. */
    method ExecutarSimulacao() returns (stats: Estatisticas)
      requires Valid() && PodeSimular()
      modifies this
      ensures Concluida() && stats == EstatisticasDe(processos)
      ensures exists k :: Execucao(PoliticaDe(algoritmo, quantum), processosOriginais, k, processos, tempoAtual)
      ensures processosOriginais == old(processosOriginais) && quantum == old(quantum)
    {
      match algoritmo
      case AlgFCFS =>
        stats := SimularFCFS();
        assert PoliticaDe(algoritmo, quantum) == PorChegada;
      case AlgSJF =>
        stats := SimularSJF();
        assert PoliticaDe(algoritmo, quantum) == SemPreempcao(MenorCPU);
      case AlgSRTF =>
        stats := SimularSRTF();
        assert PoliticaDe(algoritmo, quantum) == ComPreempcao(MenorRestante);
      case AlgRoundRobin =>
        stats := SimularRoundRobin();
        assert PoliticaDe(algoritmo, quantum) == Circular(quantum);
      case AlgPriority =>
        stats := SimularPriority();
        assert PoliticaDe(algoritmo, quantum) == SemPreempcao(MaiorPrioridade);
      case AlgPriorityPreemptivo =>
        stats := SimularPriorityPreemptivo();
        assert PoliticaDe(algoritmo, quantum) == ComPreempcao(MaiorPrioridade);
    }
  }
}
