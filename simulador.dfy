/**
 * The simulator front end (Simulador.h, Simulador.cpp): the list of
 * schedulers, the base list of processes, loading that list from a file and
 * handing it to every scheduler, and running a scheduler chosen by name.
 *
 * The `std::unique_ptr<Escalonador>` vector is a sequence of distinct
 * `Escalonador` objects. Opening the file is a parameter: `None` when it
 * cannot be opened, otherwise its lines as `std::getline` returns them.
 */
module Simuladores {
  import opened Wrappers
  import opened Processos
  import opened Simulacao
  import opened Metricas
  import opened Politicas
  import opened Escalonadores
  import opened Leitura

  /** The process list `criarExemploProcessos` installs. */
  function ExemploProcessos(): seq<Processo>
  {
    [ NovoProcesso(1, "P1", 0, 8, 2), NovoProcesso(2, "P2", 1, 4, 1), NovoProcesso(3, "P3", 2, 2, 3),
      NovoProcesso(4, "P4", 3, 6, 2), NovoProcesso(5, "P5", 4, 1, 1) ]
  }

  /** The example processes are fresh, arrive in order at 0..4, need CPU time, and are all distinct. */
  lemma ExemploValido()
    ensures var ps := ExemploProcessos();
      && |ps| == 5
      && (forall j :: 0 <= j < 5 ==> ps[j].EmEstadoInicial() && ps[j].pid == j + 1 && ps[j].tempoChegada == j)
      && (forall j :: 0 <= j < 5 ==> ps[j].tempoCPU > 0 && NomeLegivel(ps[j].nome))
  {
    var ps := ExemploProcessos();
    assert forall j :: 0 <= j < 5 ==> |ps[j].nome| == 2 && ps[j].nome[0] == 'P';
  }

  // ----- looking a scheduler up by name -----

  /** `t` occurs in `s` starting at position `k`. */
  predicate OcorreEm(s: string, t: string, k: int)
  {
    0 <= k <= |s| - |t| && s[k..k + |t|] == t
  }

  /** `s.find(t) != std::string::npos`: `t` occurs in `s` at some position. */
  predicate ContemTrecho(s: string, t: string)
    decreases |s|
  {
    (|t| <= |s| && s[..|t|] == t) || (s != [] && ContemTrecho(s[1..], t))
  }

  /** `ContemTrecho` agrees with the position-based reading of `find`. */
  lemma ContemTrechoPosicao(s: string, t: string)
    ensures ContemTrecho(s, t) <==> exists k :: OcorreEm(s, t, k)
  {
    if ContemTrecho(s, t) {
      var k := PosicaoDoTrecho(s, t);
    }
    if exists k :: OcorreEm(s, t, k) {
      var k :| OcorreEm(s, t, k);
      TrechoNaPosicao(s, t, k);
    }
  }

  /** A substring that `ContemTrecho` finds occurs at some position. */
  lemma {:induction false} PosicaoDoTrecho(s: string, t: string) returns (k: int)
    requires ContemTrecho(s, t)
    ensures OcorreEm(s, t, k)
    decreases |s|
  {
    if |t| <= |s| && s[..|t|] == t {
      k := 0;
    } else {
      var j := PosicaoDoTrecho(s[1..], t);
      assert s[j + 1..j + 1 + |t|] == s[1..][j..j + |t|];
      k := j + 1;
    }
  }

  /** A substring occurring at position `k` is found by `ContemTrecho`. */
  lemma {:induction false} TrechoNaPosicao(s: string, t: string, k: int)
    requires OcorreEm(s, t, k)
    ensures ContemTrecho(s, t)
    decreases k
  {
    if k > 0 {
      assert s[1..][k - 1..k - 1 + |t|] == s[k..k + |t|];
      TrechoNaPosicao(s[1..], t, k - 1);
    }
  }

  function NomesDe(escalonadores: seq<Escalonador>): (nomes: seq<string>)
    ensures |nomes| == |escalonadores|
    ensures forall i :: 0 <= i < |escalonadores| ==> nomes[i] == escalonadores[i].nomeAlgoritmo
  {
    seq(|escalonadores|, i requires 0 <= i < |escalonadores| => escalonadores[i].nomeAlgoritmo)
  }

  /** What `std::find_if` finds: the first name that contains `t`. */
  function PrimeiroQueContem(nomes: seq<string>, t: string): (r: Option<nat>)
    ensures r.None? <==> forall j :: 0 <= j < |nomes| ==> !ContemTrecho(nomes[j], t)
    ensures r.Some? ==> && r.value < |nomes| && ContemTrecho(nomes[r.value], t)
                        && forall j :: 0 <= j < r.value ==> !ContemTrecho(nomes[j], t)
  {
    if nomes == [] then None
    else if ContemTrecho(nomes[0], t) then Some(0)
    else
      match PrimeiroQueContem(nomes[1..], t)
      case None => None
      case Some(i) => Some(i + 1)
  }

  /** The names of the schedulers the constructor installs, in order. */
  const NOMES_PADRAO: seq<string> :=
    ["FCFS", "SJF", "SRTF", "Round Robin", "Round Robin", "Priority", "Priority Preemptivo"]

  /**
   * Both Round Robin schedulers have the same name, so a lookup by name
   * never reaches the second one, with quantum 4.
   */
  lemma RoundRobin4Inalcancavel(nome: string)
    ensures PrimeiroQueContem(NOMES_PADRAO, nome) != Some(4)
  {
    assert NOMES_PADRAO[3] == NOMES_PADRAO[4];
  }

  /** The empty name is found in every name, so it selects the first scheduler. */
  lemma NomeVazioEscolheFCFS()
    ensures PrimeiroQueContem(NOMES_PADRAO, "") == Some(0)
  {
    assert ContemTrecho(NOMES_PADRAO[0], "") by {
      assert NOMES_PADRAO[0][..0] == "";
    }
  }

  /** Distinct, fresh, consistent schedulers holding no process. */
  ghost predicate NovosEVazios(es: seq<Escalonador>)
    reads es
  {
    && (forall i, j :: 0 <= i < j < |es| ==> es[i] != es[j])
    && forall e :: e in es ==> e.Valid() && e.processosOriginais == [] && e.processos == []
  }

  /** The first four schedulers the simulator's constructor creates. */
  method EscalonadoresSemPrioridade() returns (es: seq<Escalonador>)
    ensures NovosEVazios(es) && forall e :: e in es ==> fresh(e)
    ensures NomesDe(es) == NOMES_PADRAO[..4]
    ensures |es| == 4 && es[0].algoritmo == AlgFCFS && es[1].algoritmo == AlgSJF && es[2].algoritmo == AlgSRTF
    ensures es[3].algoritmo == AlgRoundRobin && es[3].quantum == 2
  {
    var fcfs := new Escalonador.FCFS();
    var sjf := new Escalonador.SJF();
    var srtf := new Escalonador.SRTF();
    var rr2 := new Escalonador.RoundRobin(2);
    es := [fcfs, sjf, srtf, rr2];
  }

  /** The last three schedulers the simulator's constructor creates. */
  method EscalonadoresComPrioridade() returns (es: seq<Escalonador>)
    ensures NovosEVazios(es) && forall e :: e in es ==> fresh(e)
    ensures NomesDe(es) == NOMES_PADRAO[4..]
    ensures |es| == 3 && es[0].algoritmo == AlgRoundRobin && es[0].quantum == 4
    ensures es[1].algoritmo == AlgPriority && es[2].algoritmo == AlgPriorityPreemptivo
  {
    var rr4 := new Escalonador.RoundRobin(4);
    var priority := new Escalonador.Priority();
    var preemptivo := new Escalonador.PriorityPreemptivo();
    es := [rr4, priority, preemptivo];
  }

  class Simulador {
    var escalonadores: seq<Escalonador>
    var processosBase: seq<Processo>

    /** Every entry of the vector is its own scheduler, and every scheduler is consistent. */
    ghost predicate Valid()
      reads this, escalonadores
    {
      && (forall i, j :: 0 <= i < j < |escalonadores| ==> escalonadores[i] != escalonadores[j])
      && (forall i :: 0 <= i < |escalonadores| ==> escalonadores[i].Valid())
    }

    /** The constructor: seven fresh, empty schedulers, Round Robin with quanta 2 and 4. */
    constructor ()
      ensures Valid() && processosBase == []
      ensures NomesDe(escalonadores) == NOMES_PADRAO
      ensures |escalonadores| == 7
      ensures escalonadores[0].algoritmo == AlgFCFS && escalonadores[1].algoritmo == AlgSJF
      ensures escalonadores[2].algoritmo == AlgSRTF
      ensures escalonadores[3].algoritmo == AlgRoundRobin && escalonadores[3].quantum == 2
      ensures escalonadores[4].algoritmo == AlgRoundRobin && escalonadores[4].quantum == 4
      ensures escalonadores[5].algoritmo == AlgPriority && escalonadores[6].algoritmo == AlgPriorityPreemptivo
      ensures forall e :: e in escalonadores ==> fresh(e) && e.processosOriginais == [] && e.processos == []
    {
      var primeiros := EscalonadoresSemPrioridade();
      var ultimos := EscalonadoresComPrioridade();
      escalonadores := primeiros + ultimos;
      processosBase := [];
    }

    /**
     * `distribuirProcessos`: every scheduler is reset and then given every
     * base process. The reset keeps the scheduler's original list, so the
     * base processes are appended to whatever it held before.
     */
    method DistribuirProcessos()
      requires Valid()
      modifies escalonadores
      ensures Valid()
      ensures forall i :: 0 <= i < |escalonadores| ==>
                && escalonadores[i].processosOriginais == old(escalonadores[i].processosOriginais) + processosBase
                && escalonadores[i].processos == Reiniciados(old(escalonadores[i].processosOriginais)) + processosBase
                && escalonadores[i].tempoAtual == 0
                && escalonadores[i].quantum == old(escalonadores[i].quantum)
    {
      var i := 0;
      while i < |escalonadores|
        invariant 0 <= i <= |escalonadores| && Valid()
        invariant forall j :: 0 <= j < i ==>
                    && escalonadores[j].processosOriginais == old(escalonadores[j].processosOriginais) + processosBase
                    && escalonadores[j].processos == Reiniciados(old(escalonadores[j].processosOriginais)) + processosBase
                    && escalonadores[j].tempoAtual == 0
                    && escalonadores[j].quantum == old(escalonadores[j].quantum)
        invariant forall j :: i <= j < |escalonadores| ==>
                    && escalonadores[j].processosOriginais == old(escalonadores[j].processosOriginais)
                    && escalonadores[j].quantum == old(escalonadores[j].quantum)
      {
        var e := escalonadores[i];
        e.ReiniciarSimulacao();
        ghost var originais := e.processosOriginais;
        var k := 0;
        while k < |processosBase|
          invariant 0 <= k <= |processosBase| && e.Valid()
          invariant e.processosOriginais == originais + processosBase[..k]
          invariant e.processos == Reiniciados(originais) + processosBase[..k]
          invariant e.tempoAtual == 0 && e.quantum == old(e.quantum)
          modifies e
        {
          e.AdicionarProcesso(processosBase[k]);
          assert processosBase[..k + 1] == processosBase[..k] + [processosBase[k]];
          k := k + 1;
        }
        assert processosBase[..k] == processosBase;
        i := i + 1;
      }
    }

    /** `adicionarProcesso`: the process joins the base list, which is then redistributed. */
    method AdicionarProcesso(processo: Processo)
      requires Valid()
      modifies this, escalonadores
      ensures Valid() && escalonadores == old(escalonadores)
      ensures processosBase == old(processosBase) + [processo]
      ensures forall i :: 0 <= i < |escalonadores| ==>
                && escalonadores[i].processosOriginais == old(escalonadores[i].processosOriginais) + processosBase
                && escalonadores[i].processos == Reiniciados(old(escalonadores[i].processosOriginais)) + processosBase
                && escalonadores[i].tempoAtual == 0
                && escalonadores[i].quantum == old(escalonadores[i].quantum)
    {
      processosBase := processosBase + [processo];
      DistribuirProcessos();
    }

    /**
     * `adicionarEscalonador`: the scheduler joins the end of the vector and,
     * if there are base processes, all schedulers are redistributed.
     */
    method AdicionarEscalonador(escalonador: Escalonador)
      requires Valid() && escalonador.Valid() && escalonador !in escalonadores
      modifies this, escalonadores, escalonador
      ensures Valid() && escalonadores == old(escalonadores) + [escalonador]
      ensures processosBase == old(processosBase)
      ensures processosBase == [] ==> forall e :: e in escalonadores ==>
                e.processosOriginais == old(e.processosOriginais) && e.processos == old(e.processos)
      ensures processosBase != [] ==> forall e :: e in escalonadores ==>
                && e.processosOriginais == old(e.processosOriginais) + processosBase
                && e.processos == Reiniciados(old(e.processosOriginais)) + processosBase
    {
      escalonadores := escalonadores + [escalonador];
      if processosBase != [] {
        DistribuirProcessos();
      }
    }

    /** `criarExemploProcessos`: the base list becomes the example; the schedulers are not touched. */
    method CriarExemploProcessos()
      modifies this
      ensures processosBase == ExemploProcessos() && escalonadores == old(escalonadores)
    {
      processosBase := ExemploProcessos();
    }

    /**
     * `limparProcessos`: the base list is emptied and every scheduler reset.
     * A reset restores a scheduler's processes rather than removing them, so
     * the schedulers still hold the processes they were given.
     */
    method LimparProcessos()
      requires Valid()
      modifies this, escalonadores
      ensures Valid() && escalonadores == old(escalonadores) && processosBase == []
      ensures forall i :: 0 <= i < |escalonadores| ==>
                && escalonadores[i].processosOriginais == old(escalonadores[i].processosOriginais)
                && escalonadores[i].processos == Reiniciados(escalonadores[i].processosOriginais)
                && escalonadores[i].tempoAtual == 0
    {
      processosBase := [];
      var i := 0;
      while i < |escalonadores|
        invariant 0 <= i <= |escalonadores| && Valid() && processosBase == []
        invariant escalonadores == old(escalonadores)
        invariant forall j :: 0 <= j < |escalonadores| ==>
                    escalonadores[j].processosOriginais == old(escalonadores[j].processosOriginais)
        invariant forall j :: 0 <= j < i ==>
                    escalonadores[j].processos == Reiniciados(escalonadores[j].processosOriginais)
                    && escalonadores[j].tempoAtual == 0
      {
        escalonadores[i].ReiniciarSimulacao();
        i := i + 1;
      }
    }

    /**
     * The reading part of `carregarProcessosArquivo`: the base list is
     * cleared, the header test decides whether the first line is skipped,
     * and every later line that is accepted is appended in file order.
     */
    method LerLinhas(linhas: seq<string>)
      modifies this
      ensures escalonadores == old(escalonadores) && processosBase == ProcessosDoArquivo(linhas)
    {
      processosBase := [];
      var inicio := 0;
      if linhas != [] && ContemLetra(linhas[0]) {
        inicio := 1;
      }
      ghost var dados := linhas[inicio..];
      assert dados == LinhasDeDados(linhas);
      var j := 0;
      while inicio + j < |linhas|
        invariant 0 <= j <= |dados| && escalonadores == old(escalonadores)
        invariant processosBase == Aceitos(dados[..j])
      {
        var linha := linhas[inicio + j];
        assert dados[j] == linha;
        AceitosPrefixo(dados, j);
        match AnalisarLinha(linha) {
          case Aceita(p) => processosBase := processosBase + [p];
          case _ =>
        }
        j := j + 1;
      }
      assert dados[..j] == dados;
    }

    /**
     * `carregarProcessosArquivo`. `arquivo` is `None` when the file cannot be
     * opened: the result is false and nothing changes. Otherwise the base list
     * is rebuilt from the file's lines; when no line is accepted it becomes
     * the example list, which is not distributed, and otherwise it is
     * distributed to every scheduler.
     */
    method CarregarProcessosArquivo(arquivo: Option<seq<string>>) returns (ok: bool)
      requires Valid()
      modifies this, escalonadores
      ensures Valid() && escalonadores == old(escalonadores)
      ensures ok == arquivo.Some?
      ensures arquivo.None? ==> processosBase == old(processosBase)
      ensures arquivo.Some? && ProcessosDoArquivo(arquivo.value) == [] ==> processosBase == ExemploProcessos()
      ensures arquivo.Some? && ProcessosDoArquivo(arquivo.value) != [] ==> processosBase == ProcessosDoArquivo(arquivo.value)
      ensures arquivo.None? || ProcessosDoArquivo(arquivo.value) == [] ==>
                forall i :: 0 <= i < |escalonadores| ==>
                  escalonadores[i].processosOriginais == old(escalonadores[i].processosOriginais)
                  && escalonadores[i].processos == old(escalonadores[i].processos)
      ensures arquivo.Some? && ProcessosDoArquivo(arquivo.value) != [] ==>
                forall i :: 0 <= i < |escalonadores| ==>
                  && escalonadores[i].processosOriginais == old(escalonadores[i].processosOriginais) + processosBase
                  && escalonadores[i].processos == Reiniciados(old(escalonadores[i].processosOriginais)) + processosBase
    {
      if arquivo.None? {
        return false;
      }
      LerLinhas(arquivo.value);
      if processosBase == [] {
        CriarExemploProcessos();
      } else {
        DistribuirProcessos();
      }
      return true;
    }

    /**
     * The lookup and run of `executarAlgoritmo`: the first scheduler whose
     * name contains `nome` runs its simulation; with no match nothing runs.
     */
    method ExecutarAlgoritmo(nome: string) returns (r: Option<Estatisticas>)
      requires Valid()
      requires var k := PrimeiroQueContem(NomesDe(escalonadores), nome);
        k.Some? ==> escalonadores[k.value].PodeSimular()
      modifies escalonadores
      ensures Valid()
      ensures var k := PrimeiroQueContem(NomesDe(escalonadores), nome);
        && (r.None? <==> k.None?)
        && (k.Some? ==> var e := escalonadores[k.value];
                        && e.Concluida() && r.value == EstatisticasDe(e.processos)
                        && e.processosOriginais == old(e.processosOriginais) && e.quantum == old(e.quantum)
                        && exists n :: Execucao(PoliticaDe(e.algoritmo, e.quantum), e.processosOriginais, n, e.processos, e.tempoAtual))
        && forall j :: 0 <= j < |escalonadores| && k != Some(j) ==> unchanged(escalonadores[j])
    {
      ghost var nomes := NomesDe(escalonadores);
      var i := 0;
      while i < |escalonadores| && !ContemTrecho(escalonadores[i].nomeAlgoritmo, nome)
        invariant 0 <= i <= |escalonadores|
        invariant forall j :: 0 <= j < i ==> !ContemTrecho(nomes[j], nome)
      {
        i := i + 1;
      }
      if i == |escalonadores| {
        return None;
      }
      assert PrimeiroQueContem(nomes, nome) == Some(i);
      var stats := escalonadores[i].ExecutarSimulacao();
      return Some(stats);
    }
  }

  /**
   * A file whose first line is a data line naming its process with letters,
   * as the example's "P1" does, loses that process to the header test.
   */
  lemma PrimeiroProcessoDoExemploPerdidoSemCabecalho()
    ensures ProcessosDoArquivo(LinhasDe(ExemploProcessos())) == ExemploProcessos()[1..]
  {
    ExemploValido();
    var ps := ExemploProcessos();
    LinhasDeFrente(ps);
    assert ContemLetra(ps[0].nome) by {
      assert EhLetra(ps[0].nome[0]);
    }
    PrimeiraLinhaComNomeEDescartada(ps[0], LinhasDe(ps[1..]));
    AceitosDasLinhas(ps[1..]);
  }

  /** `LinhasDe` read from the front: the first process's line, then the others'. */
  lemma LinhasDeFrente(ps: seq<Processo>)
    requires ps != []
    ensures LinhasDe(ps) == [FormatarLinha(ps[0])] + LinhasDe(ps[1..])
  {
    MapearFrente(FormatarLinha, ps);
  }

}
