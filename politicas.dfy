/**
 * The scheduling policies of the simulator (m2-escalonadores, Escalonador.cpp)
 * as functions on values: what one round of each `executarSimulacao` loop does
 * to the process list, the clock and the ready queue, and what a whole run is.
 *
 * The `Escalonador` class carries out the same rounds step by step on its
 * fields; its methods are proved to end in exactly the state these functions
 * compute, so the properties proved here hold of the class.
 */
module Politicas {
  import opened Wrappers
  import opened Processos
  import opened Simulacao

  /** The subclass of `Escalonador`. */
  datatype Algoritmo = AlgFCFS | AlgSJF | AlgSRTF | AlgRoundRobin | AlgPriority | AlgPriorityPreemptivo

  /** The comparators handed to `std::min_element` by the selecting policies. */
  datatype Criterio = MenorCPU | MenorRestante | MaiorPrioridade

  /** `comp(a, b)`: `a` is strictly preferred to `b`. */
  predicate Precede(c: Criterio, a: Processo, b: Processo)
  {
    match c
    case MenorCPU => a.tempoCPU < b.tempoCPU
    case MenorRestante => a.tempoRestante < b.tempoRestante
    case MaiorPrioridade =>
      if a.prioridade == b.prioridade then a.tempoChegada < b.tempoChegada
      else a.prioridade < b.prioridade
  }

  /** Each comparator is a strict weak order, which `std::min_element` relies on. */
  lemma PrecedeOrdemFraca(c: Criterio, a: Processo, b: Processo, z: Processo)
    ensures !Precede(c, a, a)
    ensures Precede(c, a, b) && !Precede(c, z, b) ==> Precede(c, a, z)
    ensures Precede(c, a, b) && Precede(c, b, z) ==> Precede(c, a, z)
  {
  }

  // ----- the selection of SJF, SRTF, Priority and Priority Preemptivo -----

  /** A process the selecting policies may pick at clock `t`: arrived and unfinished. */
  predicate DisponivelEm(ps: seq<Processo>, t: int, j: int)
  {
    0 <= j < |ps| && ps[j].tempoChegada <= t && !ps[j].Terminou()
  }

  /**
   * What `std::min_element` over the available processes, in list order,
   * returns: an available process no available one is preferred to, strictly
   * preferred to every available one before it.
   */
  ghost predicate EscolhaEm(c: Criterio, ps: seq<Processo>, t: int, i: int)
  {
    && DisponivelEm(ps, t, i)
    && (forall j :: DisponivelEm(ps, t, j) ==> !Precede(c, ps[j], ps[i]))
    && (forall j :: DisponivelEm(ps, t, j) && j < i ==> Precede(c, ps[i], ps[j]))
  }

  /** At most one process is what `std::min_element` returns. */
  lemma EscolhaUnica(c: Criterio, ps: seq<Processo>, t: int, i: int, k: int)
    requires EscolhaEm(c, ps, t, i) && EscolhaEm(c, ps, t, k)
    ensures i == k
  {
  }

  /**
   * The scan of `std::min_element` over the first `n` positions: a later
   * available process replaces the best so far only when strictly preferred.
   */
  function MelhorEntre(c: Criterio, ps: seq<Processo>, t: int, n: nat): (r: Option<nat>)
    requires n <= |ps|
    ensures r.Some? ==> r.value < n
  {
    if n == 0 then None
    else
      var r0 := MelhorEntre(c, ps, t, n - 1);
      if !DisponivelEm(ps, t, n - 1) then r0
      else if r0.None? || Precede(c, ps[n - 1], ps[r0.value]) then Some(n - 1)
      else r0
  }

  /** The pick of a selecting policy at clock `t`, if any process is available. */
  function Selecao(c: Criterio, ps: seq<Processo>, t: int): (r: Option<nat>)
    ensures r.Some? ==> r.value < |ps|
  {
    MelhorEntre(c, ps, t, |ps|)
  }

  lemma {:induction false} MelhorEntreEscolha(c: Criterio, ps: seq<Processo>, t: int, n: nat)
    requires n <= |ps|
    ensures MelhorEntre(c, ps, t, n).None? <==> forall j :: 0 <= j < n ==> !DisponivelEm(ps, t, j)
    ensures MelhorEntre(c, ps, t, n).Some? ==>
              var i := MelhorEntre(c, ps, t, n).value;
              && DisponivelEm(ps, t, i)
              && (forall j :: 0 <= j < n && DisponivelEm(ps, t, j) ==> !Precede(c, ps[j], ps[i]))
              && (forall j :: 0 <= j < i && DisponivelEm(ps, t, j) ==> Precede(c, ps[i], ps[j]))
  {
    if n > 0 {
      MelhorEntreEscolha(c, ps, t, n - 1);
      var r0 := MelhorEntre(c, ps, t, n - 1);
      if DisponivelEm(ps, t, n - 1) && r0.Some? {
        var b := r0.value;
        if Precede(c, ps[n - 1], ps[b]) {
          forall j | 0 <= j < n - 1 && DisponivelEm(ps, t, j)
            ensures Precede(c, ps[n - 1], ps[j]) && !Precede(c, ps[j], ps[n - 1])
          {
            PrecedeOrdemFraca(c, ps[n - 1], ps[b], ps[j]);
            PrecedeOrdemFraca(c, ps[j], ps[n - 1], ps[j]);
          }
          PrecedeOrdemFraca(c, ps[n - 1], ps[n - 1], ps[n - 1]);
        }
      } else if DisponivelEm(ps, t, n - 1) {
        PrecedeOrdemFraca(c, ps[n - 1], ps[n - 1], ps[n - 1]);
      }
    }
  }

  /** `Selecao` is what `std::min_element` returns, and none exactly when nothing is available. */
  lemma SelecaoEscolha(c: Criterio, ps: seq<Processo>, t: int)
    ensures Selecao(c, ps, t).None? <==> forall j :: !DisponivelEm(ps, t, j)
    ensures Selecao(c, ps, t).Some? ==> EscolhaEm(c, ps, t, Selecao(c, ps, t).value)
  {
    MelhorEntreEscolha(c, ps, t, |ps|);
  }

  // ----- the arrivals of FCFS and Round Robin -----

  /** Among the first `n` positions, in list order, the unfinished processes arriving at `t`. */
  function ChegandoEntre(ps: seq<Processo>, t: int, n: nat): seq<nat>
    requires n <= |ps|
  {
    if n == 0 then []
    else ChegandoEntre(ps, t, n - 1) + (if ps[n - 1].tempoChegada == t && !ps[n - 1].Terminou() then [n - 1] else [])
  }

  /** `obterProcessosChegando`: the arrivals at `t`, see `ChegandoCaracteriza`. */
  function Chegando(ps: seq<Processo>, t: int): seq<nat>
  {
    ChegandoEntre(ps, t, |ps|)
  }

  lemma {:induction false} ChegandoEntreCaracteriza(ps: seq<Processo>, t: int, n: nat)
    requires n <= |ps|
    ensures var r := ChegandoEntre(ps, t, n);
            && (forall k :: 0 <= k < |r| ==> r[k] < n && ps[r[k]].tempoChegada == t && !ps[r[k]].Terminou())
            && (forall k, l :: 0 <= k < l < |r| ==> r[k] < r[l])
            && (forall j :: 0 <= j < n && ps[j].tempoChegada == t && !ps[j].Terminou() ==> j in r)
  {
    if n > 0 {
      ChegandoEntreCaracteriza(ps, t, n - 1);
      var r0 := ChegandoEntre(ps, t, n - 1);
      if ps[n - 1].tempoChegada == t && !ps[n - 1].Terminou() {
        assert ChegandoEntre(ps, t, n) == r0 + [n - 1];
        assert ChegandoEntre(ps, t, n)[|r0|] == n - 1;
      } else {
        assert ChegandoEntre(ps, t, n) == r0;
      }
    }
  }

  /** `obterProcessosChegando` yields, in list order, exactly the unfinished processes arriving at `t`. */
  lemma ChegandoCaracteriza(ps: seq<Processo>, t: int)
    ensures var r := Chegando(ps, t);
            && (forall k :: 0 <= k < |r| ==> r[k] < |ps| && ps[r[k]].tempoChegada == t && !ps[r[k]].Terminou())
            && (forall k, l :: 0 <= k < l < |r| ==> r[k] < r[l])
            && (forall j :: 0 <= j < |ps| && ps[j].tempoChegada == t && !ps[j].Terminou() ==> j in r)
  {
    ChegandoEntreCaracteriza(ps, t, |ps|);
  }

  // ----- one round of each policy -----

  /** What a simulation loop carries from one round to the next. */
  datatype Estado = Estado(ps: seq<Processo>, t: int, fila: seq<nat>)

  /** SJF and Priority once `p` is picked at `t`: dispatched, run to completion, stamped when it finishes. */
  function ExecutadoAteOFim(p: Processo, t: int): (r: Processo)
    ensures r.MesmaIdentidade(p) && r.jaExecutou && r.Terminou()
    ensures r.tempoFinalizacao == t + p.tempoRestante
  {
    var d := p.MarcarInicio(t);
    d.(tempoRestante := 0).Carimbar(t + d.tempoRestante)
  }

  /** SRTF and Priority Preemptivo once `p` is picked at `t`: dispatched, one unit, stamped at `t + 1` if that finished it. */
  function ExecutadoUmaUnidade(p: Processo, t: int): (r: Processo)
    ensures r.MesmaIdentidade(p) && r.jaExecutou
    ensures p.tempoRestante > 0 ==> r.tempoRestante == p.tempoRestante - 1
    ensures r.Terminou() ==> r.tempoFinalizacao == t + 1
  {
    var r := p.MarcarInicio(t).Executar();
    if r.1 then r.0.Carimbar(t + 1) else r.0
  }

  /** A round of SJF (`MenorCPU`) or Priority (`MaiorPrioridade`): the pick runs to completion, or one idle tick. */
  function RodadaSemPreempcao(c: Criterio, e: Estado): Estado
  {
    match Selecao(c, e.ps, e.t)
    case None => e.(t := e.t + 1)
    case Some(i) => e.(ps := e.ps[i := ExecutadoAteOFim(e.ps[i], e.t)], t := e.t + e.ps[i].tempoRestante)
  }

  /** A round of SRTF (`MenorRestante`) or Priority Preemptivo (`MaiorPrioridade`): the pick runs one unit, or one idle tick. */
  function RodadaComPreempcao(c: Criterio, e: Estado): Estado
  {
    match Selecao(c, e.ps, e.t)
    case None => e.(t := e.t + 1)
    case Some(i) => e.(ps := e.ps[i := ExecutadoUmaUnidade(e.ps[i], e.t)], t := e.t + 1)
  }

  /** One unit for the process `a`, one tick, and the arrivals at the new clock pushed onto the queue. */
  function Tique(e: Estado, a: nat): (r: Estado)
    requires a < |e.ps|
    ensures |r.ps| == |e.ps| && |r.fila| >= |e.fila|
  {
    var ps := e.ps[a := e.ps[a].Executar().0];
    Estado(ps, e.t + 1, e.fila + Chegando(ps, e.t + 1))
  }

  /**
   * The inner loop of FCFS: `a` runs until it finishes, taking in arrivals
   * after every tick (a negative remaining time, which no simulation reaches,
   * also ends it).
   */
  function CorridaAteTerminar(e: Estado, a: nat): (r: Estado)
    requires a < |e.ps|
    ensures |r.ps| == |e.ps| && |r.fila| >= |e.fila|
    decreases if e.ps[a].tempoRestante > 0 then e.ps[a].tempoRestante else 0
  {
    if e.ps[a].tempoRestante <= 0 then e
    else CorridaAteTerminar(Tique(e, a), a)
  }

  lemma CorridaPasso(e: Estado, a: nat)
    requires a < |e.ps| && e.ps[a].tempoRestante > 0
    ensures CorridaAteTerminar(e, a) == CorridaAteTerminar(Tique(e, a), a)
  {
  }

  lemma CorridaFim(e: Estado, a: nat)
    requires a < |e.ps| && e.ps[a].tempoRestante <= 0
    ensures CorridaAteTerminar(e, a) == e
  {
  }

  /**
   * FCFS with a non-empty ready queue: the front is dispatched, runs to
   * completion, is stamped and popped (an entry outside the list, which no
   * run queues, is just popped).
   */
  function AtendimentoPorChegada(e: Estado): Estado
    requires |e.fila| > 0
  {
    var a := e.fila[0];
    if a >= |e.ps| then e.(fila := e.fila[1..])
    else
      var e1 := e.(ps := e.ps[a := e.ps[a].MarcarInicio(e.t)]);
      var e2 := CorridaAteTerminar(e1, a);
      Estado(e2.ps[a := e2.ps[a].Carimbar(e2.t)], e2.t, e2.fila[1..])
  }

  /** `AtendimentoPorChegada` in terms of the state `e2` its inner loop ends in. */
  lemma AtendimentoPorChegadaApos(e: Estado, e2: Estado)
    requires |e.fila| > 0 && e.fila[0] < |e.ps|
    requires e2 == CorridaAteTerminar(e.(ps := e.ps[e.fila[0] := e.ps[e.fila[0]].MarcarInicio(e.t)]), e.fila[0])
    ensures AtendimentoPorChegada(e) == Estado(e2.ps[e.fila[0] := e2.ps[e.fila[0]].Carimbar(e2.t)], e2.t, e2.fila[1..])
  {
  }

  /** A round of FCFS: the arrivals are pushed, then the front is served, or one idle tick. */
  function RodadaPorChegada(e: Estado): Estado
  {
    var f := e.fila + Chegando(e.ps, e.t);
    if f == [] then Estado(e.ps, e.t + 1, f)
    else AtendimentoPorChegada(Estado(e.ps, e.t, f))
  }

  /** The inner loop of Round Robin: at most `n` units of `a`, taking in arrivals after every tick. */
  function FatiaCircular(e: Estado, a: nat, n: nat): (r: Estado)
    requires a < |e.ps|
    ensures |r.ps| == |e.ps|
    decreases n
  {
    if n == 0 || e.ps[a].Terminou() then e
    else FatiaCircular(Tique(e, a), a, n - 1)
  }

  /** `k` units of `a` from `e`, one `Tique` after another. */
  function Tiques(e: Estado, a: nat, k: nat): (r: Estado)
    requires a < |e.ps|
    ensures |r.ps| == |e.ps|
  {
    if k == 0 then e else Tique(Tiques(e, a, k - 1), a)
  }

  /** The same `k` units, the first one taken off the front. */
  lemma {:induction false} TiquesPrimeiro(e: Estado, a: nat, k: nat)
    requires a < |e.ps| && k > 0
    ensures Tiques(e, a, k) == Tiques(Tique(e, a), a, k - 1)
    decreases k
  {
    if k > 1 {
      TiquesPrimeiro(e, a, k - 1);
    }
  }

  /**
   * A slice of at most `n` units that stopped after `k` of them, because the
   * budget ran out or `a` finished, is those `k` units.
   */
  lemma {:induction false} FatiaEmTiques(e: Estado, a: nat, n: nat, k: nat)
    requires a < |e.ps| && k <= n && e.ps[a].tempoRestante >= k
    requires k == n || Tiques(e, a, k).ps[a].Terminou()
    ensures FatiaCircular(e, a, n) == Tiques(e, a, k)
    decreases k
  {
    if k > 0 {
      TiquesPrimeiro(e, a, k);
      FatiaEmTiques(Tique(e, a), a, n - 1, k - 1);
    }
  }

  /**
   * Round Robin with a non-empty ready queue: the front is popped, dispatched
   * and runs for at most `quantum` units; then it is stamped if finished, or
   * pushed onto the back of the queue (an entry outside the list, which no
   * run queues, is just popped).
   */
  function AtendimentoCircular(quantum: int, e: Estado): Estado
    requires |e.fila| > 0
  {
    var a := e.fila[0];
    if a >= |e.ps| then e.(fila := e.fila[1..])
    else
      var e1 := Estado(e.ps[a := e.ps[a].MarcarInicio(e.t)], e.t, e.fila[1..]);
      var e2 := FatiaCircular(e1, a, if quantum > 0 then quantum else 0);
      if e2.ps[a].Terminou() then e2.(ps := e2.ps[a := e2.ps[a].Carimbar(e2.t)])
      else e2.(fila := e2.fila + [a])
  }

  /** `AtendimentoCircular` in terms of the state `e2` its slice ends in. */
  lemma AtendimentoCircularApos(quantum: int, e: Estado, e2: Estado)
    requires |e.fila| > 0 && e.fila[0] < |e.ps|
    requires e2 == FatiaCircular(Estado(e.ps[e.fila[0] := e.ps[e.fila[0]].MarcarInicio(e.t)], e.t, e.fila[1..]),
                                 e.fila[0], if quantum > 0 then quantum else 0)
    ensures AtendimentoCircular(quantum, e)
            == if e2.ps[e.fila[0]].Terminou() then e2.(ps := e2.ps[e.fila[0] := e2.ps[e.fila[0]].Carimbar(e2.t)])
               else e2.(fila := e2.fila + [e.fila[0]])
  {
  }

  /** A round of Round Robin: the arrivals are pushed, then the front is served, or one idle tick. */
  function RodadaCircular(quantum: int, e: Estado): Estado
  {
    var f := e.fila + Chegando(e.ps, e.t);
    if f == [] then Estado(e.ps, e.t + 1, f)
    else AtendimentoCircular(quantum, Estado(e.ps, e.t, f))
  }

  // ----- what one round does -----

  /**
   * SJF and Priority: with nothing available the round is one idle tick;
   * otherwise the process `std::min_element` picks is dispatched, runs to
   * completion and is stamped at the clock it finishes, and no other entry changes.
   */
  lemma RodadaSemPreempcaoServe(c: Criterio, e: Estado)
    ensures (forall j :: !DisponivelEm(e.ps, e.t, j)) ==> RodadaSemPreempcao(c, e) == e.(t := e.t + 1)
    ensures forall i :: EscolhaEm(c, e.ps, e.t, i) ==>
              var r := RodadaSemPreempcao(c, e);
              && r.t == e.t + e.ps[i].tempoRestante && r.fila == e.fila
              && r.ps == e.ps[i := r.ps[i]] && r.ps[i].MesmaIdentidade(e.ps[i])
              && r.ps[i].Terminou() && r.ps[i].jaExecutou && r.ps[i].tempoFinalizacao == r.t
  {
    SelecaoEscolha(c, e.ps, e.t);
    forall i | EscolhaEm(c, e.ps, e.t, i)
      ensures Selecao(c, e.ps, e.t) == Some(i)
    {
      EscolhaUnica(c, e.ps, e.t, i, Selecao(c, e.ps, e.t).value);
    }
  }

  /**
   * SRTF and Priority Preemptivo: with nothing available the round is one
   * idle tick; otherwise the pick is dispatched and runs one unit, is stamped
   * at the new clock if that finished it, and no other entry changes.
   */
  lemma RodadaComPreempcaoServe(c: Criterio, e: Estado)
    ensures (forall j :: !DisponivelEm(e.ps, e.t, j)) ==> RodadaComPreempcao(c, e) == e.(t := e.t + 1)
    ensures forall i :: EscolhaEm(c, e.ps, e.t, i) ==>
              var r := RodadaComPreempcao(c, e);
              && r.t == e.t + 1 && r.fila == e.fila
              && r.ps == e.ps[i := r.ps[i]] && r.ps[i].MesmaIdentidade(e.ps[i]) && r.ps[i].jaExecutou
              && (e.ps[i].tempoRestante > 0 ==> r.ps[i].tempoRestante == e.ps[i].tempoRestante - 1)
              && (r.ps[i].Terminou() ==> r.ps[i].tempoFinalizacao == r.t)
  {
    SelecaoEscolha(c, e.ps, e.t);
    forall i | EscolhaEm(c, e.ps, e.t, i)
      ensures Selecao(c, e.ps, e.t) == Some(i)
    {
      EscolhaUnica(c, e.ps, e.t, i, Selecao(c, e.ps, e.t).value);
    }
  }

  /**
   * The inner loop of FCFS from a non-negative remaining time: the clock
   * advances by exactly that time, only `a`'s remaining time changes, to 0,
   * and the queue only grows at the back.
   */
  lemma {:induction false} CorridaAteTerminarCorre(e: Estado, a: nat)
    requires a < |e.ps| && e.ps[a].tempoRestante >= 0
    ensures var r := CorridaAteTerminar(e, a);
            && r.t == e.t + e.ps[a].tempoRestante
            && r.ps == e.ps[a := e.ps[a].(tempoRestante := 0)]
            && r.fila[..|e.fila|] == e.fila
    decreases e.ps[a].tempoRestante
  {
    if e.ps[a].tempoRestante > 0 {
      var e1 := Tique(e, a);
      CorridaAteTerminarCorre(e1, a);
      assert e1.fila[..|e.fila|] == e.fila;
    }
  }

  /**
   * The inner loop of Round Robin: a slice of at most `n` units from a
   * non-negative remaining time runs exactly the smaller of the two, changes
   * only `a`'s remaining time, and only grows the queue at the back.
   */
  lemma {:induction false} FatiaCircularCorre(e: Estado, a: nat, n: nat)
    requires a < |e.ps| && e.ps[a].tempoRestante >= 0
    ensures var r, m := FatiaCircular(e, a, n), if n <= e.ps[a].tempoRestante then n else e.ps[a].tempoRestante;
            && r.t == e.t + m
            && r.ps == e.ps[a := e.ps[a].(tempoRestante := e.ps[a].tempoRestante - m)]
            && |r.fila| >= |e.fila| && r.fila[..|e.fila|] == e.fila
    decreases n
  {
    if n > 0 && !e.ps[a].Terminou() {
      var e1 := Tique(e, a);
      FatiaCircularCorre(e1, a, n - 1);
      assert e1.fila[..|e.fila|] == e.fila;
    }
  }

  /**
   * FCFS serving a front `a` with non-negative remaining time: the clock
   * advances by that time, `a` finishes and is stamped at the new clock, the
   * rest of the queue keeps its order at the front, and `a` leaves it.
   */
  lemma AtendimentoPorChegadaServe(e: Estado)
    requires |e.fila| > 0 && e.fila[0] < |e.ps| && e.ps[e.fila[0]].tempoRestante >= 0
    ensures var r, a := AtendimentoPorChegada(e), e.fila[0];
            && r.t == e.t + e.ps[a].tempoRestante
            && r.ps == e.ps[a := r.ps[a]] && r.ps[a].MesmaIdentidade(e.ps[a])
            && r.ps[a].Terminou() && r.ps[a].jaExecutou && r.ps[a].tempoFinalizacao == r.t
            && |r.fila| >= |e.fila| - 1 && r.fila[..|e.fila| - 1] == e.fila[1..]
  {
    var a := e.fila[0];
    var e1 := e.(ps := e.ps[a := e.ps[a].MarcarInicio(e.t)]);
    CorridaAteTerminarCorre(e1, a);
    var e2 := CorridaAteTerminar(e1, a);
    assert e2.fila[1..][..|e.fila| - 1] == e2.fila[..|e.fila|][1..];
  }

  /**
   * Round Robin serving a front `a` with non-negative remaining time: the
   * clock advances by the smaller of the quantum and that time, and the rest
   * of the queue keeps its order at the front. Within its quantum `a`
   * finishes and is stamped at the new clock; otherwise it loses exactly a
   * quantum and goes to the very back, behind the slice's arrivals.
   */
  lemma AtendimentoCircularServe(quantum: int, e: Estado)
    requires |e.fila| > 0 && e.fila[0] < |e.ps| && e.ps[e.fila[0]].tempoRestante >= 0
    ensures var r, a := AtendimentoCircular(quantum, e), e.fila[0];
            var n, restante := if quantum > 0 then quantum else 0, e.ps[a].tempoRestante;
            && r.t == e.t + (if n <= restante then n else restante)
            && r.ps == e.ps[a := r.ps[a]] && r.ps[a].MesmaIdentidade(e.ps[a]) && r.ps[a].jaExecutou
            && |r.fila| >= |e.fila| - 1 && r.fila[..|e.fila| - 1] == e.fila[1..]
            && (restante <= n ==> r.ps[a].Terminou() && r.ps[a].tempoFinalizacao == r.t)
            && (restante > n ==> r.ps[a].tempoRestante == restante - n && r.fila[|r.fila| - 1] == a)
  {
    var a := e.fila[0];
    var e1 := Estado(e.ps[a := e.ps[a].MarcarInicio(e.t)], e.t, e.fila[1..]);
    var n := if quantum > 0 then quantum else 0;
    FatiaCircularCorre(e1, a, n);
  }

  // ----- whole runs -----

  /** The policy each subclass's `executarSimulacao` implements. */
  datatype Politica = PorChegada | SemPreempcao(criterio: Criterio) | ComPreempcao(criterio: Criterio) | Circular(quantum: int)

  function PoliticaDe(a: Algoritmo, quantum: int): Politica
  {
    match a
    case AlgFCFS => PorChegada
    case AlgSJF => SemPreempcao(MenorCPU)
    case AlgSRTF => ComPreempcao(MenorRestante)
    case AlgRoundRobin => Circular(quantum)
    case AlgPriority => SemPreempcao(MaiorPrioridade)
    case AlgPriorityPreemptivo => ComPreempcao(MaiorPrioridade)
  }

  /** One iteration of the outer `while (!todosProcessosTerminaram())` loop. */
  function Rodada(pol: Politica): Estado -> Estado
  {
    match pol
    case PorChegada => RodadaPorChegada
    case SemPreempcao(c) => e => RodadaSemPreempcao(c, e)
    case ComPreempcao(c) => e => RodadaComPreempcao(c, e)
    case Circular(q) => e => RodadaCircular(q, e)
  }

  /**
   * `k` rounds of `rodada` from `e`: the state they reach, and whether the loop
   * test let each of them start (no state before the last had every process finished).
   */
  function Percurso(rodada: Estado -> Estado, e: Estado, k: nat): (Estado, bool)
  {
    if k == 0 then (e, true)
    else
      var antes := Percurso(rodada, e, k - 1);
      (rodada(antes.0), antes.1 && !TodosTerminaram(antes.0.ps))
  }

  /** A run whose last state has an unfinished process goes on with one more round. */
  lemma PercursoSeguinte(rodada: Estado -> Estado, e: Estado, k: nat, x: Estado)
    requires Percurso(rodada, e, k) == (x, true) && !TodosTerminaram(x.ps)
    ensures Percurso(rodada, e, k + 1) == (rodada(x), true)
  {
  }

  /** The state every `executarSimulacao` starts from: the originals reset, clock 0, an empty queue. */
  function Inicial(originais: seq<Processo>): Estado
  {
    Estado(Reiniciados(originais), 0, [])
  }

  /**
   * A run of `pol` on `originais` ends after `k` rounds with the list `ps` and
   * the clock `t`: every process has finished then, and not before.
   */
  ghost predicate Execucao(pol: Politica, originais: seq<Processo>, k: nat, ps: seq<Processo>, t: int)
  {
    var r := Percurso(Rodada(pol), Inicial(originais), k);
    r.0.ps == ps && r.0.t == t && r.1 && TodosTerminaram(ps)
  }

  /** A run whose `k` rounds all started has not finished everything at any earlier round. */
  lemma {:induction false} PercursoSemFimAntes(rodada: Estado -> Estado, e: Estado, k: nat, m: nat)
    requires Percurso(rodada, e, k).1 && m < k
    ensures !TodosTerminaram(Percurso(rodada, e, m).0.ps)
    decreases k
  {
    if m < k - 1 {
      PercursoSemFimAntes(rodada, e, k - 1, m);
    }
  }

  /** A run ends at one round count only: the first at which every process has finished. */
  lemma ExecucaoDeterminada(pol: Politica, originais: seq<Processo>,
                            k: nat, ps: seq<Processo>, t: int, k': nat, ps': seq<Processo>, t': int)
    requires Execucao(pol, originais, k, ps, t) && Execucao(pol, originais, k', ps', t')
    ensures k == k' && ps == ps' && t == t'
  {
    if k < k' {
      PercursoSemFimAntes(Rodada(pol), Inicial(originais), k', k);
    } else if k' < k {
      PercursoSemFimAntes(Rodada(pol), Inicial(originais), k, k');
    }
  }
}
