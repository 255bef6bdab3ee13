/**
 * The state of a running simulation, as a list of processes and a clock: the
 * invariant every scheduler keeps, the invariant of the FCFS and Round Robin
 * ready queues, and one lemma per step a scheduler takes (dispatch, one tick
 * of CPU, finish stamp, idle tick) showing that the step keeps them.
 */
module Simulacao {
  import opened Processos
  import opened Somas

  predicate TodosTerminaram(ps: seq<Processo>)
  {
    forall j {:trigger ps[j].Terminou()} :: 0 <= j < |ps| ==> ps[j].Terminou()
  }

  /** An upper bound of the arrival times, the horizon of the termination argument. */
  function MaxChegada(ps: seq<Processo>): (h: int)
    ensures forall j :: 0 <= j < |ps| ==> ps[j].tempoChegada <= h
  {
    if ps == [] then 0
    else
      var h := MaxChegada(ps[..|ps| - 1]);
      var c := ps[|ps| - 1].tempoChegada;
      if c > h then c else h
  }

  /** The clock-distance to the last arrival `h`: it shrinks on every idle tick before `h`. */
  function Horizonte(h: int, t: int): nat
  {
    if h > t then h - t else 0
  }

  /** The list of `processosOriginais` after `reiniciarSimulacao`. */
  function Reiniciados(ps: seq<Processo>): (r: seq<Processo>)
    ensures |r| == |ps|
    ensures forall j :: 0 <= j < |ps| ==> r[j] == ps[j].Reiniciar()
  {
    seq(|ps|, j requires 0 <= j < |ps| => ps[j].Reiniciar())
  }

  // ----- relations between two lists of the same processes -----

  /** Entry by entry the same processes (pid, name, arrival, CPU time, priority). */
  ghost predicate MesmasIdentidades(ps: seq<Processo>, qs: seq<Processo>)
  {
    && |ps| == |qs|
    && forall j {:trigger ps[j].MesmaIdentidade(qs[j])} :: 0 <= j < |ps| ==> ps[j].MesmaIdentidade(qs[j])
  }

  /** Replacing the same entry twice keeps only the second replacement. */
  lemma SubstituiDuasVezes(ps: seq<Processo>, a: nat, x: Processo, y: Processo)
    requires a < |ps|
    ensures ps[a := x][a := y] == ps[a := y]
  {
  }

  lemma IdentidadesTransitivas(ps: seq<Processo>, qs: seq<Processo>, rs: seq<Processo>)
    requires MesmasIdentidades(ps, qs) && MesmasIdentidades(qs, rs)
    ensures MesmasIdentidades(ps, rs)
  {
    forall j | 0 <= j < |ps|
      ensures ps[j].MesmaIdentidade(rs[j])
    {
      assert ps[j].MesmaIdentidade(qs[j]) && qs[j].MesmaIdentidade(rs[j]);
    }
  }

  lemma IdentidadesAposAtualizar(ps: seq<Processo>, a: nat, x: Processo)
    requires a < |ps| && x.MesmaIdentidade(ps[a])
    ensures MesmasIdentidades(ps[a := x], ps)
  {
    forall j | 0 <= j < |ps|
      ensures ps[a := x][j].MesmaIdentidade(ps[j])
    {
    }
  }

  /** Entry by entry the same processes finished. */
  ghost predicate MesmosTerminos(ps: seq<Processo>, qs: seq<Processo>)
  {
    && |ps| == |qs|
    && forall j {:trigger ps[j].Terminou()} {:trigger qs[j].Terminou()} ::
         0 <= j < |ps| ==> (ps[j].Terminou() <==> qs[j].Terminou())
  }

  lemma TerminosAposAtualizar(ps: seq<Processo>, a: nat, x: Processo)
    requires a < |ps| && x.tempoRestante == ps[a].tempoRestante
    ensures MesmosTerminos(ps, ps[a := x])
  {
  }

  lemma TerminosTransitivos(ps: seq<Processo>, qs: seq<Processo>, rs: seq<Processo>)
    requires MesmosTerminos(ps, qs) && MesmosTerminos(qs, rs)
    ensures MesmosTerminos(ps, rs)
  {
    forall j | 0 <= j < |ps|
      ensures ps[j].Terminou() <==> rs[j].Terminou()
    {
      assert ps[j].Terminou() <==> qs[j].Terminou();
    }
  }

  // ----- the invariant of every simulation loop -----

  ghost predicate TodosEmCurso(ps: seq<Processo>, t: int)
  {
    forall j {:trigger ps[j].EmCurso(t)} :: 0 <= j < |ps| ==> ps[j].EmCurso(t)
  }

  /**
   * The loop invariant of a simulation at clock `t`: every process `EmCurso`
   * and, except perhaps `k` (finished but not yet stamped), `Coerente`; no
   * more CPU units executed than clock ticks.
   */
  ghost predicate PassoEm(ps: seq<Processo>, t: int, k: int)
  {
    && t >= 0
    && TodosEmCurso(ps, t)
    && (forall j {:trigger ps[j].Coerente(t)} :: 0 <= j < |ps| && j != k ==> ps[j].Coerente(t))
    && Soma(ps, Executado) <= t
  }

  /** If every process has finished and there was work, the clock is a finish stamp. */
  ghost predicate UltimoCarimboEm(ps: seq<Processo>, t: int)
  {
    TodosTerminaram(ps) && Soma(ps, CPU) > 0 ==>
      exists j :: 0 <= j < |ps| && ps[j].tempoFinalizacao == t
  }

  /**
   * The state every simulation ends in: every process finished and consistent
   * at the final clock `t`; no more CPU work done than clock ticks; and, if any
   * work was done, the last completion stamped at `t`.
   */
  ghost predicate ConcluidaEm(ps: seq<Processo>, t: int)
  {
    && t >= 0
    && TodosTerminaram(ps)
    && (forall j {:trigger ps[j].Coerente(t)} :: 0 <= j < |ps| ==> ps[j].Coerente(t))
    && Soma(ps, CPU) <= t
    && (Soma(ps, CPU) > 0 ==> exists j :: 0 <= j < |ps| && ps[j].tempoFinalizacao == t)
  }

  /** Freshly reset processes satisfy the loop invariant at clock 0. */
  lemma PassoInicial(ps: seq<Processo>)
    requires forall j :: 0 <= j < |ps| ==> ps[j].EmEstadoInicial() && ps[j].tempoCPU >= 0
    ensures PassoEm(ps, 0, -1) && UltimoCarimboEm(ps, 0)
    ensures Soma(ps, Restante) >= 0
  {
    forall j | 0 <= j < |ps|
      ensures ps[j].Coerente(0) && Executado(ps[j]) == 0 && Restante(ps[j]) >= 0
    {
    }
    SomaNula(ps, Executado);
    SomaNaoNegativa(ps, Restante);
    if TodosTerminaram(ps) {
      forall j | 0 <= j < |ps|
        ensures CPU(ps[j]) == 0
      {
        assert ps[j].Terminou();
      }
      SomaNula(ps, CPU);
    }
  }

  /** The work left is never negative while the invariant holds. */
  lemma RestanteNaoNegativo(ps: seq<Processo>, t: int, k: int)
    requires PassoEm(ps, t, k)
    ensures Soma(ps, Restante) >= 0
  {
    forall j | 0 <= j < |ps|
      ensures Restante(ps[j]) >= 0
    {
      assert ps[j].EmCurso(t);
    }
    SomaNaoNegativa(ps, Restante);
  }

  /** Dispatching an arrived process that needs the CPU keeps the invariant. */
  lemma PassoDespacho(ps: seq<Processo>, t: int, a: nat)
    requires PassoEm(ps, t, -1) && a < |ps|
    requires ps[a].tempoChegada <= t && ps[a].tempoCPU > 0
    ensures PassoEm(ps[a := ps[a].MarcarInicio(t)], t, -1)
    ensures Soma(ps[a := ps[a].MarcarInicio(t)], Restante) == Soma(ps, Restante)
    ensures MesmasIdentidades(ps[a := ps[a].MarcarInicio(t)], ps)
    ensures MesmosTerminos(ps, ps[a := ps[a].MarcarInicio(t)])
  {
    var x := ps[a].MarcarInicio(t);
    var qs := ps[a := x];
    assert ps[a].Coerente(t);
    forall j | 0 <= j < |qs|
      ensures qs[j].Coerente(t) && qs[j].EmCurso(t)
    {
      if j != a {
        assert ps[j].Coerente(t);
      }
    }
    SomaAtualiza(ps, a, x, Executado);
    SomaAtualiza(ps, a, x, Restante);
    IdentidadesAposAtualizar(ps, a, x);
    TerminosAposAtualizar(ps, a, x);
  }

  /** One CPU unit for the dispatched, unfinished process `a`, and the clock advances. */
  lemma PassoExecucao(ps: seq<Processo>, t: int, a: nat)
    requires PassoEm(ps, t, a) && a < |ps|
    requires ps[a].jaExecutou && !ps[a].Terminou()
    ensures PassoEm(ps[a := ps[a].Executar().0], t + 1, a)
    ensures ps[a].Executar().1 == ps[a].Executar().0.Terminou()
    ensures Soma(ps[a := ps[a].Executar().0], Restante) == Soma(ps, Restante) - 1
    ensures MesmasIdentidades(ps[a := ps[a].Executar().0], ps)
  {
    var x := ps[a].Executar().0;
    var qs := ps[a := x];
    assert ps[a].EmCurso(t);
    ExecutarPreserva(ps[a], t);
    forall j | 0 <= j < |qs|
      ensures qs[j].EmCurso(t + 1)
      ensures j != a ==> qs[j].Coerente(t + 1)
    {
      if j != a {
        assert ps[j].Coerente(t);
        CoerenteMonotono(ps[j], t, t + 1);
      }
    }
    SomaAtualiza(ps, a, x, Executado);
    SomaAtualiza(ps, a, x, Restante);
    IdentidadesAposAtualizar(ps, a, x);
  }

  /** Stamping the finished, dispatched process `a` at the clock restores the invariant. */
  lemma PassoCarimbo(ps: seq<Processo>, t: int, a: nat)
    requires PassoEm(ps, t, a) && a < |ps|
    requires ps[a].jaExecutou && ps[a].Terminou()
    ensures PassoEm(ps[a := ps[a].Carimbar(t)], t, -1)
    ensures UltimoCarimboEm(ps[a := ps[a].Carimbar(t)], t)
    ensures Soma(ps[a := ps[a].Carimbar(t)], Restante) == Soma(ps, Restante)
    ensures MesmasIdentidades(ps[a := ps[a].Carimbar(t)], ps)
    ensures MesmosTerminos(ps, ps[a := ps[a].Carimbar(t)])
  {
    var x := ps[a].Carimbar(t);
    var qs := ps[a := x];
    assert ps[a].EmCurso(t);
    CarimbarPreserva(ps[a], t);
    forall j | 0 <= j < |qs|
      ensures qs[j].Coerente(t) && qs[j].EmCurso(t)
    {
      if j != a {
        assert ps[j].Coerente(t);
      }
    }
    assert qs[a].tempoFinalizacao == t;
    SomaAtualiza(ps, a, x, Executado);
    SomaAtualiza(ps, a, x, Restante);
    IdentidadesAposAtualizar(ps, a, x);
    TerminosAposAtualizar(ps, a, x);
  }

  /** An unfinished process needs no stamp: the invariant holds without the exception. */
  lemma PassoSemExcecao(ps: seq<Processo>, t: int, a: nat)
    requires PassoEm(ps, t, a) && a < |ps| && !ps[a].Terminou()
    ensures PassoEm(ps, t, -1) && UltimoCarimboEm(ps, t)
  {
    assert ps[a].EmCurso(t);
    assert ps[a].Coerente(t);
  }

  /** An idle tick keeps the invariant. */
  lemma PassoOcioso(ps: seq<Processo>, t: int)
    requires PassoEm(ps, t, -1) && !TodosTerminaram(ps)
    ensures PassoEm(ps, t + 1, -1) && UltimoCarimboEm(ps, t + 1)
  {
    forall j | 0 <= j < |ps|
      ensures ps[j].Coerente(t + 1) && ps[j].EmCurso(t + 1)
    {
      assert ps[j].Coerente(t);
      CoerenteMonotono(ps[j], t, t + 1);
    }
  }

  /** Once every process has finished, the invariant gives `ConcluidaEm`. */
  lemma ConcluiSimulacao(ps: seq<Processo>, t: int)
    requires PassoEm(ps, t, -1) && UltimoCarimboEm(ps, t) && TodosTerminaram(ps)
    ensures ConcluidaEm(ps, t)
  {
    forall j | 0 <= j < |ps|
      ensures Executado(ps[j]) == CPU(ps[j])
    {
      assert ps[j].Terminou();
    }
    SomaIgual(ps, Executado, CPU);
  }

  // ----- the ready queue of FCFS and Round Robin -----

  /** Every entry of a ready queue: a process index, arrived by `t`, needing the CPU. */
  ghost predicate FilaValidaEm(ps: seq<Processo>, t: int, fila: seq<nat>)
  {
    forall k :: 0 <= k < |fila| ==>
      fila[k] < |ps| && ps[fila[k]].tempoChegada <= t && ps[fila[k]].tempoCPU > 0
  }

  /** Every unfinished process but `excluido` that arrived before `limite` is in the queue. */
  ghost predicate ChegadosEm(ps: seq<Processo>, fila: seq<nat>, limite: int, excluido: int)
  {
    forall j {:trigger ps[j].Terminou()} ::
      (0 <= j < |ps| && j != excluido && !ps[j].Terminou() && ps[j].tempoChegada < limite) ==> j in fila
  }

  /** Queue validity survives a step that keeps the processes and advances the clock. */
  lemma FilaTransfere(ps: seq<Processo>, qs: seq<Processo>, t: int, t': int, fila: seq<nat>)
    requires MesmasIdentidades(qs, ps) && t <= t' && FilaValidaEm(ps, t, fila)
    ensures FilaValidaEm(qs, t', fila)
  {
    forall k | 0 <= k < |fila|
      ensures fila[k] < |qs| && qs[fila[k]].tempoChegada <= t' && qs[fila[k]].tempoCPU > 0
    {
      assert qs[fila[k]].MesmaIdentidade(ps[fila[k]]);
    }
  }

  /** The queue invariant survives a step that finishes no process. */
  lemma ChegadosTransfere(ps: seq<Processo>, qs: seq<Processo>, fila: seq<nat>, limite: int, excluido: int)
    requires MesmasIdentidades(qs, ps) && MesmosTerminos(ps, qs) && ChegadosEm(ps, fila, limite, excluido)
    ensures ChegadosEm(qs, fila, limite, excluido)
  {
    forall j | 0 <= j < |qs| && j != excluido && !qs[j].Terminou() && qs[j].tempoChegada < limite
      ensures j in fila
    {
      assert qs[j].MesmaIdentidade(ps[j]);
      assert !ps[j].Terminou();
    }
  }

  /** The queue invariant survives a tick of `a`, if `a` is queued or excluded. */
  lemma ChegadosAposExecucao(ps: seq<Processo>, a: nat, x: Processo, fila: seq<nat>, limite: int, excluido: int)
    requires a < |ps| && x.MesmaIdentidade(ps[a]) && (a == excluido || a in fila)
    requires ChegadosEm(ps, fila, limite, excluido)
    ensures ChegadosEm(ps[a := x], fila, limite, excluido)
  {
    var qs := ps[a := x];
    forall j | 0 <= j < |qs| && j != excluido && !qs[j].Terminou() && qs[j].tempoChegada < limite
      ensures j in fila
    {
      if j != a {
        assert !ps[j].Terminou();
      }
    }
  }

  /** Pushing the processes arriving at `t` extends the queue invariant to the next tick. */
  lemma ChegadosAposEnfileirar(ps: seq<Processo>, fila: seq<nat>, chegando: seq<nat>, t: int, excluido: int)
    requires ChegadosEm(ps, fila, t, excluido)
    requires forall j {:trigger ps[j].Terminou()} ::
               0 <= j < |ps| && ps[j].tempoChegada == t && !ps[j].Terminou() ==> j in chegando
    ensures ChegadosEm(ps, fila + chegando, t + 1, excluido)
  {
    forall j | 0 <= j < |ps| && j != excluido && !ps[j].Terminou() && ps[j].tempoChegada < t + 1
      ensures j in fila + chegando
    {
      if ps[j].tempoChegada < t {
        assert j in fila;
      } else {
        assert j in chegando;
      }
    }
  }

  /** Unfinished processes that have arrived are valid queue entries. */
  lemma FilaAposEnfileirar(ps: seq<Processo>, t: int, fila: seq<nat>, chegando: seq<nat>)
    requires FilaValidaEm(ps, t, fila) && TodosEmCurso(ps, t)
    requires forall k :: 0 <= k < |chegando| ==>
               chegando[k] < |ps| && ps[chegando[k]].tempoChegada == t && !ps[chegando[k]].Terminou()
    ensures FilaValidaEm(ps, t, fila + chegando)
  {
    forall k | |fila| <= k < |fila + chegando|
      ensures (fila + chegando)[k] < |ps| && ps[(fila + chegando)[k]].tempoCPU > 0
    {
      assert ps[chegando[k - |fila|]].EmCurso(t);
    }
  }

  /** Popping a front that has finished loses no unfinished process. */
  lemma ChegadosAposRetirar(ps: seq<Processo>, fila: seq<nat>, limite: int, limite': int)
    requires |fila| > 0 && fila[0] < |ps| && ps[fila[0]].Terminou() && limite' <= limite
    requires ChegadosEm(ps, fila, limite, -1)
    ensures ChegadosEm(ps, fila[1..], limite', -1)
  {
    forall j | 0 <= j < |ps| && !ps[j].Terminou() && ps[j].tempoChegada < limite'
      ensures j in fila[1..]
    {
      assert j in fila;
      var k :| 0 <= k < |fila| && fila[k] == j;
      assert k != 0;
      assert fila[1..][k - 1] == j;
    }
  }

  /** Popping the front, which is then excluded. */
  lemma ChegadosExcluindoFrente(ps: seq<Processo>, fila: seq<nat>, limite: int)
    requires |fila| > 0 && ChegadosEm(ps, fila, limite, -1)
    ensures ChegadosEm(ps, fila[1..], limite, fila[0])
  {
    forall j | 0 <= j < |ps| && j != fila[0] && !ps[j].Terminou() && ps[j].tempoChegada < limite
      ensures j in fila[1..]
    {
      assert j in fila;
      var k :| 0 <= k < |fila| && fila[k] == j;
      assert fila[1..][k - 1] == j;
    }
  }

  /** The excluded process is back in the queue, or finished: nothing is excluded any more. */
  lemma ChegadosIncluindo(ps: seq<Processo>, fila: seq<nat>, limite: int, limite': int, a: nat)
    requires a < |ps| && limite' <= limite && ChegadosEm(ps, fila, limite, a)
    requires ps[a].Terminou() || a in fila
    ensures ChegadosEm(ps, fila, limite', -1)
  {
    forall j | 0 <= j < |ps| && !ps[j].Terminou() && ps[j].tempoChegada < limite'
      ensures j in fila
    {
      if j != a {
        assert !ps[j].Terminou();
      }
    }
  }

  /** Pushing the excluded process back onto the queue: nothing is excluded any more. */
  lemma ChegadosAposAnexar(ps: seq<Processo>, fila: seq<nat>, limite: int, limite': int, a: nat)
    requires limite' <= limite && ChegadosEm(ps, fila, limite, a)
    ensures ChegadosEm(ps, fila + [a], limite', -1)
  {
    forall j | 0 <= j < |ps| && !ps[j].Terminou() && ps[j].tempoChegada < limite'
      ensures j in fila + [a]
    {
      if j != a {
        assert j in fila;
        var k :| 0 <= k < |fila| && fila[k] == j;
        assert (fila + [a])[k] == j;
      } else {
        assert (fila + [a])[|fila|] == a;
      }
    }
  }

  /** The number of finished processes in a ready queue. */
  function ContaTerminados(ps: seq<Processo>, fila: seq<nat>): nat
    requires forall k :: 0 <= k < |fila| ==> fila[k] < |ps|
  {
    if fila == [] then 0
    else (if ps[fila[0]].Terminou() then 1 else 0) + ContaTerminados(ps, fila[1..])
  }

  lemma {:induction false} ContaConcat(ps: seq<Processo>, a: seq<nat>, b: seq<nat>)
    requires forall k :: 0 <= k < |a| ==> a[k] < |ps|
    requires forall k :: 0 <= k < |b| ==> b[k] < |ps|
    ensures ContaTerminados(ps, a + b) == ContaTerminados(ps, a) + ContaTerminados(ps, b)
  {
    if a != [] {
      assert (a + b)[1..] == a[1..] + b;
      ContaConcat(ps, a[1..], b);
    } else {
      assert a + b == b;
    }
  }

  lemma {:induction false} ContaSemTerminados(ps: seq<Processo>, a: seq<nat>)
    requires forall k :: 0 <= k < |a| ==> a[k] < |ps| && !ps[a[k]].Terminou()
    ensures ContaTerminados(ps, a) == 0
  {
    if a != [] {
      ContaSemTerminados(ps, a[1..]);
    }
  }

  lemma {:induction false} ContaMesmosTerminos(ps: seq<Processo>, qs: seq<Processo>, a: seq<nat>)
    requires MesmosTerminos(ps, qs)
    requires forall k :: 0 <= k < |a| ==> a[k] < |ps|
    ensures ContaTerminados(ps, a) == ContaTerminados(qs, a)
  {
    if a != [] {
      assert ps[a[0]].Terminou() <==> qs[a[0]].Terminou();
      ContaMesmosTerminos(ps, qs, a[1..]);
    }
  }
}
