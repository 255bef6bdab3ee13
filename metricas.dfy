/**
 * `calcularEstatisticas` of the CPU-scheduling simulator (m2-escalonadores,
 * Escalonador.h and Escalonador.cpp): the integer sums it accumulates over the
 * process list, and what they satisfy once a simulation has completed.
 */
module Metricas {
  import opened Processos
  import opened Somas
  import opened Simulacao

  /**
   * The integer parts of `Estatisticas`. The struct's averages are
   * `somaEspera / throughput`, `somaTurnaround / throughput` and
   * `somaResposta / throughput`, and its CPU utilisation is
   * `tempoCPUTotal / tempoTotalExecucao * 100`; those divisions are in floating
   * point and are not modelled.
   */
  datatype Estatisticas = Estatisticas(
    somaEspera: int,
    somaTurnaround: int,
    somaResposta: int,
    tempoCPUTotal: int,
    tempoTotalExecucao: int,
    throughput: int)

  /** A default-constructed `Estatisticas`: every field zero. */
  const ESTATISTICAS_PADRAO := Estatisticas(0, 0, 0, 0, 0, 0)

  // Terms of the sums in `calcularEstatisticas`: only processes with a finish stamp count.

  function UmSeRegistrado(p: Processo): int { if p.tempoFinalizacao != -1 then 1 else 0 }

  function EsperaRegistrada(p: Processo): int { if p.tempoFinalizacao != -1 then p.tempoEspera else 0 }

  function TurnaroundRegistrado(p: Processo): int { if p.tempoFinalizacao != -1 then p.TempoTurnaround() else 0 }

  function RespostaRegistrada(p: Processo): int
  {
    if p.tempoFinalizacao != -1 && p.tempoResposta != -1 then p.tempoResposta else 0
  }

  function UmSeUsaCPU(p: Processo): int { if p.tempoCPU > 0 then 1 else 0 }

  /** `std::max` over the finish stamps, starting from 0. */
  function MaxFinalizacao(ps: seq<Processo>): int
  {
    if ps == [] then 0
    else
      var m := MaxFinalizacao(ps[..|ps| - 1]);
      var f := ps[|ps| - 1].tempoFinalizacao;
      if f != -1 && m < f then f else m
  }

  /** What `calcularEstatisticas` computes from a process list. */
  function EstatisticasDe(ps: seq<Processo>): Estatisticas
  {
    var total := Soma(ps, UmSeRegistrado);
    if total > 0 then
      Estatisticas(Soma(ps, EsperaRegistrada), Soma(ps, TurnaroundRegistrado), Soma(ps, RespostaRegistrada),
                   Soma(ps, CPU), MaxFinalizacao(ps), total)
    else
      ESTATISTICAS_PADRAO
  }

  lemma {:induction false} MaxFinalizacaoNoRelogio(ps: seq<Processo>, t: int)
    requires t >= 0
    requires forall j :: 0 <= j < |ps| && ps[j].tempoFinalizacao != -1 ==> ps[j].tempoFinalizacao <= t
    ensures MaxFinalizacao(ps) <= t
    ensures (exists j :: 0 <= j < |ps| && ps[j].tempoFinalizacao == t) ==> MaxFinalizacao(ps) == t
  {
    if ps != [] {
      var n := |ps| - 1;
      MaxFinalizacaoNoRelogio(ps[..n], t);
      if exists j :: 0 <= j < |ps| && ps[j].tempoFinalizacao == t {
        var j :| 0 <= j < |ps| && ps[j].tempoFinalizacao == t;
        if j < n {
          assert ps[..n][j] == ps[j];
        }
      }
    }
  }

  /**
   * The statistics of a finished simulation: the throughput counts exactly the
   * processes that needed the CPU (a process with `tempoCPU == 0` never gets a
   * finish stamp); total turnaround is total waiting plus total CPU time; the
   * response times are non-negative and bounded by the waiting times; and the
   * run length is the final clock, positive and at least the total CPU time,
   * so the utilisation is at most 100% and never divides by zero.
   */
  lemma EstatisticasDeSimulacaoConcluida(ps: seq<Processo>, t: int)
    requires ConcluidaEm(ps, t)
    ensures EstatisticasDe(ps).throughput == Soma(ps, UmSeUsaCPU)
    ensures EstatisticasDe(ps).somaTurnaround == EstatisticasDe(ps).somaEspera + EstatisticasDe(ps).tempoCPUTotal
    ensures 0 <= EstatisticasDe(ps).somaResposta <= EstatisticasDe(ps).somaEspera
    ensures EstatisticasDe(ps).throughput > 0 ==>
              0 < EstatisticasDe(ps).tempoCPUTotal <= EstatisticasDe(ps).tempoTotalExecucao == t
  {
    forall j | 0 <= j < |ps|
      ensures UmSeRegistrado(ps[j]) == UmSeUsaCPU(ps[j])
      ensures TurnaroundRegistrado(ps[j]) == EsperaRegistrada(ps[j]) + CPU(ps[j])
      ensures 0 <= RespostaRegistrada(ps[j]) <= EsperaRegistrada(ps[j])
      ensures CPU(ps[j]) >= 0
      ensures ps[j].tempoFinalizacao != -1 ==> ps[j].tempoFinalizacao <= t
    {
      var p := ps[j];
      assert p.Coerente(t) && p.Terminou();
      if p.jaExecutou {
        TurnaroundDeProcessoConcluido(p, t);
      }
    }
    SomaIgual(ps, UmSeRegistrado, UmSeUsaCPU);
    SomaNaoNegativa(ps, UmSeRegistrado);
    SomaLinear(ps, EsperaRegistrada, CPU, TurnaroundRegistrado);
    SomaMonotona(ps, RespostaRegistrada, EsperaRegistrada);
    SomaNaoNegativa(ps, RespostaRegistrada);
    var total := Soma(ps, UmSeRegistrado);
    if total > 0 {
      SomaNaoNegativa(ps, CPU);
      if Soma(ps, CPU) == 0 {
        var k: nat :| k < |ps| && UmSeRegistrado(ps[k]) > 0 by {
          if forall k: nat :: k < |ps| ==> UmSeRegistrado(ps[k]) <= 0 {
            forall k | 0 <= k < |ps| ensures UmSeRegistrado(ps[k]) == 0 { }
            SomaNula(ps, UmSeRegistrado);
          }
        }
        SomaPositiva(ps, CPU, k);
      }
      MaxFinalizacaoNoRelogio(ps, t);
    }
  }
}
