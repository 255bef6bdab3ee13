/**
 * A process of the CPU-scheduling simulator (m2-escalonadores, Processo.h and
 * Processo.cpp).
 *
 * The C++ `Processo` is a value type: schedulers keep it by value in vectors and
 * copy those vectors wholesale, so it is a datatype here. A getter is the
 * field selector (`p.tempoRestante`), a setter is a field update
 * (`p.(tempoRestante := t)`), and the two members that change the object in
 * place, `executar` and `reiniciar`, return the updated value.
 */
module Processos {

  datatype Processo = Processo(
    pid: int,
    nome: string,
    tempoChegada: int,
    tempoCPU: int,
    tempoRestante: int,
    /** A lower value means a higher priority. */
    prioridade: int,
    tempoInicioExecucao: int,
    tempoFinalizacao: int,
    tempoEspera: int,
    tempoResposta: int,
    jaExecutou: bool)
  {
    /** Identity: the fields that no operation of the simulator ever changes. */
    predicate MesmaIdentidade(outro: Processo)
    {
      && pid == outro.pid
      && nome == outro.nome
      && tempoChegada == outro.tempoChegada
      && tempoCPU == outro.tempoCPU
      && prioridade == outro.prioridade
    }

    /** The timing fields as the constructor leaves them. */
    predicate EmEstadoInicial()
    {
      && tempoRestante == tempoCPU
      && tempoInicioExecucao == -1
      && tempoFinalizacao == -1
      && tempoEspera == 0
      && tempoResposta == -1
      && !jaExecutou
    }

    /** `terminou`: finished exactly when no CPU time remains. */
    predicate Terminou()
    {
      tempoRestante == 0
    }

    /**
     * `executar`: one unit of CPU time. Only the remaining time changes; the
     * flag says whether the process has now finished, except that a negative
     * remaining time is reported as finished although `Terminou` never holds.
     */
    function Executar(): (r: (Processo, bool))
      ensures r.0.MesmaIdentidade(this)
      ensures r.0 == this.(tempoRestante := r.0.tempoRestante)
      ensures tempoRestante > 0 ==> r.0.tempoRestante == tempoRestante - 1
      ensures tempoRestante <= 0 ==> r.0 == this
      ensures tempoRestante >= 0 ==> (r.1 <==> r.0.Terminou())
      ensures tempoRestante < 0 ==> r.1 && !r.0.Terminou()
    {
      if tempoRestante > 0 then
        var p := this.(tempoRestante := tempoRestante - 1);
        (p, p.tempoRestante == 0)
      else
        (this, true)
    }

    /** `getTempoTurnaround`: -1 while no finish time is recorded. */
    function TempoTurnaround(): int
    {
      if tempoFinalizacao == -1 then -1 else tempoFinalizacao - tempoChegada
    }

    /** `reiniciar`: back to the constructor's timing fields, identity kept. */
    function Reiniciar(): (r: Processo)
      ensures r.MesmaIdentidade(this) && r.EmEstadoInicial()
    {
      this.(tempoRestante := tempoCPU, tempoInicioExecucao := -1,
            tempoFinalizacao := -1, tempoEspera := 0, tempoResposta := -1,
            jaExecutou := false)
    }

    /**
     * The block every policy runs when it dispatches a process: the first
     * dispatch records the start and the response time, later ones change
     * nothing.
     */
    function MarcarInicio(t: int): (r: Processo)
      ensures r.MesmaIdentidade(this) && r.tempoRestante == tempoRestante
      ensures r.jaExecutou
      ensures jaExecutou ==> r == this
      ensures !jaExecutou ==> r.tempoInicioExecucao == t && r.tempoResposta + tempoChegada == t
    {
      if jaExecutou then this
      else this.(tempoInicioExecucao := t, tempoResposta := t - tempoChegada, jaExecutou := true)
    }

    /**
     * The block every policy runs when a process has finished: the finish time
     * is the clock, the waiting time is turnaround minus CPU time.
     */
    function Carimbar(t: int): (r: Processo)
      ensures r.MesmaIdentidade(this) && r.tempoRestante == tempoRestante && r.jaExecutou == jaExecutou
      ensures r.tempoFinalizacao == t
      ensures r.tempoEspera == r.TempoTurnaround() - tempoCPU
    {
      var q := this.(tempoFinalizacao := t);
      q.(tempoEspera := q.TempoTurnaround() - tempoCPU)
    }

    /**
     * What holds of a process at clock `t` while a simulation runs, apart from
     * the finish stamp: remaining time within [0, CPU time]; untouched until
     * the first dispatch; once dispatched, started after arrival and no more
     * units executed than clock ticks since the start.
     */
    predicate EmCurso(t: int)
    {
      && 0 <= tempoRestante <= tempoCPU
      && (!jaExecutou ==>
            && tempoRestante == tempoCPU
            && tempoInicioExecucao == -1 && tempoResposta == -1
            && tempoFinalizacao == -1 && tempoEspera == 0)
      && (jaExecutou ==>
            && 0 < tempoCPU
            && tempoChegada <= tempoInicioExecucao <= t
            && 0 <= tempoInicioExecucao
            && tempoResposta == tempoInicioExecucao - tempoChegada
            && tempoCPU - tempoRestante <= t - tempoInicioExecucao)
      && (tempoRestante > 0 ==> tempoFinalizacao == -1 && tempoEspera == 0)
    }

    /** `EmCurso`, and a finished process carries a finish stamp no later than `t`. */
    predicate Coerente(t: int)
    {
      && EmCurso(t)
      && (jaExecutou && tempoRestante == 0 ==>
            && tempoInicioExecucao + tempoCPU <= tempoFinalizacao <= t
            && tempoEspera == tempoFinalizacao - tempoChegada - tempoCPU)
    }
  }

  /** The constructor, with the default priority 0. */
  function NovoProcesso(pid: int, nome: string, tempoChegada: int, tempoCPU: int,
                        prioridade: int := 0): (p: Processo)
    ensures p.EmEstadoInicial()
    ensures p.pid == pid && p.nome == nome && p.tempoChegada == tempoChegada
    ensures p.tempoCPU == tempoCPU && p.prioridade == prioridade
  {
    Processo(pid, nome, tempoChegada, tempoCPU, tempoCPU, prioridade, -1, -1, 0, -1, false)
  }

  /** `reiniciar` restores exactly the constructor's value, whatever happened before. */
  lemma ReiniciarRestauraConstrutor(p: Processo)
    ensures p.Reiniciar() == NovoProcesso(p.pid, p.nome, p.tempoChegada, p.tempoCPU, p.prioridade)
    ensures p.Reiniciar().Reiniciar() == p.Reiniciar()
    ensures p.EmEstadoInicial() ==> p.Reiniciar() == p
  {
  }

  /** Running one unit of an unfinished, dispatched process keeps it `EmCurso` one tick later. */
  lemma ExecutarPreserva(p: Processo, t: int)
    requires p.EmCurso(t) && p.jaExecutou && !p.Terminou()
    ensures p.Executar().0.EmCurso(t + 1)
    ensures p.Executar().1 == p.Executar().0.Terminou()
  {
  }

  /** Stamping a finished, dispatched process at `t` makes it `Coerente`. */
  lemma CarimbarPreserva(p: Processo, t: int)
    requires p.EmCurso(t) && p.jaExecutou && p.Terminou() && t >= 0
    ensures p.Carimbar(t).Coerente(t)
  {
  }

  /** A consistent process stays consistent as the clock advances. */
  lemma CoerenteMonotono(p: Processo, t: int, t': int)
    requires p.Coerente(t) && t <= t'
    ensures p.Coerente(t')
  {
  }

  /**
   * A finished, dispatched, consistent process: turnaround is waiting time plus
   * CPU time, and neither the response time nor the waiting time is negative;
   * the process waited at least as long as it took to first get the CPU.
   */
  lemma TurnaroundDeProcessoConcluido(p: Processo, t: int)
    requires p.Coerente(t) && p.Terminou() && p.jaExecutou
    ensures p.TempoTurnaround() == p.tempoEspera + p.tempoCPU
    ensures 0 <= p.tempoResposta <= p.tempoEspera
    ensures p.TempoTurnaround() >= p.tempoCPU > 0
  {
  }

  /** The process after `k` calls of `executar`. */
  function ExecutadoVezes(p: Processo, k: nat): Processo
  {
    if k == 0 then p else ExecutadoVezes(p, k - 1).Executar().0
  }

  /**
   * From a non-negative remaining time, `terminou` first holds after exactly
   * that many calls of `executar`, each taking one unit off.
   */
  lemma {:induction false} TerminaAposRestante(p: Processo, k: nat)
    requires 0 <= k <= p.tempoRestante
    ensures ExecutadoVezes(p, k).tempoRestante == p.tempoRestante - k
    ensures ExecutadoVezes(p, k).MesmaIdentidade(p)
    ensures ExecutadoVezes(p, k).Terminou() <==> k == p.tempoRestante
    decreases k
  {
    if k > 0 {
      TerminaAposRestante(p, k - 1);
    }
  }
}
