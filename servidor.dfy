/**
 * The spooler server's decisions (servidor.c): what `processar_trabalhos` does
 * with each outcome of `read` on the pipe, the state change of
 * `handler_sinal`, one iteration of a printer thread, and the order of
 * `finalizar_servidor`.
 *
 * Threads and the pipe are not modelled. A `read` is an abstract outcome (its
 * byte count, the job a full record decodes to, and whether the allocation in
 * `enfileirar_trabalho` or the reopen of the pipe would fail), and the signal
 * is an event among them, handled as one atomic step.
 */
module Servidor {
  import opened Fila

  /** The branch of `processar_trabalhos` a `read` result takes. */
  datatype Desfecho = Registro | FimDoPipe | ErroDeLeitura | Parcial

  function Classificar(bytesLidos: int): (d: Desfecho)
    ensures d == Registro <==> bytesLidos == TAMANHO_REGISTRO
    ensures d == FimDoPipe <==> bytesLidos == 0
    ensures d == ErroDeLeitura <==> bytesLidos == -1
    ensures d == Parcial <==> bytesLidos !in {TAMANHO_REGISTRO, 0, -1}
  {
    if bytesLidos == TAMANHO_REGISTRO then Registro
    else if bytesLidos == 0 then FimDoPipe
    else if bytesLidos == -1 then ErroDeLeitura
    else Parcial
  }

  datatype Evento =
    | Leitura(bytesLidos: int, trabalho: TrabalhoImpressao, falhaAlocacao: bool, reaberturaOk: bool)
    | Sinal

  /** The event ends the ingestion loop. */
  predicate Encerra(e: Evento)
  {
    match e
    case Sinal => true
    case Leitura(b, _, _, ok) =>
      var d := Classificar(b);
      d == ErroDeLeitura || (d == FimDoPipe && !ok)
  }

  /** The job one event puts in the queue: a full record whose allocation succeeds. */
  function Enfileira(e: Evento): seq<TrabalhoImpressao>
  {
    if e.Leitura? && Classificar(e.bytesLidos) == Registro && !e.falhaAlocacao then [e.trabalho] else []
  }

  /** The jobs the loop hands to `enfileirar_trabalho` from these events, failed allocations included. */
  function Recebidos(eventos: seq<Evento>): seq<Evento>
  {
    if eventos == [] then []
    else if Encerra(eventos[0]) then []
    else if eventos[0].Leitura? && Classificar(eventos[0].bytesLidos) == Registro then
      [eventos[0]] + Recebidos(eventos[1..])
    else Recebidos(eventos[1..])
  }

  /**
   * What the ingestion loop does with a run of read outcomes: how many it
   * consumes, the jobs it enqueues, in order, and whether the signal arrived.
   */
  function Ingestao(eventos: seq<Evento>): (r: (nat, seq<TrabalhoImpressao>, bool))
    ensures r.0 <= |eventos|
    ensures |r.1| <= |Recebidos(eventos)|
  {
    if eventos == [] then (0, [], false)
    else
      var e := eventos[0];
      if e.Sinal? then (1, [], true)
      else if Encerra(e) then (1, [], false)
      else
        var resto := Ingestao(eventos[1..]);
        (1 + resto.0, Enfileira(e) + resto.1, resto.2)
  }

  /** Nothing after the event that ends the loop is ever enqueued or even read. */
  lemma {:induction false} NadaAposEncerrar(antes: seq<Evento>, e: Evento, depois: seq<Evento>)
    requires Encerra(e)
    ensures Ingestao(antes + [e] + depois) == Ingestao(antes + [e])
    ensures Ingestao(antes + [e]).0 <= |antes| + 1
  {
    if antes != [] {
      assert (antes + [e] + depois)[1..] == antes[1..] + [e] + depois;
      assert (antes + [e])[1..] == antes[1..] + [e];
      NadaAposEncerrar(antes[1..], e, depois);
    } else {
      assert (antes + [e] + depois)[0] == e;
    }
  }

  /** Partial records and pipe closures that reopen are consumed and change nothing. */
  lemma {:induction false} LeiturasSemEfeito(ignoradas: seq<Evento>, depois: seq<Evento>)
    requires forall k :: 0 <= k < |ignoradas| ==>
               ignoradas[k].Leitura? && !Encerra(ignoradas[k]) && Classificar(ignoradas[k].bytesLidos) != Registro
    ensures Ingestao(ignoradas + depois).1 == Ingestao(depois).1
    ensures Ingestao(ignoradas + depois).2 == Ingestao(depois).2
    ensures Ingestao(ignoradas + depois).0 == |ignoradas| + Ingestao(depois).0
  {
    if ignoradas != [] {
      assert (ignoradas + depois)[1..] == ignoradas[1..] + depois;
      LeiturasSemEfeito(ignoradas[1..], depois);
    } else {
      assert ignoradas + depois == depois;
    }
  }

  /** How the loop's summary of the events from `i` on follows from the event at `i`. */
  lemma IngestaoPasso(eventos: seq<Evento>, i: nat)
    requires i < |eventos|
    ensures var e, r, resto := eventos[i], Ingestao(eventos[i..]), Ingestao(eventos[i + 1..]);
      && (Encerra(e) ==> r == (1, [], e.Sinal?) && Recebidos(eventos[i..]) == [])
      && (!Encerra(e) ==>
            && r.0 == 1 + resto.0 && r.2 == resto.2
            && r.1 == Enfileira(e) + resto.1
            && |Recebidos(eventos[i..])|
               == (if Classificar(e.bytesLidos) == Registro then 1 else 0) + |Recebidos(eventos[i + 1..])|)
  {
    assert eventos[i..][0] == eventos[i];
    assert eventos[i..][1..] == eventos[i + 1..];
  }

  lemma Associa<T>(a: seq<T>, b: seq<T>, c: seq<T>)
    ensures a + (b + c) == (a + b) + c
  {
  }

  /** One iteration of `thread_impressora`. */
  datatype Decisao = Imprimir(trabalho: TrabalhoImpressao) | Repetir | Parar

  class Servidor {
    const fila: FilaImpressao
    /** `servidor_ativo`, 1 or 0. */
    var servidorAtivo: bool

    /** `inicializar_servidor`, with the threads left out: an empty queue, the server active. */
    constructor ()
      ensures servidorAtivo && fila.Valid() && fila.trabalhos == [] && fresh(fila)
    {
      fila := new FilaImpressao();
      servidorAtivo := true;
    }

    /**
     * `handler_sinal`: the server is marked inactive and `vazio` is posted
     * once per printer so that blocked printers wake up. Nothing guards
     * against a second signal, which posts again.
     */
    method HandlerSinal()
      modifies this, fila
      ensures !servidorAtivo
      ensures fila.vazio == old(fila.vazio) + MAX_IMPRESSORAS
      ensures fila.trabalhos == old(fila.trabalhos) && fila.tamanho == old(fila.tamanho)
      ensures fila.cheio == old(fila.cheio)
      ensures old(fila.Coerente()) ==> fila.Coerente()
    {
      servidorAtivo := false;
      var i := 0;
      while i < MAX_IMPRESSORAS
        invariant 0 <= i <= MAX_IMPRESSORAS
        invariant fila.vazio == old(fila.vazio) + i
        invariant fila.trabalhos == old(fila.trabalhos) && fila.tamanho == old(fila.tamanho)
        invariant fila.cheio == old(fila.cheio) && !servidorAtivo
      {
        fila.vazio := fila.vazio + 1;
        i := i + 1;
      }
    }

    /**
     * The `while (servidor_ativo)` loop of `processar_trabalhos`, after the
     * pipe was opened (`abertura`; if that failed nothing happens), over the
     * read outcomes `eventos`; `sem_wait(&cheio)` in `enfileirar_trabalho`
     * must not block, so there is a free slot for every full record.
     */
    method ProcessarTrabalhos(abertura: bool, eventos: seq<Evento>) returns (consumidos: nat)
      requires servidorAtivo && fila.Coerente()
      requires |Recebidos(eventos)| <= fila.cheio
      modifies this, fila
      ensures fila.Coerente()
      ensures !abertura ==> consumidos == 0 && fila.trabalhos == old(fila.trabalhos) && servidorAtivo
      ensures abertura ==> && consumidos == Ingestao(eventos).0
                           && fila.trabalhos == old(fila.trabalhos) + Ingestao(eventos).1
                           && servidorAtivo == !Ingestao(eventos).2
      ensures fila.vazio == old(fila.vazio) + (|fila.trabalhos| - |old(fila.trabalhos)|)
                            + (if abertura && Ingestao(eventos).2 then MAX_IMPRESSORAS else 0)
    {
      if !abertura {
        return 0;
      }
      var i := 0;
      var continuar := true;
      ghost var total := Ingestao(eventos);
      ghost var inicial := fila.trabalhos;
      ghost var enfileirados: seq<TrabalhoImpressao> := [];
      ghost var vazio0 := fila.vazio;
      while continuar && servidorAtivo && i < |eventos|
        invariant 0 <= i <= |eventos| && fila.Coerente()
        invariant fila.trabalhos == inicial + enfileirados
        invariant fila.vazio == vazio0 + |enfileirados| + (if servidorAtivo then 0 else MAX_IMPRESSORAS)
        invariant continuar && servidorAtivo ==>
                    && i + Ingestao(eventos[i..]).0 == total.0
                    && enfileirados + Ingestao(eventos[i..]).1 == total.1
                    && Ingestao(eventos[i..]).2 == total.2
                    && |Recebidos(eventos[i..])| <= fila.cheio
        invariant !(continuar && servidorAtivo) ==>
                    && i == total.0 && enfileirados == total.1 && servidorAtivo == !total.2
        decreases |eventos| - i
      {
        continuar := ConsumirEvento(eventos, i, total, inicial, enfileirados, vazio0);
        enfileirados := enfileirados + Enfileira(eventos[i]);
        i := i + 1;
      }
      if continuar && servidorAtivo {
        assert eventos[i..] == [];
      }
      return i;
    }

    /** One iteration of the loop of `ProcessarTrabalhos`: the event at `i` handled, and the loop's summary carried on. */
    method ConsumirEvento(eventos: seq<Evento>, i: nat, ghost total: (nat, seq<TrabalhoImpressao>, bool),
                          ghost inicial: seq<TrabalhoImpressao>, ghost enfileirados: seq<TrabalhoImpressao>,
                          ghost vazio0: int) returns (continuar: bool)
      requires i < |eventos| && servidorAtivo && fila.Coerente()
      requires fila.trabalhos == inicial + enfileirados && fila.vazio == vazio0 + |enfileirados|
      requires i + Ingestao(eventos[i..]).0 == total.0
      requires enfileirados + Ingestao(eventos[i..]).1 == total.1
      requires Ingestao(eventos[i..]).2 == total.2
      requires |Recebidos(eventos[i..])| <= fila.cheio
      modifies this, fila
      ensures fila.Coerente()
      ensures var enf := enfileirados + Enfileira(eventos[i]);
              && fila.trabalhos == inicial + enf
              && fila.vazio == vazio0 + |enf| + (if servidorAtivo then 0 else MAX_IMPRESSORAS)
              && (continuar && servidorAtivo ==>
                    && i + 1 + Ingestao(eventos[i + 1..]).0 == total.0
                    && enf + Ingestao(eventos[i + 1..]).1 == total.1
                    && Ingestao(eventos[i + 1..]).2 == total.2
                    && |Recebidos(eventos[i + 1..])| <= fila.cheio)
              && (!(continuar && servidorAtivo) ==>
                    && i + 1 == total.0 && enf == total.1 && servidorAtivo == !total.2)
    {
      var e := eventos[i];
      IngestaoPasso(eventos, i);
      Associa(enfileirados, Enfileira(e), Ingestao(eventos[i + 1..]).1);
      Associa(inicial, enfileirados, Enfileira(e));
      continuar := TratarEvento(e);
    }

    /** The body of `processar_trabalhos`' loop for one event; false when it breaks out. */
    method TratarEvento(e: Evento) returns (continuar: bool)
      requires servidorAtivo && fila.Coerente()
      requires e.Leitura? && Classificar(e.bytesLidos) == Registro ==> fila.cheio > 0
      modifies this, fila
      ensures fila.Coerente()
      ensures continuar == (e.Sinal? || !Encerra(e))
      ensures servidorAtivo == e.Leitura?
      ensures fila.trabalhos == old(fila.trabalhos) + Enfileira(e)
      ensures fila.cheio == old(fila.cheio) - |Enfileira(e)|
      ensures fila.vazio == old(fila.vazio) + |Enfileira(e)| + (if e.Sinal? then MAX_IMPRESSORAS else 0)
    {
      continuar := true;
      if e.Sinal? {
        HandlerSinal();
        return;
      }
      match Classificar(e.bytesLidos)
      case Registro =>
        var _ := fila.Enfileirar(e.trabalho, e.falhaAlocacao);
      case FimDoPipe =>
        if !e.reaberturaOk {
          continuar := false;
        }
      case ErroDeLeitura =>
        continuar := false;
      case Parcial =>
    }

    /**
     * One iteration of `thread_impressora`'s loop: the test of
     * `servidor_ativo`, then `desenfileirar_trabalho`. `sinalNaEspera` says
     * that the signal arrives while the printer is blocked in `sem_wait`,
     * which otherwise needs a job announced on `vazio`.
     */
    method IteracaoImpressora(sinalNaEspera: bool) returns (d: Decisao)
      requires fila.Coerente()
      requires servidorAtivo && !sinalNaEspera ==> fila.vazio > 0
      modifies this, fila
      ensures fila.Coerente()
      ensures !old(servidorAtivo) ==> d == Parar && fila.trabalhos == old(fila.trabalhos)
      ensures old(servidorAtivo) && old(fila.trabalhos) != [] ==>
                d == Imprimir(old(fila.trabalhos[0])) && fila.trabalhos == old(fila.trabalhos[1..])
      ensures old(servidorAtivo) && old(fila.trabalhos) == [] ==>
                d == (if sinalNaEspera then Parar else Repetir) && fila.trabalhos == []
      ensures servidorAtivo == (old(servidorAtivo) && !sinalNaEspera)
      ensures var retirado := if old(servidorAtivo) && old(fila.trabalhos) != [] then 1 else 0;
              && fila.vazio == old(fila.vazio) + (if old(servidorAtivo) && sinalNaEspera then MAX_IMPRESSORAS else 0) - retirado
              && fila.cheio == old(fila.cheio) + retirado
    {
      if !servidorAtivo {
        return Parar;
      }
      if sinalNaEspera {
        HandlerSinal();
      }
      var destino := TrabalhoImpressao(0, seq(NOME_ARQUIVO_MAX, _ => 0), 0);
      var r, trabalho := fila.Desenfileirar(destino);
      if r == 0 {
        return Imprimir(trabalho);
      }
      if !servidorAtivo {
        return Parar;
      }
      return Repetir;
    }

    /**
     * `finalizar_servidor` once every printer has been joined: the queue is
     * destroyed, and the jobs still in it are never printed.
     */
    method FinalizarServidor() returns (descartados: seq<TrabalhoImpressao>)
      modifies fila
      ensures descartados == old(fila.trabalhos)
      ensures fila.trabalhos == [] && fila.tamanho == 0
    {
      descartados := fila.trabalhos;
      fila.Destruir();
    }
  }

  /** With a full record for every event and no failures, every job is enqueued, in order. */
  lemma {:induction false} IngestaoSemFalhas(eventos: seq<Evento>)
    requires forall k :: 0 <= k < |eventos| ==>
               eventos[k].Leitura? && eventos[k].bytesLidos == TAMANHO_REGISTRO && !eventos[k].falhaAlocacao
    ensures Ingestao(eventos).0 == |eventos| && !Ingestao(eventos).2
    ensures Ingestao(eventos).1 == seq(|eventos|, k requires 0 <= k < |eventos| => eventos[k].trabalho)
  {
    if eventos != [] {
      IngestaoSemFalhas(eventos[1..]);
    }
  }
}
