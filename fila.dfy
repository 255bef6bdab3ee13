/**
 * The print spooler's job queue (fila.h, fila.c): a FIFO of print jobs with
 * its length and the two semaphore counters that bound it.
 *
 * The queue's mutex is dropped: every operation here is one atomic step. A
 * `sem_wait` is a precondition that its counter is positive (the call would
 * otherwise block until another thread posts), a `sem_post` an increment, and
 * the linked list of `NoFila` nodes from `inicio` to `fim` is the sequence of
 * the jobs it holds, front first.
 */
module Fila {

  const MAX_TRABALHOS := 100
  const MAX_IMPRESSORAS := 5
  const NOME_ARQUIVO_MAX := 50

  type byte = x: int | 0 <= x < 0x100
  type int32 = x: int | -0x8000_0000 <= x < 0x8000_0000

  /** `char nome_arquivo[NOME_ARQUIVO_MAX]`: exactly that many bytes. */
  type NomeArquivo = s: seq<byte> | |s| == NOME_ARQUIVO_MAX witness seq(50, _ => 0)

  datatype TrabalhoImpressao = TrabalhoImpressao(idJob: int32, nomeArquivo: NomeArquivo, numeroPaginas: int32)

  /**
   * `sizeof(TrabalhoImpressao)` with 4-byte `int` alignment: the id at offset
   * 0, the name at offset 4, two bytes of padding, the page count at offset 56.
   */
  const DESLOCAMENTO_PAGINAS := 4 + NOME_ARQUIVO_MAX + 2
  const TAMANHO_REGISTRO := DESLOCAMENTO_PAGINAS + 4

  // ----- the record as it crosses the pipe (little-endian, as on x86) -----

  function BytesDeInt32(x: int32): (r: seq<byte>)
    ensures |r| == 4
  {
    var u := if x < 0 then x + 0x1_0000_0000 else x;
    [u % 0x100, u / 0x100 % 0x100, u / 0x100 / 0x100 % 0x100, u / 0x100 / 0x100 / 0x100]
  }

  function Int32DeBytes(b: seq<byte>): int32
    requires |b| == 4
  {
    var u := b[0] as int + 0x100 * (b[1] as int + 0x100 * (b[2] as int + 0x100 * b[3] as int));
    if u >= 0x8000_0000 then u - 0x1_0000_0000 else u
  }

  lemma DivisaoPorByte(a: int, q: int)
    requires 0 <= a < 0x100
    ensures (a + 0x100 * q) % 0x100 == a && (a + 0x100 * q) / 0x100 == q
  {
  }

  lemma Int32Ida(x: int32)
    ensures Int32DeBytes(BytesDeInt32(x)) == x
  {
  }

  lemma Int32Volta(b: seq<byte>)
    requires |b| == 4
    ensures BytesDeInt32(Int32DeBytes(b)) == b
  {
    var u2 := b[2] as int + 0x100 * b[3] as int;
    var u1 := b[1] as int + 0x100 * u2;
    DivisaoPorByte(b[0], u1);
    DivisaoPorByte(b[1], u2);
    DivisaoPorByte(b[2], b[3]);
  }

  /** The bytes `write` sends for a job; the padding is written as zeros. */
  function Codificar(t: TrabalhoImpressao): (r: seq<byte>)
    ensures |r| == TAMANHO_REGISTRO
  {
    BytesDeInt32(t.idJob) + t.nomeArquivo + [0, 0] + BytesDeInt32(t.numeroPaginas)
  }

  /** The job a full `read` of `TAMANHO_REGISTRO` bytes fills in; the padding is ignored. */
  function Decodificar(b: seq<byte>): TrabalhoImpressao
    requires |b| == TAMANHO_REGISTRO
  {
    TrabalhoImpressao(Int32DeBytes(b[..4]), b[4..4 + NOME_ARQUIVO_MAX],
                      Int32DeBytes(b[DESLOCAMENTO_PAGINAS..]))
  }

  /** Every job survives the pipe unchanged. */
  lemma DecodificarCodificar(t: TrabalhoImpressao)
    ensures Decodificar(Codificar(t)) == t
  {
    var b := Codificar(t);
    assert b[..4] == BytesDeInt32(t.idJob);
    assert b[4..4 + NOME_ARQUIVO_MAX] == t.nomeArquivo;
    assert b[DESLOCAMENTO_PAGINAS..] == BytesDeInt32(t.numeroPaginas);
    Int32Ida(t.idJob);
    Int32Ida(t.numeroPaginas);
  }

  /** A record with zero padding is the encoding of the job it decodes to. */
  lemma CodificarDecodificar(b: seq<byte>)
    requires |b| == TAMANHO_REGISTRO && b[4 + NOME_ARQUIVO_MAX] == 0 && b[5 + NOME_ARQUIVO_MAX] == 0
    ensures Codificar(Decodificar(b)) == b
  {
    Int32Volta(b[..4]);
    Int32Volta(b[DESLOCAMENTO_PAGINAS..]);
    assert b == b[..4] + b[4..4 + NOME_ARQUIVO_MAX] + [0, 0] + b[DESLOCAMENTO_PAGINAS..];
  }

  // ----- the queue -----

  class FilaImpressao {
    /** The jobs from `inicio` to `fim`. */
    var trabalhos: seq<TrabalhoImpressao>
    var tamanho: int
    /** `sem_t vazio`: jobs available to the printers. */
    var vazio: int
    /** `sem_t cheio`: free slots. */
    var cheio: int

    /**
     * What `inicializar_fila` establishes and `enfileirar_trabalho` and
     * `desenfileirar_trabalho` keep: `tamanho` counts the list, `vazio` counts
     * the jobs and `cheio` the free slots.
     */
    ghost predicate Valid()
      reads this
    {
      && tamanho == |trabalhos|
      && vazio == tamanho
      && vazio + cheio == MAX_TRABALHOS
      && cheio >= 0
    }

    /**
     * What still holds once `handler_sinal` has posted `vazio` without adding
     * jobs: `vazio` may exceed the number of jobs.
     */
    ghost predicate Coerente()
      reads this
    {
      && tamanho == |trabalhos|
      && vazio >= tamanho
      && tamanho + cheio == MAX_TRABALHOS
      && cheio >= 0
    }

    /** `inicializar_fila`. */
    constructor ()
      ensures trabalhos == [] && tamanho == 0 && vazio == 0 && cheio == MAX_TRABALHOS
      ensures Valid()
    {
      trabalhos, tamanho := [], 0;
      vazio, cheio := 0, MAX_TRABALHOS;
    }

    /** A valid queue holds between 0 and `MAX_TRABALHOS` jobs, and is empty exactly when `tamanho` is 0. */
    lemma Limites()
      requires Valid()
      ensures 0 <= tamanho <= MAX_TRABALHOS
      ensures trabalhos == [] <==> tamanho == 0
      ensures Coerente()
    {
    }

    /**
     * `enfileirar_trabalho`, after its `sem_wait(&cheio)` has returned:
     * `falhaAlocacao` is `malloc` returning NULL.
     */
    method Enfileirar(trabalho: TrabalhoImpressao, falhaAlocacao: bool) returns (r: int)
      requires cheio > 0
      modifies this
      ensures r == (if falhaAlocacao then -1 else 0)
      ensures falhaAlocacao ==>
                trabalhos == old(trabalhos) && tamanho == old(tamanho) && cheio == old(cheio) && vazio == old(vazio)
      ensures !falhaAlocacao ==>
                trabalhos == old(trabalhos) + [trabalho] && tamanho == old(tamanho) + 1
                && cheio == old(cheio) - 1 && vazio == old(vazio) + 1
      ensures old(Valid()) ==> Valid()
      ensures old(Coerente()) ==> Coerente()
    {
      cheio := cheio - 1;
      if falhaAlocacao {
        cheio := cheio + 1;
        return -1;
      }
      trabalhos := trabalhos + [trabalho];
      tamanho := tamanho + 1;
      vazio := vazio + 1;
      return 0;
    }

    /**
     * `desenfileirar_trabalho`, after its `sem_wait(&vazio)` has returned:
     * `destino` is what `*trabalho` held before the call.
     */
    method Desenfileirar(destino: TrabalhoImpressao) returns (r: int, trabalho: TrabalhoImpressao)
      requires vazio > 0
      modifies this
      ensures r == (if old(trabalhos) == [] then -1 else 0)
      ensures old(trabalhos) == [] ==>
                trabalho == destino && trabalhos == old(trabalhos)
                && tamanho == old(tamanho) && vazio == old(vazio) && cheio == old(cheio)
      ensures old(trabalhos) != [] ==>
                trabalho == old(trabalhos[0]) && trabalhos == old(trabalhos[1..])
                && tamanho == old(tamanho) - 1 && vazio == old(vazio) - 1 && cheio == old(cheio) + 1
      ensures old(Valid()) ==> Valid()
      ensures old(Coerente()) ==> Coerente()
    {
      vazio := vazio - 1;
      if trabalhos == [] {
        vazio := vazio + 1;
        return -1, destino;
      }
      trabalho := trabalhos[0];
      trabalhos := trabalhos[1..];
      tamanho := tamanho - 1;
      cheio := cheio + 1;
      return 0, trabalho;
    }

    /**
     * `destruir_fila`: the list emptied; the walk that frees each node has
     * nothing to do on a sequence, and the counters are left to `sem_destroy`.
     */
    method Destruir()
      modifies this
      ensures trabalhos == [] && tamanho == 0
      ensures vazio == old(vazio) && cheio == old(cheio)
    {
      trabalhos, tamanho := [], 0;
    }
  }

  /** On a valid queue `desenfileirar_trabalho` never takes its empty-list branch. */
  lemma DesenfileirarValidaNaoFalha(f: FilaImpressao)
    requires f.Valid() && f.vazio > 0
    ensures f.trabalhos != []
  {
  }
}
