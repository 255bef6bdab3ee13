/**
 * How `Simulador::carregarProcessosArquivo` (Simulador.cpp) reads a process
 * file: the header test on the first line, and the extraction
 * `iss >> pid >> nome >> tempoChegada >> tempoCPU`, then `iss >> prioridade`,
 * on each later line.
 *
 * A formatted extraction from a `std::istringstream` is modelled on the
 * line's characters and a position: skip whitespace (`isspace` in the C
 * locale), then read the longest token of the kind extracted. An extraction
 * that fails makes every later one fail, which is the `Option` chaining.
 */
module Leitura {
  import opened Wrappers
  import opened Processos

  /** `isspace` in the C locale. */
  predicate EhEspaco(c: char)
  {
    c == ' ' || c == '\t' || c == '\n' || c == '\U{B}' || c == '\U{C}' || c == '\r'
  }

  predicate EhDigito(c: char)
  {
    '0' <= c <= '9'
  }

  /** The characters of the header test's `find_first_of` set. */
  predicate EhLetra(c: char)
  {
    'A' <= c <= 'Z' || 'a' <= c <= 'z'
  }

  predicate ContemLetra(s: string)
  {
    exists k :: 0 <= k < |s| && EhLetra(s[k])
  }

  /** `r` is what is left of `s` once some of its first characters have been consumed. */
  predicate Sufixo(r: string, s: string)
  {
    |r| <= |s| && r == s[|s| - |r|..]
  }

  /** What is left of `s` once its leading whitespace is skipped. */
  function PularEspacos(s: string): (r: string)
    ensures |r| <= |s|
    ensures r == [] || !EhEspaco(r[0])
  {
    if s != [] && EhEspaco(s[0]) then PularEspacos(s[1..]) else s
  }

  /**
   * The digits `s` starts with, accumulated onto `acc` most significant
   * first, and what follows them.
   */
  function AcumularDigitos(s: string, acc: int): (r: (int, string))
    ensures |r.1| <= |s| && (|r.1| < |s| <==> s != [] && EhDigito(s[0]))
    ensures r.1 == [] || !EhDigito(r.1[0])
  {
    if s != [] && EhDigito(s[0]) then AcumularDigitos(s[1..], 10 * acc + ValorDigito(s[0]))
    else (acc, s)
  }

  /** The non-whitespace characters `s` starts with, and what follows them. */
  function SepararPalavra(s: string): (r: (string, string))
    ensures r.0 + r.1 == s
    ensures forall k :: 0 <= k < |r.0| ==> !EhEspaco(r.0[k])
    ensures r.1 == [] || EhEspaco(r.1[0])
  {
    if s != [] && !EhEspaco(s[0]) then
      var r := SepararPalavra(s[1..]);
      assert [s[0]] + r.0 + r.1 == s;
      ([s[0]] + r.0, r.1)
    else ([], s)
  }

  function ValorDigito(c: char): nat
    requires EhDigito(c)
  {
    c as int - '0' as int
  }

  /** The text after an optional sign. */
  function SemSinal(t: string): (u: string)
    ensures |t| - 1 <= |u| <= |t|
  {
    if t != [] && (t[0] == '+' || t[0] == '-') then t[1..] else t
  }

  /**
   * The number a formatted `int` extraction reads once whitespace is skipped:
   * an optional sign, then at least one digit; the value and what is left
   * after the last digit.
   */
  function LerNumero(t: string): (r: Option<(int, string)>)
    ensures var u := SemSinal(t); r.None? <==> u == [] || !EhDigito(u[0])
    ensures r.Some? ==> |r.value.1| < |t|
    ensures r.Some? ==> r.value.1 == [] || !EhDigito(r.value.1[0])
  {
    var u := SemSinal(t);
    if u == [] || !EhDigito(u[0]) then None
    else
      var (v, resto) := AcumularDigitos(u, 0);
      Some((if t[0] == '-' then -v else v, resto))
  }

  /**
   * `iss >> n` for an `int`: whitespace skipped, then a number. It fails
   * exactly when no digit follows the whitespace and the optional sign; on
   * success it consumes at least one character and stops before a non-digit.
   */
  function LerInteiro(s: string): (r: Option<(int, string)>)
    ensures var u := SemSinal(PularEspacos(s)); r.None? <==> u == [] || !EhDigito(u[0])
    ensures r.Some? ==> |r.value.1| < |s|
    ensures r.Some? ==> r.value.1 == [] || !EhDigito(r.value.1[0])
  {
    LerNumero(PularEspacos(s))
  }

  /**
   * `iss >> nome` for a `std::string`: whitespace, then one or more
   * non-whitespace characters; the word and what is left of the line.
   */
  function LerPalavra(s: string): (r: Option<(string, string)>)
    ensures r.None? <==> PularEspacos(s) == []
    ensures r.Some? ==> && r.value.0 != []
                        && (forall k :: 0 <= k < |r.value.0| ==> !EhEspaco(r.value.0[k]))
                        && (r.value.1 == [] || EhEspaco(r.value.1[0]))
                        && PularEspacos(s) == r.value.0 + r.value.1
  {
    var t := PularEspacos(s);
    if t == [] then None else Some(SepararPalavra(t))
  }

  lemma SufixoTransitivo(a: string, b: string, c: string)
    requires Sufixo(a, b) && Sufixo(b, c)
    ensures Sufixo(a, c)
  {
    assert c[|c| - |b|..][|b| - |a|..] == c[|c| - |a|..];
  }

  /** Skipping whitespace consumes a prefix of `s` made only of whitespace. */
  lemma {:induction false} PularEspacosConsome(s: string)
    ensures Sufixo(PularEspacos(s), s)
    ensures forall k :: 0 <= k < |s| - |PularEspacos(s)| ==> EhEspaco(s[k])
  {
    if s != [] && EhEspaco(s[0]) {
      PularEspacosConsome(s[1..]);
      SufixoTransitivo(PularEspacos(s), s[1..], s);
      assert forall k :: 1 <= k < |s| - |PularEspacos(s)| ==> s[k] == s[1..][k - 1];
    }
  }

  /** Reading digits consumes a prefix of `s` made only of digits. */
  lemma {:induction false} AcumularDigitosConsome(s: string, acc: int)
    ensures Sufixo(AcumularDigitos(s, acc).1, s)
    ensures forall k :: 0 <= k < |s| - |AcumularDigitos(s, acc).1| ==> EhDigito(s[k])
  {
    if s != [] && EhDigito(s[0]) {
      AcumularDigitosConsome(s[1..], 10 * acc + ValorDigito(s[0]));
      SufixoTransitivo(AcumularDigitos(s, acc).1, s[1..], s);
      assert forall k :: 1 <= k < |s| - |AcumularDigitos(s, acc).1| ==> s[k] == s[1..][k - 1];
    }
  }

  /** `iss >> n` consumes a prefix of the line and leaves the rest for the next extraction. */
  lemma LerInteiroConsome(s: string)
    ensures LerInteiro(s).Some? ==> Sufixo(LerInteiro(s).value.1, s)
  {
    var t := PularEspacos(s);
    PularEspacosConsome(s);
    var u := SemSinal(t);
    assert Sufixo(u, t) by {
      if t != [] && (t[0] == '+' || t[0] == '-') {
        assert t[1..] == t[|t| - |u|..];
      }
    }
    if LerInteiro(s).Some? {
      AcumularDigitosConsome(u, 0);
      SufixoTransitivo(LerInteiro(s).value.1, u, t);
      SufixoTransitivo(LerInteiro(s).value.1, t, s);
    }
  }

  /** What the loop body of `carregarProcessosArquivo` makes of one line. */
  datatype ResultadoLinha = Ignorada | Invalida | Aceita(processo: Processo)

  /**
   * Empty lines and `#` comments are skipped; a line whose first four
   * extractions fail is reported and dropped; otherwise the optional fifth
   * field is the priority, 0 when it is missing or unreadable.
   */
  function AnalisarLinha(linha: string): (r: ResultadoLinha)
    ensures r.Ignorada? <==> linha == [] || linha[0] == '#'
    ensures r.Aceita? ==> r.processo.EmEstadoInicial()
  {
    if linha == [] || linha[0] == '#' then Ignorada
    else
      match LerInteiro(linha)
      case None => Invalida
      case Some((pid, r1)) =>
        match LerPalavra(r1)
        case None => Invalida
        case Some((nome, r2)) =>
          match LerInteiro(r2)
          case None => Invalida
          case Some((chegada, r3)) =>
            match LerInteiro(r3)
            case None => Invalida
            case Some((cpu, r4)) =>
              var prioridade := match LerInteiro(r4) case Some((p, _)) => p case None => 0;
              Aceita(NovoProcesso(pid, nome, chegada, cpu, prioridade))
  }

  /** The lines the data loop reads: all of them, less the first when it looks like a header. */
  function LinhasDeDados(linhas: seq<string>): (r: seq<string>)
    ensures linhas != [] && ContemLetra(linhas[0]) ==> r == linhas[1..]
    ensures linhas == [] || !ContemLetra(linhas[0]) ==> r == linhas
  {
    if linhas != [] && ContemLetra(linhas[0]) then linhas[1..] else linhas
  }

  /** What one line adds to the list: its process when it is accepted. */
  function AceitoDaLinha(linha: string): seq<Processo>
  {
    match AnalisarLinha(linha) case Aceita(p) => [p] case _ => []
  }

  /** The processes accepted from these lines, in file order. */
  function Aceitos(linhas: seq<string>): seq<Processo>
  {
    if linhas == [] then []
    else
      Aceitos(linhas[..|linhas| - 1])
      + AceitoDaLinha(linhas[|linhas| - 1])
  }

  /** `processosBase` after the loop over a file with these lines. */
  function ProcessosDoArquivo(linhas: seq<string>): seq<Processo>
  {
    Aceitos(LinhasDeDados(linhas))
  }

  // ----- writing a process line, and reading it back -----

  /** The character of a decimal digit. */
  function CaractereDigito(v: nat): (c: char)
    requires v < 10
    ensures EhDigito(c) && ValorDigito(c) == v
  {
    ('0' as int + v) as char
  }

  /** The decimal digits of `n`, most significant first, without leading zeros. */
  function Algarismos(n: nat): (d: string)
    ensures d != [] && EhDigito(d[0])
  {
    var c := CaractereDigito(n % 10);
    if n < 10 then [c] else Algarismos(n / 10) + [c]
  }

  function Decimal(n: int): string
  {
    if n < 0 then ['-'] + Algarismos(-n) else Algarismos(n)
  }

  /** `PID Nome TempoChegada TempoCPU Prioridade`, the line format the loader expects. */
  function FormatarLinha(p: Processo): string
  {
    Decimal(p.pid) + ([' '] + (p.nome + ([' '] + (Decimal(p.tempoChegada) + ([' '] + (Decimal(p.tempoCPU)
    + ([' '] + Decimal(p.prioridade))))))))
  }

  /** A name `>>` reads back whole: not empty and without whitespace. */
  predicate NomeLegivel(nome: string)
  {
    nome != [] && forall k :: 0 <= k < |nome| ==> !EhEspaco(nome[k])
  }

  /** Reading a run of digits and then more text is reading the text with the run's value accumulated. */
  lemma {:induction false} AcumularConcat(x: string, y: string, acc: int)
    requires forall k :: 0 <= k < |x| ==> EhDigito(x[k])
    ensures AcumularDigitos(x + y, acc) == AcumularDigitos(y, AcumularDigitos(x, acc).0)
  {
    if x != [] {
      assert (x + y)[0] == x[0] && (x + y)[1..] == x[1..] + y;
      AcumularConcat(x[1..], y, 10 * acc + ValorDigito(x[0]));
    } else {
      assert x + y == y;
    }
  }

  lemma {:induction false} AlgarismosSaoDigitos(n: nat)
    ensures forall k :: 0 <= k < |Algarismos(n)| ==> EhDigito(Algarismos(n)[k])
  {
    if n >= 10 {
      AlgarismosSaoDigitos(n / 10);
    }
  }

  /** The decimal digits of `n`, followed by a non-digit or nothing, are read back as `n`. */
  lemma {:induction false} LerAlgarismos(n: nat, resto: string)
    requires resto == [] || !EhDigito(resto[0])
    ensures AcumularDigitos(Algarismos(n) + resto, 0) == (n, resto)
  {
    var c := CaractereDigito(n % 10);
    assert ([c] + resto)[1..] == resto;
    if n < 10 {
      assert AcumularDigitos([c] + resto, 0) == AcumularDigitos(resto, n % 10);
    } else {
      assert Algarismos(n) + resto == Algarismos(n / 10) + ([c] + resto);
      AlgarismosSaoDigitos(n / 10);
      AcumularConcat(Algarismos(n / 10), [c] + resto, 0);
      LerAlgarismos(n / 10, []);
      assert Algarismos(n / 10) + [] == Algarismos(n / 10);
      assert AcumularDigitos([c] + resto, n / 10) == AcumularDigitos(resto, 10 * (n / 10) + n % 10);
    }
  }

  /** A leading space is skipped by every extraction. */
  lemma EspacoInicial(t: string)
    ensures PularEspacos([' '] + t) == PularEspacos(t)
    ensures LerInteiro([' '] + t) == LerInteiro(t) && LerPalavra([' '] + t) == LerPalavra(t)
  {
    assert ([' '] + t)[1..] == t;
  }

  /** A sign and a run of digits that accumulate to `v` are read as `v` or `-v`. */
  lemma LerComSinal(negativo: bool, a: string, v: nat, resto: string)
    requires a != [] && EhDigito(a[0])
    requires AcumularDigitos(a + resto, 0) == (v, resto)
    ensures LerInteiro((if negativo then ['-'] else []) + (a + resto))
            == Some((if negativo then -(v as int) else v, resto))
  {
    var u := a + resto;
    var s := (if negativo then ['-'] else []) + u;
    assert u[0] == a[0];
    if negativo {
      assert s == ['-'] + u;
      assert s[0] == '-';
      assert s[1..] == u;
      assert SemSinal(s) == u;
    } else {
      assert s == u && s[0] != '-' && s[0] != '+';
      assert SemSinal(s) == u;
    }
    assert PularEspacos(s) == s;
  }

  /** The decimal text of `n`, followed by a non-digit or nothing, is read back as `n`. */
  lemma LerDecimal(n: int, resto: string)
    requires resto == [] || !EhDigito(resto[0])
    ensures LerInteiro(Decimal(n) + resto) == Some((n, resto))
  {
    var m := if n < 0 then -n else n;
    LerAlgarismos(m, resto);
    LerComSinal(n < 0, Algarismos(m), m, resto);
    if n < 0 {
      assert Decimal(n) + resto == ['-'] + (Algarismos(m) + resto);
    } else {
      assert Decimal(n) + resto == [] + (Algarismos(m) + resto);
    }
  }

  /** Reading a legible name followed by whitespace or nothing stops right after the name. */
  lemma {:induction false} SepararNome(nome: string, resto: string)
    requires forall k :: 0 <= k < |nome| ==> !EhEspaco(nome[k])
    requires resto == [] || EhEspaco(resto[0])
    ensures SepararPalavra(nome + resto) == (nome, resto)
  {
    if nome != [] {
      assert (nome + resto)[0] == nome[0] && (nome + resto)[1..] == nome[1..] + resto;
      SepararNome(nome[1..], resto);
      assert [nome[0]] + nome[1..] == nome;
    } else {
      assert nome + resto == resto;
    }
  }

  /** A legible name followed by whitespace or nothing is read back whole. */
  lemma LerNome(nome: string, resto: string)
    requires NomeLegivel(nome)
    requires resto == [] || EhEspaco(resto[0])
    ensures LerPalavra(nome + resto) == Some((nome, resto))
  {
    var s := nome + resto;
    assert s[0] == nome[0];
    SepararNome(nome, resto);
  }

  lemma DecimalComeca(n: int)
    ensures Decimal(n) != [] && Decimal(n)[0] != '#' && !EhEspaco(Decimal(n)[0])
  {
  }

  /**
   * Round trip: a line written in the loader's format with a legible name is
   * read back as the process it was written from, in its initial state.
   */
  lemma AnalisarFormatarLinha(p: Processo)
    requires NomeLegivel(p.nome) && p.EmEstadoInicial()
    ensures AnalisarLinha(FormatarLinha(p)) == Aceita(p)
  {
    var r4 := [' '] + Decimal(p.prioridade);
    var r3 := [' '] + (Decimal(p.tempoCPU) + r4);
    var r2 := [' '] + (Decimal(p.tempoChegada) + r3);
    var r1 := [' '] + (p.nome + r2);
    assert FormatarLinha(p) == Decimal(p.pid) + r1;
    DecimalComeca(p.pid);
    assert FormatarLinha(p)[0] == Decimal(p.pid)[0];
    LerDecimal(p.pid, r1);
    EspacoInicial(p.nome + r2);
    LerNome(p.nome, r2);
    EspacoInicial(Decimal(p.tempoChegada) + r3);
    LerDecimal(p.tempoChegada, r3);
    EspacoInicial(Decimal(p.tempoCPU) + r4);
    LerDecimal(p.tempoCPU, r4);
    EspacoInicial(Decimal(p.prioridade));
    LerDecimal(p.prioridade, []);
    assert Decimal(p.prioridade) + [] == Decimal(p.prioridade);
  }

  /** The four fields every data line needs, separated by single spaces, then `resto`. */
  function FormatarCampos(pid: int, nome: string, chegada: int, cpu: int, resto: string): string
  {
    Decimal(pid) + ([' '] + (nome + ([' '] + (Decimal(chegada) + ([' '] + (Decimal(cpu) + resto))))))
  }

  /**
   * A line with the four fields, followed by nothing or by text that does not
   * read as an integer, is accepted with those fields and priority 0.
   */
  lemma AnalisarCamposSemPrioridade(pid: int, nome: string, chegada: int, cpu: int, resto: string)
    requires NomeLegivel(nome)
    requires resto == [] || EhEspaco(resto[0])
    requires LerInteiro(resto).None?
    ensures AnalisarLinha(FormatarCampos(pid, nome, chegada, cpu, resto))
            == Aceita(NovoProcesso(pid, nome, chegada, cpu, 0))
  {
    var r3 := [' '] + (Decimal(cpu) + resto);
    var r2 := [' '] + (Decimal(chegada) + r3);
    var r1 := [' '] + (nome + r2);
    var linha := FormatarCampos(pid, nome, chegada, cpu, resto);
    DecimalComeca(pid);
    assert linha[0] == Decimal(pid)[0];
    LerDecimal(pid, r1);
    EspacoInicial(nome + r2);
    LerNome(nome, r2);
    EspacoInicial(Decimal(chegada) + r3);
    LerDecimal(chegada, r3);
    EspacoInicial(Decimal(cpu) + resto);
    LerDecimal(cpu, resto);
  }

  /** A line holding only the first one, two or three fields is rejected. */
  lemma CamposIncompletosInvalida(pid: int, nome: string, chegada: int)
    requires NomeLegivel(nome)
    ensures AnalisarLinha(Decimal(pid)) == Invalida
    ensures AnalisarLinha(Decimal(pid) + ([' '] + nome)) == Invalida
    ensures AnalisarLinha(Decimal(pid) + ([' '] + (nome + ([' '] + Decimal(chegada))))) == Invalida
  {
    DecimalComeca(pid);
    LerDecimal(pid, []);
    assert Decimal(pid) + [] == Decimal(pid);
    var l2 := Decimal(pid) + ([' '] + nome);
    assert l2[0] == Decimal(pid)[0];
    LerDecimal(pid, [' '] + nome);
    EspacoInicial(nome);
    LerNome(nome, []);
    assert nome + [] == nome;
    var r3 := [' '] + Decimal(chegada);
    var l3 := Decimal(pid) + ([' '] + (nome + r3));
    assert l3[0] == Decimal(pid)[0];
    LerDecimal(pid, [' '] + (nome + r3));
    EspacoInicial(nome + r3);
    LerNome(nome, r3);
    EspacoInicial(Decimal(chegada));
    LerDecimal(chegada, []);
    assert Decimal(chegada) + [] == Decimal(chegada);
  }

  /** A data line whose first token is not a number, such as an unskipped header, is rejected. */
  lemma PrimeiroCampoNaoNumerico(linha: string)
    requires linha != [] && linha[0] != '#'
    requires var t := PularEspacos(linha); t == [] || EhLetra(t[0])
    ensures AnalisarLinha(linha) == Invalida
  {
  }

  /**
   * The header test reads a first data line as a header whenever the process
   * name holds a letter, and that process is then silently lost.
   */
  lemma PrimeiraLinhaComNomeEDescartada(p: Processo, resto: seq<string>)
    requires NomeLegivel(p.nome) && ContemLetra(p.nome)
    ensures ProcessosDoArquivo([FormatarLinha(p)] + resto) == Aceitos(resto)
  {
    var k :| 0 <= k < |p.nome| && EhLetra(p.nome[k]);
    var s := FormatarLinha(p);
    var r2 := [' '] + (Decimal(p.tempoChegada) + ([' '] + (Decimal(p.tempoCPU) + ([' '] + Decimal(p.prioridade)))));
    var r1 := [' '] + (p.nome + r2);
    assert s == Decimal(p.pid) + r1;
    assert r1[1 + k] == p.nome[k];
    assert EhLetra(s[|Decimal(p.pid)| + 1 + k]);
    assert ([s] + resto)[1..] == resto;
  }

  /** A first line without letters is read as data. */
  lemma PrimeiraLinhaSemLetrasEDado(linhas: seq<string>)
    requires linhas != [] && !ContemLetra(linhas[0])
    ensures ProcessosDoArquivo(linhas) == Aceitos(linhas)
  {
  }

  /** Accepted processes of consecutive runs of lines concatenate. */
  lemma {:induction false} AceitosConcat(a: seq<string>, b: seq<string>)
    ensures Aceitos(a + b) == Aceitos(a) + Aceitos(b)
  {
    if b != [] {
      var n := |b| - 1;
      assert (a + b)[..|a + b| - 1] == a + b[..n];
      assert (a + b)[|a + b| - 1] == b[n];
      AceitosConcat(a, b[..n]);
    } else {
      assert a + b == a;
    }
  }

  /** `f` applied to every element, in order. */
  function Mapear<A, B>(f: A -> B, xs: seq<A>): (r: seq<B>)
    ensures |r| == |xs|
  {
    if xs == [] then [] else Mapear(f, xs[..|xs| - 1]) + [f(xs[|xs| - 1])]
  }

  /** `Mapear` read from the front: the first element's image, then the others'. */
  lemma {:induction false} MapearFrente<A, B>(f: A -> B, xs: seq<A>)
    requires xs != []
    ensures Mapear(f, xs) == [f(xs[0])] + Mapear(f, xs[1..])
  {
    var n := |xs| - 1;
    if n > 0 {
      MapearFrente(f, xs[..n]);
      assert xs[..n][0] == xs[0];
      assert xs[1..][..n - 1] == xs[..n][1..];
      assert xs[1..][n - 1] == xs[n];
    } else {
      assert xs[..n] == [] && xs[1..] == [];
    }
  }

  /** One formatted line per process, in order. */
  function LinhasDe(ps: seq<Processo>): (r: seq<string>)
    ensures |r| == |ps|
  {
    Mapear(FormatarLinha, ps)
  }

  /** Accepting one more line adds what that line is accepted as. */
  lemma AceitosAnexar(linhas: seq<string>, linha: string)
    ensures Aceitos(linhas + [linha])
            == Aceitos(linhas) + AceitoDaLinha(linha)
  {
    assert (linhas + [linha])[..|linhas|] == linhas;
  }

  /** Accepting one more line of a list, stated on its prefixes. */
  lemma AceitosPrefixo(dados: seq<string>, k: nat)
    requires k < |dados|
    ensures Aceitos(dados[..k + 1])
            == Aceitos(dados[..k]) + AceitoDaLinha(dados[k])
  {
    assert dados[..k + 1] == dados[..k] + [dados[k]];
    AceitosAnexar(dados[..k], dados[k]);
  }

  /**
   * A file made of a header line and one formatted line per process loads
   * exactly those processes, in order.
   */
  lemma {:induction false} CarregarArquivoFormatado(cabecalho: string, ps: seq<Processo>)
    requires ContemLetra(cabecalho)
    requires forall j :: 0 <= j < |ps| ==> NomeLegivel(ps[j].nome) && ps[j].EmEstadoInicial()
    ensures ProcessosDoArquivo([cabecalho] + LinhasDe(ps)) == ps
  {
    assert ([cabecalho] + LinhasDe(ps))[1..] == LinhasDe(ps);
    AceitosDasLinhas(ps);
  }

  lemma {:induction false} AceitosDasLinhas(ps: seq<Processo>)
    requires forall j :: 0 <= j < |ps| ==> NomeLegivel(ps[j].nome) && ps[j].EmEstadoInicial()
    ensures Aceitos(LinhasDe(ps)) == ps
  {
    if ps != [] {
      var n := |ps| - 1;
      var anteriores := ps[..n];
      assert anteriores + [ps[n]] == ps;
      assert forall j :: 0 <= j < |anteriores| ==> anteriores[j] == ps[j];
      AceitosDasLinhas(anteriores);
      var linha := FormatarLinha(ps[n]);
      assert Mapear(FormatarLinha, ps) == Mapear(FormatarLinha, anteriores) + [linha];
      AnalisarFormatarLinha(ps[n]);
      AceitosAnexar(LinhasDe(anteriores), linha);
    }
  }
}
