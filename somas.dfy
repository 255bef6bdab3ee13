/**
 * Sums over a list of processes, the arithmetic behind the scheduler's
 * statistics and behind the termination argument of its loops.
 */
module Somas {
  import opened Processos

  /** The sum of `f` over `ps`, accumulated front to back as the C++ loops do. */
  function Soma(ps: seq<Processo>, f: Processo -> int): int
  {
    if ps == [] then 0 else Soma(ps[..|ps| - 1], f) + f(ps[|ps| - 1])
  }

  function Restante(p: Processo): int { p.tempoRestante }

  function CPU(p: Processo): int { p.tempoCPU }

  /** CPU units a process has already received. */
  function Executado(p: Processo): int { p.tempoCPU - p.tempoRestante }

  /** Extending the prefix by one element adds that element's term. */
  lemma {:induction false} SomaPrefixo(ps: seq<Processo>, i: nat, f: Processo -> int)
    requires i < |ps|
    ensures Soma(ps[..i + 1], f) == Soma(ps[..i], f) + f(ps[i])
  {
    assert ps[..i + 1][..i] == ps[..i];
  }

  /** Replacing one element changes the sum by the difference of its terms. */
  lemma {:induction false} SomaAtualiza(ps: seq<Processo>, i: nat, p: Processo, f: Processo -> int)
    requires i < |ps|
    ensures Soma(ps[i := p], f) == Soma(ps, f) - f(ps[i]) + f(p)
  {
    var n := |ps| - 1;
    if i < n {
      assert ps[i := p][..n] == ps[..n][i := p];
      SomaAtualiza(ps[..n], i, p, f);
    } else {
      assert ps[i := p][..n] == ps[..n];
    }
  }

  lemma {:induction false} SomaNaoNegativa(ps: seq<Processo>, f: Processo -> int)
    requires forall j :: 0 <= j < |ps| ==> f(ps[j]) >= 0
    ensures Soma(ps, f) >= 0
  {
    if ps != [] {
      SomaNaoNegativa(ps[..|ps| - 1], f);
    }
  }

  /** With no negative term, one positive term makes the sum positive. */
  lemma {:induction false} SomaPositiva(ps: seq<Processo>, f: Processo -> int, k: nat)
    requires forall j :: 0 <= j < |ps| ==> f(ps[j]) >= 0
    requires k < |ps| && f(ps[k]) > 0
    ensures Soma(ps, f) > 0
  {
    var n := |ps| - 1;
    if k == n {
      SomaNaoNegativa(ps[..n], f);
    } else {
      SomaPositiva(ps[..n], f, k);
    }
  }

  lemma {:induction false} SomaNula(ps: seq<Processo>, f: Processo -> int)
    requires forall j :: 0 <= j < |ps| ==> f(ps[j]) == 0
    ensures Soma(ps, f) == 0
  {
    if ps != [] {
      SomaNula(ps[..|ps| - 1], f);
    }
  }

  /** Pointwise `h = f + g` gives `Soma(h) = Soma(f) + Soma(g)`. */
  lemma {:induction false} SomaLinear(ps: seq<Processo>, f: Processo -> int, g: Processo -> int, h: Processo -> int)
    requires forall j :: 0 <= j < |ps| ==> h(ps[j]) == f(ps[j]) + g(ps[j])
    ensures Soma(ps, h) == Soma(ps, f) + Soma(ps, g)
  {
    if ps != [] {
      SomaLinear(ps[..|ps| - 1], f, g, h);
    }
  }

  /** Pointwise `f <= g` gives `Soma(f) <= Soma(g)`. */
  lemma {:induction false} SomaMonotona(ps: seq<Processo>, f: Processo -> int, g: Processo -> int)
    requires forall j :: 0 <= j < |ps| ==> f(ps[j]) <= g(ps[j])
    ensures Soma(ps, f) <= Soma(ps, g)
  {
    if ps != [] {
      SomaMonotona(ps[..|ps| - 1], f, g);
    }
  }

  /** Pointwise equal terms give equal sums. */
  lemma SomaIgual(ps: seq<Processo>, f: Processo -> int, g: Processo -> int)
    requires forall j :: 0 <= j < |ps| ==> f(ps[j]) == g(ps[j])
    ensures Soma(ps, f) == Soma(ps, g)
  {
    SomaMonotona(ps, f, g);
    SomaMonotona(ps, g, f);
  }

  /** Appending a list adds its sum. */
  lemma {:induction false} SomaConcat(a: seq<Processo>, b: seq<Processo>, f: Processo -> int)
    ensures Soma(a + b, f) == Soma(a, f) + Soma(b, f)
  {
    if b != [] {
      var n := |b| - 1;
      assert (a + b)[..|a + b| - 1] == a + b[..n];
      SomaConcat(a, b[..n], f);
    } else {
      assert a + b == a;
    }
  }
}
