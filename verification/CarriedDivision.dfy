/** Integer division that truncates towards zero, and repeated division that carries
    the remainder from one step to the next.  Server ticks and client replay are both
    instances of `Run`. */
module CarriedDivision {
  import opened MachineInts

  /** The quotient of truncating division by a positive divisor. */
  function Quot(a: int, b: int): (q: int)
    requires 0 < b
    ensures 0 <= a ==> 0 <= a - q * b < b
    ensures a <= 0 ==> -b < a - q * b <= 0
  {
    if 0 <= a then a / b else -((-a) / b)
  }

  function Rem(a: int, b: int): int
    requires 0 < b
  {
    a - Quot(a, b) * b
  }

  /** Two numbers that do not have opposite signs. */
  predicate SameSign(a: int, b: int) {
    (0 <= a && 0 <= b) || (a <= 0 && b <= 0)
  }

  lemma MultipleInsideDivisor(k: int, b: int)
    requires 0 < b && -b < k * b < b
    ensures k == 0
  {
    assert 1 <= k ==> b <= k * b;
    assert k <= -1 ==> k * b <= -b;
  }

  /** A quotient and a remainder with the sign of the dividend are the truncated ones. */
  lemma QuotUnique(a: int, b: int, q: int, r: int)
    requires 0 < b && a == q * b + r
    requires SameSign(a, r) && -b < r < b
    ensures q == Quot(a, b) && r == Rem(a, b)
  {
    var k := q - Quot(a, b);
    assert k * b == Rem(a, b) - r;
    if a == 0 {
      MultipleInsideDivisor(q, b);
      MultipleInsideDivisor(Quot(a, b), b);
    }
    MultipleInsideDivisor(k, b);
  }

  lemma ScaledBound(r: int, b: int, c: int)
    requires -b < r < b && 0 < c
    ensures -(b * c) < r * c < b * c
  {
    assert (b - r) * c > 0 && (b + r) * c > 0;
  }

  lemma ScaledSign(a: int, r: int, c: int)
    requires SameSign(a, r) && 0 < c
    ensures SameSign(a * c, r * c)
  {
  }

  /** Scaling dividend and divisor by the same factor keeps the quotient. */
  lemma QuotScale(a: int, b: int, c: int)
    requires 0 < b && 0 < c
    ensures b * c > 0
    ensures Quot(a * c, b * c) == Quot(a, b)
  {
    var q, r := Quot(a, b), Rem(a, b);
    assert b * c > 0;
    assert a * c == q * (b * c) + r * c by {
      assert a == q * b + r;
      assert (q * b + r) * c == q * (b * c) + r * c;
    }
    ScaledBound(r, b, c);
    ScaledSign(a, r, c);
    QuotUnique(a * c, b * c, q, r * c);
  }

  function Sum(xs: seq<int>): int {
    if xs == [] then 0 else xs[0] + Sum(xs[1..])
  }

  /** What a run of carried divisions leaves: the sum of the quotients, the last remainder. */
  datatype Carried = Carried(total: int, remainder: int)

  function Run(den: int, remainder: int, numerators: seq<int>): Carried
    requires 0 < den
    decreases |numerators|
  {
    if numerators == [] then
      Carried(0, remainder)
    else
      var n := remainder + numerators[0];
      var rest := Run(den, Rem(n, den), numerators[1..]);
      Carried(Quot(n, den) + rest.total, rest.remainder)
  }

  lemma RunHead(den: int, remainder: int, n: int, rest: seq<int>)
    requires 0 < den
    ensures var after := Run(den, Rem(remainder + n, den), rest);
            Run(den, remainder, [n] + rest) == Carried(Quot(remainder + n, den) + after.total, after.remainder)
  {
    assert ([n] + rest)[1..] == rest;
  }

  /** A run over a concatenation is a run over the first part continued over the second. */
  lemma {:induction false} RunAppend(den: int, remainder: int, xs: seq<int>, ys: seq<int>)
    requires 0 < den
    ensures var first := Run(den, remainder, xs);
            var second := Run(den, first.remainder, ys);
            Run(den, remainder, xs + ys) == Carried(first.total + second.total, second.remainder)
    decreases |xs|
  {
    if xs == [] {
      assert xs + ys == ys;
    } else {
      assert (xs + ys)[1..] == xs[1..] + ys;
      RunAppend(den, Rem(remainder + xs[0], den), xs[1..], ys);
    }
  }

  /** Nothing is lost: quotients times the divisor plus the last remainder equal the exact
      sum of the numerators plus the first remainder, and the remainder stays a remainder. */
  lemma {:induction false} RunLedger(den: int, remainder: int, numerators: seq<int>)
    requires 0 < den && -den < remainder < den
    ensures var run := Run(den, remainder, numerators);
            && run.total * den + run.remainder == remainder + Sum(numerators)
            && -den < run.remainder < den
    decreases |numerators|
  {
    if numerators != [] {
      var n := remainder + numerators[0];
      RunLedger(den, Rem(n, den), numerators[1..]);
      var rest := Run(den, Rem(n, den), numerators[1..]);
      assert (Quot(n, den) + rest.total) * den == Quot(n, den) * den + rest.total * den;
    }
  }

  /** Dividing `n`, then dividing what remains plus `b`, splits `n + b` exactly. */
  lemma ChainedQuotients(den: int, n: int, b: int)
    requires 0 < den
    ensures n + b == (Quot(n, den) + Quot(Rem(n, den) + b, den)) * den + Rem(Rem(n, den) + b, den)
  {
    var q1, q2 := Quot(n, den), Quot(Rem(n, den) + b, den);
    assert (q1 + q2) * den == q1 * den + q2 * den;
  }

  lemma RemRange(n: int, den: int)
    requires 0 < den
    ensures -den < Rem(n, den) < den && SameSign(n, Rem(n, den))
  {
  }

  /** When `b` does not oppose the first dividend, the two quotients add up. */
  lemma ChainedQuotientsOneSign(den: int, n: int, b: int)
    requires 0 < den && SameSign(n, b)
    ensures Quot(n, den) + Quot(Rem(n, den) + b, den) == Quot(n + b, den)
    ensures Rem(Rem(n, den) + b, den) == Rem(n + b, den)
  {
    RemRange(n, den);
    RemRange(Rem(n, den) + b, den);
    ChainedQuotients(den, n, b);
    QuotUnique(n + b, den, Quot(n, den) + Quot(Rem(n, den) + b, den), Rem(Rem(n, den) + b, den));
  }

  /** When no numerator opposes the carried remainder, the steps add up to one division
      of the exact sum. */
  lemma {:induction false} RunOneSign(den: int, remainder: int, numerators: seq<int>, sign: int)
    requires 0 < den && sign != 0 && -den < remainder < den && SameSign(sign, remainder)
    requires forall i :: 0 <= i < |numerators| ==> SameSign(sign, numerators[i])
    ensures var exact := remainder + Sum(numerators);
            && SameSign(sign, exact)
            && Run(den, remainder, numerators) == Carried(Quot(exact, den), Rem(exact, den))
    decreases |numerators|
  {
    if numerators == [] {
      QuotUnique(remainder, den, 0, remainder);
    } else {
      var n := remainder + numerators[0];
      assert SameSign(sign, numerators[0]);
      RemRange(n, den);
      RunOneSign(den, Rem(n, den), numerators[1..], sign);
      SumOneSign(numerators[1..], sign);
      ChainedQuotientsOneSign(den, n, Sum(numerators[1..]));
    }
  }

  lemma {:induction false} SumOneSign(xs: seq<int>, sign: int)
    requires sign != 0 && forall i :: 0 <= i < |xs| ==> SameSign(sign, xs[i])
    ensures SameSign(sign, Sum(xs))
  {
    if xs != [] {
      assert SameSign(sign, xs[0]);
      SumOneSign(xs[1..], sign);
    }
  }

  /** Two divisions in a row, the second dividing the first remainder plus `b`, amount to
      one division when `a` and `b` have one sign.  The carried remainder may oppose them. */
  lemma TwoSteps(den: int, remainder: int, a: int, b: int)
    requires 0 < den && -den < remainder < den && SameSign(a, b)
    ensures Quot(remainder + a, den) + Quot(Rem(remainder + a, den) + b, den) == Quot(remainder + a + b, den)
    ensures Rem(Rem(remainder + a, den) + b, den) == Rem(remainder + a + b, den)
  {
    var first := remainder + a;
    if SameSign(first, b) {
      ChainedQuotientsOneSign(den, first, b);
    } else {
      // The carried remainder outweighs `a`, so the first step moves nothing.
      QuotUnique(first, den, 0, first);
    }
  }

  lemma RunOnce(den: int, remainder: int, a: int)
    requires 0 < den
    ensures Run(den, remainder, [a]) == Carried(Quot(remainder + a, den), Rem(remainder + a, den))
  {
    assert [a][1..] == [];
  }

  lemma {:induction false} RunOneMore(den: int, remainder: int, xs: seq<int>, x: int)
    requires 0 < den
    ensures var before := Run(den, remainder, xs);
            Run(den, remainder, xs + [x])
              == Carried(before.total + Quot(before.remainder + x, den), Rem(before.remainder + x, den))
    decreases |xs|
  {
    if xs == [] {
      assert xs + [x] == [x] && [x][1..] == [];
    } else {
      assert (xs + [x])[1..] == xs[1..] + [x];
      RunOneMore(den, Rem(remainder + xs[0], den), xs[1..], x);
    }
  }

  /** Splitting one numerator into two parts of one sign changes nothing. */
  lemma SplitStep(den: int, remainder: int, a: int, b: int)
    requires 0 < den && -den < remainder < den && SameSign(a, b)
    ensures Run(den, remainder, [a, b]) == Run(den, remainder, [a + b])
  {
    TwoSteps(den, remainder, a, b);
    RunOnce(den, remainder, a + b);
    RunOnce(den, remainder, a);
    RunOnce(den, Rem(remainder + a, den), b);
    RunAppend(den, remainder, [a], [b]);
    assert [a] + [b] == [a, b];
    assert remainder + (a + b) == remainder + a + b;
  }

  /** The same inside a longer run. */
  lemma SplitInsideRun(den: int, remainder: int, before: seq<int>, a: int, b: int, after: seq<int>)
    requires 0 < den && -den < remainder < den && SameSign(a, b)
    ensures Run(den, remainder, before + [a, b] + after) == Run(den, remainder, before + [a + b] + after)
  {
    RunLedger(den, remainder, before);
    var carried := Run(den, remainder, before).remainder;
    SplitStep(den, carried, a, b);
    RunAppend(den, remainder, before, [a, b]);
    RunAppend(den, remainder, before, [a + b]);
    RunAppend(den, remainder, before + [a, b], after);
    RunAppend(den, remainder, before + [a + b], after);
  }
}
