/**
 * The scoring engine shared by both answer paths: the correct/incorrect
 * verdicts and the speed-bonus points, in exact integer arithmetic.
 *
 * Math.round(x) is floor(x + 1/2). For x = max * (1 - m/L/2) this is
 * floor((2n + d) / (2d)) with n = max * (2L - m) and d = 2L, which is what
 * `RoundHalfUp` computes without floating point.
 */
module Scoring {

  import opened Wrappers
  import opened Seqs
  import opened PreguntaModel

  /** Math.round(n / d): the integer nearest n / d, halves going up. */
  function RoundHalfUp(n: int, d: int): (r: int)
    requires d != 0
    ensures (r as real) <= (n as real) / (d as real) + 0.5 < (r as real) + 1.0
  {
    if d > 0 then
      var r := (2 * n + d) / (2 * d);
      RoundPositive(n, d, r);
      r
    else
      var r := (-2 * n - d) / (-2 * d);
      RoundPositive(-n, -d, r);
      assert ((-n) as real) / ((-d) as real) == (n as real) / (d as real);
      r
  }

  lemma RoundPositive(n: int, d: int, r: int)
    requires d > 0 && r == (2 * n + d) / (2 * d)
    ensures (r as real) <= (n as real) / (d as real) + 0.5 < (r as real) + 1.0
  {
    var D, R, N := d as real, r as real, n as real;
    assert 2 * d * r <= 2 * n + d < 2 * d * r + 2 * d;
    assert ((2 * d * r) as real) == 2.0 * D * R;
    RoundLower(N, D, R);
    RoundUpper(N, D, R);
  }

  lemma CancelLe(a: real, b: real, c: real)
    requires c > 0.0 && c * a <= c * b
    ensures a <= b
  {
  }

  lemma CancelLt(a: real, b: real, c: real)
    requires c > 0.0 && c * a < c * b
    ensures a < b
  {
  }

  lemma RoundLower(N: real, D: real, R: real)
    requires D > 0.0 && 2.0 * D * R <= 2.0 * N + D
    ensures R <= N / D + 0.5
  {
    var x := N / D;
    assert x * D == N;
    assert (2.0 * D) * (x + 0.5) == 2.0 * N + D;
    CancelLe(R, x + 0.5, 2.0 * D);
  }

  lemma RoundUpper(N: real, D: real, R: real)
    requires D > 0.0 && 2.0 * N + D < 2.0 * D * R + 2.0 * D
    ensures N / D + 0.5 < R + 1.0
  {
    var x := N / D;
    assert x * D == N;
    assert (2.0 * D) * (x + 0.5) == 2.0 * N + D;
    assert (2.0 * D) * (R + 1.0) == 2.0 * D * R + 2.0 * D;
    CancelLt(x + 0.5, R + 1.0, 2.0 * D);
  }

  lemma DivCancel(a: real, b: real, c: real)
    requires b != 0.0 && c != 0.0
    ensures (a * c) / (b * c) == a / b
  {
    var x := a / b;
    assert x * b == a;
    assert x * (b * c) == a * c;
  }

  /** Two integers within the same half-open unit window are equal: rounding is unique. */
  lemma RoundUnique(x: real, r1: int, r2: int)
    requires (r1 as real) <= x + 0.5 < (r1 as real) + 1.0
    requires (r2 as real) <= x + 0.5 < (r2 as real) + 1.0
    ensures r1 == r2
  {
  }

  /** `preguntaDoc.puntuacionMax || 1000`: a zero maximum falls back to the default. */
  function EffectiveMax(maxPoints: int): (m: int)
    ensures maxPoints != 0 ==> m == maxPoints
    ensures maxPoints == 0 ==> m == DefaultMaxPoints
  {
    if maxPoints == 0 then DefaultMaxPoints else maxPoints
  }

  /**
   * round(max * (1 - (m / L) / 2)) for an already clamped time m and a
   * nonzero limit L: full marks at m = 0, half marks at m = L.
   */
  function SpeedPoints(max: int, m: int, limit: int): (r: int)
    requires limit != 0
    ensures (r as real) <= (max as real) * (1.0 - ((m as real) / (limit as real)) / 2.0) + 0.5 < (r as real) + 1.0
  {
    var r := RoundHalfUp(max * (2 * limit - m), 2 * limit);
    SpeedFactor(max, m, limit);
    r
  }

  lemma SpeedFactor(max: int, m: int, limit: int)
    requires limit != 0
    ensures ((max * (2 * limit - m)) as real) / ((2 * limit) as real)
         == (max as real) * (1.0 - ((m as real) / (limit as real)) / 2.0)
  {
    var L, M, T := limit as real, max as real, m as real;
    assert ((max * (2 * limit - m)) as real) == M * (2.0 * L - T);
    assert ((2 * limit) as real) == 2.0 * L;
    var q := T / L;
    assert q * L == T;
    assert M * (1.0 - q / 2.0) * (2.0 * L) == M * (2.0 * L - q * L);
    var rhs := M * (1.0 - q / 2.0);
    assert rhs * (2.0 * L) == M * (2.0 * L - T);
    assert (M * (2.0 * L - T)) / (2.0 * L) == rhs;
  }

  /**
   * partidaService: `Math.min(tiempoEmpleado, tLimite)` with no lower clamp,
   * so a negative time earns more than the maximum.
   */
  function RoutedSpeedPoints(max: int, seconds: int, limit: int): int
    requires limit != 0
  {
    SpeedPoints(max, if seconds < limit then seconds else limit, limit)
  }

  /** `Math.max(0, Math.min(t, L))`. */
  function Clamp(t: int, limit: int): (m: int)
    requires limit >= 0
    ensures 0 <= m <= limit
    ensures 0 <= t <= limit ==> m == t
  {
    if t < 0 then 0 else if t > limit then limit else t
  }

  /** Rounding is monotone in the numerator for a positive denominator. */
  lemma RoundMonotone(n1: int, n2: int, d: int)
    requires d > 0 && n1 <= n2
    ensures RoundHalfUp(n1, d) <= RoundHalfUp(n2, d)
  {
    DivMonotone(n1 as real, n2 as real, d as real);
  }

  lemma DivMonotone(a: real, b: real, c: real)
    requires c > 0.0 && a <= b
    ensures a / c <= b / c
  {
    assert (a / c) * c == a;
    assert (b / c) * c == b;
    CancelLe(a / c, b / c, c);
  }

  /** Rounding an exact multiple gives the quotient. */
  lemma RoundExact(n: int, d: int)
    requires d != 0
    ensures RoundHalfUp(n * d, d) == n
  {
    assert ((n * d) as real) == (n as real) * (d as real);
    DivCancel(n as real, 1.0, d as real);
    assert ((n * d) as real) / (d as real) == n as real;
    RoundUnique(n as real, RoundHalfUp(n * d, d), n);
  }

  /** Scaling numerator and denominator by the same positive factor leaves the rounding unchanged. */
  lemma RoundScale(n: int, d: int, c: int)
    requires d != 0 && c > 0
    ensures RoundHalfUp(n * c, d * c) == RoundHalfUp(n, d)
  {
    var x := (n as real) / (d as real);
    var y := ((n * c) as real) / ((d * c) as real);
    assert y == x by {
      assert ((n * c) as real) == (n as real) * (c as real);
      assert ((d * c) as real) == (d as real) * (c as real);
      DivCancel(n as real, d as real, c as real);
    }
    var r1, r2 := RoundHalfUp(n * c, d * c), RoundHalfUp(n, d);
    assert (r1 as real) <= x + 0.5 < (r1 as real) + 1.0;
    RoundUnique(x, r1, r2);
  }

  /**
   * Over a clamped time the points are monotone: answering later never
   * earns more, so they lie between round(max / 2) and max.
   */
  lemma SpeedPointsBounds(max: int, m: int, limit: int)
    requires max >= 0 && limit > 0 && 0 <= m <= limit
    ensures RoundHalfUp(max, 2) <= SpeedPoints(max, m, limit) <= max
    ensures SpeedPoints(max, 0, limit) == max
    ensures SpeedPoints(max, limit, limit) == RoundHalfUp(max, 2)
  {
    SpeedPointsAtZero(max, limit);
    SpeedPointsAtLimit(max, limit);
    SpeedPointsAntitone(max, 0, m, limit);
    SpeedPointsAntitone(max, m, limit, limit);
  }

  lemma SpeedPointsAtZero(max: int, limit: int)
    requires limit > 0
    ensures SpeedPoints(max, 0, limit) == max
  {
    assert max * (2 * limit - 0) == max * (2 * limit);
    RoundExact(max, 2 * limit);
  }

  lemma SpeedPointsAtLimit(max: int, limit: int)
    requires limit > 0
    ensures SpeedPoints(max, limit, limit) == RoundHalfUp(max, 2)
  {
    assert max * (2 * limit - limit) == max * limit;
    RoundScale(max, 2, limit);
  }

  /** Answering later never earns more. */
  lemma SpeedPointsAntitone(max: int, m1: int, m2: int, limit: int)
    requires max >= 0 && limit > 0 && m1 <= m2
    ensures SpeedPoints(max, m2, limit) <= SpeedPoints(max, m1, limit)
  {
    MulLe(max, 2 * limit - m2, 2 * limit - m1);
    RoundMonotone(max * (2 * limit - m2), max * (2 * limit - m1), 2 * limit);
  }

  lemma MulLe(a: int, b: int, c: int)
    requires a >= 0 && b <= c
    ensures a * b <= a * c
  {
    assert a * c - a * b == a * (c - b);
  }

  /** A correct answer at 10 s of 20 s on a 1000-point question scores 750. */
  lemma HalfTimeScenario()
    ensures RoutedSpeedPoints(1000, 10, 20) == 750
  {
  }

  /** The routed formula does not clamp below: answering at -20 s of 20 s scores 1500 of 1000. */
  lemma NegativeTimeOverpays()
    ensures RoutedSpeedPoints(1000, -20, 20) == 1500
  {
  }

  /**
   * partidaService's verdict: as many marks as correct options and every
   * mark among them (the loop breaks on the first stray mark).
   */
  predicate RoutedCorrect(selected: seq<int>, opts: seq<Choice>) {
    var correct := CorrectIndices(opts);
    |selected| == |correct| && forall k :: 0 <= k < |selected| ==> selected[k] in correct
  }

  /**
   * participacionService's verdict: the marks sorted ascending equal the
   * ascending list of correct indices, element by element.
   */
  predicate LedgerCorrect(selected: seq<int>, opts: seq<Choice>) {
    SortAsc(selected) == CorrectIndices(opts)
  }

  /** No index appears twice. */
  ghost predicate Distinct(s: seq<int>) {
    forall i, j :: 0 <= i < j < |s| ==> s[i] != s[j]
  }

  /** A sequence without repeats has as many elements as its set. */
  lemma {:induction false} DistinctCard(s: seq<int>)
    requires Distinct(s)
    ensures |set x | x in s| == |s|
    decreases |s|
  {
    if |s| > 0 {
      DistinctCard(s[1..]);
      assert (set x | x in s) == {s[0]} + (set x | x in s[1..]);
      assert s[0] !in (set x | x in s[1..]);
    }
  }

  lemma CorrectIndicesAscending(opts: seq<Choice>)
    ensures SortedAsc(CorrectIndices(opts)) && Distinct(CorrectIndices(opts))
  {
  }

  /**
   * participacionService's sorted comparison accepts exactly the
   * selections that are a rearrangement of the correct indices: each
   * correct index marked once and nothing else.
   */
  lemma LedgerCorrectIffPermutation(selected: seq<int>, opts: seq<Choice>)
    ensures LedgerCorrect(selected, opts) <==> multiset(selected) == multiset(CorrectIndices(opts))
  {
    SortAscSpec(selected);
    CorrectIndicesAscending(opts);
    if multiset(selected) == multiset(CorrectIndices(opts)) {
      SortedUnique(SortAsc(selected), CorrectIndices(opts));
    }
  }

  /**
   * On selections without repeats, partidaService's length-and-membership
   * check accepts exactly the selections whose marks are the correct set.
   */
  lemma RoutedCorrectOnDistinct(selected: seq<int>, opts: seq<Choice>)
    requires Distinct(selected)
    ensures RoutedCorrect(selected, opts)
        <==> (set x | x in selected) == (set i | i in CorrectIndices(opts))
  {
    var c := CorrectIndices(opts);
    var S, C := set x | x in selected, set i | i in c;
    CorrectIndicesAscending(opts);
    DistinctCard(selected);
    DistinctCard(c);
    if RoutedCorrect(selected, opts) {
      assert S <= C;
      assert |C - S| == |C| - |S| == 0;
      assert C - S == {};
    }
    if S == C {
      forall k | 0 <= k < |selected|
        ensures selected[k] in c
      {
        assert selected[k] in S;
      }
    }
  }

  /** On selections without repeats the two implementations reach the same verdict. */
  lemma VerdictsAgreeOnDistinct(selected: seq<int>, opts: seq<Choice>)
    requires Distinct(selected)
    ensures RoutedCorrect(selected, opts) <==> LedgerCorrect(selected, opts)
  {
    var c := CorrectIndices(opts);
    RoutedCorrectOnDistinct(selected, opts);
    LedgerCorrectIffPermutation(selected, opts);
    CorrectIndicesAscending(opts);
    SameSetSameMultiset(selected, c);
  }

  /** Two sequences without repeats have the same multiset exactly when they have the same set. */
  lemma SameSetSameMultiset(a: seq<int>, b: seq<int>)
    requires Distinct(a) && Distinct(b)
    ensures (set x | x in a) == (set x | x in b) <==> multiset(a) == multiset(b)
  {
    DistinctMultiset(a);
    DistinctMultiset(b);
    var A, B := set x | x in a, set x | x in b;
    if A == B {
      forall x
        ensures multiset(a)[x] == multiset(b)[x]
      {
        assert x in a <==> x in A;
        assert x in b <==> x in B;
        assert multiset(a)[x] == if x in a then 1 else 0;
        assert multiset(b)[x] == if x in b then 1 else 0;
      }
      assert multiset(a) == multiset(b);
    }
    if multiset(a) == multiset(b) {
      forall x | x in A
        ensures x in B
      {
        assert x in multiset(a);
      }
      forall x | x in B
        ensures x in A
      {
        assert x in multiset(b);
      }
    }
  }

  /** Without repeats every element occurs exactly once. */
  lemma {:induction false} DistinctMultiset(s: seq<int>)
    requires Distinct(s)
    ensures forall x :: multiset(s)[x] == if x in s then 1 else 0
    decreases |s|
  {
    if |s| > 0 {
      DistinctMultiset(s[1..]);
      assert s == [s[0]] + s[1..];
      assert multiset(s) == multiset{s[0]} + multiset(s[1..]);
      assert s[0] !in s[1..];
    }
  }

  /**
   * A repeated mark: with options 0 and 1 correct, the selection [0, 0]
   * passes partidaService's check and fails participacionService's.
   */
  lemma RepeatedMarkDivergence()
    ensures RoutedCorrect([0, 0], [Choice("a", true, None), Choice("b", true, None)])
    ensures !LedgerCorrect([0, 0], [Choice("a", true, None), Choice("b", true, None)])
  {
    var opts := [Choice("a", true, None), Choice("b", true, None)];
    assert opts[..1] == [Choice("a", true, None)];
    assert CorrectIndices(opts) == [0, 1];
    LedgerCorrectIffPermutation([0, 0], opts);
    assert multiset([0, 0])[0] == 2;
  }
}
