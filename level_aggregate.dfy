/**
 * The CEFR level aggregator: a list of per-question grades is reduced to one level by
 * majority vote; a tie is broken by the round-half-up mean of the ranks of the tied levels.
 */
module LevelAggregate {
  import opened Wrappers
  import opened Cefr

  datatype QuestionEvaluation = QuestionEvaluation(questionId: string, level: CefrLevel, explanation: string)

  /** A frequency table over the six levels. */
  type Counts = map<CefrLevel, nat>

  predicate Complete(c: Counts) {
    forall l: CefrLevel :: l in c
  }

  /** The number of evaluations graded `l`. */
  function Count(evs: seq<QuestionEvaluation>, l: CefrLevel): (n: nat)
    ensures n <= |evs|
  {
    if |evs| == 0 then 0
    else Count(evs[..|evs| - 1], l) + (if evs[|evs| - 1].level == l then 1 else 0)
  }

  /** The frequency table of a list of evaluations. */
  function Frequencies(evs: seq<QuestionEvaluation>): (c: Counts)
    ensures Complete(c)
    ensures forall l :: c[l] == Count(evs, l)
  {
    AllLevelsCover();
    map l: CefrLevel | l in AllLevels :: Count(evs, l)
  }

  /** The largest count among the levels of rank at most `j` (0 when there are none). */
  function MaxUpTo(c: Counts, j: nat): (m: nat)
    requires Complete(c) && j <= 6
    ensures forall l :: Rank(l) <= j ==> c[l] <= m
    ensures j == 0 ==> m == 0
    ensures j > 0 ==> exists l :: Rank(l) <= j && c[l] == m
  {
    if j == 0 then 0
    else
      var m := MaxUpTo(c, j - 1);
      var l := AllLevels[j - 1];
      RankOfAllLevels(j - 1);
      if c[l] > m then c[l] else m
  }

  /** The first level, in canonical order and of rank at most `j`, whose count is `m`. */
  function FirstAt(c: Counts, m: nat, j: nat): (r: Option<CefrLevel>)
    requires Complete(c) && j <= 6
    ensures r.Some? <==> exists l :: Rank(l) <= j && c[l] == m
    ensures r.Some? ==> Rank(r.value) <= j && c[r.value] == m
    ensures r.Some? ==> forall l :: Rank(l) < Rank(r.value) ==> c[l] != m
  {
    if j == 0 then None
    else
      RankOfAllLevels(j - 1);
      match FirstAt(c, m, j - 1)
      case Some(l) => Some(l)
      case None => if c[AllLevels[j - 1]] == m then Some(AllLevels[j - 1]) else None
  }

  /** The levels of rank at most `j` whose count is `m`, in canonical order. */
  function TiedUpTo(c: Counts, m: nat, j: nat): (r: seq<CefrLevel>)
    requires Complete(c) && j <= 6
    ensures |r| <= j
  {
    if j == 0 then []
    else
      var l := AllLevels[j - 1];
      if c[l] == m then TiedUpTo(c, m, j - 1) + [l] else TiedUpTo(c, m, j - 1)
  }

  /** The tied list holds exactly the levels of rank at most `j` whose count is `m`. */
  lemma {:induction false} TiedMembers(c: Counts, m: nat, j: nat)
    requires Complete(c) && j <= 6
    ensures forall l :: l in TiedUpTo(c, m, j) <==> Rank(l) <= j && c[l] == m
  {
    if j > 0 {
      TiedMembers(c, m, j - 1);
      RankOfAllLevels(j - 1);
    }
  }

  function RankSum(ls: seq<CefrLevel>): nat {
    if |ls| == 0 then 0 else RankSum(ls[..|ls| - 1]) + Rank(ls[|ls| - 1])
  }

  /** `Math.round(sum / k)` for non-negative `sum`: the quotient rounded half up. */
  function RoundedMean(sum: nat, k: nat): int
    requires k > 0
  {
    (2 * sum + k) / (2 * k)
  }

  /**
   * The level a complete frequency table with at least one positive count stands for: the
   * first level of maximal count, or, on a tie, the level at the rounded mean rank of the tied.
   */
  function LevelFromCounts(c: Counts): CefrLevel
    requires Complete(c) && MaxUpTo(c, 6) > 0
  {
    var m := MaxUpTo(c, 6);
    var first := FirstAt(c, m, 6).value;
    var tied := TiedUpTo(c, m, 6);
    if |tied| > 1 then FromRank(RoundedMean(RankSum(tied), |tied|)).GetOr(first)
    else first
  }

  /** The aggregate level of a list of evaluations, stated over its frequency table. */
  function DominantLevel(evs: seq<QuestionEvaluation>): CefrLevel {
    if |evs| == 0 then B1
    else
      MaxIsPositive(evs);
      LevelFromCounts(Frequencies(evs))
  }

  /**
   * `calculateDominantLevel`: fill the frequency table, scan it in canonical order keeping
   * the first strictly larger count, then break a tie by the rounded mean rank.
   */
  method CalculateDominantLevel(evaluations: seq<QuestionEvaluation>) returns (level: CefrLevel)
    ensures level == DominantLevel(evaluations)
  {
    if |evaluations| == 0 {
      return B1;
    }
    var levelCounts: Counts := map[A1 := 0, A2 := 0, B1 := 0, B2 := 0, C1 := 0, C2 := 0];
    forall l: CefrLevel ensures l in levelCounts {
      match l
      case A1 => case A2 => case B1 => case B2 => case C1 => case C2 =>
    }
    for i := 0 to |evaluations|
      invariant Complete(levelCounts)
      invariant forall l :: levelCounts[l] == Count(evaluations[..i], l)
    {
      assert evaluations[..i + 1][..i] == evaluations[..i];
      var l := evaluations[i].level;
      levelCounts := levelCounts[l := levelCounts[l] + 1];
    }
    assert evaluations[..|evaluations|] == evaluations;
    assert levelCounts == Frequencies(evaluations);

    var maxCount := 0;
    var dominantLevel := B1;
    for j := 0 to 6
      invariant maxCount == MaxUpTo(levelCounts, j)
      invariant maxCount > 0 ==> FirstAt(levelCounts, maxCount, j) == Some(dominantLevel)
    {
      var l := AllLevels[j];
      ScanStep(levelCounts, j, maxCount, dominantLevel);
      if levelCounts[l] > maxCount {
        maxCount := levelCounts[l];
        dominantLevel := l;
      }
    }
    MaxIsPositive(evaluations);

    var tiedLevels := TiedUpTo(levelCounts, maxCount, 6);
    if |tiedLevels| > 1 {
      var avgValue := RoundedMean(RankSum(tiedLevels), |tiedLevels|);
      var levelFromValue := FromRank(avgValue);
      return levelFromValue.GetOr(dominantLevel);
    }
    return dominantLevel;
  }

  /** One step of the scan: a strictly larger count replaces the maximum and the level kept. */
  lemma ScanStep(c: Counts, j: nat, m: nat, d: CefrLevel)
    requires Complete(c) && j < 6
    requires m == MaxUpTo(c, j) && (m > 0 ==> FirstAt(c, m, j) == Some(d))
    ensures var l := AllLevels[j];
            var m' := if c[l] > m then c[l] else m;
            m' == MaxUpTo(c, j + 1) && (m' > 0 ==> FirstAt(c, m', j + 1) == Some(if c[l] > m then l else d))
  {
    var l := AllLevels[j];
    RankOfAllLevels(j);
    if c[l] > m {
      assert FirstAt(c, c[l], j).None?;
    }
  }

  /** A non-empty list has a level counted at least once. */
  lemma MaxIsPositive(evs: seq<QuestionEvaluation>)
    requires |evs| > 0
    ensures MaxUpTo(Frequencies(evs), 6) > 0
  {
    var l := evs[|evs| - 1].level;
    assert Count(evs, l) > 0;
    assert Rank(l) <= 6;
  }

  function SumUpTo(c: Counts, j: nat): nat
    requires Complete(c) && j <= 6
  {
    if j == 0 then 0 else SumUpTo(c, j - 1) + c[AllLevels[j - 1]]
  }

  /** Every evaluation is counted exactly once: the counts add up to the length of the list. */
  lemma {:induction false} CountsSumToLength(evs: seq<QuestionEvaluation>)
    ensures SumUpTo(Frequencies(evs), 6) == |evs|
  {
    if |evs| == 0 {
      SumOfZeros(Frequencies(evs), 6);
    } else {
      var init := evs[..|evs| - 1];
      CountsSumToLength(init);
      var c, c' := Frequencies(evs), Frequencies(init);
      var l := evs[|evs| - 1].level;
      assert forall x :: c[x] == c'[x] + (if x == l then 1 else 0);
      SumBump(c', c, l, 6);
      assert SumUpTo(c', 6) == |init|;
    }
  }

  lemma {:induction false} SumOfZeros(c: Counts, j: nat)
    requires Complete(c) && j <= 6 && forall x :: c[x] == 0
    ensures SumUpTo(c, j) == 0
  {
    if j > 0 {
      SumOfZeros(c, j - 1);
    }
  }

  lemma {:induction false} SumBump(c': Counts, c: Counts, l: CefrLevel, j: nat)
    requires Complete(c) && Complete(c') && j <= 6
    requires c[l] == c'[l] + 1 && forall x :: x != l ==> c[x] == c'[x]
    ensures SumUpTo(c, j) == SumUpTo(c', j) + (if Rank(l) <= j then 1 else 0)
  {
    if j > 0 {
      SumBump(c', c, l, j - 1);
      RankOfAllLevels(j - 1);
    }
  }

  function Levels(evs: seq<QuestionEvaluation>): seq<CefrLevel> {
    seq(|evs|, i requires 0 <= i < |evs| => evs[i].level)
  }

  /** The count of a level is its multiplicity in the multiset of grades. */
  lemma {:induction false} CountIsMultiplicity(evs: seq<QuestionEvaluation>, l: CefrLevel)
    ensures Count(evs, l) == multiset(Levels(evs))[l]
  {
    if |evs| > 0 {
      var init := evs[..|evs| - 1];
      CountIsMultiplicity(init, l);
      assert Levels(evs) == Levels(init) + [evs[|evs| - 1].level];
    }
  }

  /** The aggregate depends only on the multiset of grades: any reordering gives the same level. */
  lemma PermutationInvariant(xs: seq<QuestionEvaluation>, ys: seq<QuestionEvaluation>)
    requires multiset(Levels(xs)) == multiset(Levels(ys))
    ensures DominantLevel(xs) == DominantLevel(ys)
  {
    forall l ensures Count(xs, l) == Count(ys, l) {
      CountIsMultiplicity(xs, l);
      CountIsMultiplicity(ys, l);
    }
    assert Frequencies(xs) == Frequencies(ys);
    assert |xs| == |multiset(Levels(xs))| == |multiset(Levels(ys))| == |ys|;
  }

  lemma {:induction false} TiedSingle(c: Counts, m: nat, l: CefrLevel, j: nat)
    requires Complete(c) && j <= 6
    requires c[l] == m && forall x :: x != l ==> c[x] != m
    ensures TiedUpTo(c, m, j) == if Rank(l) <= j then [l] else []
  {
    if j > 0 {
      TiedSingle(c, m, l, j - 1);
      RankOfAllLevels(j - 1);
      if AllLevels[j - 1] == l {
        assert Rank(l) == j;
      }
    }
  }

  /** A level counted strictly more often than every other level is the aggregate. */
  lemma UniqueModeWins(evs: seq<QuestionEvaluation>, l: CefrLevel)
    requires |evs| > 0
    requires forall x :: x != l ==> Count(evs, x) < Count(evs, l)
    ensures DominantLevel(evs) == l
  {
    var c := Frequencies(evs);
    var m := MaxUpTo(c, 6);
    var x :| Rank(x) <= 6 && c[x] == m;
    assert m == c[l];
    TiedSingle(c, m, l, 6);
  }

  lemma SingleTiedIsStrictMax(c: Counts, m: nat)
    requires Complete(c) && m == MaxUpTo(c, 6)
    requires |TiedUpTo(c, m, 6)| == 1
    ensures FirstAt(c, m, 6).Some?
    ensures forall x :: x != FirstAt(c, m, 6).value ==> c[x] < m
  {
    TiedMembers(c, m, 6);
    var tied := TiedUpTo(c, m, 6);
    var d := FirstAt(c, m, 6).value;
    assert d in tied;
    assert tied == [d];
  }

  /** With a single mode, the result is that mode: every other level is counted less often. */
  lemma ModeResult(evs: seq<QuestionEvaluation>)
    requires |evs| > 0
    requires |TiedUpTo(Frequencies(evs), MaxUpTo(Frequencies(evs), 6), 6)| == 1
    ensures var d := DominantLevel(evs); forall x :: x != d ==> Count(evs, x) < Count(evs, d)
  {
    var c := Frequencies(evs);
    SingleTiedIsStrictMax(c, MaxUpTo(c, 6));
  }

  /** The scan keeps the first level of maximal count: every level before it is counted less. */
  lemma FirstModeBeforeTieBreak(evs: seq<QuestionEvaluation>)
    requires |evs| > 0
    ensures var c := Frequencies(evs);
            var m := MaxUpTo(c, 6);
            var d := FirstAt(c, m, 6).value;
            c[d] == m && (forall x :: c[x] <= m) && (forall x :: Rank(x) < Rank(d) ==> c[x] < m)
  {
  }

  lemma {:induction false} RankSumBounds(ls: seq<CefrLevel>)
    ensures |ls| <= RankSum(ls) <= 6 * |ls|
  {
    if |ls| > 0 {
      RankSumBounds(ls[..|ls| - 1]);
    }
  }

  /** A rounded mean of ranks is itself a rank, so the `|| dominantLevel` fallback is never taken. */
  lemma RoundedMeanIsRank(ls: seq<CefrLevel>)
    requires |ls| > 0
    ensures 1 <= RoundedMean(RankSum(ls), |ls|) <= 6
  {
    var s, k := RankSum(ls), |ls|;
    RankSumBounds(ls);
    assert 2 * k * 1 <= 2 * s + k;
    assert 2 * s + k < 2 * k * 7;
    DivBetween(2 * s + k, 2 * k, 1, 7);
  }

  lemma DivBetween(x: nat, d: nat, lo: nat, hi: nat)
    requires d > 0 && d * lo <= x < d * hi
    ensures lo <= x / d < hi
  {
    var q, r := x / d, x % d;
    assert x == d * q + r && 0 <= r < d;
    if q < lo {
      MulLe(d, q + 1, lo);
      assert false;
    }
    if q >= hi {
      MulLe(d, hi, q);
      assert false;
    }
  }

  lemma MulLe(d: nat, a: nat, b: nat)
    requires a <= b
    ensures d * a <= d * b
  {
  }

  lemma TieBreakCounts(c: Counts)
    requires Complete(c) && MaxUpTo(c, 6) > 0
    requires |TiedUpTo(c, MaxUpTo(c, 6), 6)| > 1
    ensures var tied := TiedUpTo(c, MaxUpTo(c, 6), 6);
            Rank(LevelFromCounts(c)) == RoundedMean(RankSum(tied), |tied|)
  {
    RoundedMeanIsRank(TiedUpTo(c, MaxUpTo(c, 6), 6));
  }

  /** On a tie, the result is the level whose rank is the rounded mean rank of the tied levels. */
  lemma TieBreak(evs: seq<QuestionEvaluation>)
    requires |evs| > 0
    requires |TiedUpTo(Frequencies(evs), MaxUpTo(Frequencies(evs), 6), 6)| > 1
    ensures var tied := TiedUpTo(Frequencies(evs), MaxUpTo(Frequencies(evs), 6), 6);
            Rank(DominantLevel(evs)) == RoundedMean(RankSum(tied), |tied|)
  {
    MaxIsPositive(evs);
    TieBreakCounts(Frequencies(evs));
  }

  /** A single evaluation at level `L` yields `L`. */
  lemma SingleEvaluation(e: QuestionEvaluation)
    ensures DominantLevel([e]) == e.level
  {
    var evs := [e];
    assert evs[..0] == [];
    UniqueModeWins(evs, e.level);
  }

  /** Feeding the aggregate back in as a one-element list returns the same level. */
  lemma Idempotent(evs: seq<QuestionEvaluation>, questionId: string, explanation: string)
    ensures DominantLevel([QuestionEvaluation(questionId, DominantLevel(evs), explanation)]) == DominantLevel(evs)
  {
    SingleEvaluation(QuestionEvaluation(questionId, DominantLevel(evs), explanation));
  }

  /** A clear majority: grades B1, B1, B2, A2 give B1. */
  lemma MajorityExample(e1: QuestionEvaluation, e2: QuestionEvaluation, e3: QuestionEvaluation, e4: QuestionEvaluation)
    requires e1.level == B1 && e2.level == B1 && e3.level == B2 && e4.level == A2
    ensures DominantLevel([e1, e2, e3, e4]) == B1
  {
    var xs := [e1, e2, e3, e4];
    assert xs[..3] == [e1, e2, e3] && xs[..3][..2] == [e1, e2] && xs[..3][..2][..1] == [e1];
    forall x ensures Count(xs, x) == Count([e1, e2, e3], x) + (if x == A2 then 1 else 0) {
    }
    forall x ensures Count([e1, e2, e3], x) == Count([e1, e2], x) + (if x == B2 then 1 else 0) {
    }
    forall x ensures Count([e1, e2], x) == (if x == B1 then 2 else 0) {
      assert [e1, e2][..1] == [e1] && [e1][..0] == [];
    }
    UniqueModeWins(xs, B1);
  }

  /** A unanimous list: grades B2, B2, B2 give B2. */
  lemma UnanimousExample(e1: QuestionEvaluation, e2: QuestionEvaluation, e3: QuestionEvaluation)
    requires e1.level == B2 && e2.level == B2 && e3.level == B2
    ensures DominantLevel([e1, e2, e3]) == B2
  {
    var xs := [e1, e2, e3];
    assert xs[..2] == [e1, e2] && xs[..2][..1] == [e1];
    UniqueModeWins(xs, B2);
  }

  /** `[l]` when `l` has rank at most `j`, otherwise empty. */
  function UpTo(l: CefrLevel, j: nat): seq<CefrLevel> {
    if Rank(l) <= j then [l] else []
  }

  lemma {:induction false} TiedThree(c: Counts, m: nat, a: CefrLevel, b: CefrLevel, d: CefrLevel, j: nat)
    requires Complete(c) && j <= 6
    requires Rank(a) < Rank(b) < Rank(d)
    requires c[a] == m && c[b] == m && c[d] == m
    requires forall x :: x != a && x != b && x != d ==> c[x] != m
    ensures TiedUpTo(c, m, j) == UpTo(a, j) + UpTo(b, j) + UpTo(d, j)
  {
    if j > 0 {
      TiedThree(c, m, a, b, d, j - 1);
      var l := AllLevels[j - 1];
      RankOfAllLevels(j - 1);
      UpToStepThree(a, b, d, l, j);
      assert c[l] == m <==> l == a || l == b || l == d;
    }
  }

  /** Raising the rank bound by one appends the level of that rank when it is one of the three. */
  lemma UpToStepThree(a: CefrLevel, b: CefrLevel, d: CefrLevel, l: CefrLevel, j: nat)
    requires Rank(l) == j && Rank(a) < Rank(b) < Rank(d)
    ensures UpTo(a, j) + UpTo(b, j) + UpTo(d, j) ==
            UpTo(a, j - 1) + UpTo(b, j - 1) + UpTo(d, j - 1) + (if l == a || l == b || l == d then [l] else [])
  {
    if l == a {
      assert UpTo(a, j) == [a] && UpTo(a, j - 1) == [];
      assert UpTo(b, j) == [] && UpTo(b, j - 1) == [] && UpTo(d, j) == [] && UpTo(d, j - 1) == [];
      assert [a] + [] + [] == [] + [] + [] + [a];
    } else if l == b {
      assert UpTo(a, j) == [a] && UpTo(a, j - 1) == [a] && UpTo(b, j) == [b] && UpTo(b, j - 1) == [];
      assert UpTo(d, j) == [] && UpTo(d, j - 1) == [];
      assert [a] + [b] + [] == [a] + [] + [] + [b];
    } else if l == d {
      assert UpTo(a, j) == [a] && UpTo(a, j - 1) == [a] && UpTo(b, j) == [b] && UpTo(b, j - 1) == [b];
      assert UpTo(d, j) == [d] && UpTo(d, j - 1) == [];
      assert [a] + [b] + [d] == [a] + [b] + [] + [d];
    } else {
      assert UpTo(a, j) == UpTo(a, j - 1) && UpTo(b, j) == UpTo(b, j - 1) && UpTo(d, j) == UpTo(d, j - 1);
      assert UpTo(a, j - 1) + UpTo(b, j - 1) + UpTo(d, j - 1) + [] == UpTo(a, j - 1) + UpTo(b, j - 1) + UpTo(d, j - 1);
    }
  }

  lemma {:induction false} TiedTwo(c: Counts, m: nat, a: CefrLevel, b: CefrLevel, j: nat)
    requires Complete(c) && j <= 6
    requires Rank(a) < Rank(b)
    requires c[a] == m && c[b] == m
    requires forall x :: x != a && x != b ==> c[x] != m
    ensures TiedUpTo(c, m, j) == UpTo(a, j) + UpTo(b, j)
  {
    if j > 0 {
      TiedTwo(c, m, a, b, j - 1);
      var l := AllLevels[j - 1];
      RankOfAllLevels(j - 1);
      if l == a {
      } else if l == b {
      } else {
        assert c[l] != m;
      }
    }
  }

  /** The levels tied with `a` and `b` at the top are exactly `a` and `b`, in rank order. */
  lemma TopTwo(c: Counts, a: CefrLevel, b: CefrLevel)
    requires Complete(c) && Rank(a) < Rank(b) && c[a] == c[b]
    requires forall x :: x != a && x != b ==> c[x] < c[a]
    ensures TiedUpTo(c, MaxUpTo(c, 6), 6) == [a, b]
  {
    var m := MaxUpTo(c, 6);
    assert m == c[a];
    TiedTwo(c, m, a, b, 6);
  }

  lemma TopThree(c: Counts, a: CefrLevel, b: CefrLevel, d: CefrLevel)
    requires Complete(c) && Rank(a) < Rank(b) < Rank(d) && c[a] == c[b] == c[d]
    requires forall x :: x != a && x != b && x != d ==> c[x] < c[a]
    ensures TiedUpTo(c, MaxUpTo(c, 6), 6) == [a, b, d]
  {
    var m := MaxUpTo(c, 6);
    assert m == c[a];
    TiedThree(c, m, a, b, d, 6);
  }

  lemma TwoWayTieCounts(c: Counts, a: CefrLevel, b: CefrLevel)
    requires Complete(c) && Rank(a) < Rank(b) && c[a] == c[b] > 0
    requires forall x :: x != a && x != b ==> c[x] < c[a]
    ensures MaxUpTo(c, 6) > 0 && Rank(LevelFromCounts(c)) == RoundedMean(Rank(a) + Rank(b), 2)
  {
    TopTwo(c, a, b);
    assert RankSum([a, b]) == Rank(a) + Rank(b) by {
      assert [a][..0] == [];
      assert RankSum([a]) == Rank(a);
      assert [a, b][..1] == [a];
    }
    TieBreakCounts(c);
  }

  lemma ThreeWayTieCounts(c: Counts, a: CefrLevel, b: CefrLevel, d: CefrLevel)
    requires Complete(c) && Rank(a) < Rank(b) < Rank(d) && c[a] == c[b] == c[d] > 0
    requires forall x :: x != a && x != b && x != d ==> c[x] < c[a]
    ensures MaxUpTo(c, 6) > 0
    ensures Rank(LevelFromCounts(c)) == RoundedMean(Rank(a) + Rank(b) + Rank(d), 3)
  {
    TopThree(c, a, b, d);
    assert RankSum([a, b, d]) == Rank(a) + Rank(b) + Rank(d) by {
      assert [a][..0] == [];
      assert RankSum([a]) == Rank(a);
      assert [a, b][..1] == [a];
      assert RankSum([a, b]) == Rank(a) + Rank(b);
      assert [a, b, d][..2] == [a, b];
    }
    TieBreakCounts(c);
  }

  /** A two-way tie between `a` and `b` is broken to the level at the rounded mean of their ranks. */
  lemma TwoWayTie(evs: seq<QuestionEvaluation>, a: CefrLevel, b: CefrLevel)
    requires Rank(a) < Rank(b) && Count(evs, a) == Count(evs, b) > 0
    requires forall x :: x != a && x != b ==> Count(evs, x) < Count(evs, a)
    ensures Rank(DominantLevel(evs)) == RoundedMean(Rank(a) + Rank(b), 2)
  {
    TwoWayTieCounts(Frequencies(evs), a, b);
  }

  /** A three-way tie is broken to the level at the rounded mean of the three ranks. */
  lemma ThreeWayTie(evs: seq<QuestionEvaluation>, a: CefrLevel, b: CefrLevel, d: CefrLevel)
    requires Rank(a) < Rank(b) < Rank(d)
    requires Count(evs, a) == Count(evs, b) == Count(evs, d) > 0
    requires forall x :: x != a && x != b && x != d ==> Count(evs, x) < Count(evs, a)
    ensures Rank(DominantLevel(evs)) == RoundedMean(Rank(a) + Rank(b) + Rank(d), 3)
  {
    ThreeWayTieCounts(Frequencies(evs), a, b, d);
  }

  /** A two-way tie between adjacent levels rounds up: grades B1, B2 give B2. */
  lemma AdjacentTieExample(e1: QuestionEvaluation, e2: QuestionEvaluation)
    requires e1.level == B1 && e2.level == B2
    ensures DominantLevel([e1, e2]) == B2
  {
    var xs := [e1, e2];
    assert xs[..1] == [e1];
    TwoWayTie(xs, B1, B2);
    RankInjective(DominantLevel(xs), B2);
  }

  /** A three-way tie: grades A1, B1, C1 give B1. */
  lemma ThreeWayTieExample(e1: QuestionEvaluation, e2: QuestionEvaluation, e3: QuestionEvaluation)
    requires e1.level == A1 && e2.level == B1 && e3.level == C1
    ensures DominantLevel([e1, e2, e3]) == B1
  {
    var xs := [e1, e2, e3];
    assert xs[..2] == [e1, e2] && xs[..2][..1] == [e1];
    forall x ensures Count(xs, x) == Count([e1, e2], x) + (if x == C1 then 1 else 0) {
    }
    forall x ensures Count([e1, e2], x) == (if x == A1 || x == B1 then 1 else 0) {
      assert [e1, e2][..1] == [e1] && [e1][..0] == [];
    }
    ThreeWayTie(xs, A1, B1, C1);
    RankInjective(DominantLevel(xs), B1);
  }

  /** A tie between the extremes: grades A1, C2 give B2. */
  lemma ExtremesTieExample(e1: QuestionEvaluation, e2: QuestionEvaluation)
    requires e1.level == A1 && e2.level == C2
    ensures DominantLevel([e1, e2]) == B2
  {
    var xs := [e1, e2];
    assert xs[..1] == [e1];
    TwoWayTie(xs, A1, C2);
    RankInjective(DominantLevel(xs), B2);
  }
}
