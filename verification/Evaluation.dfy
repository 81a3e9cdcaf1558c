/**
 Aggregating an evaluation and comparing a candidate with its baseline, with
 rates as exact rationals rounded half-even to six digits.
 */
module Evaluation {
  import opened Wrappers

  /** `Other` is any value that is not an outcome; it is counted as invalid. */
  datatype Outcome = Pass | Fail | Error | Invalid | Inconclusive | CancelledOutcome | Other

  datatype Item = Item(result: Outcome, valid: bool, required: bool)

  /** Valid quality evidence: a judged PASS or FAIL. */
  predicate Judged(i: Item) {
    i.valid && (i.result == Pass || i.result == Fail)
  }

  function Having(items: seq<Item>, o: Outcome): nat
    decreases |items|
  {
    if items == [] then 0 else Having(items[..|items| - 1], o) + if items[|items| - 1].result == o then 1 else 0
  }

  /** Where a result is counted. */
  function Bucket(o: Outcome): Outcome {
    if o == Other then Invalid else o
  }

  /** How many items are counted under an outcome. */
  function Counted(items: seq<Item>, o: Outcome): nat {
    if o == Invalid then Having(items, Invalid) + Having(items, Other) else if o == Other then 0 else Having(items, o)
  }

  /** `_count_outcomes`: nothing is dropped, unknown values are invalid. */
  method CountOutcomes(items: seq<Item>) returns (counts: map<Outcome, nat>)
    ensures counts.Keys == {Pass, Fail, Error, Invalid, Inconclusive, CancelledOutcome}
    ensures forall o :: o in counts ==> counts[o] == Counted(items, o)
  {
    counts := map[Pass := 0, Fail := 0, Error := 0, Invalid := 0, Inconclusive := 0, CancelledOutcome := 0];
    var k := 0;
    while k < |items|
      invariant 0 <= k <= |items|
      invariant counts.Keys == {Pass, Fail, Error, Invalid, Inconclusive, CancelledOutcome}
      invariant forall o :: o in counts ==> counts[o] == Counted(items[..k], o)
    {
      assert items[..k + 1][..k] == items[..k];
      CountedOneMore(items[..k + 1]);
      var bucket := Bucket(items[k].result);
      counts := counts[bucket := counts[bucket] + 1];
      k := k + 1;
    }
    assert items[..k] == items;
  }

  lemma CountedOneMore(items: seq<Item>)
    requires items != []
    ensures forall o :: o != Other ==>
      Counted(items, o) == Counted(items[..|items| - 1], o) + if Bucket(items[|items| - 1].result) == o then 1 else 0
  {}

  function Total(items: seq<Item>): nat {
    Counted(items, Pass) + Counted(items, Fail) + Counted(items, Error) + Counted(items, Invalid)
    + Counted(items, Inconclusive) + Counted(items, CancelledOutcome)
  }

  /** Every item is counted once. */
  lemma {:induction false} CountsAreComplete(items: seq<Item>)
    ensures Total(items) == |items|
    decreases |items|
  {
    if items != [] {
      CountsAreComplete(items[..|items| - 1]);
      CountedOneMore(items);
    }
  }

  // ---------------------------------------------------------------- rounding

  /** One, in units of the sixth digit. */
  const ONE := 1_000_000

  /** `round(p / n, 6)` in units of the sixth digit: to nearest, ties to even. */
  function Rate(p: nat, n: nat): nat
    requires n > 0
  {
    var q, r := p * ONE / n, p * ONE % n;
    if 2 * r < n || (2 * r == n && q % 2 == 0) then q else q + 1
  }

  lemma DivMod(a: nat, n: nat)
    requires n > 0
    ensures a == n * (a / n) + a % n && 0 <= a % n < n
  {}

  /** The rounded rate is within half a unit of the exact one. */
  lemma RateIsNear(p: nat, n: nat)
    requires n > 0
    ensures 2 * p * ONE - n <= 2 * (n * Rate(p, n)) <= 2 * p * ONE + n
  {
    var q, r := p * ONE / n, p * ONE % n;
    DivMod(p * ONE, n);
    assert n * (q + 1) == n * q + n;
  }

  /** A quotient is determined by its defining bounds. */
  lemma QuotientIs(a: nat, n: nat, q: nat, r: nat)
    requires n > 0 && a == n * q + r && r < n
    ensures a / n == q && a % n == r
  {
    DivMod(a, n);
    var d := q - a / n;
    assert n * d == a % n - r by {
      assert n * q - n * (a / n) == n * d;
    }
    if d >= 1 {
      Scale(n, d);
    } else if d <= -1 {
      assert n * (-d) == -(n * d);
      Scale(n, -d);
    }
  }

  lemma Scale(n: nat, d: int)
    requires d >= 1
    ensures n * d >= n
  {
    assert n * d == n + n * (d - 1);
    Nonnegative(n, d - 1);
  }

  lemma Nonnegative(n: nat, d: int)
    requires d >= 0
    ensures n * d >= 0
  {}

  /** One more success raises the rounded rate, for up to a million members. */
  lemma RateRises(p: nat, p': nat, n: nat)
    requires 0 < n <= ONE && p < p'
    ensures Rate(p, n) < Rate(p', n)
  {
    if n == ONE {
      QuotientIs(p * ONE, n, p, 0);
      QuotientIs(p' * ONE, n, p', 0);
    } else {
      RateIsNear(p, n);
      RateIsNear(p', n);
      var a, b := Rate(p, n), Rate(p', n);
      assert 2 * (n * b) - 2 * (n * a) >= 2 * p' * ONE - 2 * p * ONE - 2 * n > 0;
      if b <= a {
        assert n * a == n * b + n * (a - b);
        Nonnegative(n, a - b);
      }
    }
  }

  /** A rate of everything is one. */
  lemma RateOfAll(n: nat)
    requires n > 0
    ensures Rate(n, n) == ONE
  {
    QuotientIs(n * ONE, n, ONE, 0);
  }

  lemma {:induction false} StrictRatesCount(n: nat, p: nat)
    requires n > 0 && p <= n
    requires forall k :: 0 <= k < n ==> Rate(k, n) < Rate(k + 1, n)
    ensures Rate(p, n) >= p
    decreases p
  {
    if p > 0 {
      StrictRatesCount(n, p - 1);
      assert Rate(p - 1, n) < Rate(p - 1 + 1, n);
    }
  }

  /** Every additional success is visible in the rounded rate exactly up to a
      million members. */
  lemma RateRisesExactly(n: nat)
    requires n > 0
    ensures (forall k :: 0 <= k < n ==> Rate(k, n) < Rate(k + 1, n)) <==> n <= ONE
  {
    if n <= ONE {
      forall k | 0 <= k < n ensures Rate(k, n) < Rate(k + 1, n) {
        RateRises(k, k + 1, n);
      }
    }
    if forall k :: 0 <= k < n ==> Rate(k, n) < Rate(k + 1, n) {
      StrictRatesCount(n, n);
      RateOfAll(n);
    }
  }

  /** One member more than a million: an improvement that the rate does not show. */
  lemma HiddenImprovement()
    ensures Rate(500_000, 1_000_001) == Rate(500_001, 1_000_001)
  {
    QuotientIs(500_000 * ONE, 1_000_001, 499_999, 500_001);
    QuotientIs(500_001 * ONE, 1_000_001, 500_000, 500_000);
  }

  /** The quotient and remainder of the complementary rate. */
  lemma Complement(p: nat, f: nat)
    requires p + f > 0
    ensures
      var n := p + f;
      var q, r := p * ONE / n, p * ONE % n;
      if r == 0 then q <= ONE && f * ONE / n == ONE - q && f * ONE % n == 0
      else q < ONE && f * ONE / n == ONE - q - 1 && f * ONE % n == n - r
  {
    var n := p + f;
    var q, r := p * ONE / n, p * ONE % n;
    DivMod(p * ONE, n);
    var s := if r == 0 then ONE - q else ONE - q - 1;
    var rest := if r == 0 then 0 else n - r;
    assert f * ONE == n * ONE - p * ONE;
    assert n * s == n * ONE - n * q - if r == 0 then 0 else n;
    assert f * ONE == n * s + rest;
    assert s >= 0 by {
      if s <= -1 {
        assert n * (-s) == -(n * s);
        Scale(n, -s);
      }
    }
    QuotientIs(f * ONE, n, s, rest);
  }

  /** Success and failure rate always add up to one, also after rounding. */
  lemma RatesAddUp(p: nat, f: nat)
    requires p + f > 0
    ensures Rate(p, p + f) + Rate(f, p + f) == ONE
  {
    Complement(p, f);
  }

  /** The rounded coverage is 1.0 exactly while the gaps are at most one in two
      million; below two million required items that means no gap at all. */
  lemma FullCoverageExactly(valid: nat, gaps: nat)
    requires valid + gaps > 0
    ensures Rate(valid, valid + gaps) == ONE <==> 2 * ONE * gaps <= valid + gaps
    ensures valid + gaps < 2 * ONE ==> (Rate(valid, valid + gaps) == ONE <==> gaps == 0)
  {
    var n := valid + gaps;
    RatesAddUp(valid, gaps);
    assert Rate(gaps, n) == 0 <==> 2 * ONE * gaps <= n by {
      if 2 * ONE * gaps <= n {
        QuotientIs(gaps * ONE, n, 0, gaps * ONE);
      } else {
        RateIsNear(gaps, n);
      }
    }
  }

  // ---------------------------------------------------------------- summaries

  /** `_quality_summary`: only judged evidence enters the denominator. */
  function Judgements(items: seq<Item>, o: Outcome): nat
    decreases |items|
  {
    if items == [] then 0
    else
      var last := items[|items| - 1];
      Judgements(items[..|items| - 1], o) + if Judged(last) && last.result == o then 1 else 0
  }

  function SuccessRate(items: seq<Item>): Option<nat> {
    var p, f := Judgements(items, Pass), Judgements(items, Fail);
    if p + f == 0 then None else Some(Rate(p, p + f))
  }

  // ---------------------------------------------------------------- comparison

  datatype Class = Incomparable | Improved | Regressed | Unchanged

  /** A member with its baseline and its candidate item. */
  datatype Member = Member(baseline: Item, candidate: Item)

  /** `_compare_item`. */
  function Classify(m: Member): Class {
    if !Judged(m.baseline) || !Judged(m.candidate) then Incomparable
    else if m.baseline.result == Fail && m.candidate.result == Pass then Improved
    else if m.baseline.result == Pass && m.candidate.result == Fail then Regressed
    else Unchanged
  }

  datatype Summary = Mixed | CandidateRegressed | CandidateImproved | AllUnchanged | NotComparable

  predicate SomeClass(members: seq<Member>, c: Class) {
    exists i :: 0 <= i < |members| && Classify(members[i]) == c
  }

  /** `_comparison_aggregate`'s summary. */
  function Summarize(members: seq<Member>): Summary {
    if SomeClass(members, Regressed) && SomeClass(members, Improved) then Mixed
    else if SomeClass(members, Regressed) then CandidateRegressed
    else if SomeClass(members, Improved) && !SomeClass(members, Incomparable) then CandidateImproved
    else if SomeClass(members, Improved) then Mixed
    else if members != [] && forall i :: 0 <= i < |members| ==> Classify(members[i]) == Unchanged then AllUnchanged
    else NotComparable
  }

  function Baseline(members: seq<Member>): seq<Item> {
    seq(|members|, i requires 0 <= i < |members| => members[i].baseline)
  }

  function Candidate(members: seq<Member>): seq<Item> {
    seq(|members|, i requires 0 <= i < |members| => members[i].candidate)
  }

  function Number(members: seq<Member>, c: Class): nat
    decreases |members|
  {
    if members == [] then 0 else Number(members[..|members| - 1], c) + if Classify(members[|members| - 1]) == c then 1 else 0
  }

  /** Judged items of one side whose other side has no valid evidence. */
  function Alone(members: seq<Member>, candidate: bool, o: Outcome): nat
    decreases |members|
  {
    if members == [] then 0
    else
      var last := members[|members| - 1];
      var item := if candidate then last.candidate else last.baseline;
      Alone(members[..|members| - 1], candidate, o)
      + if Classify(last) == Incomparable && Judged(item) && item.result == o then 1 else 0
  }

  lemma SidesOneMore(members: seq<Member>)
    requires members != []
    ensures
      var n := |members| - 1;
      && Baseline(members)[..n] == Baseline(members[..n]) && Baseline(members)[n] == members[n].baseline
      && Candidate(members)[..n] == Candidate(members[..n]) && Candidate(members)[n] == members[n].candidate
  {}

  /** Where judged passes and failures go from baseline to candidate: only improved
      and regressed members move one to the other, and members without evidence on
      one side account for the rest. */
  lemma {:induction false} DeltaLaw(members: seq<Member>)
    ensures
      Judgements(Candidate(members), Pass) - Judgements(Baseline(members), Pass)
        == Number(members, Improved) - Number(members, Regressed) + Alone(members, true, Pass) - Alone(members, false, Pass)
    ensures
      Judgements(Candidate(members), Fail) - Judgements(Baseline(members), Fail)
        == Number(members, Regressed) - Number(members, Improved) + Alone(members, true, Fail) - Alone(members, false, Fail)
    decreases |members|
  {
    if members != [] {
      SidesOneMore(members);
      DeltaLaw(members[..|members| - 1]);
    }
  }

  lemma {:induction false} NoneAlone(members: seq<Member>)
    requires !SomeClass(members, Incomparable)
    ensures forall side, o :: Alone(members, side, o) == 0
    ensures Judgements(Baseline(members), Pass) + Judgements(Baseline(members), Fail) == |members|
    ensures Judgements(Candidate(members), Pass) + Judgements(Candidate(members), Fail) == |members|
    decreases |members|
  {
    if members != [] {
      var n := |members| - 1;
      SidesOneMore(members);
      assert forall i :: 0 <= i < n ==> members[..n][i] == members[i];
      assert Classify(members[n]) != Incomparable;
      NoneAlone(members[..n]);
    }
  }

  /** Without incomparable members the pass delta is improvements minus regressions
      and the failure delta its negation. */
  lemma ComparableDeltas(members: seq<Member>)
    requires !SomeClass(members, Incomparable)
    ensures
      var passDelta := Judgements(Candidate(members), Pass) - Judgements(Baseline(members), Pass);
      var failDelta := Judgements(Candidate(members), Fail) - Judgements(Baseline(members), Fail);
      passDelta == Number(members, Improved) - Number(members, Regressed) && failDelta == -passDelta
  {
    DeltaLaw(members);
    NoneAlone(members);
  }

  /** Outcome deltas always sum to zero: both sides count every member once. */
  lemma OutcomeDeltasCancel(members: seq<Member>)
    ensures Total(Candidate(members)) - Total(Baseline(members)) == 0
  {
    CountsAreComplete(Candidate(members));
    CountsAreComplete(Baseline(members));
  }

  lemma {:induction false} NumberPositive(members: seq<Member>, c: Class)
    ensures Number(members, c) > 0 <==> SomeClass(members, c)
    decreases |members|
  {
    if members != [] {
      var n := |members| - 1;
      NumberPositive(members[..n], c);
      if i :| 0 <= i < n && Classify(members[..n][i]) == c {
        assert Classify(members[i]) == c;
      }
      if i :| 0 <= i < |members| && Classify(members[i]) == c {
        if i < n {
          assert Classify(members[..n][i]) == c;
        }
      }
    }
  }

  /** The candidate's result of a member went up, or down, on valid evidence of both sides. */
  predicate Up(m: Member) {
    m.baseline.valid && m.candidate.valid && m.baseline.result == Fail && m.candidate.result == Pass
  }

  predicate Down(m: Member) {
    m.baseline.valid && m.candidate.valid && m.baseline.result == Pass && m.candidate.result == Fail
  }

  /** Both sides were judged, and judged alike. */
  predicate Same(m: Member) {
    Judged(m.baseline) && Judged(m.candidate) && m.baseline.result == m.candidate.result
  }

  /** A member is of exactly one class, by what its two results say. */
  lemma ClassExactly(m: Member)
    ensures Classify(m) == Improved <==> Up(m)
    ensures Classify(m) == Regressed <==> Down(m)
    ensures Classify(m) == Unchanged <==> Same(m)
    ensures Classify(m) == Incomparable <==> !Judged(m.baseline) || !Judged(m.candidate)
  {}

  /** Each verdict of a comparison, on the results of its members: regressed when
      something went down and nothing up; improved when something went up and all the
      rest is the same; mixed when something went up beside a member that went down or
      cannot be compared; unchanged when there are members and all are the same; and
      otherwise not comparable. */
  lemma SummaryExactly(members: seq<Member>)
    ensures
      var up, down := (exists m :: m in members && Up(m)), (exists m :: m in members && Down(m));
      var alone := exists m :: m in members && (!Judged(m.baseline) || !Judged(m.candidate));
      && (Summarize(members) == CandidateRegressed <==> down && !up)
      && (Summarize(members) == CandidateImproved <==> up && forall m :: m in members ==> Up(m) || Same(m))
      && (Summarize(members) == Mixed <==> up && (down || alone))
      && (Summarize(members) == AllUnchanged <==> members != [] && forall m :: m in members ==> Same(m))
      && (Summarize(members) == NotComparable <==> !up && !down && (members == [] || alone))
  {
    forall c ensures SomeClass(members, c) <==> exists m :: m in members && Classify(m) == c {
      if i :| 0 <= i < |members| && Classify(members[i]) == c {
        assert members[i] in members;
      }
      if m :| m in members && Classify(m) == c {
        var i :| 0 <= i < |members| && members[i] == m;
        assert Classify(members[i]) == c;
      }
    }
    forall m | m in members
      ensures (Classify(m) == Improved <==> Up(m)) && (Classify(m) == Regressed <==> Down(m))
      ensures (Classify(m) == Unchanged <==> Same(m)) && (Classify(m) == Incomparable <==> !Judged(m.baseline) || !Judged(m.candidate))
    {
      ClassExactly(m);
    }
    assert SomeClass(members, Improved) <==> exists m :: m in members && Up(m);
    assert SomeClass(members, Regressed) <==> exists m :: m in members && Down(m);
    assert SomeClass(members, Incomparable) <==> exists m :: m in members && (!Judged(m.baseline) || !Judged(m.candidate));
    assert (forall i :: 0 <= i < |members| ==> Classify(members[i]) == Unchanged) <==> forall m :: m in members ==> Same(m);
  }

  /** A candidate is declared improved exactly when some member improved and every
      other is unchanged; then, for up to a million members, the rounded success
      rate strictly rises. */
  lemma ImprovedExactly(members: seq<Member>)
    ensures Summarize(members) == CandidateImproved
       <==> && SomeClass(members, Improved)
            && forall i :: 0 <= i < |members| ==> Classify(members[i]) == Improved || Classify(members[i]) == Unchanged
    ensures Summarize(members) == CandidateImproved && |members| <= ONE ==>
      && SuccessRate(Baseline(members)).Some? && SuccessRate(Candidate(members)).Some?
      && SuccessRate(Baseline(members)).value < SuccessRate(Candidate(members)).value
  {
    if Summarize(members) == CandidateImproved && |members| <= ONE {
      ComparableDeltas(members);
      NoneAlone(members);
      NumberPositive(members, Improved);
      NumberPositive(members, Regressed);
      RateRises(Judgements(Baseline(members), Pass), Judgements(Candidate(members), Pass), |members|);
    }
  }
}
