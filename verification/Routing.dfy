/**
 Routing every discovered test to exactly one lane by dotted selectors.
 */
module Routing {
  import opened Wrappers

  /** A dotted name as its components; `s <= x` says `s` is `x` or a dotted ancestor of it. */
  type Id = seq<nat>

  /** A selector names something: even the empty string is one component. */
  type Selector = s: Id | s != [] witness [0]

  datatype Rule = Rule(selector: Selector, route: nat)

  /** Route 0 is the portable lane. */
  const PORTABLE := 0

  datatype Row = Row(id: Id, route: nat)

  /** `stem` names the test module; `known` are the ids no rule may hide. */
  datatype Module = Module(stem: nat, rules: seq<Rule>, known: set<Id>)

  /** `stem.Class.test_name`. */
  predicate Shaped(m: Module, isTest: nat -> bool, id: Id) {
    |id| == 3 && id[0] == m.stem && isTest(id[2])
  }

  predicate Matches(r: Rule, id: Id) {
    id != [] && r.selector <= id[1..]
  }

  predicate AtMostOneRule(m: Module, id: Id) {
    forall j, k :: 0 <= j < k < |m.rules| ==> !(Matches(m.rules[j], id) && Matches(m.rules[k], id))
  }

  /** The route of a test: that of the rule that matches it, or portable. */
  ghost predicate Routes(m: Module, id: Id, route: nat) {
    && (forall k :: 0 <= k < |m.rules| && Matches(m.rules[k], id) ==> route == m.rules[k].route)
    && ((forall k :: 0 <= k < |m.rules| ==> !Matches(m.rules[k], id)) ==> route == PORTABLE)
  }

  /** No rule may route a known failure away from the portable lane. */
  ghost predicate NotHidden(m: Module, id: Id) {
    id in m.known ==> forall k :: 0 <= k < |m.rules| && Matches(m.rules[k], id) ==> m.rules[k].route == PORTABLE
  }

  ghost predicate Used(m: Module, ids: seq<Id>, k: nat)
    requires k < |m.rules|
  {
    exists i :: 0 <= i < |ids| && Matches(m.rules[k], ids[i])
  }

  ghost predicate IdsValid(m: Module, isTest: nat -> bool, ids: seq<Id>) {
    && ids != [] && NoDup(ids)
    && forall i :: 0 <= i < |ids| ==> |ids[i]| == 3 && ids[i][0] == m.stem && isTest(ids[i][2])
  }

  /** A rule covers a test of its module when its selector names the test or its class. */
  lemma MatchesExactly(r: Rule, stem: nat, class_: nat, test: nat)
    ensures Matches(r, [stem, class_, test]) <==> r.selector == [class_, test] || r.selector == [class_]
  {
    var rest := [stem, class_, test][1..];
    assert rest == [class_, test];
    if r.selector <= rest {
      assert r.selector == rest[..|r.selector|];
    }
  }

  /** When `classify` accepts: valid ids, no overlap, no known failure routed away, no idle rule. */
  ghost predicate Accepts(m: Module, isTest: nat -> bool, ids: seq<Id>) {
    && IdsValid(m, isTest, ids)
    && (forall i :: 0 <= i < |ids| ==> AtMostOneRule(m, ids[i]) && NotHidden(m, ids[i]))
    && (forall k :: 0 <= k < |m.rules| ==> Used(m, ids, k))
  }

  /** The rule of one test: none, the only one, or an overlap. */
  method FindRule(m: Module, id: Id) returns (overlap: bool, rule: Option<nat>)
    ensures overlap <==> !AtMostOneRule(m, id)
    ensures !overlap && rule.Some? ==> rule.value < |m.rules| && Matches(m.rules[rule.value], id)
    ensures !overlap && rule.None? ==> forall k :: 0 <= k < |m.rules| ==> !Matches(m.rules[k], id)
  {
    overlap, rule := false, None;
    var k := 0;
    while k < |m.rules|
      invariant 0 <= k <= |m.rules|
      invariant overlap <==> exists i, j :: 0 <= i < j < k && Matches(m.rules[i], id) && Matches(m.rules[j], id)
      invariant rule.Some? ==> rule.value < k && Matches(m.rules[rule.value], id)
      invariant rule.None? ==> forall j :: 0 <= j < k ==> !Matches(m.rules[j], id)
    {
      if Matches(m.rules[k], id) {
        if rule.Some? {
          overlap := true;
        } else {
          rule := Some(k);
        }
      }
      k := k + 1;
    }
  }

  lemma OneRoute(m: Module, id: Id, rule: Option<nat>)
    requires AtMostOneRule(m, id)
    requires rule.Some? ==> rule.value < |m.rules| && Matches(m.rules[rule.value], id)
    requires rule.None? ==> forall k :: 0 <= k < |m.rules| ==> !Matches(m.rules[k], id)
    ensures
      var route := if rule.Some? then m.rules[rule.value].route else PORTABLE;
      Routes(m, id, route) && (NotHidden(m, id) <==> id !in m.known || route == PORTABLE)
    ensures forall k :: 0 <= k < |m.rules| && Matches(m.rules[k], id) ==> rule == Some(k)
  {}

  /** One test: its shape, its only rule, its route. */
  ghost predicate Routable(m: Module, isTest: nat -> bool, id: Id) {
    Shaped(m, isTest, id) && AtMostOneRule(m, id) && NotHidden(m, id)
  }

  method ClassifyOne(m: Module, isTest: nat -> bool, id: Id) returns (ok: bool, row: Row, rule: Option<nat>)
    ensures ok <==> Routable(m, isTest, id)
    ensures ok ==> row.id == id && Routes(m, id, row.route)
    ensures ok ==> forall k :: 0 <= k < |m.rules| ==> (Matches(m.rules[k], id) <==> rule == Some(k))
    ensures ok && rule.Some? ==> rule.value < |m.rules|
  {
    row := Row(id, PORTABLE);
    var overlap;
    overlap, rule := FindRule(m, id);
    if !Shaped(m, isTest, id) || overlap {
      return false, row, rule;
    }
    var route := if rule.Some? then m.rules[rule.value].route else PORTABLE;
    OneRoute(m, id, rule);
    ok, row := id !in m.known || route == PORTABLE, Row(id, route);
  }

  /** `classify`: one row per id in order, or a refusal. */
  method Classify(m: Module, isTest: nat -> bool, ids: seq<Id>) returns (ok: bool, rows: seq<Row>)
    ensures ok <==> Accepts(m, isTest, ids)
    ensures ok ==> |rows| == |ids| && forall i :: 0 <= i < |ids| ==> rows[i].id == ids[i] && Routes(m, ids[i], rows[i].route)
  {
    ok, rows := false, [];
    NoDupExactly(ids);
    if ids == [] || |Elements(ids)| != |ids| {
      return;
    }
    var used: set<nat> := {};
    var i := 0;
    while i < |ids|
      invariant 0 <= i <= |ids| && |rows| == i
      invariant forall j :: 0 <= j < i ==> Routable(m, isTest, ids[j])
      invariant forall j :: 0 <= j < i ==> rows[j].id == ids[j] && Routes(m, ids[j], rows[j].route)
      invariant forall k :: 0 <= k < |m.rules| ==> (k in used <==> Used(m, ids[..i], k))
    {
      var fine, row, rule := ClassifyOne(m, isTest, ids[i]);
      if !fine {
        return;
      }
      UsedOneMore(m, ids[..i], ids[i]);
      assert ids[..i] + [ids[i]] == ids[..i + 1];
      if rule.Some? {
        used := used + {rule.value};
      }
      rows, i := rows + [row], i + 1;
    }
    assert ids[..i] == ids;
    ok := forall k :: 0 <= k < |m.rules| ==> k in used;
  }

  lemma UsedOneMore(m: Module, ids: seq<Id>, id: Id)
    ensures forall k :: 0 <= k < |m.rules| ==> (Used(m, ids + [id], k) <==> Used(m, ids, k) || Matches(m.rules[k], id))
  {
    var all := ids + [id];
    forall k | 0 <= k < |m.rules| ensures Used(m, all, k) <==> Used(m, ids, k) || Matches(m.rules[k], id) {
      if i :| 0 <= i < |ids| && Matches(m.rules[k], ids[i]) {
        assert all[i] == ids[i];
      }
      assert all[|ids|] == id;
    }
  }

  // ---------------------------------------------------------------- what acceptance says about the rules

  predicate Comparable(a: Id, b: Id) {
    a <= b || b <= a
  }

  /** No selector equals another or is a dotted ancestor of it. */
  predicate Antichain(m: Module) {
    forall j, k :: 0 <= j < k < |m.rules| ==> !Comparable(m.rules[j].selector, m.rules[k].selector)
  }

  lemma PrefixesCompare(a: Id, b: Id, x: Id)
    requires a <= x && b <= x
    ensures Comparable(a, b)
  {
    if |a| <= |b| {
      assert a == x[..|a|] == b[..|a|];
    } else {
      assert b == x[..|b|] == a[..|b|];
    }
  }

  /** A test that uses the longer of two comparable selectors matches both rules. */
  lemma ComparableOverlap(m: Module, ids: seq<Id>, j: nat, k: nat) returns (i: nat)
    requires j < k < |m.rules| && Comparable(m.rules[j].selector, m.rules[k].selector)
    requires Used(m, ids, j) && Used(m, ids, k)
    ensures i < |ids| && Matches(m.rules[j], ids[i]) && Matches(m.rules[k], ids[i])
  {
    var longer := if m.rules[j].selector <= m.rules[k].selector then k else j;
    i :| 0 <= i < |ids| && Matches(m.rules[longer], ids[i]);
    PrefixChain(m.rules[j].selector, m.rules[k].selector, ids[i][1..]);
  }

  lemma PrefixChain(a: Id, b: Id, x: Id)
    ensures a <= b <= x ==> a <= x
    ensures b <= a <= x ==> b <= x
  {}

  /** When every rule is used, no test matches two rules exactly when no selector
      equals another's or is a dotted ancestor of it. */
  lemma NoOverlapExactly(m: Module, isTest: nat -> bool, ids: seq<Id>)
    requires IdsValid(m, isTest, ids)
    requires forall k :: 0 <= k < |m.rules| ==> Used(m, ids, k)
    ensures (forall i :: 0 <= i < |ids| ==> AtMostOneRule(m, ids[i])) <==> Antichain(m)
  {
    if forall i :: 0 <= i < |ids| ==> AtMostOneRule(m, ids[i]) {
      forall j, k | 0 <= j < k < |m.rules| ensures !Comparable(m.rules[j].selector, m.rules[k].selector) {
        if Comparable(m.rules[j].selector, m.rules[k].selector) {
          var i := ComparableOverlap(m, ids, j, k);
        }
      }
    }
    if Antichain(m) {
      forall i | 0 <= i < |ids| ensures AtMostOneRule(m, ids[i]) {
        forall j, k | 0 <= j < k < |m.rules| ensures !(Matches(m.rules[j], ids[i]) && Matches(m.rules[k], ids[i])) {
          if Matches(m.rules[j], ids[i]) && Matches(m.rules[k], ids[i]) {
            PrefixesCompare(m.rules[j].selector, m.rules[k].selector, ids[i][1..]);
          }
        }
      }
    }
  }
}
