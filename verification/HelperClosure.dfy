/**
 The static proof that a test can or cannot reach an owner prerequisite: a
 bounded walk over the calls a test method makes on its own class.
 */
module HelperClosure {
  import opened Wrappers

  /** Calls on `self` whose name starts with `assert` are taken for framework assertions. */
  datatype Name = Plain(id: int) | AssertNamed(id: int)

  datatype Call = SelfCall(name: Name) | External(id: int)

  /** `hidden` says that the body mentions an old owner root and also writes a file. */
  datatype Method = Method(calls: seq<Call>, hidden: bool)

  datatype Root = OwnerCall(call: Call) | HiddenMutation

  datatype Trace = Bound(path: seq<Name>, root: Root) | Unbound(path: seq<Name>)

  datatype Flaw = UnknownHelper | Cycle | UnverifiedCall

  datatype Verdict<+T> = Accept(value: T) | Refuse(flaw: Flaw)

  type Methods = map<Name, Method>

  datatype Policy = Policy(owner: set<Call>, approved: set<Call>)

  const DEPTH := 32

  function FirstOwner(policy: Policy, calls: seq<Call>): (first: Option<Call>)
    ensures first.Some? <==> exists c :: c in calls && c in policy.owner
    ensures first.Some? ==> first.value in calls && first.value in policy.owner
  {
    if calls == [] then None
    else if calls[0] in policy.owner then Some(calls[0])
    else FirstOwner(policy, calls[1..])
  }

  /** Call `k` is an owner call, and none before it is. */
  ghost predicate IsFirstOwner(policy: Policy, calls: seq<Call>, k: int) {
    0 <= k < |calls| && calls[k] in policy.owner && forall j :: 0 <= j < k ==> calls[j] !in policy.owner
  }

  /** The owner call that is reported is the first one of the method. */
  lemma {:induction false} FirstOwnerExactly(policy: Policy, calls: seq<Call>, k: int)
    requires IsFirstOwner(policy, calls, k)
    ensures FirstOwner(policy, calls) == Some(calls[k])
  {
    if k > 0 {
      assert calls[0] !in policy.owner;
      forall j | 0 <= j < k - 1 ensures calls[1..][j] !in policy.owner {
        assert calls[1..][j] == calls[j + 1];
      }
      FirstOwnerExactly(policy, calls[1..], k - 1);
    }
  }

  function RootOf(policy: Policy, m: Method): Option<Root> {
    if FirstOwner(policy, m.calls).Some? then Some(OwnerCall(FirstOwner(policy, m.calls).value))
    else if m.hidden then Some(HiddenMutation)
    else None
  }

  /** The walk from one method, given the chain of methods it was called through. */
  function Visit(methods: Methods, policy: Policy, name: Name, chain: seq<Name>): Verdict<Trace>
    requires |chain| <= DEPTH
    decreases DEPTH - |chain|, 0, 0
  {
    if name !in methods then Refuse(UnknownHelper)
    else if name in chain || |chain| >= DEPTH then Refuse(Cycle)
    else
      var root := RootOf(policy, methods[name]);
      if root.Some? then Accept(Bound(chain + [name], root.value))
      else VisitCalls(methods, policy, methods[name].calls, chain + [name])
  }

  /** All calls are visited, in order; the first bound trace is the result. */
  function VisitCalls(methods: Methods, policy: Policy, calls: seq<Call>, chain: seq<Name>): Verdict<Trace>
    requires |chain| <= DEPTH
    decreases DEPTH - |chain|, 2, |calls|
  {
    if calls == [] then Accept(Unbound(chain))
    else
      var first := VisitCall(methods, policy, calls[0], chain);
      if first.Refuse? then first
      else
        var rest := VisitCalls(methods, policy, calls[1..], chain);
        if rest.Refuse? || first.value.Unbound? then rest else first
  }

  function VisitCall(methods: Methods, policy: Policy, call: Call, chain: seq<Name>): Verdict<Trace>
    requires |chain| <= DEPTH
    decreases DEPTH - |chain|, 1, 0
  {
    match call
    case SelfCall(name) => if name.AssertNamed? then Accept(Unbound(chain)) else Visit(methods, policy, name, chain)
    case External(_) => if call in policy.approved then Accept(Unbound(chain)) else Refuse(UnverifiedCall)
  }

  /** `helper_closure`: one verdict per test method; any refusal refuses the class. */
  function Closure(methods: Methods, policy: Policy, tests: seq<Name>): Verdict<map<Name, Trace>>
    decreases |tests|
  {
    if tests == [] then Accept(map[])
    else
      var before := Closure(methods, policy, tests[..|tests| - 1]);
      var last := Visit(methods, policy, tests[|tests| - 1], []);
      if before.Refuse? then before
      else if last.Refuse? then Refuse(last.flaw)
      else Accept(before.value[tests[|tests| - 1] := last.value])
  }

  // ---------------------------------------------------------------- walks along self-calls

  predicate Edge(methods: Methods, a: Name, b: Name) {
    a in methods && SelfCall(b) in methods[a].calls && !b.AssertNamed?
  }

  /** A walk along self-calls; only its last method may be undeclared. */
  ghost predicate Walk(methods: Methods, p: seq<Name>) {
    p != [] && forall i, j :: 0 <= i < |p| && j == i + 1 && j < |p| ==> Edge(methods, p[i], p[j])
  }

  /** A declared method that makes an owner call or hides a write below an old owner root. */
  predicate Rooted(methods: Methods, policy: Policy, name: Name) {
    name in methods && (methods[name].hidden || exists c :: c in methods[name].calls && c in policy.owner)
  }

  /** The owner prerequisite of a method: its first owner call, or else its hidden write. */
  lemma RootExactly(methods: Methods, policy: Policy, name: Name, k: int)
    requires name in methods
    ensures RootOf(policy, methods[name]).Some? <==> Rooted(methods, policy, name)
    ensures IsFirstOwner(policy, methods[name].calls, k) ==> RootOf(policy, methods[name]) == Some(OwnerCall(methods[name].calls[k]))
    ensures methods[name].hidden && (forall c :: c in methods[name].calls ==> c !in policy.owner) ==>
      RootOf(policy, methods[name]) == Some(HiddenMutation)
  {
    if IsFirstOwner(policy, methods[name].calls, k) {
      FirstOwnerExactly(policy, methods[name].calls, k);
    }
  }

  /** Declared, without an owner prerequisite of its own, and calling only approved outsiders. */
  predicate Harmless(methods: Methods, policy: Policy, name: Name) {
    && name in methods && !Rooted(methods, policy, name)
    && forall c :: c in methods[name].calls && c.External? ==> c in policy.approved
  }

  /** A walk of harmless methods that repeats none, not even of the chain before it, and stays in depth. */
  ghost predicate Safe(methods: Methods, policy: Policy, chain: seq<Name>, p: seq<Name>) {
    && (forall i :: 0 <= i < |p| ==> Harmless(methods, policy, p[i]) && p[i] !in chain)
    && NoDup(p) && |chain| + |p| <= DEPTH
  }

  lemma {:induction false} CallsUnbound(methods: Methods, policy: Policy, calls: seq<Call>, chain: seq<Name>)
    requires |chain| <= DEPTH
    ensures VisitCalls(methods, policy, calls, chain) == Accept(Unbound(chain))
       <==> forall c :: c in calls ==>
              VisitCall(methods, policy, c, chain).Accept? && VisitCall(methods, policy, c, chain).value.Unbound?
    ensures VisitCalls(methods, policy, calls, chain).Accept? && VisitCalls(methods, policy, calls, chain).value.Unbound?
       ==> VisitCalls(methods, policy, calls, chain) == Accept(Unbound(chain))
    decreases |calls|
  {
    if calls != [] {
      CallsUnbound(methods, policy, calls[1..], chain);
      assert calls == [calls[0]] + calls[1..];
      var first := VisitCall(methods, policy, calls[0], chain);
      assert calls[0] in calls;
    }
  }

  predicate Clears(methods: Methods, policy: Policy, name: Name, chain: seq<Name>)
    requires |chain| <= DEPTH
  {
    var v := Visit(methods, policy, name, chain);
    v.Accept? && v.value.Unbound?
  }

  /** A cleared method is harmless and clears every method it calls on itself. */
  lemma ClearsUnfold(methods: Methods, policy: Policy, name: Name, chain: seq<Name>)
    requires |chain| <= DEPTH
    ensures Clears(methods, policy, name, chain)
       <==> && |chain| < DEPTH && name !in chain && Harmless(methods, policy, name)
            && forall b :: Edge(methods, name, b) ==> Clears(methods, policy, b, chain + [name])
  {
    if |chain| < DEPTH && name in methods {
      CallsUnbound(methods, policy, methods[name].calls, chain + [name]);
      if Harmless(methods, policy, name) && name !in chain
        && (forall b :: Edge(methods, name, b) ==> Clears(methods, policy, b, chain + [name])) {
        forall c | c in methods[name].calls
          ensures VisitCall(methods, policy, c, chain + [name]).Accept? && VisitCall(methods, policy, c, chain + [name]).value.Unbound?
        {
          if c.SelfCall? && !c.name.AssertNamed? {
            assert Edge(methods, name, c.name);
          }
        }
      }
      if Clears(methods, policy, name, chain) {
        forall b | Edge(methods, name, b) ensures Clears(methods, policy, b, chain + [name]) {
          assert SelfCall(b) in methods[name].calls;
        }
        forall c | c in methods[name].calls && c.External? ensures c in policy.approved {
          assert VisitCall(methods, policy, c, chain + [name]).Accept?;
        }
      }
    }
  }

  lemma {:induction false} ClearedWalkIsSafe(methods: Methods, policy: Policy, name: Name, chain: seq<Name>, p: seq<Name>)
    requires |chain| <= DEPTH && Clears(methods, policy, name, chain)
    requires Walk(methods, p) && p[0] == name
    ensures Safe(methods, policy, chain, p)
    decreases |p|
  {
    ClearsUnfold(methods, policy, name, chain);
    if |p| > 1 {
      assert Edge(methods, p[0], p[1]);
      assert forall i, j :: 0 <= i < |p[1..]| && j == i + 1 && j < |p[1..]| ==> Edge(methods, p[1..][i], p[1..][j]) by {
        forall i, j | 0 <= i < |p[1..]| && j == i + 1 && j < |p[1..]| ensures Edge(methods, p[1..][i], p[1..][j]) {
          assert Edge(methods, p[i + 1], p[j + 1]);
        }
      }
      ClearedWalkIsSafe(methods, policy, p[1], chain + [name], p[1..]);
      var rest := p[1..];
      forall i | 0 <= i < |p| ensures Harmless(methods, policy, p[i]) && p[i] !in chain {
        if i > 0 {
          assert p[i] == rest[i - 1];
        }
      }
      forall i, j | 0 <= i < j < |p| ensures p[i] != p[j] {
        assert p[j] == rest[j - 1];
        if i > 0 {
          assert p[i] == rest[i - 1];
        } else {
          assert name in chain + [name];
        }
      }
    }
  }

  lemma {:induction false} SafeWalksClear(methods: Methods, policy: Policy, name: Name, chain: seq<Name>)
    requires |chain| <= DEPTH
    requires forall p :: Walk(methods, p) && p[0] == name ==> Safe(methods, policy, chain, p)
    ensures Clears(methods, policy, name, chain)
    decreases DEPTH - |chain|
  {
    assert Walk(methods, [name]);
    assert Safe(methods, policy, chain, [name]);
    assert [name][0] == name;
    forall b | Edge(methods, name, b) ensures Clears(methods, policy, b, chain + [name]) {
      forall q | Walk(methods, q) && q[0] == b ensures Safe(methods, policy, chain + [name], q) {
        var p := [name] + q;
        forall i, j | 0 <= i < |p| && j == i + 1 && j < |p| ensures Edge(methods, p[i], p[j]) {
          if i > 0 {
            assert Edge(methods, q[i - 1], q[j - 1]);
          }
        }
        assert Walk(methods, p) && p[0] == name;
        assert forall i :: 0 <= i < |q| ==> q[i] == p[i + 1];
      }
      SafeWalksClear(methods, policy, b, chain + [name]);
    }
    ClearsUnfold(methods, policy, name, chain);
  }

  /** A test is accepted as unbound exactly when every walk from it along
      self-calls is safe: declared methods without owner calls or hidden-root
      writes, calling only approved outsiders, without cycles, at most 32 deep. */
  lemma UnboundExactly(methods: Methods, policy: Policy, test: Name)
    ensures Clears(methods, policy, test, [])
       <==> forall p :: Walk(methods, p) && p[0] == test ==> Safe(methods, policy, [], p)
  {
    if Clears(methods, policy, test, []) {
      forall p | Walk(methods, p) && p[0] == test ensures Safe(methods, policy, [], p) {
        ClearedWalkIsSafe(methods, policy, test, [], p);
      }
    }
    if forall p :: Walk(methods, p) && p[0] == test ==> Safe(methods, policy, [], p) {
      SafeWalksClear(methods, policy, test, []);
    }
  }

  // ---------------------------------------------------------------- bound tests

  /** A real call path that ends at a method with an owner prerequisite. */
  ghost predicate LeadsToRoot(methods: Methods, policy: Policy, name: Name, p: seq<Name>, root: Root) {
    && Walk(methods, p) && p[0] == name
    && Rooted(methods, policy, p[|p| - 1]) && RootOf(policy, methods[p[|p| - 1]]) == Some(root)
  }

  /** The trace of a list of calls is that of its first call with a bound one. */
  lemma {:induction false} CallsBound(methods: Methods, policy: Policy, calls: seq<Call>, chain: seq<Name>) returns (k: nat)
    requires |chain| <= DEPTH
    requires VisitCalls(methods, policy, calls, chain).Accept? && VisitCalls(methods, policy, calls, chain).value.Bound?
    ensures k < |calls| && VisitCall(methods, policy, calls[k], chain) == VisitCalls(methods, policy, calls, chain)
    ensures forall j :: 0 <= j < k ==>
      VisitCall(methods, policy, calls[j], chain).Accept? && VisitCall(methods, policy, calls[j], chain).value.Unbound?
    decreases |calls|
  {
    if VisitCall(methods, policy, calls[0], chain).value.Bound? {
      k := 0;
    } else {
      var rest := CallsBound(methods, policy, calls[1..], chain);
      k := rest + 1;
      assert forall j :: 0 < j < k ==> calls[j] == calls[1..][j - 1];
    }
  }

  /** The chain reported for a bound test is a call path that exists in the class
      and ends with the owner prerequisite it names. */
  lemma {:induction false} BoundIsRealPath(methods: Methods, policy: Policy, name: Name, chain: seq<Name>) returns (p: seq<Name>)
    requires |chain| <= DEPTH
    requires Visit(methods, policy, name, chain).Accept? && Visit(methods, policy, name, chain).value.Bound?
    ensures
      var trace := Visit(methods, policy, name, chain).value;
      trace.path == chain + p && LeadsToRoot(methods, policy, name, p, trace.root)
    decreases DEPTH - |chain|
  {
    if Rooted(methods, policy, name) {
      p := [name];
    } else {
      var k := CallsBound(methods, policy, methods[name].calls, chain + [name]);
      var c := methods[name].calls[k];
      assert Edge(methods, name, c.name);
      var q := BoundIsRealPath(methods, policy, c.name, chain + [name]);
      p := [name] + q;
      forall i, j | 0 <= i < |p| && j == i + 1 && j < |p| ensures Edge(methods, p[i], p[j]) {
        if i > 0 {
          assert Edge(methods, q[i - 1], q[j - 1]);
        }
      }
      assert chain + [name] + q == chain + p;
    }
  }

  /** Call `k` of `a` is `b`, and no helper that `a` calls before it reaches an owner prerequisite. */
  ghost predicate FirstCall(methods: Methods, policy: Policy, a: Name, b: Name, k: int) {
    && a in methods && 0 <= k < |methods[a].calls| && methods[a].calls[k] == SelfCall(b)
    && forall j, c :: 0 <= j < k && methods[a].calls[j] == SelfCall(c) && !c.AssertNamed? ==>
         forall p, root :: !LeadsToRoot(methods, policy, c, p, root)
  }

  ghost predicate FirstStep(methods: Methods, policy: Policy, a: Name, b: Name) {
    exists k :: FirstCall(methods, policy, a, b, k)
  }

  ghost predicate FirstCalls(methods: Methods, policy: Policy, p: seq<Name>) {
    forall i, j :: 0 <= i < |p| && j == i + 1 && j < |p| ==> FirstStep(methods, policy, p[i], p[j])
  }

  /** A cleared method reaches no owner prerequisite. */
  lemma ClearedLeadsNowhere(methods: Methods, policy: Policy, name: Name, chain: seq<Name>)
    requires |chain| <= DEPTH && Clears(methods, policy, name, chain)
    ensures forall p, root :: !LeadsToRoot(methods, policy, name, p, root)
  {
    forall p, root ensures LeadsToRoot(methods, policy, name, p, root) ==> Safe(methods, policy, chain, p) {
      if LeadsToRoot(methods, policy, name, p, root) {
        ClearedWalkIsSafe(methods, policy, name, chain, p);
      }
    }
  }

  /** Of all paths to an owner prerequisite the one that comes first in call order is
      reported, with the first owner call of its last method. */
  lemma {:induction false} BoundIsFirst(methods: Methods, policy: Policy, name: Name, chain: seq<Name>) returns (p: seq<Name>)
    requires |chain| <= DEPTH
    requires Visit(methods, policy, name, chain).Accept? && Visit(methods, policy, name, chain).value.Bound?
    ensures
      var trace := Visit(methods, policy, name, chain).value;
      && trace.path == chain + p && LeadsToRoot(methods, policy, name, p, trace.root) && FirstCalls(methods, policy, p)
      && forall i :: 0 <= i < |p| - 1 ==> !Rooted(methods, policy, p[i])
    decreases DEPTH - |chain|
  {
    if Rooted(methods, policy, name) {
      p := [name];
    } else {
      var calls := methods[name].calls;
      var k := CallsBound(methods, policy, calls, chain + [name]);
      var next := calls[k].name;
      var q := BoundIsFirst(methods, policy, next, chain + [name]);
      p := [name] + q;
      forall j, c | 0 <= j < k && calls[j] == SelfCall(c) && !c.AssertNamed?
        ensures forall p, root :: !LeadsToRoot(methods, policy, c, p, root)
      {
        assert VisitCall(methods, policy, calls[j], chain + [name]).value.Unbound?;
        ClearedLeadsNowhere(methods, policy, c, chain + [name]);
      }
      assert FirstCall(methods, policy, name, next, k);
      PathExtends(methods, policy, name, q);
      assert chain + [name] + q == chain + p;
    }
  }

  lemma PathExtends(methods: Methods, policy: Policy, name: Name, q: seq<Name>)
    requires Walk(methods, q) && FirstCalls(methods, policy, q)
    requires FirstStep(methods, policy, name, q[0]) && !q[0].AssertNamed?
    ensures Walk(methods, [name] + q) && FirstCalls(methods, policy, [name] + q)
  {
    var p := [name] + q;
    forall i, j | 0 <= i < |p| && j == i + 1 && j < |p|
      ensures Edge(methods, p[i], p[j]) && FirstStep(methods, policy, p[i], p[j])
    {
      if i == 0 {
        assert Edge(methods, name, q[0]);
      } else {
        assert Edge(methods, q[i - 1], q[j - 1]);
        assert FirstStep(methods, policy, q[i - 1], q[j - 1]);
      }
    }
  }

  /** If the walk accepts a test, it is owner-bound exactly when some method it
      reaches through self-calls has an owner call or a hidden-root write. */
  lemma BoundExactly(methods: Methods, policy: Policy, test: Name)
    requires Visit(methods, policy, test, []).Accept?
    ensures Visit(methods, policy, test, []).value.Bound?
       <==> exists p, root :: LeadsToRoot(methods, policy, test, p, root)
  {
    if Visit(methods, policy, test, []).value.Bound? {
      var p := BoundIsRealPath(methods, policy, test, []);
    } else {
      forall p, root ensures !LeadsToRoot(methods, policy, test, p, root) {
        if LeadsToRoot(methods, policy, test, p, root) {
          ClearedWalkIsSafe(methods, policy, test, [], p);
          assert false;
        }
      }
    }
  }

  // ---------------------------------------------------------------- acceptance

  predicate OnlyApproved(methods: Methods, policy: Policy, name: Name) {
    name in methods && forall c :: c in methods[name].calls && c.External? ==> c in policy.approved
  }

  /** A walk that goes on only behind methods without an owner prerequisite. */
  ghost predicate OpenWalk(methods: Methods, policy: Policy, p: seq<Name>) {
    Walk(methods, p) && forall i :: 0 <= i < |p| - 1 ==> !Rooted(methods, policy, p[i])
  }

  /** A walk of declared methods that repeats none, not even of the chain before it,
      stays in depth, and calls only approved outsiders wherever it finds no owner
      prerequisite. */
  ghost predicate Sound(methods: Methods, policy: Policy, chain: seq<Name>, p: seq<Name>) {
    && (forall i :: 0 <= i < |p| ==>
          p[i] in methods && p[i] !in chain && (Rooted(methods, policy, p[i]) || OnlyApproved(methods, policy, p[i])))
    && NoDup(p) && |chain| + |p| <= DEPTH
  }

  lemma {:induction false} CallsAccepted(methods: Methods, policy: Policy, calls: seq<Call>, chain: seq<Name>)
    requires |chain| <= DEPTH
    ensures VisitCalls(methods, policy, calls, chain).Accept? <==> forall c :: c in calls ==> VisitCall(methods, policy, c, chain).Accept?
    decreases |calls|
  {
    if calls != [] {
      CallsAccepted(methods, policy, calls[1..], chain);
      assert calls == [calls[0]] + calls[1..];
      assert calls[0] in calls;
    }
  }

  predicate Passes(methods: Methods, policy: Policy, name: Name, chain: seq<Name>)
    requires |chain| <= DEPTH
  {
    Visit(methods, policy, name, chain).Accept?
  }

  /** A method passes at its own owner prerequisite, or with all it calls. */
  lemma PassesUnfold(methods: Methods, policy: Policy, name: Name, chain: seq<Name>)
    requires |chain| <= DEPTH
    ensures Passes(methods, policy, name, chain)
       <==> && |chain| < DEPTH && name in methods && name !in chain
            && (Rooted(methods, policy, name) ||
                (OnlyApproved(methods, policy, name) && forall b :: Edge(methods, name, b) ==> Passes(methods, policy, b, chain + [name])))
  {
    if |chain| < DEPTH && name in methods && name !in chain && !Rooted(methods, policy, name) {
      var calls, deeper := methods[name].calls, chain + [name];
      CallsAccepted(methods, policy, calls, deeper);
      if OnlyApproved(methods, policy, name) && forall b :: Edge(methods, name, b) ==> Passes(methods, policy, b, deeper) {
        forall c | c in calls ensures VisitCall(methods, policy, c, deeper).Accept? {
          if c.SelfCall? && !c.name.AssertNamed? {
            assert Edge(methods, name, c.name);
          }
        }
      }
      if Passes(methods, policy, name, chain) {
        forall b | Edge(methods, name, b) ensures Passes(methods, policy, b, deeper) {
          assert VisitCall(methods, policy, SelfCall(b), deeper).Accept?;
        }
        forall c | c in calls && c.External? ensures c in policy.approved {
          assert VisitCall(methods, policy, c, deeper).Accept?;
        }
      }
    }
  }

  /** Leaving out the first method of an open walk leaves an open walk. */
  lemma OpenRest(methods: Methods, policy: Policy, p: seq<Name>)
    requires OpenWalk(methods, policy, p) && |p| > 1
    ensures OpenWalk(methods, policy, p[1..]) && Edge(methods, p[0], p[1]) && !Rooted(methods, policy, p[0])
  {
    forall i, j | 0 <= i < |p[1..]| && j == i + 1 && j < |p[1..]| ensures Edge(methods, p[1..][i], p[1..][j]) {
      assert Edge(methods, p[i + 1], p[j + 1]);
    }
  }

  lemma {:induction false} PassedWalkIsSound(methods: Methods, policy: Policy, name: Name, chain: seq<Name>, p: seq<Name>)
    requires |chain| <= DEPTH && Passes(methods, policy, name, chain)
    requires OpenWalk(methods, policy, p) && p[0] == name
    ensures Sound(methods, policy, chain, p)
    decreases |p|
  {
    PassesUnfold(methods, policy, name, chain);
    if |p| > 1 {
      OpenRest(methods, policy, p);
      var rest := p[1..];
      PassedWalkIsSound(methods, policy, p[1], chain + [name], rest);
      forall i | 0 <= i < |p|
        ensures p[i] in methods && p[i] !in chain && (Rooted(methods, policy, p[i]) || OnlyApproved(methods, policy, p[i]))
      {
        if i > 0 {
          assert p[i] == rest[i - 1];
        }
      }
      forall i, j | 0 <= i < j < |p| ensures p[i] != p[j] {
        assert p[j] == rest[j - 1];
        if i > 0 {
          assert p[i] == rest[i - 1];
        } else {
          assert name in chain + [name];
        }
      }
    }
  }

  lemma {:induction false} SoundWalksPass(methods: Methods, policy: Policy, name: Name, chain: seq<Name>)
    requires |chain| <= DEPTH
    requires forall p :: OpenWalk(methods, policy, p) && p[0] == name ==> Sound(methods, policy, chain, p)
    ensures Passes(methods, policy, name, chain)
    decreases DEPTH - |chain|
  {
    assert OpenWalk(methods, policy, [name]) && [name][0] == name;
    assert Sound(methods, policy, chain, [name]) && [name][0] in methods;
    if !Rooted(methods, policy, name) {
      forall b | Edge(methods, name, b) ensures Passes(methods, policy, b, chain + [name]) {
        forall q | OpenWalk(methods, policy, q) && q[0] == b ensures Sound(methods, policy, chain + [name], q) {
          OpenExtends(methods, policy, name, q);
          var p := [name] + q;
          assert Sound(methods, policy, chain, p);
          assert forall i :: 0 <= i < |q| ==> q[i] == p[i + 1];
        }
        SoundWalksPass(methods, policy, b, chain + [name]);
      }
    }
    PassesUnfold(methods, policy, name, chain);
  }

  lemma OpenExtends(methods: Methods, policy: Policy, name: Name, q: seq<Name>)
    requires OpenWalk(methods, policy, q) && Edge(methods, name, q[0]) && !Rooted(methods, policy, name)
    ensures OpenWalk(methods, policy, [name] + q)
  {
    var p := [name] + q;
    forall i, j | 0 <= i < |p| && j == i + 1 && j < |p| ensures Edge(methods, p[i], p[j]) {
      if i > 0 {
        assert Edge(methods, q[i - 1], q[j - 1]);
      }
    }
  }

  /** A test is accepted exactly when every walk from it along self-calls that stops
      at the first method with an owner prerequisite is sound: declared methods, no
      cycle, at most 32 deep, and only approved outsiders on the way. */
  lemma AcceptedExactly(methods: Methods, policy: Policy, test: Name)
    ensures Visit(methods, policy, test, []).Accept?
       <==> forall p :: OpenWalk(methods, policy, p) && p[0] == test ==> Sound(methods, policy, [], p)
  {
    if Passes(methods, policy, test, []) {
      forall p | OpenWalk(methods, policy, p) && p[0] == test ensures Sound(methods, policy, [], p) {
        PassedWalkIsSound(methods, policy, test, [], p);
      }
    }
    if forall p :: OpenWalk(methods, policy, p) && p[0] == test ==> Sound(methods, policy, [], p) {
      SoundWalksPass(methods, policy, test, []);
    }
  }

  lemma {:induction false} CallsRefused(methods: Methods, policy: Policy, calls: seq<Call>, chain: seq<Name>) returns (c: Call)
    requires |chain| <= DEPTH && VisitCalls(methods, policy, calls, chain).Refuse?
    ensures c in calls && VisitCall(methods, policy, c, chain).Refuse?
    ensures VisitCall(methods, policy, c, chain).flaw == VisitCalls(methods, policy, calls, chain).flaw
    decreases |calls|
  {
    if VisitCall(methods, policy, calls[0], chain).Refuse? {
      c := calls[0];
    } else {
      c := CallsRefused(methods, policy, calls[1..], chain);
    }
  }

  /** What a refusal says is wrong with the last method of a walk. */
  ghost predicate Shows(methods: Methods, policy: Policy, chain: seq<Name>, p: seq<Name>, flaw: Flaw)
    requires p != []
  {
    var last := p[|p| - 1];
    match flaw
    case UnknownHelper => last !in methods
    case Cycle => last in methods && (last in chain || last in p[..|p| - 1] || |chain| + |p| > DEPTH)
    case UnverifiedCall => last in methods && !Rooted(methods, policy, last) && !OnlyApproved(methods, policy, last)
  }

  /** A refusal is never groundless: some open walk from the test ends with what the
      refusal names. */
  lemma {:induction false} RefusalIsReal(methods: Methods, policy: Policy, name: Name, chain: seq<Name>) returns (p: seq<Name>)
    requires |chain| <= DEPTH && Visit(methods, policy, name, chain).Refuse?
    ensures OpenWalk(methods, policy, p) && p[0] == name
    ensures Shows(methods, policy, chain, p, Visit(methods, policy, name, chain).flaw)
    decreases DEPTH - |chain|
  {
    if name !in methods || name in chain || |chain| >= DEPTH {
      p := [name];
    } else {
      var c := CallsRefused(methods, policy, methods[name].calls, chain + [name]);
      if c.External? {
        p := [name];
      } else {
        assert Edge(methods, name, c.name);
        var q := RefusalIsReal(methods, policy, c.name, chain + [name]);
        OpenExtends(methods, policy, name, q);
        p := [name] + q;
        assert p[|p| - 1] == q[|q| - 1] && p[..|p| - 1] == [name] + q[..|q| - 1];
      }
    }
  }

  /** Some walk from a test stops at a method with an owner prerequisite. */
  ghost predicate ReachesOwner(methods: Methods, policy: Policy, test: Name) {
    exists p :: OpenWalk(methods, policy, p) && p[0] == test && Rooted(methods, policy, p[|p| - 1])
  }

  /** What the walk answers about a test whose walks are all sound: owner-bound
      exactly when one of them ends at an owner prerequisite. */
  lemma SoundTestIsJudged(methods: Methods, policy: Policy, test: Name)
    requires forall p :: OpenWalk(methods, policy, p) && p[0] == test ==> Sound(methods, policy, [], p)
    ensures Visit(methods, policy, test, []).Accept?
    ensures Visit(methods, policy, test, []).value.Bound? <==> ReachesOwner(methods, policy, test)
  {
    AcceptedExactly(methods, policy, test);
    BoundExactly(methods, policy, test);
    if Visit(methods, policy, test, []).value.Bound? {
      var p := BoundIsRealPath(methods, policy, test, []);
      FirstRootOpens(methods, policy, p);
    }
    if p :| OpenWalk(methods, policy, p) && p[0] == test && Rooted(methods, policy, p[|p| - 1]) {
      assert LeadsToRoot(methods, policy, test, p, RootOf(policy, methods[p[|p| - 1]]).value);
    }
  }

  /** A walk to a method with an owner prerequisite has an open walk to the first one on it. */
  lemma {:induction false} FirstRootOpens(methods: Methods, policy: Policy, p: seq<Name>)
    requires Walk(methods, p) && Rooted(methods, policy, p[|p| - 1])
    ensures exists q :: OpenWalk(methods, policy, q) && q[0] == p[0] && Rooted(methods, policy, q[|q| - 1])
    decreases |p|
  {
    if Rooted(methods, policy, p[0]) {
      assert OpenWalk(methods, policy, [p[0]]) && [p[0]][0] == p[0];
    } else {
      forall i, j | 0 <= i < |p[1..]| && j == i + 1 && j < |p[1..]| ensures Edge(methods, p[1..][i], p[1..][j]) {
        assert Edge(methods, p[i + 1], p[j + 1]);
      }
      FirstRootOpens(methods, policy, p[1..]);
      var q :| OpenWalk(methods, policy, q) && q[0] == p[1..][0] && Rooted(methods, policy, q[|q| - 1]);
      assert Edge(methods, p[0], p[1]);
      OpenExtends(methods, policy, p[0], q);
      assert ([p[0]] + q)[0] == p[0];
    }
  }

  lemma {:induction false} ClosureCoversTests(methods: Methods, policy: Policy, tests: seq<Name>)
    requires Closure(methods, policy, tests).Accept?
    ensures
      var closure := Closure(methods, policy, tests).value;
      && (forall t :: t in closure <==> t in tests)
      && (forall t :: t in tests ==> Visit(methods, policy, t, []) == Accept(closure[t]))
    decreases |tests|
  {
    if tests != [] {
      ClosureCoversTests(methods, policy, tests[..|tests| - 1]);
      assert tests == tests[..|tests| - 1] + [tests[|tests| - 1]];
    }
  }

  lemma {:induction false} ClosureAccepts(methods: Methods, policy: Policy, tests: seq<Name>)
    ensures Closure(methods, policy, tests).Accept? <==> forall t :: t in tests ==> Visit(methods, policy, t, []).Accept?
    decreases |tests|
  {
    if tests != [] {
      var before, last := tests[..|tests| - 1], tests[|tests| - 1];
      ClosureAccepts(methods, policy, before);
      assert tests == before + [last] && last in tests;
      assert forall t :: t in tests <==> t in before || t == last;
    }
  }

  /** A class is accepted exactly when all walks from all its tests are sound, and
      then each test is owner-bound exactly when one of its walks ends at an owner
      prerequisite. */
  lemma ClosureExactly(methods: Methods, policy: Policy, tests: seq<Name>)
    ensures Closure(methods, policy, tests).Accept?
       <==> forall p :: OpenWalk(methods, policy, p) && p[0] in tests ==> Sound(methods, policy, [], p)
    ensures Closure(methods, policy, tests).Accept? ==>
      forall t :: t in tests ==>
        t in Closure(methods, policy, tests).value
        && (Closure(methods, policy, tests).value[t].Bound? <==> ReachesOwner(methods, policy, t))
  {
    ClosureAccepts(methods, policy, tests);
    forall t | t in tests
      ensures Visit(methods, policy, t, []).Accept?
         <==> forall p :: OpenWalk(methods, policy, p) && p[0] == t ==> Sound(methods, policy, [], p)
    {
      AcceptedExactly(methods, policy, t);
    }
    if Closure(methods, policy, tests).Accept? {
      ClosureCoversTests(methods, policy, tests);
      forall t | t in tests
        ensures Closure(methods, policy, tests).value[t].Bound? <==> ReachesOwner(methods, policy, t)
      {
        SoundTestIsJudged(methods, policy, t);
      }
    }
  }

  // ---------------------------------------------------------------- helpers named like assertions

  /** A self-call edge whatever the callee is called. */
  predicate AnyEdge(methods: Methods, a: Name, b: Name) {
    a in methods && SelfCall(b) in methods[a].calls && b in methods
  }

  ghost predicate ReachesRoot(methods: Methods, policy: Policy, name: Name, p: seq<Name>) {
    && p != [] && p[0] == name && Rooted(methods, policy, p[|p| - 1])
    && forall i, j :: 0 <= i < |p| && j == i + 1 && j < |p| ==> AnyEdge(methods, p[i], p[j])
  }

  /** The verdict tells the truth about every declared method the test reaches. */
  ghost predicate Truthful(methods: Methods, policy: Policy, test: Name) {
    Visit(methods, policy, test, []).Accept? ==>
      (Visit(methods, policy, test, []).value.Bound? <==> exists p :: ReachesRoot(methods, policy, test, p))
  }

  lemma TruthfulWithoutAssertNames(methods: Methods, policy: Policy, test: Name)
    requires forall n :: n in methods ==> n.Plain?
    ensures Truthful(methods, policy, test)
  {
    if Visit(methods, policy, test, []).Accept? {
      BoundExactly(methods, policy, test);
      if p, root :| LeadsToRoot(methods, policy, test, p, root) {
        forall i, j | 0 <= i < |p| && j == i + 1 && j < |p| ensures AnyEdge(methods, p[i], p[j]) {
          assert Edge(methods, p[i], p[j]);
          if j < |p| - 1 {
            assert Edge(methods, p[j], p[j + 1]);
          }
        }
        assert ReachesRoot(methods, policy, test, p);
      }
      if p :| ReachesRoot(methods, policy, test, p) {
        forall i, j | 0 <= i < |p| && j == i + 1 && j < |p| ensures Edge(methods, p[i], p[j]) {
          assert AnyEdge(methods, p[i], p[j]);
        }
        assert LeadsToRoot(methods, policy, test, p, RootOf(policy, methods[p[|p| - 1]]).value);
      }
    }
  }

  /** A class in which a test hides its owner prerequisite in a helper named like an assertion. */
  function Hiding(names: set<Name>, test: Name, helper: Name): Methods {
    map n | n in names ::
      if n == test then Method([SelfCall(helper)], false) else if n == helper then Method([], true) else Method([], false)
  }

  /** The verdict is truthful for all bodies of a class exactly when none of its
      methods is named like an assertion: calls to such helpers are not followed. */
  lemma TruthfulExactly(names: set<Name>, test: Name)
    requires test in names && test.Plain?
    ensures (forall methods: Methods, policy: Policy :: methods.Keys == names ==> Truthful(methods, policy, test))
       <==> forall n :: n in names ==> n.Plain?
  {
    if forall n :: n in names ==> n.Plain? {
      forall methods: Methods, policy: Policy | methods.Keys == names ensures Truthful(methods, policy, test) {
        TruthfulWithoutAssertNames(methods, policy, test);
      }
    } else {
      var helper :| helper in names && helper.AssertNamed?;
      var methods := Hiding(names, test, helper);
      var policy := Policy({}, {});
      assert VisitCalls(methods, policy, [SelfCall(helper)][1..], [test]) == Accept(Unbound([test]));
      assert Visit(methods, policy, test, []) == Accept(Unbound([test])) by {
        assert [] + [test] == [test];
      }
      assert ReachesRoot(methods, policy, test, [test, helper]);
      assert methods.Keys == names && !Truthful(methods, policy, test);
    }
  }
}
