/**
 The journal of the owner-scope harness. Unlike the denial journal its reader
 accepts a whole passing log or raises; listings of import directories may be
 interleaved anywhere between INIT and TERMINAL.
 */
module ScopeJournal {
  import opened Wrappers
  import opened Framing
  import opened TestStatus

  type Id = int

  /** `allowed` says that a listing is the one kind the reader tolerates. */
  datatype Payload =
    | Init(ids: seq<Id>)
    | Begin(id: Id)
    | End(ended: Option<Id>, actual: Status)
    | Listing(allowed: bool)
    | Denied(during: Option<Id>)
    | Terminal(pass: bool)
    | UnknownKind

  datatype Frame = Frame(seqNo: int, previous: Option<Digest>, pid: int, clock: int, source: Id, payload: Payload)

  datatype Config = Config(pid: int, source: Id, ids: seq<Id>, maxFrames: nat, maxFile: nat)

  datatype Progress = Progress(
    started: bool, states: map<Option<Id>, Status>, starts: seq<Id>, active: Option<Id>, denials: nat, terminal: Option<bool>)

  const NOTHING: Progress := Progress(false, map[], [], None, 0, None)

  predicate Allows(ids: seq<Id>, p: Progress, payload: Payload) {
    && p.terminal.None?
    && (if payload.Init? then !p.started && payload.ids == ids else p.started)
    && match payload
       case Begin(id) => id in ids && Some(id) !in p.states && p.active.None?
       case End(id, actual) => id == p.active && Ended(actual)
       case Listing(allowed) => allowed
       case Denied(during) => during.None? || during.value in ids
       case UnknownKind => false
       case _ => true
  }

  function Advance(p: Progress, payload: Payload): Progress {
    match payload
    case Init(_) => p.(started := true)
    case Begin(id) => p.(active := Some(id), states := p.states[Some(id) := Started], starts := p.starts + [id])
    case End(id, actual) => p.(active := None, states := p.states[id := actual])
    case Denied(_) => p.(denials := p.denials + 1)
    case Terminal(pass) => p.(terminal := Some(pass))
    case _ => p
  }

  function Fold(ids: seq<Id>, payloads: seq<Payload>): Option<Progress>
    decreases |payloads|
  {
    if payloads == [] then Some(NOTHING)
    else
      var before := Fold(ids, payloads[..|payloads| - 1]);
      if before.Some? && Allows(ids, before.value, payloads[|payloads| - 1])
      then Some(Advance(before.value, payloads[|payloads| - 1])) else None
  }

  /** The checks after the last frame. */
  predicate Passing(ids: seq<Id>, p: Progress) {
    p.terminal == Some(true) && p.active.None? && p.states == FromKeys(ids, Pass) && p.denials == 0 && p.starts == ids
  }

  /** The reader's verdict on the payloads of a chained log. */
  predicate Accepts(ids: seq<Id>, payloads: seq<Payload>) {
    var p := Fold(ids, payloads);
    p.Some? && Passing(ids, p.value)
  }

  // ---------------------------------------------------------------- the accepted language

  function Pairs(order: seq<Id>): seq<Payload>
    decreases |order|
  {
    if order == [] then []
    else Pairs(order[..|order| - 1]) + [Begin(order[|order| - 1]), End(Some(order[|order| - 1]), Pass)]
  }

  function Green(ids: seq<Id>): seq<Payload> {
    [Init(ids)] + Pairs(ids) + [Terminal(true)]
  }

  function Strip(payloads: seq<Payload>): (kept: seq<Payload>)
    ensures |kept| <= |payloads|
    decreases |payloads|
  {
    if payloads == [] then []
    else
      var last := payloads[|payloads| - 1];
      Strip(payloads[..|payloads| - 1]) + if last.Listing? then [] else [last]
  }

  function Listings(payloads: seq<Payload>): nat
    decreases |payloads|
  {
    if payloads == [] then 0
    else Listings(payloads[..|payloads| - 1]) + if payloads[|payloads| - 1].Listing? then 1 else 0
  }

  lemma {:induction false} StripLength(payloads: seq<Payload>)
    ensures |payloads| == |Strip(payloads)| + Listings(payloads)
    decreases |payloads|
  {
    if payloads != [] {
      StripLength(payloads[..|payloads| - 1]);
    }
  }

  lemma {:induction false} PairsLength(order: seq<Id>)
    ensures |Pairs(order)| == 2 * |order|
    decreases |order|
  {
    if order != [] {
      PairsLength(order[..|order| - 1]);
    }
  }

  /** Listings are allowed ones, strictly between INIT and TERMINAL. */
  ghost predicate Interleaved(payloads: seq<Payload>) {
    && payloads != [] && !payloads[0].Listing? && !payloads[|payloads| - 1].Listing?
    && forall i :: 0 <= i < |payloads| && payloads[i].Listing? ==> payloads[i].allowed
  }

  lemma FoldOneMore(ids: seq<Id>, payloads: seq<Payload>, last: Payload)
    ensures Fold(ids, payloads + [last])
         == if Fold(ids, payloads).Some? && Allows(ids, Fold(ids, payloads).value, last)
            then Some(Advance(Fold(ids, payloads).value, last)) else None
  {
    assert (payloads + [last])[..|payloads|] == payloads;
  }

  lemma StripOneMore(payloads: seq<Payload>, last: Payload)
    ensures Strip(payloads + [last]) == Strip(payloads) + if last.Listing? then [] else [last]
  {
    assert (payloads + [last])[..|payloads|] == payloads;
  }

  /** One more payload, whether it is stripped or kept. */
  lemma TraceStep(ids: seq<Id>, before: seq<Payload>, last: Payload)
    requires Fold(ids, before) == Fold(ids, Strip(before))
    requires last.Listing? ==> last.allowed && OpenState(ids, before)
    ensures Fold(ids, before + [last]) == Fold(ids, Strip(before + [last]))
  {
    FoldOneMore(ids, before, last);
    StripOneMore(before, last);
    if last.Listing? {
      assert Strip(before) + [] == Strip(before);
    } else {
      FoldOneMore(ids, Strip(before), last);
    }
  }

  /** Open to one more payload: INIT came first and TERMINAL has not come. */
  ghost predicate OpenState(ids: seq<Id>, payloads: seq<Payload>) {
    Fold(ids, payloads).Some? ==> Fold(ids, payloads).value.started && Fold(ids, payloads).value.terminal.None?
  }

  lemma OpenStep(ids: seq<Id>, before: seq<Payload>, last: Payload)
    requires before == [] || OpenState(ids, before)
    requires before == [] ==> !last.Listing?
    requires !last.Terminal?
    ensures OpenState(ids, before + [last])
  {
    FoldOneMore(ids, before, last);
  }

  lemma {:induction false} StaysOpen(ids: seq<Id>, payloads: seq<Payload>)
    requires payloads != [] && !payloads[0].Listing?
    requires forall i :: 0 <= i < |payloads| ==> !payloads[i].Terminal?
    ensures OpenState(ids, payloads)
    decreases |payloads|
  {
    var n := |payloads| - 1;
    if n > 0 {
      StaysOpen(ids, payloads[..n]);
    }
    OpenStep(ids, payloads[..n], payloads[n]);
    assert payloads == payloads[..n] + [payloads[n]];
  }

  /** Allowed listings leave no trace in the state, as long as INIT came first and TERMINAL has not come. */
  lemma {:induction false} ListingsLeaveNoTrace(ids: seq<Id>, payloads: seq<Payload>)
    requires payloads != [] && !payloads[0].Listing?
    requires forall i :: 0 <= i < |payloads| && payloads[i].Listing? ==> payloads[i].allowed
    requires forall i :: 0 <= i < |payloads| - 1 ==> !payloads[i].Terminal?
    ensures Fold(ids, payloads) == Fold(ids, Strip(payloads))
    decreases |payloads|
  {
    var n := |payloads| - 1;
    var before, last := payloads[..n], payloads[n];
    if n == 0 {
      assert before == [] && Strip(before) == [];
    } else {
      ListingsLeaveNoTrace(ids, before);
      StaysOpen(ids, before);
    }
    TraceStep(ids, before, last);
    assert payloads == before + [last];
  }

  /** So far nothing but passed tests, and at most one running. */
  ghost predicate Clean(p: Progress) {
    && p.started && p.terminal.None? && p.denials == 0
    && forall m :: m in p.states ==> m.Some? && (p.states[m] == Pass || (p.states[m] == Started && p.active == m))
  }

  function Open(active: Option<Id>): seq<Payload> {
    if active.Some? then [Begin(active.value)] else []
  }

  /** The running test is the last one started, and it is recorded as started. */
  lemma {:induction false} ActiveIsLast(ids: seq<Id>, payloads: seq<Payload>)
    requires Fold(ids, payloads).Some?
    ensures
      var p := Fold(ids, payloads).value;
      && (p.active.Some? ==> p.starts != [] && p.starts[|p.starts| - 1] == p.active.value
                             && p.active in p.states && p.states[p.active] == Started)
      && (!p.started ==> payloads == [])
    decreases |payloads|
  {
    if payloads != [] {
      ActiveIsLast(ids, payloads[..|payloads| - 1]);
    }
  }

  lemma CleanBefore(before: Progress, last: Payload)
    requires last.Begin? || last.End?
    requires before.started && Clean(Advance(before, last))
    requires last.Begin? ==> before.active.None? && Some(last.id) !in before.states
    requires last.End? ==>
      && last.ended == before.active
      && (before.active.Some? ==> before.active in before.states && before.states[before.active] == Started)
    ensures Clean(before)
    ensures last.End? ==> before.active.Some? && last.actual == Pass
  {
    var after := Advance(before, last);
    if last.End? {
      assert last.ended in after.states;
    }
    forall m | m in before.states
      ensures m.Some? && (before.states[m] == Pass || (before.states[m] == Started && before.active == m)) {
      assert m in after.states;
    }
  }

  lemma EndHistory(start: seq<Payload>, passed: seq<Id>, id: Id)
    ensures start + Pairs(passed) + [Begin(id)] + [End(Some(id), Pass)] == start + Pairs(passed + [id])
  {
    assert (passed + [id])[..|passed|] == passed;
    Regroup(start, Pairs(passed), Begin(id), End(Some(id), Pass));
  }

  /** Without listings a clean state has exactly one history. */
  lemma {:induction false} CleanHistory(ids: seq<Id>, payloads: seq<Payload>) returns (order: seq<Id>)
    requires Fold(ids, payloads).Some? && Clean(Fold(ids, payloads).value)
    requires forall i :: 0 <= i < |payloads| ==> !payloads[i].Listing?
    ensures
      var p := Fold(ids, payloads).value;
      && p.starts == order + (if p.active.Some? then [p.active.value] else [])
      && payloads == [Init(ids)] + Pairs(order) + Open(p.active)
    decreases |payloads|
  {
    var n := |payloads| - 1;
    var before, last := Fold(ids, payloads[..n]).value, payloads[n];
    assert payloads == payloads[..n] + [last];
    ActiveIsLast(ids, payloads[..n]);
    order := [];
    match last
    case Init(_) => assert payloads == [Init(ids)];
    case Begin(id) =>
      CleanBefore(before, last);
      order := CleanHistory(ids, payloads[..n]);
    case End(ended, actual) =>
      CleanBefore(before, last);
      var passed := CleanHistory(ids, payloads[..n]);
      order := passed + [ended.value];
      EndHistory([Init(ids)], passed, ended.value);
    case _ =>
  }

  // ---------------------------------------------------------------- acceptance, exactly

  /** What any accepted list satisfies: INIT first, TERMINAL nowhere but last,
      only allowed listings, and every start recorded once. */
  lemma {:induction false} AcceptedShape(ids: seq<Id>, payloads: seq<Payload>)
    requires Fold(ids, payloads).Some?
    ensures
      var p := Fold(ids, payloads).value;
      && (payloads != [] ==> payloads[0].Init? && p.started)
      && (forall i :: 0 <= i < |payloads| && payloads[i].Listing? ==> payloads[i].allowed)
      && (forall i :: 0 <= i < |payloads| - 1 ==> !payloads[i].Terminal?)
      && (p.terminal.Some? <==> payloads != [] && payloads[|payloads| - 1].Terminal?)
      && NoDup(p.starts) && (forall id :: id in p.starts ==> Some(id) in p.states)
    decreases |payloads|
  {
    if payloads != [] {
      AcceptedShape(ids, payloads[..|payloads| - 1]);
    }
  }

  function Passed(ids: seq<Id>): Progress {
    Progress(true, FromKeys(ids, Pass), ids, None, 0, None)
  }

  lemma PairAccepted(ids: seq<Id>, body: seq<Payload>, order: seq<Id>, id: Id)
    requires Fold(ids, body) == Some(Passed(order)) && id !in order && id in ids
    ensures Fold(ids, body + [Begin(id)] + [End(Some(id), Pass)]) == Some(Passed(order + [id]))
  {
    var running := Advance(Passed(order), Begin(id));
    FoldOneMore(ids, body, Begin(id));
    assert Fold(ids, body + [Begin(id)]) == Some(running);
    FoldOneMore(ids, body + [Begin(id)], End(Some(id), Pass));
    FromKeysExtends(order, id, Started, Pass);
  }

  lemma InitAccepted(ids: seq<Id>)
    ensures Fold(ids, [Init(ids)]) == Some(Passed([]))
  {
    assert [] + [Init(ids)] == [Init(ids)];
    FoldOneMore(ids, [], Init(ids));
  }

  lemma PairsStep(ids: seq<Id>, order: seq<Id>, id: Id)
    requires Fold(ids, [Init(ids)] + Pairs(order)) == Some(Passed(order)) && id !in order && id in ids
    ensures Fold(ids, [Init(ids)] + Pairs(order + [id])) == Some(Passed(order + [id]))
  {
    PairAccepted(ids, [Init(ids)] + Pairs(order), order, id);
    EndHistory([Init(ids)], order, id);
  }

  lemma {:induction false} PairsAccepted(ids: seq<Id>, order: seq<Id>)
    requires NoDup(order) && forall id :: id in order ==> id in ids
    ensures Fold(ids, [Init(ids)] + Pairs(order)) == Some(Passed(order))
    decreases |order|
  {
    if order == [] {
      InitAccepted(ids);
      assert [Init(ids)] + [] == [Init(ids)];
    } else {
      var shorter, id := order[..|order| - 1], order[|order| - 1];
      assert shorter + [id] == order;
      PairsAccepted(ids, shorter);
      PairsStep(ids, shorter, id);
    }
  }

  lemma {:induction false} StripKeeps(payloads: seq<Payload>, i: nat)
    requires i < |payloads| && !payloads[i].Listing?
    ensures payloads[i] in Strip(payloads)
    decreases |payloads|
  {
    if i < |payloads| - 1 {
      StripKeeps(payloads[..|payloads| - 1], i);
    }
  }

  lemma {:induction false} PairsHoldTests(order: seq<Id>)
    ensures forall x :: x in Pairs(order) ==> x.Begin? || x.End?
    decreases |order|
  {
    if order != [] {
      PairsHoldTests(order[..|order| - 1]);
    }
  }

  lemma {:induction false} StripDropsListings(payloads: seq<Payload>)
    ensures forall x :: x in Strip(payloads) ==> !x.Listing?
    decreases |payloads|
  {
    if payloads != [] {
      StripDropsListings(payloads[..|payloads| - 1]);
    }
  }

  /** A passing log without its TERMINAL and its listings is the green list of its starts. */
  lemma PassingBody(ids: seq<Id>, body: seq<Payload>, last: Payload)
    requires Accepts(ids, body + [last]) && last.Terminal?
    requires forall x :: x in body ==> !x.Listing?
    ensures body + [last] == Green(ids)
  {
    FoldOneMore(ids, body, last);
    var order := CleanHistory(ids, body);
    assert order + [] == order && body + [] == body;
    assert last == Terminal(true);
  }

  lemma AcceptedIsGreen(ids: seq<Id>, payloads: seq<Payload>)
    requires Accepts(ids, payloads)
    ensures NoDup(ids) && Interleaved(payloads) && Strip(payloads) == Green(ids)
  {
    AcceptedShape(ids, payloads);
    ListingsLeaveNoTrace(ids, payloads);
    var n := |payloads| - 1;
    assert payloads == payloads[..n] + [payloads[n]];
    StripOneMore(payloads[..n], payloads[n]);
    StripDropsListings(payloads[..n]);
    PassingBody(ids, Strip(payloads[..n]), payloads[n]);
  }

  lemma GreenIsAccepted(ids: seq<Id>, payloads: seq<Payload>)
    requires NoDup(ids) && Interleaved(payloads) && Strip(payloads) == Green(ids)
    ensures Accepts(ids, payloads)
  {
    var n := |payloads| - 1;
    var before, last := payloads[..n], payloads[n];
    assert payloads == before + [last];
    StripOneMore(before, last);
    var body := [Init(ids)] + Pairs(ids);
    assert Strip(before) + [last] == body + [Terminal(true)];
    assert Strip(before) == (Strip(before) + [last])[..|Strip(before)|] == body && last == Terminal(true);
    PairsHoldTests(ids);
    forall i | 0 <= i < n ensures !payloads[i].Terminal? {
      if !payloads[i].Listing? {
        StripKeeps(before, i);
      }
    }
    ListingsLeaveNoTrace(ids, payloads);
    PairsAccepted(ids, ids);
    FoldOneMore(ids, body, last);
  }

  /** The reader accepts exactly the logs whose frames other than listings are
      INIT, each id in order started and stopped with PASS, and a passing
      TERMINAL, with allowed listings in between. */
  lemma AcceptsExactly(ids: seq<Id>, payloads: seq<Payload>)
    ensures Accepts(ids, payloads) <==> NoDup(ids) && Interleaved(payloads) && Strip(payloads) == Green(ids)
  {
    if Accepts(ids, payloads) {
      AcceptedIsGreen(ids, payloads);
    }
    if NoDup(ids) && Interleaved(payloads) && Strip(payloads) == Green(ids) {
      GreenIsAccepted(ids, payloads);
    }
  }

  /** An accepted log with n ids and L listings has 2n + 2 + L frames. */
  lemma AcceptedLength(ids: seq<Id>, payloads: seq<Payload>)
    requires Accepts(ids, payloads)
    ensures |payloads| == 2 * |ids| + 2 + Listings(payloads)
  {
    AcceptedIsGreen(ids, payloads);
    StripLength(payloads);
    PairsLength(ids);
  }
}
