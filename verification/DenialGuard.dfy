/**
 The guard and the test recorder that drive the denial journal: which frames a
 guarded run hands to the writer, how many, and how the reader judges them.
 */
module DenialGuard {
  import opened Wrappers
  import opened Framing
  import opened TestStatus
  import opened DenialJournal
  import opened DenialRecovery
  import opened DenialProof
  import opened DenialState

  /** What a guarded test run does to the guard. */
  datatype Action =
    | Begin(id: Id)
    | End(ended: Id, actual: Status)
    | Deny(reason: Id, phase: Phase, callerKnown: bool, contextValid: bool)

  datatype GuardState = GuardState(
    sequence: nat, events: seq<Denial>, truncated: bool, during: Option<Id>, emitted: seq<Payload>)

  const IDLE: GuardState := GuardState(0, [], false, None, [])

  function Settle(events: seq<Denial>, id: Id, actual: Status): (settled: seq<Denial>)
    ensures |settled| == |events|
  {
    seq(|events|, i requires 0 <= i < |events| =>
      if events[i].during == Some(id) then events[i].(later := Some(actual)) else events[i])
  }

  function Denied(g: GuardState, a: Action): Denial
    requires a.Deny?
  {
    Denial(g.sequence + 1, a.reason, a.phase, g.during, None, a.callerKnown, a.contextValid)
  }

  function GuardStep(limit: nat, g: GuardState, a: Action): GuardState {
    match a
    case Begin(id) => g.(during := Some(id), emitted := g.emitted + [MethodStart(id)])
    case End(id, actual) =>
      if g.during != Some(id) then g
      else g.(events := Settle(g.events, id, actual), during := None, emitted := g.emitted + [MethodStop(Some(id), actual)])
    case Deny(_, _, _, _) =>
      if |g.events| >= limit then
        g.(sequence := g.sequence + 1, truncated := true, emitted := if g.truncated then g.emitted else g.emitted + [Overflow])
      else
        g.(sequence := g.sequence + 1, events := g.events + [Denied(g, a)], emitted := g.emitted + [GuardDeny(Denied(g, a))])
  }

  function GuardRun(limit: nat, actions: seq<Action>): GuardState
    decreases |actions|
  {
    if actions == [] then IDLE else GuardStep(limit, GuardRun(limit, actions[..|actions| - 1]), actions[|actions| - 1])
  }

  class Guard {
    const limit: nat
    var sequence: nat
    var events: seq<Denial>
    var truncated: bool
    var during: Option<Id>
    /** The payloads handed to the journal, in order. */
    var emitted: seq<Payload>

    function State(): GuardState
      reads this
    {
      GuardState(sequence, events, truncated, during, emitted)
    }

    constructor (limit: nat)
      ensures this.limit == limit && State() == IDLE
    {
      this.limit := limit;
      sequence, events, truncated, during, emitted := 0, [], false, None, [];
    }

    method MethodStart(id: Id)
      modifies this
      ensures State() == GuardStep(limit, old(State()), Begin(id))
    {
      during := Some(id);
      emitted := emitted + [Payload.MethodStart(id)];
    }

    /** A stop of another method than the running one is refused before anything is written. */
    method MethodStop(id: Id, actual: Status) returns (ok: bool)
      modifies this
      ensures State() == GuardStep(limit, old(State()), End(id, actual))
      ensures ok <==> old(during) == Some(id)
    {
      if during != Some(id) {
        return false;
      }
      var settled: seq<Denial> := [];
      var i := 0;
      while i < |events|
        invariant 0 <= i <= |events| && |settled| == i
        invariant events == old(events) && during == old(during) && State() == old(State())
        invariant forall k :: 0 <= k < i ==> settled[k] == Settle(events, id, actual)[k]
      {
        settled := settled + [if events[i].during == Some(id) then events[i].(later := Some(actual)) else events[i]];
        i := i + 1;
      }
      assert settled == Settle(events, id, actual);
      events := settled;
      emitted := emitted + [Payload.MethodStop(Some(id), actual)];
      during := None;
      ok := true;
    }

    /** Record a denied access; beyond the limit one overflow frame replaces all further ones. */
    method DenyAccess(reason: Id, phase: Phase, callerKnown: bool, contextValid: bool)
      modifies this
      ensures State() == GuardStep(limit, old(State()), Deny(reason, phase, callerKnown, contextValid))
    {
      sequence := sequence + 1;
      if |events| >= limit {
        if !truncated {
          emitted := emitted + [Overflow];
        }
        truncated := true;
      } else {
        var d := Denial(sequence, reason, phase, during, None, callerKnown, contextValid);
        events := events + [d];
        emitted := emitted + [GuardDeny(d)];
      }
    }
  }

  // ---------------------------------------------------------------- the number of frames

  function Begun(actions: seq<Action>): seq<Id>
    decreases |actions|
  {
    if actions == [] then []
    else
      var n := |actions| - 1;
      Begun(actions[..n]) + if actions[n].Begin? then [actions[n].id] else []
  }

  /** A run starts each of its test ids at most once. */
  ghost predicate RunsOnce(ids: seq<Id>, actions: seq<Action>) {
    NoDup(Begun(actions)) && forall id :: id in Begun(actions) ==> id in ids
  }

  lemma {:induction false} EmittedBound(limit: nat, actions: seq<Action>)
    ensures
      var g := GuardRun(limit, actions);
      && |g.events| <= limit
      && |g.emitted| + (if g.during.Some? then 1 else 0)
           <= 2 * |Begun(actions)| + |g.events| + (if g.truncated then 1 else 0)
    decreases |actions|
  {
    if actions != [] {
      EmittedBound(limit, actions[..|actions| - 1]);
    }
  }

  /** All frames of a run: INIT, what the guard emits, TERMINAL. */
  function FrameCount(limit: nat, actions: seq<Action>): nat {
    1 + |GuardRun(limit, actions).emitted| + 1
  }

  /** With n ids and at most `limit` recorded denials a run has at most
      2n + limit + 3 frames, and some run has that many: the writer's cap is out
      of reach for all runs exactly when it is at least that. */
  lemma CapExactly(ids: seq<Id>, limit: nat, cap: nat)
    requires NoDup(ids)
    ensures (forall actions :: RunsOnce(ids, actions) ==> FrameCount(limit, actions) <= cap)
       <==> 2 * |ids| + limit + 3 <= cap
  {
    if 2 * |ids| + limit + 3 <= cap {
      forall actions | RunsOnce(ids, actions) ensures FrameCount(limit, actions) <= cap {
        EmittedBound(limit, actions);
        forall id | id in Elements(Begun(actions)) ensures id in Elements(ids) {
          assert id in Begun(actions);
        }
        ChoiceLength(ids, Begun(actions));
      }
    } else {
      var worst := LongestRun(ids, limit);
      assert FrameCount(limit, worst) > cap;
    }
  }

  const DENIAL: Action := Deny(0, Import, true, true)

  lemma Longer(limit: nat, actions: seq<Action>, a: Action)
    ensures GuardRun(limit, actions + [a]) == GuardStep(limit, GuardRun(limit, actions), a)
    ensures Begun(actions + [a]) == Begun(actions) + if a.Begin? then [a.id] else []
  {
    assert (actions + [a])[..|actions|] == actions;
  }

  lemma {:induction false} LongestRun(ids: seq<Id>, limit: nat) returns (actions: seq<Action>)
    requires NoDup(ids)
    ensures RunsOnce(ids, actions) && FrameCount(limit, actions) == 2 * |ids| + limit + 3
  {
    actions := PassingRun(ids, limit);
    PairsLength(ids);
    var base := |GuardRun(limit, actions).emitted|;
    var k := 0;
    while k < limit
      invariant 0 <= k <= limit
      invariant Begun(actions) == ids
      invariant |GuardRun(limit, actions).events| == k && !GuardRun(limit, actions).truncated
      invariant |GuardRun(limit, actions).emitted| == base + k
    {
      Longer(limit, actions, DENIAL);
      actions := actions + [DENIAL];
      k := k + 1;
    }
    Longer(limit, actions, DENIAL);
    actions := actions + [DENIAL];
  }

  lemma {:induction false} PassingRun(ids: seq<Id>, limit: nat) returns (actions: seq<Action>)
    ensures Begun(actions) == ids
    ensures GuardRun(limit, actions) == GuardState(0, [], false, None, Pairs(ids))
    decreases |ids|
  {
    if ids == [] {
      actions := [];
    } else {
      var id := ids[|ids| - 1];
      var shorter := PassingRun(ids[..|ids| - 1], limit);
      Longer(limit, shorter, Begin(id));
      Longer(limit, shorter + [Begin(id)], End(id, Pass));
      actions := shorter + [Begin(id)] + [End(id, Pass)];
      assert ids == ids[..|ids| - 1] + [id];
    }
  }

  lemma {:induction false} PairsLength(ids: seq<Id>)
    ensures |Pairs(ids)| == 2 * |ids|
    decreases |ids|
  {
    if ids != [] {
      PairsLength(ids[..|ids| - 1]);
    }
  }

  // ---------------------------------------------------------------- how the reader judges a guarded run

  /** A stop of another test than the running one, which the guard refuses without a frame. */
  predicate Refused(g: GuardState, a: Action) {
    a.End? && g.during != Some(a.ended)
  }

  /** A configured test starts once and while none is running, ends with a known status,
      and a denial is within the limit, has a known caller and falls where its phase says. */
  predicate Fits(cfg: Config, g: GuardState, begun: seq<Id>, a: Action) {
    match a
    case Begin(id) => id in cfg.ids && g.during.None? && id !in begun
    case End(_, actual) => Refused(g, a) || Ended(actual)
    case Deny(_, phase, callerKnown, contextValid) =>
      && |g.events| < cfg.maxDenials && callerKnown && contextValid
      && (phase == Method || phase == Teardown ==> g.during.Some?)
  }

  /** Every action fits the run before it. */
  predicate Orderly(cfg: Config, actions: seq<Action>)
    decreases |actions|
  {
    actions == [] ||
    (var before := actions[..|actions| - 1];
     Orderly(cfg, before) && Fits(cfg, GuardRun(cfg.maxDenials, before), Begun(before), actions[|actions| - 1]))
  }

  /** The reader's state mirrors the guard's. */
  ghost predicate Follows(cfg: Config, p: Progress, g: GuardState, begun: seq<Id>) {
    && p.started && p.terminal.None? && p.active == g.during
    && (g.during.Some? ==> g.during.value in cfg.ids)
    && |p.denials| == |g.events| == g.sequence && !g.truncated && ValidAttribution(cfg, p.denials)
    && (forall id: Id :: Some(id) in p.methods <==> id in begun)
    && (g.during.Some? ==> g.during in p.methods)
  }

  /** The reader accepts what a guarded run emits exactly when the run was orderly, and
      then keeps count of every denial and every method. */
  lemma {:induction false} OrderlyExactly(cfg: Config, actions: seq<Action>)
    ensures
      var g := GuardRun(cfg.maxDenials, actions);
      var p := Fold(cfg, [Init(cfg.ids)] + g.emitted);
      && (p.Some? <==> Orderly(cfg, actions))
      && (p.Some? ==> Follows(cfg, p.value, g, Begun(actions)))
    decreases |actions|
  {
    if actions == [] {
      InitAccepted(cfg);
      assert [Init(cfg.ids)] + [] == [Init(cfg.ids)];
    } else {
      var before, a := actions[..|actions| - 1], actions[|actions| - 1];
      OrderlyExactly(cfg, before);
      var g := GuardRun(cfg.maxDenials, before);
      var next := GuardStep(cfg.maxDenials, g, a);
      var body := [Init(cfg.ids)] + g.emitted;
      if next.emitted != g.emitted {
        OneFrame(cfg.maxDenials, g, a);
        var last := next.emitted[|g.emitted|];
        assert [Init(cfg.ids)] + next.emitted == body + [last];
        assert (body + [last])[..|body|] == body;
      }
      if Fold(cfg, body).Some? {
        ActionJudged(cfg, g, Fold(cfg, body).value, Begun(before), a);
      }
    }
  }

  lemma OneFrame(limit: nat, g: GuardState, a: Action)
    ensures
      var next := GuardStep(limit, g, a);
      next.emitted != g.emitted ==>
        |next.emitted| == |g.emitted| + 1 && next.emitted == g.emitted + [next.emitted[|g.emitted|]]
  {}

  lemma ActionJudged(cfg: Config, g: GuardState, p: Progress, begun: seq<Id>, a: Action)
    requires Follows(cfg, p, g, begun)
    ensures
      var next := GuardStep(cfg.maxDenials, g, a);
      if Refused(g, a) then next == g
      else
        && |next.emitted| == |g.emitted| + 1
        && (PayloadFlaw(cfg, p, next.emitted[|g.emitted|]).None? <==> Fits(cfg, g, begun, a))
        && (Fits(cfg, g, begun, a) ==>
              Follows(cfg, Advance(p, next.emitted[|g.emitted|]), next, begun + if a.Begin? then [a.id] else []))
  {
    if a.Deny? && |g.events| < cfg.maxDenials {
      AttributionOneMore(cfg, p.denials, Denied(g, a));
    }
  }

  /** The journal of an orderly guarded run is a proper log, so `TruncationRecovers`
      holds of it: a crash at any byte leaves exactly its whole frames to recover. */
  lemma GuardedRunIsProper(c: Codec<Frame>, cfg: Config, run: Id, frames: seq<Frame>, actions: seq<Action>)
    requires WellChained(c, cfg, run, frames) && ClockRises(frames) && Orderly(cfg, actions)
    requires Payloads(frames) == [Init(cfg.ids)] + GuardRun(cfg.maxDenials, actions).emitted
    ensures Proper(c, cfg, run, frames)
  {
    OrderlyExactly(cfg, actions);
  }

  /** A run with a recorded denial can never close with a passing TERMINAL that the reader accepts. */
  lemma DenialForbidsGreen(cfg: Config, actions: seq<Action>, k: nat)
    requires Orderly(cfg, actions) && k < |actions| && actions[k].Deny?
    ensures Fold(cfg, [Init(cfg.ids)] + GuardRun(cfg.maxDenials, actions).emitted + [Terminal(true, None)]).None?
  {
    OrderlyExactly(cfg, actions);
    DenialCounted(cfg, actions, k);
    var body := [Init(cfg.ids)] + GuardRun(cfg.maxDenials, actions).emitted;
    assert (body + [Terminal(true, None)])[..|body|] == body;
  }

  lemma {:induction false} DenialCounted(cfg: Config, actions: seq<Action>, k: nat)
    requires Orderly(cfg, actions) && k < |actions| && actions[k].Deny?
    ensures GuardRun(cfg.maxDenials, actions).events != []
    decreases |actions|
  {
    if k < |actions| - 1 {
      DenialCounted(cfg, actions[..|actions| - 1], k);
    }
  }

  // ---------------------------------------------------------------- what the guard knows at the end

  function Denials(actions: seq<Action>): nat
    decreases |actions|
  {
    if actions == [] then 0 else Denials(actions[..|actions| - 1]) + if actions[|actions| - 1].Deny? then 1 else 0
  }

  function Unlabelled(events: seq<Denial>): seq<Denial> {
    seq(|events|, i requires 0 <= i < |events| => events[i].(later := None))
  }

  lemma DenialsOfOneMore(payloads: seq<Payload>, last: Payload)
    ensures DenialsOf(payloads + [last]) == DenialsOf(payloads) + if last.GuardDeny? then [last.denial] else []
  {
    assert (payloads + [last])[..|payloads|] == payloads;
  }

  /** The guard counts every denial, records the first ones up to the limit, emits
      exactly those, and is truncated exactly when there were more. */
  lemma {:induction false} RecordsExactly(limit: nat, actions: seq<Action>)
    ensures
      var g := GuardRun(limit, actions);
      && g.sequence == Denials(actions) && (g.truncated <==> Denials(actions) > limit)
      && |g.events| == (if Denials(actions) < limit then Denials(actions) else limit)
      && Records(g)
      && (forall i :: 0 <= i < |g.events| ==> g.events[i].sequence == i + 1)
      && (g.truncated <==> Overflow in g.emitted)
    decreases |actions|
  {
    if actions != [] {
      var before, a := actions[..|actions| - 1], actions[|actions| - 1];
      RecordsExactly(limit, before);
      var g := GuardRun(limit, before);
      match a {
        case Begin(id) => BeginRecords(limit, g, id);
        case End(id, actual) => EndRecords(limit, g, id, actual);
        case Deny(_, _, _, _) => DenyRecords(limit, g, a);
      }
      OverflowStep(limit, GuardRun(limit, before), a);
    }
  }

  lemma SettledUnlabelled(events: seq<Denial>, id: Id, actual: Status)
    ensures Unlabelled(Settle(events, id, actual)) == Unlabelled(events)
  {}

  lemma UnlabelledOneMore(events: seq<Denial>, d: Denial)
    requires d.later.None?
    ensures Unlabelled(events + [d]) == Unlabelled(events) + [d]
  {}

  lemma NoDenial(payloads: seq<Payload>, last: Payload)
    requires !last.GuardDeny?
    ensures DenialsOf(payloads + [last]) == DenialsOf(payloads)
  {
    DenialsOfOneMore(payloads, last);
    assert DenialsOf(payloads) + [] == DenialsOf(payloads);
  }

  /** What is recorded is what was emitted, but for the labels. */
  ghost predicate Records(g: GuardState) {
    DenialsOf(g.emitted) == Unlabelled(g.events)
  }

  lemma BeginRecords(limit: nat, g: GuardState, id: Id)
    requires Records(g)
    ensures Records(GuardStep(limit, g, Begin(id)))
  {
    NoDenial(g.emitted, MethodStart(id));
  }

  lemma EndRecords(limit: nat, g: GuardState, id: Id, actual: Status)
    requires Records(g)
    ensures Records(GuardStep(limit, g, End(id, actual)))
  {
    NoDenial(g.emitted, MethodStop(Some(id), actual));
    SettledUnlabelled(g.events, id, actual);
  }

  lemma DenyRecords(limit: nat, g: GuardState, a: Action)
    requires Records(g) && a.Deny?
    ensures Records(GuardStep(limit, g, a))
  {
    NoDenial(g.emitted, Overflow);
    DenialsOfOneMore(g.emitted, GuardDeny(Denied(g, a)));
    UnlabelledOneMore(g.events, Denied(g, a));
  }

  lemma OverflowStep(limit: nat, g: GuardState, a: Action)
    ensures Overflow in GuardStep(limit, g, a).emitted <==> Overflow in g.emitted || (a.Deny? && |g.events| >= limit && !g.truncated)
  {}

  /** A recorded denial carries the status its test stopped with, if it did. */
  ghost predicate Labelled(d: Denial, emitted: seq<Payload>) {
    if d.during.None? then d.later.None?
    else forall actual :: d.later == Some(actual) <==> MethodStop(d.during, actual) in emitted
  }

  /** Only tests that were begun are stopped or denied something, and the running one is not stopped yet. */
  ghost predicate StopsFollowStarts(g: GuardState, begun: seq<Id>) {
    && (forall id, actual :: MethodStop(Some(id), actual) in g.emitted ==> id in begun)
    && (g.during.Some? ==> g.during.value in begun && forall actual :: MethodStop(g.during, actual) !in g.emitted)
    && (forall i :: 0 <= i < |g.events| && g.events[i].during.Some? ==> g.events[i].during.value in begun)
  }

  lemma LabelStep(limit: nat, g: GuardState, begun: seq<Id>, a: Action)
    requires StopsFollowStarts(g, begun) && forall i :: 0 <= i < |g.events| ==> Labelled(g.events[i], g.emitted)
    requires a.Begin? ==> a.id !in begun
    ensures
      var next := GuardStep(limit, g, a);
      && StopsFollowStarts(next, begun + if a.Begin? then [a.id] else [])
      && forall i :: 0 <= i < |next.events| ==> Labelled(next.events[i], next.emitted)
  {
    var next := GuardStep(limit, g, a);
    match a
    case Begin(id) =>
      forall i | 0 <= i < |next.events| ensures Labelled(next.events[i], next.emitted) {
        assert Labelled(g.events[i], g.emitted);
      }
    case End(id, actual) =>
      if g.during == Some(id) {
        forall i | 0 <= i < |next.events| ensures Labelled(next.events[i], next.emitted) {
          assert Labelled(g.events[i], g.emitted);
        }
      }
    case Deny(_, _, _, _) =>
      forall i | 0 <= i < |next.events| ensures Labelled(next.events[i], next.emitted) {
        if i < |g.events| {
          assert Labelled(g.events[i], g.emitted);
        }
      }
  }

  /** In every run that begins no test twice each recorded denial ends up labelled with
      exactly the status the test it fell into stopped with: with none outside tests
      and for a test that never stopped. */
  lemma {:induction false} LabelsExactly(limit: nat, actions: seq<Action>)
    requires NoDup(Begun(actions))
    ensures
      var g := GuardRun(limit, actions);
      StopsFollowStarts(g, Begun(actions)) && forall i :: 0 <= i < |g.events| ==> Labelled(g.events[i], g.emitted)
    decreases |actions|
  {
    if actions != [] {
      var before, a := actions[..|actions| - 1], actions[|actions| - 1];
      if a.Begin? {
        ElementsOneMore(Begun(before), a.id);
      } else {
        assert Begun(before) + [] == Begun(before);
      }
      LabelsExactly(limit, before);
      LabelStep(limit, GuardRun(limit, before), Begun(before), a);
    }
  }
}
