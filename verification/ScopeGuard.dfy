/**
 The writer, the guard and the frame cap of the owner-scope journal, and which
 guarded runs leave a file the reader accepts.
 */
module ScopeGuard {
  import opened Wrappers
  import opened Framing
  import opened TestStatus
  import opened ScopeJournal
  import opened ScopeFile

  /** How many of `size` bytes arrive when successive writes return what `schedule`
      says: a return that is no progress ends it. */
  function Arrived(size: nat, schedule: seq<int>): (n: nat)
    ensures n <= size
    decreases |schedule|
  {
    if size == 0 || schedule == [] || schedule[0] <= 0 then 0
    else if schedule[0] >= size then size
    else schedule[0] + Arrived(size - schedule[0], schedule[1..])
  }

  /** The first `k` returns make progress, and then comes none or one that does not. */
  predicate ProgressEnds(schedule: seq<int>, k: nat) {
    && k <= |schedule| && (forall i :: 0 <= i < k ==> schedule[i] > 0)
    && (k < |schedule| ==> schedule[k] <= 0)
  }

  /** What arrives is the sum of the returns before the first that is no progress, or
      all there is to write if that is less. */
  lemma {:induction false} ArrivedExactly(size: nat, schedule: seq<int>, k: nat)
    requires ProgressEnds(schedule, k)
    ensures Arrived(size, schedule) == if Sum(schedule[..k]) < size then Sum(schedule[..k]) else size
    decreases k
  {
    if k > 0 {
      var rest := schedule[1..];
      assert schedule[..k][1..] == rest[..k - 1];
      forall i | 0 <= i < k - 1 ensures rest[i] > 0 {
        assert rest[i] == schedule[i + 1];
      }
      SumOfPositive(rest[..k - 1]);
      if schedule[0] < size {
        ArrivedExactly(size - schedule[0], rest, k - 1);
      }
    }
  }

  /** The writer. It keeps no failure flag: a write error raises and leaves the
      counters as they were, with part of the frame possibly in the file. */
  class Journal {
    const c: Codec<Frame>
    const cfg: Config
    const maxBytes: nat
    var file: seq<Byte>
    var seqNo: nat
    var previous: Option<Digest>
    var closed: bool
    ghost var frames: seq<Frame>

    /** The counters always follow the frames written. */
    ghost predicate Counts()
      reads this
    {
      Chained(c, cfg, frames) && seqNo == |frames| && previous == Tip(c, Encoded(c, frames))
    }

    /** The file holds the frames written and nothing else. */
    ghost predicate Valid()
      reads this
    {
      Counts() && file == Join(Encoded(c, frames))
    }

    constructor (c: Codec<Frame>, cfg: Config, maxBytes: nat)
      ensures Valid() && this.c == c && this.cfg == cfg && this.maxBytes == maxBytes
      ensures frames == [] && !closed
    {
      this.c, this.cfg, this.maxBytes := c, cfg, maxBytes;
      file, seqNo, previous, closed, frames := [], 0, None, false, [];
    }

    /** The frame the next append would write. */
    ghost function Next(payload: Payload, now: int): Frame
      reads this
    {
      Frame(seqNo, previous, cfg.pid, now, cfg.source, payload)
    }

    /** One frame, through as many short writes as the schedule says; `synced` says
        whether the fsync behind them succeeds. After an error the same number and
        digest are used again, behind whatever part of the frame has arrived. */
    method Emit(payload: Payload, now: int, schedule: seq<int>, synced: bool) returns (ok: bool)
      requires Counts()
      modifies this`file, this`seqNo, this`previous, this`frames
      ensures Counts()
      ensures
        var next := old(Next(payload, now));
        var size := |c.enc(next)|;
        var fits := !closed && |old(frames)| < cfg.maxFrames && size <= maxBytes;
        && (ok <==> fits && Arrived(size, schedule) == size && synced)
        && file == old(file) + (if fits then c.enc(next)[..Arrived(size, schedule)] else [])
        && frames == old(frames) + (if ok then [next] else [])
      ensures old(Valid()) && (ok || file == old(file)) ==> Valid()
    {
      if closed || seqNo >= cfg.maxFrames {
        return false;
      }
      var f := Frame(seqNo, previous, cfg.pid, now, cfg.source, payload);
      var raw := c.enc(f);
      if |raw| > maxBytes {
        return false;
      }
      ok := WriteAll(raw, schedule);
      if !ok || !synced {
        return false;
      }
      Extends(c, cfg, frames, f);
      previous, seqNo, frames := Some(c.sha(raw)), seqNo + 1, frames + [f];
    }

    method WriteAll(raw: seq<Byte>, schedule: seq<int>) returns (ok: bool)
      modifies this`file
      ensures file == old(file) + raw[..Arrived(|raw|, schedule)]
      ensures ok <==> Arrived(|raw|, schedule) == |raw|
    {
      var view, k := raw, 0;
      assert schedule[0..] == schedule;
      while view != []
        invariant |view| <= |raw| && view == raw[|raw| - |view|..] && k <= |schedule|
        invariant file == old(file) + raw[..|raw| - |view|]
        invariant Arrived(|raw|, schedule) == |raw| - |view| + Arrived(|view|, schedule[k..])
        decreases |view|
      {
        if k >= |schedule| || schedule[k] <= 0 {
          return false;
        }
        var n := if schedule[k] > |view| then |view| else schedule[k];
        assert schedule[k..][1..] == schedule[k + 1..];
        file, view, k := file + view[..n], view[n..], k + 1;
      }
      ok := true;
    }

    method Close()
      modifies this`closed
      ensures closed
    {
      closed := true;
    }
  }

  lemma Extends(c: Codec<Frame>, cfg: Config, frames: seq<Frame>, f: Frame)
    requires Chained(c, cfg, frames) && |frames| < cfg.maxFrames
    requires f.seqNo == |frames| && f.pid == cfg.pid && f.source == cfg.source
    requires f.previous == Tip(c, Encoded(c, frames))
    ensures Chained(c, cfg, frames + [f])
    ensures Join(Encoded(c, frames + [f])) == Join(Encoded(c, frames)) + c.enc(f)
    ensures Tip(c, Encoded(c, frames + [f])) == Some(c.sha(c.enc(f)))
  {
    var all := frames + [f];
    assert Encoded(c, all) == Encoded(c, frames) + [c.enc(f)];
    JoinAppend(Encoded(c, frames), c.enc(f));
    forall i | 0 <= i < |all| ensures all[i].previous == Tip(c, Encoded(c, all)[..i]) {
      assert Encoded(c, all)[..i] == if i < |frames| then Encoded(c, frames)[..i] else Encoded(c, frames);
    }
  }

  // ---------------------------------------------------------------- the guard

  datatype Action =
    | Start(id: Id)
    | Stop(id: Id, actual: Status)
    | List(allowed: bool)
    | Refuse(during: Option<Id>)

  datatype Limits = Limits(listings: nat, denials: nat)

  class Guard {
    const limits: Limits
    var listings: nat
    var denied: nat
    var emitted: seq<Payload>

    function State(): GuardState
      reads this
    {
      GuardState(listings, denied, emitted)
    }

    constructor (limits: Limits)
      ensures this.limits == limits && State() == IDLE
    {
      this.limits := limits;
      listings, denied, emitted := 0, 0, [];
    }

    method Deny(during: Option<Id>)
      modifies this
      ensures State() == Refused(limits, old(State()), during)
    {
      denied := denied + 1;
      if denied <= limits.denials {
        emitted := emitted + [Payload.Denied(during)];
      }
    }

    /** A directory listing is recorded; one that is not an allowed import is also denied. */
    method Listing(allowed: bool, during: Option<Id>)
      modifies this
      ensures State() == Listed(limits, old(State()), allowed, during)
    {
      if listings < limits.listings {
        listings, emitted := listings + 1, emitted + [Payload.Listing(allowed)];
        if !allowed {
          Deny(during);
        }
      }
    }
  }

  datatype GuardState = GuardState(listings: nat, denied: nat, emitted: seq<Payload>)

  const IDLE: GuardState := GuardState(0, 0, [])

  function Refused(limits: Limits, g: GuardState, during: Option<Id>): GuardState {
    g.(denied := g.denied + 1, emitted := if g.denied < limits.denials then g.emitted + [Payload.Denied(during)] else g.emitted)
  }

  function Listed(limits: Limits, g: GuardState, allowed: bool, during: Option<Id>): GuardState {
    if g.listings >= limits.listings then g
    else
      var noted := g.(listings := g.listings + 1, emitted := g.emitted + [Payload.Listing(allowed)]);
      if allowed then noted else Refused(limits, noted, during)
  }

  function Act(limits: Limits, g: GuardState, a: Action): GuardState {
    match a
    case Start(id) => g.(emitted := g.emitted + [Begin(id)])
    case Stop(id, actual) => g.(emitted := g.emitted + [End(Some(id), actual)])
    case List(allowed) => Listed(limits, g, allowed, None)
    case Refuse(during) => Refused(limits, g, during)
  }

  function GuardRun(limits: Limits, actions: seq<Action>): GuardState
    decreases |actions|
  {
    if actions == [] then IDLE else Act(limits, GuardRun(limits, actions[..|actions| - 1]), actions[|actions| - 1])
  }

  function Started(actions: seq<Action>): seq<Id>
    decreases |actions|
  {
    if actions == [] then []
    else Started(actions[..|actions| - 1]) + if actions[|actions| - 1].Start? then [actions[|actions| - 1].id] else []
  }

  function Stopped(actions: seq<Action>): seq<Id>
    decreases |actions|
  {
    if actions == [] then []
    else Stopped(actions[..|actions| - 1]) + if actions[|actions| - 1].Stop? then [actions[|actions| - 1].id] else []
  }

  /** A test run starts and stops each of its ids at most once. */
  ghost predicate RunsOnce(ids: seq<Id>, actions: seq<Action>) {
    && NoDup(Started(actions)) && (forall id :: id in Started(actions) ==> id in ids)
    && NoDup(Stopped(actions)) && (forall id :: id in Stopped(actions) ==> id in ids)
  }

  lemma {:induction false} EmittedBound(limits: Limits, actions: seq<Action>)
    ensures
      var g := GuardRun(limits, actions);
      && g.listings <= limits.listings
      && |g.emitted| == |Started(actions)| + |Stopped(actions)| + g.listings
                        + (if g.denied <= limits.denials then g.denied else limits.denials)
    decreases |actions|
  {
    if actions != [] {
      EmittedBound(limits, actions[..|actions| - 1]);
    }
  }

  lemma IdsLength(ids: seq<Id>, some: seq<Id>)
    requires NoDup(some) && forall id :: id in some ==> id in ids
    ensures |some| <= |ids|
  {
    forall id | id in Elements(some) ensures id in Elements(ids) {
      assert id in some;
    }
    ChoiceLength(ids, some);
  }

  /** INIT, what the guard emits, TERMINAL. */
  function FrameCount(limits: Limits, actions: seq<Action>): nat {
    |GuardRun(limits, actions).emitted| + 2
  }

  /** A run over n ids has at most 2n + 2 frames plus the listing and denial
      limits, and some run has that many: the cap is out of reach exactly when it
      is at least that. */
  lemma CapExactly(ids: seq<Id>, limits: Limits, cap: nat)
    requires NoDup(ids)
    ensures (forall actions :: RunsOnce(ids, actions) ==> FrameCount(limits, actions) <= cap)
       <==> 2 * |ids| + limits.listings + limits.denials + 2 <= cap
  {
    if 2 * |ids| + limits.listings + limits.denials + 2 <= cap {
      forall actions | RunsOnce(ids, actions) ensures FrameCount(limits, actions) <= cap {
        EmittedBound(limits, actions);
        IdsLength(ids, Started(actions));
        IdsLength(ids, Stopped(actions));
      }
    } else {
      var worst := LongestRun(ids, limits);
      assert FrameCount(limits, worst) > cap;
    }
  }

  lemma Longer(limits: Limits, actions: seq<Action>, a: Action)
    ensures GuardRun(limits, actions + [a]) == Act(limits, GuardRun(limits, actions), a)
    ensures Started(actions + [a]) == Started(actions) + if a.Start? then [a.id] else []
    ensures Stopped(actions + [a]) == Stopped(actions) + if a.Stop? then [a.id] else []
  {
    assert (actions + [a])[..|actions|] == actions;
  }

  lemma {:induction false} PassingRun(limits: Limits, ids: seq<Id>) returns (actions: seq<Action>)
    ensures Started(actions) == ids && Stopped(actions) == ids
    ensures GuardRun(limits, actions).listings == 0 && GuardRun(limits, actions).denied == 0
    decreases |ids|
  {
    if ids == [] {
      actions := [];
    } else {
      var id := ids[|ids| - 1];
      var shorter := PassingRun(limits, ids[..|ids| - 1]);
      Longer(limits, shorter, Start(id));
      Longer(limits, shorter + [Start(id)], Stop(id, Pass));
      actions := shorter + [Start(id)] + [Stop(id, Pass)];
      assert ids == ids[..|ids| - 1] + [id];
    }
  }

  lemma LongestRun(ids: seq<Id>, limits: Limits) returns (actions: seq<Action>)
    requires NoDup(ids)
    ensures RunsOnce(ids, actions)
    ensures FrameCount(limits, actions) == 2 * |ids| + limits.listings + limits.denials + 2
  {
    actions := PassingRun(limits, ids);
    var i := 0;
    while i < limits.listings
      invariant i <= limits.listings && Started(actions) == ids && Stopped(actions) == ids
      invariant GuardRun(limits, actions).listings == i && GuardRun(limits, actions).denied == 0
    {
      Longer(limits, actions, List(true));
      actions := actions + [List(true)];
      i := i + 1;
    }
    i := 0;
    while i < limits.denials
      invariant i <= limits.denials && Started(actions) == ids && Stopped(actions) == ids
      invariant GuardRun(limits, actions).listings == limits.listings && GuardRun(limits, actions).denied == i
    {
      Longer(limits, actions, Refuse(None));
      actions := actions + [Refuse(None)];
      i := i + 1;
    }
    EmittedBound(limits, actions);
  }

  // ---------------------------------------------------------------- writer, guard and reader

  /** The payload of a start or a stop. */
  function Emits(a: Action): seq<Payload> {
    match a
    case Start(id) => [Begin(id)]
    case Stop(id, actual) => [End(Some(id), actual)]
    case _ => []
  }

  /** The starts and stops of a run, in order. */
  function Tests(actions: seq<Action>): seq<Payload>
    decreases |actions|
  {
    if actions == [] then [] else Tests(actions[..|actions| - 1]) + Emits(actions[|actions| - 1])
  }

  ghost predicate Plain(payloads: seq<Payload>) {
    forall p :: p in payloads ==> p.Begin? || p.End? || p.Listing? || p.Denied?
  }

  ghost predicate ListingsAllowed(payloads: seq<Payload>) {
    forall p :: p in payloads && p.Listing? ==> p.allowed
  }

  ghost predicate HoldsDenial(payloads: seq<Payload>) {
    exists p :: p in payloads && p.Denied?
  }

  /** Without a denial the guard has emitted the tests with allowed listings in
      between; with one, also the first denial. */
  ghost predicate Shaped(g: GuardState, tests: seq<Payload>) {
    && Plain(g.emitted)
    && if g.denied == 0 then Strip(g.emitted) == tests && ListingsAllowed(g.emitted) else HoldsDenial(g.emitted)
  }

  lemma OneMore(before: seq<Payload>, p: Payload)
    ensures Plain(before + [p]) <==> Plain(before) && (p.Begin? || p.End? || p.Listing? || p.Denied?)
    ensures ListingsAllowed(before + [p]) <==> ListingsAllowed(before) && (p.Listing? ==> p.allowed)
    ensures HoldsDenial(before + [p]) <==> HoldsDenial(before) || p.Denied?
    ensures Strip(before + [p]) == Strip(before) + if p.Listing? then [] else [p]
  {
    var all := before + [p];
    assert p in all && forall q :: q in all <==> q in before || q == p;
    StripOneMore(before, p);
  }

  lemma RefusedShape(limits: Limits, g: GuardState, during: Option<Id>)
    requires limits.denials > 0 && Plain(g.emitted) && (g.denied > 0 ==> HoldsDenial(g.emitted))
    ensures Plain(Refused(limits, g, during).emitted) && HoldsDenial(Refused(limits, g, during).emitted)
  {
    OneMore(g.emitted, Payload.Denied(during));
  }

  lemma {:induction false} EmittedShape(limits: Limits, actions: seq<Action>)
    requires limits.denials > 0
    ensures Shaped(GuardRun(limits, actions), Tests(actions))
    decreases |actions|
  {
    if actions != [] {
      var before, a := actions[..|actions| - 1], actions[|actions| - 1];
      EmittedShape(limits, before);
      ActShape(limits, GuardRun(limits, before), Tests(before), a);
    }
  }

  lemma ActShape(limits: Limits, g: GuardState, tests: seq<Payload>, a: Action)
    requires limits.denials > 0 && Shaped(g, tests)
    ensures Shaped(Act(limits, g, a), tests + Emits(a))
  {
    match a
    case Start(id) => OneMore(g.emitted, Begin(id));
    case Stop(id, actual) => OneMore(g.emitted, End(Some(id), actual));
    case List(allowed) =>
      OneMore(g.emitted, Payload.Listing(allowed));
      if !allowed && g.listings < limits.listings {
        RefusedShape(limits, g.(listings := g.listings + 1, emitted := g.emitted + [Payload.Listing(allowed)]), None);
      }
    case Refuse(during) => RefusedShape(limits, g, during);
  }

  lemma {:induction false} StripConcat(a: seq<Payload>, b: seq<Payload>)
    ensures Strip(a + b) == Strip(a) + Strip(b)
    decreases |b|
  {
    if b == [] {
      assert a + b == a;
    } else {
      var n := |b| - 1;
      StripConcat(a, b[..n]);
      assert (a + b)[..|a + b| - 1] == a + b[..n];
    }
  }

  lemma StripOne(p: Payload)
    ensures Strip([p]) == if p.Listing? then [] else [p]
  {
    StripOneMore([], p);
    assert [] + [p] == [p];
  }

  lemma FramedStrip(first: Payload, body: seq<Payload>, last: Payload)
    requires !first.Listing? && !last.Listing?
    ensures Strip([first] + body + [last]) == [first] + Strip(body) + [last]
  {
    StripConcat([first], body);
    StripOneMore([first] + body, last);
    StripOne(first);
  }

  /** The reader accepts what a guarded run leaves exactly when nothing was denied
      and the tests ran in order, each once and with PASS. */
  lemma GuardedRunAcceptedExactly(limits: Limits, ids: seq<Id>, actions: seq<Action>)
    requires limits.denials > 0
    ensures
      var g := GuardRun(limits, actions);
      Accepts(ids, [Init(ids)] + g.emitted + [Terminal(true)])
      <==> NoDup(ids) && g.denied == 0 && Tests(actions) == Pairs(ids)
  {
    var g := GuardRun(limits, actions);
    var all := [Init(ids)] + g.emitted + [Terminal(true)];
    AcceptsExactly(ids, all);
    EmittedShape(limits, actions);
    FramedStrip(Init(ids), g.emitted, Terminal(true));
    SameBody([Init(ids)], Strip(g.emitted), Pairs(ids), [Terminal(true)]);
    if g.denied == 0 {
      assert forall i :: 0 <= i < |all| && all[i].Listing? ==> all[i] in g.emitted;
    } else if Strip(g.emitted) == Pairs(ids) {
      var i :| 0 <= i < |g.emitted| && g.emitted[i].Denied?;
      StripKeeps(g.emitted, i);
      PairsHoldTests(ids);
    }
  }

  lemma SameBody(first: seq<Payload>, a: seq<Payload>, b: seq<Payload>, last: seq<Payload>)
    ensures first + a + last == first + b + last <==> a == b
  {
    if first + a + last == first + b + last {
      assert a == (first + a + last)[|first|..|first| + |a|];
      assert b == (first + b + last)[|first|..|first| + |b|];
    }
  }

  /** The file of any journal whose writes all succeeded is accepted exactly when
      its frames are a passing log of admissible size. */
  lemma JournalAcceptedExactly(j: Journal)
    requires j.Valid() && Faithful(j.c) && ClockRises(j.frames)
    ensures Accepted(j.c, j.cfg, j.file) <==> |j.file| <= j.cfg.maxFile && GreenFrames(j.cfg, j.frames)
  {
    WrittenAcceptedExactly(j.c, j.cfg, j.frames);
  }

  /** Writer, guard and reader together: the journal of a guarded run that closes
      with a passing TERMINAL is accepted exactly when nothing was denied and the
      tests ran in order, each once and with PASS. */
  lemma GuardedJournalAcceptedExactly(j: Journal, limits: Limits, actions: seq<Action>)
    requires j.Valid() && Faithful(j.c) && ClockRises(j.frames) && limits.denials > 0
    requires Payloads(j.frames) == [Init(j.cfg.ids)] + GuardRun(limits, actions).emitted + [Terminal(true)]
    ensures Accepted(j.c, j.cfg, j.file)
       <==> && |j.file| <= j.cfg.maxFile && NoDup(j.cfg.ids)
            && GuardRun(limits, actions).denied == 0 && Tests(actions) == Pairs(j.cfg.ids)
  {
    JournalAcceptedExactly(j);
    AcceptsExactly(j.cfg.ids, Payloads(j.frames));
    GuardedRunAcceptedExactly(limits, j.cfg.ids, actions);
  }
}
