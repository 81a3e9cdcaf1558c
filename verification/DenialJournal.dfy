/**
 The durable denial journal of the owner-admission harness: a writer that
 appends fsynced frames through short writes, and a reader that recovers only a
 validated prefix.
 */
module DenialJournal {
  import opened Wrappers
  import opened Framing
  import opened TestStatus

  type Id = int

  datatype Phase = Import | Setup | Method | Teardown | Report

  /** One denied access. `callerKnown` and `contextValid` stand for the checks on
      single fields that no other frame and no state takes part in. */
  datatype Denial = Denial(
    sequence: nat, reason: Id, phase: Phase, during: Option<Id>, later: Option<Status>, callerKnown: bool, contextValid: bool)

  /** A stop frame can name no method at all: its id field may be null. */
  datatype Payload =
    | Init(ids: seq<Id>)
    | MethodStart(id: Id)
    | MethodStop(stopped: Option<Id>, actual: Status)
    | GuardDeny(denial: Denial)
    | Overflow
    | Terminal(pass: bool, error: Option<Id>)
    | UnknownKind

  datatype Frame = Frame(
    seqNo: int, previous: Option<Digest>, pid: int, clock: int, source: Id, run: Id, payload: Payload)

  datatype Config = Config(pid: int, source: Id, ids: seq<Id>, maxFrames: nat, maxBytes: nat, maxDenials: nat)

  datatype Flaw =
    | FileSize | Torn | Undecodable | Sequence | Binding | Clock | RunId | AfterTerminal | BadInit | MissingInit
    | BadStart | BadStop | BadDenial | FalseGreen | KindOrOverflow | Empty

  // ---------------------------------------------------------------- the reader's state machine

  datatype Progress = Progress(
    started: bool, methods: map<Option<Id>, Status>, active: Option<Id>, denials: seq<Denial>, terminal: Option<Payload>)

  const NOTHING: Progress := Progress(false, map[], None, [], None)

  /** `validate_attribution` on the events recovered so far. */
  predicate ValidAttribution(cfg: Config, events: seq<Denial>) {
    && |events| <= cfg.maxDenials
    && (forall i :: 0 <= i < |events| ==> events[i].sequence == i + 1)
    && (forall i :: 0 <= i < |events| ==>
          && (events[i].during.Some? ==> events[i].during.value in cfg.ids)
          && (events[i].phase == Method || events[i].phase == Teardown ==> events[i].during.Some?))
  }

  function PayloadFlaw(cfg: Config, p: Progress, payload: Payload): Option<Flaw> {
    if p.terminal.Some? then Some(AfterTerminal)
    else if payload.Init? then if !p.started && payload.ids == cfg.ids then None else Some(BadInit)
    else if !p.started then Some(MissingInit)
    else match payload
      case MethodStart(id) => if id in cfg.ids && p.active.None? && Some(id) !in p.methods then None else Some(BadStart)
      case MethodStop(id, actual) =>
        if id == p.active && Ended(actual) then None else Some(BadStop)
      case GuardDeny(d) =>
        if |p.denials| < cfg.maxDenials && d.during == p.active && d.later.None? && d.callerKnown && d.contextValid
          && ValidAttribution(cfg, p.denials + [d])
        then None else Some(BadDenial)
      case Terminal(pass, error) =>
        if pass && !(p.active.None? && p.methods == FromKeys(cfg.ids, Pass) && p.denials == [] && error.None?) then Some(FalseGreen)
        else None
      case _ => Some(KindOrOverflow)
  }

  function Advance(p: Progress, payload: Payload): Progress {
    match payload
    case Init(_) => p.(started := true)
    case MethodStart(id) => p.(active := Some(id), methods := p.methods[Some(id) := Started])
    case MethodStop(id, actual) => p.(active := None, methods := p.methods[id := actual])
    case GuardDeny(d) => p.(denials := p.denials + [d])
    case Terminal(_, _) => p.(terminal := Some(payload))
    case _ => p
  }

  /** The state after a list of payloads, if every one of them is acceptable. */
  function Fold(cfg: Config, payloads: seq<Payload>): Option<Progress>
    decreases |payloads|
  {
    if payloads == [] then Some(NOTHING)
    else
      var before := Fold(cfg, payloads[..|payloads| - 1]);
      var last := payloads[|payloads| - 1];
      if before.Some? && PayloadFlaw(cfg, before.value, last).None? then Some(Advance(before.value, last)) else None
  }

  datatype Reader = Reader(frames: seq<Frame>, progress: Progress, previous: Option<Digest>, lastClock: int, run: Option<Id>)

  const UNREAD: Reader := Reader([], NOTHING, None, -1, None)

  function FrameFlaw(cfg: Config, r: Reader, f: Frame): Option<Flaw> {
    if f.seqNo != |r.frames| || |r.frames| >= cfg.maxFrames then Some(Sequence)
    else if f.previous != r.previous || f.pid != cfg.pid || f.source != cfg.source then Some(Binding)
    else if f.clock <= r.lastClock then Some(Clock)
    else if r.run.Some? && r.run != Some(f.run) then Some(RunId)
    else PayloadFlaw(cfg, r.progress, f.payload)
  }

  function Accept(c: Codec<Frame>, r: Reader, f: Frame, line: seq<Byte>): Reader {
    Reader(r.frames + [f], Advance(r.progress, f.payload), Some(c.sha(line)), f.clock, Some(f.run))
  }

  datatype Reading = Reading(reader: Reader, flaw: Option<Flaw>)

  function LineFlaw(c: Codec<Frame>, cfg: Config, r: Reader, line: seq<Byte>): Option<Flaw>
    requires line != []
  {
    if line[|line| - 1] != LF || |line| > cfg.maxBytes then Some(Torn)
    else if c.dec(line).None? then Some(Undecodable)
    else FrameFlaw(cfg, r, c.dec(line).value)
  }

  function ReadLines(c: Codec<Frame>, cfg: Config, r: Reader, lines: seq<seq<Byte>>): Reading
    requires forall i :: 0 <= i < |lines| ==> lines[i] != []
    decreases |lines|
  {
    if lines == [] then Reading(r, None)
    else
      var flaw := LineFlaw(c, cfg, r, lines[0]);
      if flaw.Some? then Reading(r, flaw)
      else ReadLines(c, cfg, Accept(c, r, c.dec(lines[0]).value, lines[0]), lines[1..])
  }

  lemma {:induction false} LinesNonEmpty(raw: seq<Byte>)
    ensures forall i :: 0 <= i < |Lines(raw)| ==> Lines(raw)[i] != []
    decreases |raw|
  {
    if raw != [] {
      LinesNonEmpty(raw[FirstLine(raw)..]);
    }
  }

  /** What the reader reports about a file. */
  function Read(c: Codec<Frame>, cfg: Config, raw: seq<Byte>): Reading {
    if |raw| > cfg.maxFrames * cfg.maxBytes then Reading(UNREAD, Some(FileSize))
    else
      LinesNonEmpty(raw);
      var reading := ReadLines(c, cfg, UNREAD, Lines(raw));
      if reading.flaw.None? && reading.reader.frames == [] then reading.(flaw := Some(Empty)) else reading
  }

  predicate GreenTerminal(terminal: Option<Payload>) {
    terminal.Some? && terminal.value.Terminal? && terminal.value.pass
  }

  /** `zero_denials_proven`. */
  predicate ZeroDenialsProven(reading: Reading) {
    && reading.flaw.None?
    && GreenTerminal(reading.reader.progress.terminal)
    && reading.reader.progress.denials == []
  }

  /** The reader as it runs: one pass that stops at the first flaw. */
  method ReadJournal(c: Codec<Frame>, cfg: Config, raw: seq<Byte>) returns (frames: seq<Frame>, progress: Progress, flaw: Option<Flaw>)
    ensures
      var reading := Read(c, cfg, raw);
      frames == reading.reader.frames && progress == reading.reader.progress && flaw == reading.flaw
  {
    frames, progress, flaw := [], NOTHING, None;
    if |raw| > cfg.maxFrames * cfg.maxBytes {
      flaw := Some(FileSize);
      return;
    }
    LinesNonEmpty(raw);
    var lines := Lines(raw);
    var previous: Option<Digest>, lastClock, run: Option<Id> := None, -1, None;
    var i := 0;
    while i < |lines|
      invariant 0 <= i <= |lines| && flaw.None?
      invariant ReadLines(c, cfg, Reader(frames, progress, previous, lastClock, run), lines[i..]) == ReadLines(c, cfg, UNREAD, lines)
    {
      var line := lines[i];
      assert lines[i..][0] == line && lines[i..][1..] == lines[i + 1..];
      flaw := LineFlaw(c, cfg, Reader(frames, progress, previous, lastClock, run), line);
      if flaw.Some? {
        return;
      }
      var f := c.dec(line).value;
      frames, progress := frames + [f], Advance(progress, f.payload);
      previous, lastClock, run := Some(c.sha(line)), f.clock, Some(f.run);
      i := i + 1;
    }
    if frames == [] {
      flaw := Some(Empty);
    }
  }

  // ---------------------------------------------------------------- the writer

  function Encoded(c: Codec<Frame>, frames: seq<Frame>): (lines: seq<seq<Byte>>)
    ensures |lines| == |frames|
  {
    seq(|frames|, i requires 0 <= i < |frames| => c.enc(frames[i]))
  }

  /** The frames a writer appends: numbered, each naming the digest of the one before it. */
  ghost predicate WellChained(c: Codec<Frame>, cfg: Config, run: Id, frames: seq<Frame>) {
    && |frames| <= cfg.maxFrames
    && forall i :: 0 <= i < |frames| ==>
         && frames[i].seqNo == i && frames[i].pid == cfg.pid && frames[i].source == cfg.source && frames[i].run == run
         && frames[i].previous == Tip(c, Encoded(c, frames)[..i])
         && |c.enc(frames[i])| <= cfg.maxBytes
  }

  function Payloads(frames: seq<Frame>): seq<Payload> {
    seq(|frames|, i requires 0 <= i < |frames| => frames[i].payload)
  }

  /** How many of `size` bytes arrive when successive writes return what `schedule`
      says: the first return that is no progress, or more than was asked for, ends it. */
  function Arrived(size: nat, schedule: seq<int>): (n: nat)
    ensures n <= size
    decreases |schedule|
  {
    if size == 0 || schedule == [] || schedule[0] <= 0 || schedule[0] > size then 0
    else schedule[0] + Arrived(size - schedule[0], schedule[1..])
  }

  /** The first `k` writes all make progress and do not exceed the size; behind them
      everything has arrived, or the next return is missing, no progress or too much. */
  ghost predicate EndsAfter(size: nat, schedule: seq<int>, k: nat) {
    && k <= |schedule| && (forall i :: 0 <= i < k ==> schedule[i] > 0) && Sum(schedule[..k]) <= size
    && (Sum(schedule[..k]) == size || k == |schedule| || schedule[k] <= 0 || schedule[k] > size - Sum(schedule[..k]))
  }

  /** What arrives is the sum of the returns up to the one that ends the loop. */
  lemma {:induction false} ArrivedExactly(size: nat, schedule: seq<int>, n: int)
    ensures Arrived(size, schedule) == n <==> exists k: nat :: EndsAfter(size, schedule, k) && Sum(schedule[..k]) == n
    decreases |schedule|
  {
    var k := EndsSomewhere(size, schedule);
    forall j: nat | EndsAfter(size, schedule, j) ensures Arrived(size, schedule) == Sum(schedule[..j]) {
      ArrivedIsSum(size, schedule, j);
    }
  }

  lemma {:induction false} EndsSomewhere(size: nat, schedule: seq<int>) returns (k: nat)
    ensures EndsAfter(size, schedule, k)
    decreases |schedule|
  {
    if size == 0 || schedule == [] || schedule[0] <= 0 || schedule[0] > size {
      k := 0;
    } else {
      var j := EndsSomewhere(size - schedule[0], schedule[1..]);
      k := j + 1;
      assert schedule[..k][1..] == schedule[1..][..j];
      forall i | 0 <= i < k ensures schedule[i] > 0 {
        assert i > 0 ==> schedule[i] == schedule[1..][i - 1];
      }
    }
  }

  lemma {:induction false} ArrivedIsSum(size: nat, schedule: seq<int>, k: nat)
    requires EndsAfter(size, schedule, k)
    ensures Arrived(size, schedule) == Sum(schedule[..k])
    decreases k
  {
    if k > 0 {
      var rest := schedule[1..];
      assert schedule[..k][1..] == rest[..k - 1];
      forall i | 0 <= i < k - 1 ensures rest[i] > 0 {
        assert rest[i] == schedule[i + 1];
      }
      SumOfPositive(rest[..k - 1]);
      ArrivedIsSum(size - schedule[0], rest, k - 1);
    }
  }

  class Journal {
    const c: Codec<Frame>
    const cfg: Config
    const run: Id
    var file: seq<Byte>
    var seqNo: nat
    var previous: Option<Digest>
    var failed: bool
    var closed: bool
    ghost var frames: seq<Frame>
    /** The frame whose write or sync failed. */
    ghost var refused: Option<Frame>

    /** Everything handed to the file: the frames written, and the one that failed. */
    ghost function Sent(): seq<Frame>
      reads this
    {
      frames + if refused.Some? then [refused.value] else []
    }

    /** Without a failed write the file is exactly the frames written; after one it
        holds them and a part, possibly all, of the next frame of the chain. */
    ghost predicate Valid()
      reads this
    {
      && WellChained(c, cfg, run, Sent())
      && seqNo == |frames| && previous == Tip(c, Encoded(c, frames))
      && (refused.Some? ==> failed)
      && Join(Encoded(c, frames)) <= file <= Join(Encoded(c, Sent()))
    }

    constructor (c: Codec<Frame>, cfg: Config, run: Id)
      ensures Valid() && this.c == c && this.cfg == cfg && this.run == run
      ensures frames == [] && refused.None? && file == [] && !failed && !closed
    {
      this.c, this.cfg, this.run := c, cfg, run;
      file, seqNo, previous, failed, closed, frames, refused := [], 0, None, false, false, [], None;
    }

    /** The frame the next append would write. */
    ghost function Next(payload: Payload, now: int): Frame
      reads this
    {
      Frame(seqNo, previous, cfg.pid, now, cfg.source, run, payload)
    }

    /** The short-write loop; `schedule` holds what successive writes return. */
    method WriteAll(raw: seq<Byte>, schedule: seq<int>) returns (ok: bool)
      modifies this`file
      ensures file == old(file) + raw[..Arrived(|raw|, schedule)]
      ensures ok <==> Arrived(|raw|, schedule) == |raw|
    {
      var pending, k := raw, 0;
      assert schedule[0..] == schedule;
      while pending != []
        invariant |pending| <= |raw| && pending == raw[|raw| - |pending|..] && k <= |schedule|
        invariant file == old(file) + raw[..|raw| - |pending|]
        invariant Arrived(|raw|, schedule) == |raw| - |pending| + Arrived(|pending|, schedule[k..])
        decreases |pending|
      {
        if k >= |schedule| || schedule[k] <= 0 || schedule[k] > |pending| {
          return false;
        }
        var n := schedule[k];
        assert schedule[k..][1..] == schedule[k + 1..];
        file, pending, k := file + pending[..n], pending[n..], k + 1;
      }
      ok := true;
    }

    /** Append one frame; `synced` says whether the final fsync succeeds. Nothing
        is ever appended after a failure. */
    method Emit(payload: Payload, now: int, schedule: seq<int>, synced: bool) returns (ok: bool)
      requires Valid()
      modifies this`file, this`seqNo, this`previous, this`failed, this`frames, this`refused
      ensures Valid()
      ensures
        var next := old(Next(payload, now));
        var size := |c.enc(next)|;
        var fits := !old(failed) && !closed && |old(frames)| < cfg.maxFrames && size <= cfg.maxBytes;
        && (ok <==> fits && Arrived(size, schedule) == size && synced)
        && file == old(file) + (if fits then c.enc(next)[..Arrived(size, schedule)] else [])
        && frames == old(frames) + (if ok then [next] else [])
        && refused == (if fits && !ok then Some(next) else old(refused))
        && failed == (old(failed) || (!ok && !closed))
    {
      if failed || closed {
        return false;
      }
      var f := Frame(seqNo, previous, cfg.pid, now, cfg.source, run, payload);
      var raw := c.enc(f);
      if seqNo >= cfg.maxFrames || |raw| > cfg.maxBytes {
        failed := true;
        return false;
      }
      assert Sent() == frames;
      ghost var base := Join(Encoded(c, frames));
      assert file == base;
      ChainExtends(c, cfg, run, frames, f);
      Between(base, raw, Arrived(|raw|, schedule));
      ok := WriteAll(raw, schedule);
      if !ok || !synced {
        failed, ok, refused := true, false, Some(f);
        assert Sent() == frames + [f];
        return;
      }
      previous, seqNo, frames := Some(c.sha(raw)), seqNo + 1, frames + [f];
      assert Sent() == frames;
    }

    method Close()
      modifies this`closed
      ensures closed
    {
      closed := true;
    }
  }

  lemma Between(base: seq<Byte>, raw: seq<Byte>, n: nat)
    requires n <= |raw|
    ensures base <= base + raw[..n] <= base + raw
    ensures n == |raw| ==> base + raw[..n] == base + raw
  {}

  lemma ChainExtends(c: Codec<Frame>, cfg: Config, run: Id, frames: seq<Frame>, f: Frame)
    requires WellChained(c, cfg, run, frames) && |frames| < cfg.maxFrames
    requires f.seqNo == |frames| && f.pid == cfg.pid && f.source == cfg.source && f.run == run
    requires f.previous == Tip(c, Encoded(c, frames)) && |c.enc(f)| <= cfg.maxBytes
    ensures WellChained(c, cfg, run, frames + [f])
    ensures Join(Encoded(c, frames + [f])) == Join(Encoded(c, frames)) + c.enc(f)
    ensures Tip(c, Encoded(c, frames + [f])) == Some(c.sha(c.enc(f)))
  {
    var all := frames + [f];
    assert Encoded(c, all) == Encoded(c, frames) + [c.enc(f)];
    JoinAppend(Encoded(c, frames), c.enc(f));
    forall i | 0 <= i < |all| ensures all[i].previous == Tip(c, Encoded(c, all)[..i]) {
      assert Encoded(c, all)[..i] == if i < |frames| then Encoded(c, frames)[..i] else Encoded(c, frames);
    }
  }
}
