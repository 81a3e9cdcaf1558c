/**
 What the reader of a denial journal reports, stated on the payloads it accepted:
 which tests have a status and which one, which test is running, what was denied,
 and how the log was closed.
 */
module DenialState {
  import opened Wrappers
  import opened Framing
  import opened TestStatus
  import opened DenialJournal
  import opened DenialProof

  /** Some stop of this method, or of none, with this status. */
  ghost predicate StoppedWith(payloads: seq<Payload>, id: Option<Id>, actual: Status) {
    MethodStop(id, actual) in payloads
  }

  ghost predicate Stopped(payloads: seq<Payload>, id: Option<Id>) {
    exists actual :: StoppedWith(payloads, id, actual)
  }

  /** The denials of a log, in order. */
  function DenialsOf(payloads: seq<Payload>): seq<Denial>
    decreases |payloads|
  {
    if payloads == [] then []
    else
      var last := payloads[|payloads| - 1];
      DenialsOf(payloads[..|payloads| - 1]) + if last.GuardDeny? then [last.denial] else []
  }

  /** What a state says about one test: nothing before its start, STARTED until its
      stop, and afterwards the status of that stop. */
  ghost predicate Reports(p: Progress, payloads: seq<Payload>, id: Id) {
    && (Some(id) in p.methods <==> MethodStart(id) in payloads)
    && (Some(id) in p.methods && !Stopped(payloads, Some(id)) ==> p.methods[Some(id)] == Started)
    && (forall actual :: StoppedWith(payloads, Some(id), actual) ==>
          Some(id) in p.methods && p.methods[Some(id)] == actual && Ended(actual))
    && (p.active == Some(id) <==> MethodStart(id) in payloads && !Stopped(payloads, Some(id)))
  }

  lemma Grown(payloads: seq<Payload>, last: Payload, x: Payload)
    ensures x in payloads + [last] <==> x in payloads || x == last
  {}

  lemma StoppedGrown(payloads: seq<Payload>, last: Payload, id: Option<Id>)
    ensures Stopped(payloads + [last], id) <==> Stopped(payloads, id) || (last.MethodStop? && last.stopped == id)
  {
    var all := payloads + [last];
    if Stopped(all, id) {
      var actual :| StoppedWith(all, id, actual);
      Grown(payloads, last, MethodStop(id, actual));
      if MethodStop(id, actual) in payloads {
        assert StoppedWith(payloads, id, actual);
      }
    }
    if Stopped(payloads, id) {
      var actual :| StoppedWith(payloads, id, actual);
      Grown(payloads, last, MethodStop(id, actual));
      assert StoppedWith(all, id, actual);
    }
    if last.MethodStop? && last.stopped == id {
      assert last in all;
      assert StoppedWith(all, id, last.actual);
    }
  }

  lemma ReportsStep(cfg: Config, before: seq<Payload>, last: Payload, p: Progress, id: Id)
    requires Reports(p, before, id) && PayloadFlaw(cfg, p, last).None?
    ensures Reports(Advance(p, last), before + [last], id)
  {
    var all, q := before + [last], Advance(p, last);
    Grown(before, last, MethodStart(id));
    StoppedGrown(before, last, Some(id));
    forall actual | StoppedWith(all, Some(id), actual)
      ensures Some(id) in q.methods && q.methods[Some(id)] == actual && Ended(actual)
    {
      Grown(before, last, MethodStop(Some(id), actual));
      if MethodStop(Some(id), actual) in before {
        assert StoppedWith(before, Some(id), actual);
      }
    }
  }

  /** For every accepted log and every test: the reported state has the test exactly
      when the log starts it, as STARTED until the log stops it and then with the
      status of that stop, and calls it running exactly in between. */
  lemma {:induction false} StateOfTest(cfg: Config, payloads: seq<Payload>, id: Id)
    requires Fold(cfg, payloads).Some?
    ensures Reports(Fold(cfg, payloads).value, payloads, id)
    decreases |payloads|
  {
    if payloads == [] {
      assert !Stopped([], Some(id));
    } else {
      var before, last := payloads[..|payloads| - 1], payloads[|payloads| - 1];
      StateOfTest(cfg, before, id);
      ReportsStep(cfg, before, last, Fold(cfg, before).value, id);
      assert payloads == before + [last];
    }
  }

  lemma {:induction false} InitComesFirst(cfg: Config, payloads: seq<Payload>)
    requires Fold(cfg, payloads).Some?
    ensures Fold(cfg, payloads).value.started <==> payloads != []
    ensures payloads != [] ==> payloads[0] == Init(cfg.ids)
    ensures forall i :: 0 < i < |payloads| ==> !payloads[i].Init?
    decreases |payloads|
  {
    if payloads != [] {
      InitComesFirst(cfg, payloads[..|payloads| - 1]);
    }
  }

  lemma {:induction false} TerminalComesLast(cfg: Config, payloads: seq<Payload>)
    requires Fold(cfg, payloads).Some?
    ensures Fold(cfg, payloads).value.terminal
         == if payloads != [] && payloads[|payloads| - 1].Terminal? then Some(payloads[|payloads| - 1]) else None
    ensures forall i :: 0 <= i < |payloads| && payloads[i].Terminal? ==> i == |payloads| - 1
    decreases |payloads|
  {
    if payloads != [] {
      TerminalComesLast(cfg, payloads[..|payloads| - 1]);
    }
  }

  lemma {:induction false} DenialsInOrder(cfg: Config, payloads: seq<Payload>)
    requires Fold(cfg, payloads).Some?
    ensures Fold(cfg, payloads).value.denials == DenialsOf(payloads)
    decreases |payloads|
  {
    if payloads != [] {
      DenialsInOrder(cfg, payloads[..|payloads| - 1]);
    }
  }

  /** A status without a test is reported exactly after a stop that names none. */
  lemma {:induction false} NamelessStops(cfg: Config, payloads: seq<Payload>)
    requires Fold(cfg, payloads).Some?
    ensures None in Fold(cfg, payloads).value.methods <==> Stopped(payloads, None)
    decreases |payloads|
  {
    if payloads == [] {
      assert !Stopped([], None);
    } else {
      var before, last := payloads[..|payloads| - 1], payloads[|payloads| - 1];
      NamelessStops(cfg, before);
      StoppedGrown(before, last, None);
      assert payloads == before + [last];
    }
  }

  /** The log of an accepted state begins with its only INIT, for the configured ids,
      its denials are reported as they are, in order, and a TERMINAL is reported
      exactly when it is the last frame. */
  lemma StateOfLog(cfg: Config, payloads: seq<Payload>)
    requires Fold(cfg, payloads).Some?
    ensures
      var p := Fold(cfg, payloads).value;
      && (p.started <==> payloads != []) && (payloads != [] ==> payloads[0] == Init(cfg.ids))
      && (forall i :: 0 < i < |payloads| ==> !payloads[i].Init?)
      && p.denials == DenialsOf(payloads)
      && p.terminal == (if payloads != [] && payloads[|payloads| - 1].Terminal? then Some(payloads[|payloads| - 1]) else None)
      && (forall i :: 0 <= i < |payloads| && payloads[i].Terminal? ==> i == |payloads| - 1)
      && (None in p.methods <==> Stopped(payloads, None))
  {
    InitComesFirst(cfg, payloads);
    TerminalComesLast(cfg, payloads);
    DenialsInOrder(cfg, payloads);
    NamelessStops(cfg, payloads);
  }

  /** Every test of an accepted log is one of the configured ones, is started at most
      once and stopped at most once, after its start. */
  lemma {:induction false} TestsOnce(cfg: Config, payloads: seq<Payload>, i: nat, j: nat)
    requires Fold(cfg, payloads).Some? && i < j < |payloads|
    ensures payloads[i].MethodStart? ==> payloads[i].id in cfg.ids && payloads[j] != payloads[i]
    ensures payloads[j].MethodStart? ==> payloads[j].id in cfg.ids && !(payloads[i].MethodStop? && payloads[i].stopped == Some(payloads[j].id))
    ensures payloads[i].MethodStop? && payloads[i].stopped.Some? && payloads[j].MethodStop? ==> payloads[j].stopped != payloads[i].stopped
    decreases |payloads|
  {
    var n := |payloads| - 1;
    var before, last := payloads[..n], payloads[n];
    if j < n {
      TestsOnce(cfg, before, i, j);
    } else {
      assert payloads[i] == before[i] && before[i] in before;
      if before[i].MethodStart? {
        StateOfTest(cfg, before, before[i].id);
        StartedIsConfigured(cfg, before, i);
      }
      if before[i].MethodStop? && before[i].stopped.Some? {
        var id := before[i].stopped.value;
        StateOfTest(cfg, before, id);
        assert StoppedWith(before, Some(id), before[i].actual);
      }
    }
  }

  lemma {:induction false} StartedIsConfigured(cfg: Config, payloads: seq<Payload>, i: nat)
    requires Fold(cfg, payloads).Some? && i < |payloads| && payloads[i].MethodStart?
    ensures payloads[i].id in cfg.ids
    decreases |payloads|
  {
    if i < |payloads| - 1 {
      StartedIsConfigured(cfg, payloads[..|payloads| - 1], i);
    }
  }

  /** What the reader says about any file: its report is the state of the frames it
      recovered, test by test and denial by denial. */
  lemma ReportOfAnyFile(c: Codec<Frame>, cfg: Config, raw: seq<Byte>, id: Id)
    requires LinksPrevious(c)
    ensures
      var r := Read(c, cfg, raw).reader;
      && Reports(r.progress, Payloads(r.frames), id)
      && r.progress.denials == DenialsOf(Payloads(r.frames))
      && r.progress.terminal
           == (if r.frames != [] && r.frames[|r.frames| - 1].payload.Terminal? then Some(r.frames[|r.frames| - 1].payload) else None)
  {
    RecoveredPrefixIsValid(c, cfg, raw);
    var r := Read(c, cfg, raw).reader;
    StateOfTest(cfg, Payloads(r.frames), id);
    StateOfLog(cfg, Payloads(r.frames));
  }

  // ---------------------------------------------------------------- which logs are accepted

  ghost predicate RunningIn(payloads: seq<Payload>, id: Id) {
    MethodStart(id) in payloads && !Stopped(payloads, Some(id))
  }

  /** The test that is running after these payloads, if any is. */
  ghost predicate Current(payloads: seq<Payload>, during: Option<Id>) {
    if during.Some? then RunningIn(payloads, during.value) else forall id :: !RunningIn(payloads, id)
  }

  /** Every configured test was started and stopped with PASS, and nothing else was stopped. */
  ghost predicate AllStoppedWithPass(ids: seq<Id>, payloads: seq<Payload>) {
    && (forall id :: id in ids ==> StoppedWith(payloads, Some(id), Pass))
    && !Stopped(payloads, None)
  }

  /** What is wrong with one more payload after an accepted log, told from the log alone. */
  ghost function FlawAfter(cfg: Config, log: seq<Payload>, next: Payload): Option<Flaw> {
    if log != [] && log[|log| - 1].Terminal? then Some(AfterTerminal)
    else if next.Init? then if log == [] && next.ids == cfg.ids then None else Some(BadInit)
    else if log == [] then Some(MissingInit)
    else match next
      case MethodStart(id) => if id in cfg.ids && Current(log, None) && MethodStart(id) !in log then None else Some(BadStart)
      case MethodStop(id, actual) => if Current(log, id) && Ended(actual) then None else Some(BadStop)
      case GuardDeny(d) =>
        if && |DenialsOf(log)| < cfg.maxDenials && d.sequence == |DenialsOf(log)| + 1
           && Current(log, d.during) && (d.phase == Method || d.phase == Teardown ==> d.during.Some?)
           && d.later.None? && d.callerKnown && d.contextValid
        then None else Some(BadDenial)
      case Terminal(pass, error) =>
        if pass ==> AllStoppedWithPass(cfg.ids, log) && Current(log, None) && DenialsOf(log) == [] && error.None?
        then None else Some(FalseGreen)
      case _ => Some(KindOrOverflow)
  }

  lemma CurrentIsActive(cfg: Config, log: seq<Payload>, during: Option<Id>)
    requires Fold(cfg, log).Some?
    ensures Current(log, during) <==> Fold(cfg, log).value.active == during
  {
    var p := Fold(cfg, log).value;
    forall id ensures RunningIn(log, id) <==> p.active == Some(id) {
      StateOfTest(cfg, log, id);
    }
    if p.active.Some? {
      assert RunningIn(log, p.active.value);
    }
  }

  lemma AllPassIsMethods(cfg: Config, log: seq<Payload>)
    requires Fold(cfg, log).Some? && Fold(cfg, log).value.active.None?
    ensures AllStoppedWithPass(cfg.ids, log) <==> Fold(cfg, log).value.methods == FromKeys(cfg.ids, Pass)
  {
    var p, all := Fold(cfg, log).value, FromKeys(cfg.ids, Pass);
    NamelessStops(cfg, log);
    if AllStoppedWithPass(cfg.ids, log) {
      forall m ensures (m in p.methods <==> m in all) && (m in p.methods ==> p.methods[m] == Pass) {
        if m.Some? {
          var id: Id := m.value;
          StateOfTest(cfg, log, id);
          StartsAreConfigured(cfg, log, id);
          assert id in cfg.ids ==> StoppedWith(log, Some(id), Pass);
        }
      }
      SamePasses(p.methods, all);
    }
    if p.methods == all {
      assert None !in all;
      forall id | id in cfg.ids ensures StoppedWith(log, Some(id), Pass) {
        StateOfTest(cfg, log, id);
        assert Some(id) in all && all[Some(id)] == Pass;
        var actual :| StoppedWith(log, Some(id), actual);
      }
    }
  }

  lemma SamePasses(a: map<Option<Id>, Status>, b: map<Option<Id>, Status>)
    requires forall m :: (m in a <==> m in b) && (m in a ==> a[m] == Pass)
    requires forall m :: m in b ==> b[m] == Pass
    ensures a == b
  {}

  lemma StartsAreConfigured(cfg: Config, log: seq<Payload>, id: Id)
    requires Fold(cfg, log).Some?
    ensures MethodStart(id) in log ==> id in cfg.ids
  {
    if MethodStart(id) in log {
      var i :| 0 <= i < |log| && log[i] == MethodStart(id);
      StartedIsConfigured(cfg, log, i);
    }
  }

  lemma {:induction false} AttributionHolds(cfg: Config, log: seq<Payload>)
    requires Fold(cfg, log).Some?
    ensures ValidAttribution(cfg, Fold(cfg, log).value.denials)
    decreases |log|
  {
    if log != [] {
      AttributionHolds(cfg, log[..|log| - 1]);
    }
  }

  lemma AttributionOneMore(cfg: Config, denials: seq<Denial>, d: Denial)
    requires ValidAttribution(cfg, denials) && |denials| < cfg.maxDenials
    ensures ValidAttribution(cfg, denials + [d])
       <==> && d.sequence == |denials| + 1 && (d.during.Some? ==> d.during.value in cfg.ids)
            && (d.phase == Method || d.phase == Teardown ==> d.during.Some?)
  {
    var all := denials + [d];
    assert all[|denials|] == d;
  }

  /** The reader's judgement of every further payload, flaw by flaw. */
  lemma FlawExactly(cfg: Config, log: seq<Payload>, next: Payload)
    requires Fold(cfg, log).Some?
    ensures PayloadFlaw(cfg, Fold(cfg, log).value, next) == FlawAfter(cfg, log, next)
  {
    var p := Fold(cfg, log).value;
    StateOfLog(cfg, log);
    match next
    case MethodStart(id) =>
      CurrentIsActive(cfg, log, None);
      StateOfTest(cfg, log, id);
    case MethodStop(id, _) => CurrentIsActive(cfg, log, id);
    case GuardDeny(d) =>
      CurrentIsActive(cfg, log, d.during);
      AttributionHolds(cfg, log);
      if |p.denials| < cfg.maxDenials {
        AttributionOneMore(cfg, p.denials, d);
      }
      if p.active.Some? {
        StateOfTest(cfg, log, p.active.value);
        StartsAreConfigured(cfg, log, p.active.value);
      }
    case Terminal(_, _) =>
      CurrentIsActive(cfg, log, None);
      if p.active.None? {
        AllPassIsMethods(cfg, log);
      }
    case _ =>
  }

  ghost predicate FlawlessAt(cfg: Config, payloads: seq<Payload>, i: nat)
    requires i < |payloads|
  {
    FlawAfter(cfg, payloads[..i], payloads[i]).None?
  }

  /** The reader accepts exactly the payload lists in which no payload has a flaw
      after those before it. */
  lemma {:induction false} AcceptedListsExactly(cfg: Config, payloads: seq<Payload>)
    ensures Fold(cfg, payloads).Some? <==> forall i :: 0 <= i < |payloads| ==> FlawlessAt(cfg, payloads, i)
    decreases |payloads|
  {
    if payloads != [] {
      var n := |payloads| - 1;
      AcceptedListsExactly(cfg, payloads[..n]);
      forall i | 0 <= i < n ensures FlawlessAt(cfg, payloads[..n], i) == FlawlessAt(cfg, payloads, i) {
        assert payloads[..n][..i] == payloads[..i];
      }
      if Fold(cfg, payloads[..n]).Some? {
        FlawExactly(cfg, payloads[..n], payloads[n]);
        assert FlawlessAt(cfg, payloads, n) <==> PayloadFlaw(cfg, Fold(cfg, payloads[..n]).value, payloads[n]).None?;
      } else {
        var i :| 0 <= i < n && !FlawlessAt(cfg, payloads[..n], i);
        assert !FlawlessAt(cfg, payloads, i);
      }
    }
  }

  // ---------------------------------------------------------------- which lines of a file are recovered

  function LastClock(frames: seq<Frame>): int {
    if frames == [] then -1 else frames[|frames| - 1].clock
  }

  /** Line `i` is a whole line that decodes to frame `i`, which follows on the frames
      before it: numbered, bound to the configured run, chained, later, of the same
      run id, and without a flaw in its payload. */
  ghost predicate GoodLine(c: Codec<Frame>, cfg: Config, lines: seq<seq<Byte>>, frames: seq<Frame>, i: nat)
    requires i < |lines| == |frames|
  {
    var f := frames[i];
    && lines[i] != [] && lines[i][|lines[i]| - 1] == LF && |lines[i]| <= cfg.maxBytes && c.dec(lines[i]) == Some(f)
    && f.seqNo == i < cfg.maxFrames && f.previous == Tip(c, lines[..i]) && f.pid == cfg.pid && f.source == cfg.source
    && f.clock > LastClock(frames[..i]) && f.run == frames[0].run && FlawlessAt(cfg, Payloads(frames), i)
  }

  ghost predicate AllGood(c: Codec<Frame>, cfg: Config, lines: seq<seq<Byte>>, frames: seq<Frame>) {
    |frames| == |lines| && forall i :: 0 <= i < |lines| ==> GoodLine(c, cfg, lines, frames, i)
  }

  /** The reader's state after good lines. */
  ghost predicate Standing(c: Codec<Frame>, cfg: Config, r: Reader, lines: seq<seq<Byte>>) {
    && AllGood(c, cfg, lines, r.frames)
    && r.previous == Tip(c, lines) && r.lastClock == LastClock(r.frames)
    && r.run == (if r.frames == [] then None else Some(r.frames[0].run))
    && Fold(cfg, Payloads(r.frames)) == Some(r.progress)
  }

  lemma GoodOneMore(c: Codec<Frame>, cfg: Config, lines: seq<seq<Byte>>, frames: seq<Frame>, l: seq<Byte>, f: Frame)
    requires |frames| == |lines|
    ensures AllGood(c, cfg, lines + [l], frames + [f])
       <==> AllGood(c, cfg, lines, frames) && GoodLine(c, cfg, lines + [l], frames + [f], |lines|)
  {
    var ls, fs := lines + [l], frames + [f];
    forall i | 0 <= i < |lines| ensures GoodLine(c, cfg, ls, fs, i) == GoodLine(c, cfg, lines, frames, i) {
      assert ls[..i] == lines[..i] && fs[..i] == frames[..i] && Payloads(fs)[..i] == Payloads(frames)[..i];
    }
    if AllGood(c, cfg, ls, fs) {
      forall i | 0 <= i < |lines| ensures GoodLine(c, cfg, lines, frames, i) {
        assert GoodLine(c, cfg, ls, fs, i);
      }
      assert GoodLine(c, cfg, ls, fs, |lines|);
    }
  }

  /** The reader takes a further line exactly when it is good. */
  lemma TakesExactly(c: Codec<Frame>, cfg: Config, r: Reader, lines: seq<seq<Byte>>, l: seq<Byte>)
    requires Standing(c, cfg, r, lines) && l != []
    ensures LineFlaw(c, cfg, r, l).None?
       <==> c.dec(l).Some? && AllGood(c, cfg, lines + [l], r.frames + [c.dec(l).value])
    ensures LineFlaw(c, cfg, r, l).None? ==> Standing(c, cfg, Accept(c, r, c.dec(l).value, l), lines + [l])
  {
    if c.dec(l).Some? {
      var f := c.dec(l).value;
      var all := r.frames + [f];
      GoodOneMore(c, cfg, lines, r.frames, l, f);
      FlawExactly(cfg, Payloads(r.frames), f.payload);
      assert Payloads(all)[..|lines|] == Payloads(r.frames) && all[..|lines|] == r.frames && (lines + [l])[..|lines|] == lines;
      assert FlawlessAt(cfg, Payloads(all), |lines|) <==> PayloadFlaw(cfg, r.progress, f.payload).None?;
      StandsOn(cfg, r, f);
    }
  }

  /** What is wrong with one more line, told from the lines and frames before it. */
  ghost function FlawOfLine(c: Codec<Frame>, cfg: Config, lines: seq<seq<Byte>>, frames: seq<Frame>, l: seq<Byte>): Option<Flaw> {
    if l == [] || l[|l| - 1] != LF || |l| > cfg.maxBytes then Some(Torn)
    else if c.dec(l).None? then Some(Undecodable)
    else
      var f := c.dec(l).value;
      if !(f.seqNo == |frames| < cfg.maxFrames) then Some(Sequence)
      else if !(f.previous == Tip(c, lines) && f.pid == cfg.pid && f.source == cfg.source) then Some(Binding)
      else if !(f.clock > LastClock(frames)) then Some(Clock)
      else if frames != [] && f.run != frames[0].run then Some(RunId)
      else FlawAfter(cfg, Payloads(frames), f.payload)
  }

  lemma LineFlawExactly(c: Codec<Frame>, cfg: Config, r: Reader, lines: seq<seq<Byte>>, l: seq<Byte>)
    requires Standing(c, cfg, r, lines) && l != []
    ensures LineFlaw(c, cfg, r, l) == FlawOfLine(c, cfg, lines, r.frames, l)
  {
    if c.dec(l).Some? {
      FlawExactly(cfg, Payloads(r.frames), c.dec(l).value.payload);
    }
  }

  lemma StandsOn(cfg: Config, r: Reader, f: Frame)
    requires Fold(cfg, Payloads(r.frames)) == Some(r.progress)
    ensures PayloadFlaw(cfg, r.progress, f.payload).None? ==>
      Fold(cfg, Payloads(r.frames + [f])) == Some(Advance(r.progress, f.payload))
  {
    var p := Payloads(r.frames + [f]);
    assert p[..|p| - 1] == Payloads(r.frames);
  }

  lemma GoodDecodes(c: Codec<Frame>, cfg: Config, lines: seq<seq<Byte>>, frames: seq<Frame>, l: seq<Byte>, f: Frame)
    requires |frames| == |lines|
    ensures AllGood(c, cfg, lines + [l], frames + [f]) ==> c.dec(l) == Some(f)
  {
    GoodOneMore(c, cfg, lines, frames, l, f);
  }

  /** Reading stops behind the longest run of good lines, and only there. */
  ghost predicate Longest(c: Codec<Frame>, cfg: Config, lines: seq<seq<Byte>>, reading: Reading) {
    var k := |reading.reader.frames|;
    && k <= |lines| && Standing(c, cfg, reading.reader, lines[..k])
    && (reading.flaw.None? <==> k == |lines|)
    && (k < |lines| ==> forall f :: !AllGood(c, cfg, lines[..k + 1], reading.reader.frames + [f]))
    && (k < |lines| ==> reading.flaw == FlawOfLine(c, cfg, lines[..k], reading.reader.frames, lines[k]))
  }

  lemma {:induction false} ReadsLongest(c: Codec<Frame>, cfg: Config, r: Reader, lines: seq<seq<Byte>>, i: nat)
    requires i <= |lines| && |r.frames| == i && Standing(c, cfg, r, lines[..i])
    requires forall j :: 0 <= j < |lines| ==> lines[j] != []
    ensures Longest(c, cfg, lines, ReadLines(c, cfg, r, lines[i..]))
    decreases |lines| - i
  {
    if i == |lines| {
      assert lines[i..] == [] && lines[..i] == lines;
    } else {
      assert lines[i..][0] == lines[i];
      if LineFlaw(c, cfg, r, lines[i]).None? {
        assert lines[..i] + [lines[i]] == lines[..i + 1];
        TakesExactly(c, cfg, r, lines[..i], lines[i]);
        ReadsOne(c, cfg, r, lines, i);
        ReadsLongest(c, cfg, Accept(c, r, c.dec(lines[i]).value, lines[i]), lines, i + 1);
      } else {
        StopsHere(c, cfg, r, lines, i);
      }
    }
  }

  lemma StopsHere(c: Codec<Frame>, cfg: Config, r: Reader, lines: seq<seq<Byte>>, i: nat)
    requires i < |lines| && |r.frames| == i && Standing(c, cfg, r, lines[..i])
    requires lines[i] != [] && LineFlaw(c, cfg, r, lines[i]).Some?
    ensures Longest(c, cfg, lines, Reading(r, LineFlaw(c, cfg, r, lines[i])))
  {
    var l := lines[i];
    assert lines[..i] + [l] == lines[..i + 1];
    TakesExactly(c, cfg, r, lines[..i], l);
    LineFlawExactly(c, cfg, r, lines[..i], l);
    forall f ensures AllGood(c, cfg, lines[..i + 1], r.frames + [f]) ==> c.dec(l) == Some(f) {
      GoodDecodes(c, cfg, lines[..i], r.frames, l, f);
    }
  }

  /** What the reader makes of any file of admissible size: it recovers the longest
      run of good lines, no more and no fewer, with the state they lead to, and it
      reports no flaw exactly when those are all lines and there is one. */
  lemma RecoversLongest(c: Codec<Frame>, cfg: Config, raw: seq<Byte>)
    requires |raw| <= cfg.maxFrames * cfg.maxBytes
    ensures
      var reading, lines := Read(c, cfg, raw), Lines(raw);
      var k := |reading.reader.frames|;
      && k <= |lines| && AllGood(c, cfg, lines[..k], reading.reader.frames)
      && Fold(cfg, Payloads(reading.reader.frames)) == Some(reading.reader.progress)
      && (k < |lines| ==> forall f :: !AllGood(c, cfg, lines[..k + 1], reading.reader.frames + [f]))
      && (reading.flaw.None? <==> k == |lines| && k > 0)
  {
    LinesNonEmpty(raw);
    assert Lines(raw)[..0] == [] && Lines(raw)[0..] == Lines(raw) && Payloads([]) == [];
    ReadsLongest(c, cfg, UNREAD, Lines(raw), 0);
  }

  /** The flaw the reader reports: the size of a file that is too large, the first flaw
      of the first line that is not good, or that there is no line at all. */
  lemma FlawOfFile(c: Codec<Frame>, cfg: Config, raw: seq<Byte>)
    ensures
      var reading, lines := Read(c, cfg, raw), Lines(raw);
      var frames := reading.reader.frames;
      if |raw| > cfg.maxFrames * cfg.maxBytes then frames == [] && reading.flaw == Some(FileSize)
      else if |frames| < |lines| then reading.flaw == FlawOfLine(c, cfg, lines[..|frames|], frames, lines[|frames|])
      else reading.flaw == if raw == [] then Some(Empty) else None
  {
    LinesNonEmpty(raw);
    assert Lines(raw)[..0] == [] && Lines(raw)[0..] == Lines(raw) && Payloads([]) == [];
    ReadsLongest(c, cfg, UNREAD, Lines(raw), 0);
  }
}
