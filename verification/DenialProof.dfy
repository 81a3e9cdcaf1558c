/**
 What the reader's verdict on a denial journal says about any file at all: the
 recovered frames are a chained prefix, and a proof of zero denials is a green log.
 */
module DenialProof {
  import opened Wrappers
  import opened Framing
  import opened TestStatus
  import opened DenialJournal
  import opened DenialRecovery

  // ---------------------------------------------------------------- what the reader accepted

  /** The chain field of a frame is what the codec calls its link. */
  ghost predicate LinksPrevious(c: Codec<Frame>) {
    forall f :: c.link(f) == f.previous
  }

  /** The reader's state describes the lines it accepted so far. */
  ghost predicate Describes(c: Codec<Frame>, cfg: Config, r: Reader, lines: seq<seq<Byte>>) {
    && |r.frames| == |lines|
    && (forall i :: 0 <= i < |lines| ==> c.dec(lines[i]) == Some(r.frames[i]))
    && Linked(c, lines) && r.previous == Tip(c, lines)
    && Fold(cfg, Payloads(r.frames)) == Some(r.progress)
  }

  lemma DescribesOneMore(c: Codec<Frame>, cfg: Config, r: Reader, lines: seq<seq<Byte>>, l: seq<Byte>)
    requires LinksPrevious(c) && Describes(c, cfg, r, lines)
    requires l != [] && LineFlaw(c, cfg, r, l).None?
    ensures Describes(c, cfg, Accept(c, r, c.dec(l).value, l), lines + [l])
  {
    var f := c.dec(l).value;
    assert c.link(f) == f.previous;
    LinkedExtend(c, lines, l);
    var p := Payloads(r.frames + [f]);
    assert p[..|p| - 1] == Payloads(r.frames);
  }

  lemma {:induction false} ReadDescribes(c: Codec<Frame>, cfg: Config, r: Reader, lines: seq<seq<Byte>>, i: nat)
    requires LinksPrevious(c) && i <= |lines| && Describes(c, cfg, r, lines[..i])
    requires forall j :: 0 <= j < |lines| ==> lines[j] != []
    ensures
      var reading := ReadLines(c, cfg, r, lines[i..]);
      && |reading.reader.frames| <= |lines|
      && Describes(c, cfg, reading.reader, lines[..|reading.reader.frames|])
      && (reading.flaw.None? ==> |reading.reader.frames| == |lines|)
    decreases |lines| - i
  {
    if i == |lines| {
      assert lines[i..] == [];
    } else {
      assert lines[i..][0] == lines[i];
      if LineFlaw(c, cfg, r, lines[i]).None? {
        var next := Accept(c, r, c.dec(lines[i]).value, lines[i]);
        DescribesOneMore(c, cfg, r, lines[..i], lines[i]);
        assert lines[..i] + [lines[i]] == lines[..i + 1];
        ReadDescribes(c, cfg, next, lines, i + 1);
        ReadsOne(c, cfg, r, lines, i);
      }
    }
  }

  lemma ReadsOne(c: Codec<Frame>, cfg: Config, r: Reader, lines: seq<seq<Byte>>, i: nat)
    requires i < |lines| && forall j :: 0 <= j < |lines| ==> lines[j] != []
    requires LineFlaw(c, cfg, r, lines[i]).None?
    ensures ReadLines(c, cfg, r, lines[i..]) == ReadLines(c, cfg, Accept(c, r, c.dec(lines[i]).value, lines[i]), lines[i + 1..])
  {
    assert lines[i..][0] == lines[i] && lines[i..][1..] == lines[i + 1..];
  }

  /** Whatever bytes the file holds, the recovered frames are its first lines,
      chained by their digests, and the reported state is the fold of their payloads. */
  lemma RecoveredPrefixIsValid(c: Codec<Frame>, cfg: Config, raw: seq<Byte>)
    requires LinksPrevious(c)
    ensures
      var r := Read(c, cfg, raw).reader;
      |r.frames| <= |Lines(raw)| && Describes(c, cfg, r, Lines(raw)[..|r.frames|])
    ensures Read(c, cfg, raw).flaw.None? ==> |Read(c, cfg, raw).reader.frames| == |Lines(raw)|
  {
    assert Payloads([]) == [];
    if |raw| <= cfg.maxFrames * cfg.maxBytes {
      LinesNonEmpty(raw);
      assert Lines(raw)[..0] == [] && Lines(raw)[0..] == Lines(raw);
      ReadDescribes(c, cfg, UNREAD, Lines(raw), 0);
    }
  }

  /** Two files recovered to the same tip hold the same lines up to it. */
  lemma EqualTipsEqualLogs(c: Codec<Frame>, cfg: Config, a: seq<Byte>, b: seq<Byte>)
    requires LinksPrevious(c) && Injective(c.sha)
    requires Read(c, cfg, a).reader.previous == Read(c, cfg, b).reader.previous
    ensures
      var m, n := |Read(c, cfg, a).reader.frames|, |Read(c, cfg, b).reader.frames|;
      m <= |Lines(a)| && n <= |Lines(b)| && Lines(a)[..m] == Lines(b)[..n]
    ensures Read(c, cfg, a).reader.frames == Read(c, cfg, b).reader.frames
  {
    RecoveredPrefixIsValid(c, cfg, a);
    RecoveredPrefixIsValid(c, cfg, b);
    var m, n := |Read(c, cfg, a).reader.frames|, |Read(c, cfg, b).reader.frames|;
    EqualTipsEqualLines(c, Lines(a)[..m], Lines(b)[..n]);
  }

  // ---------------------------------------------------------------- the shape of a green log

  function Pairs(order: seq<Id>): seq<Payload>
    decreases |order|
  {
    if order == [] then []
    else Pairs(order[..|order| - 1]) + [MethodStart(order[|order| - 1]), MethodStop(Some(order[|order| - 1]), Pass)]
  }

  /** INIT, every method started and stopped with PASS, TERMINAL. */
  function Green(ids: seq<Id>, order: seq<Id>): seq<Payload> {
    [Init(ids)] + Pairs(order) + [Terminal(true, None)]
  }

  /** `order` runs through the ids, each once. */
  ghost predicate Runs(ids: seq<Id>, order: seq<Id>) {
    NoDup(order) && forall id :: id in ids <==> id in order
  }

  /** So far nothing but passed methods, and at most one running. */
  ghost predicate Clean(p: Progress) {
    && p.started && p.terminal.None? && p.denials == []
    && forall m :: m in p.methods ==>
         m.Some? && (p.methods[m] == Pass || (p.methods[m] == Started && p.active == m))
  }

  function Open(active: Option<Id>): seq<Payload> {
    if active.Some? then [MethodStart(active.value)] else []
  }

  /** The methods a clean state knows: those passed, and the one running. */
  ghost predicate Knows(p: Progress, order: seq<Id>) {
    && NoDup(order)
    && (forall m :: m in p.methods <==> m.Some? && (m.value in order || p.active == m))
    && (p.active.Some? ==> p.active.value !in order && p.methods[p.active] == Started)
    && (forall id :: id in order ==> p.methods[Some(id)] == Pass)
  }

  /** A clean state has exactly one history. */
  lemma {:induction false} CleanHistory(cfg: Config, payloads: seq<Payload>) returns (order: seq<Id>)
    requires Fold(cfg, payloads).Some? && Clean(Fold(cfg, payloads).value)
    ensures payloads == [Init(cfg.ids)] + Pairs(order) + Open(Fold(cfg, payloads).value.active)
    ensures Knows(Fold(cfg, payloads).value, order)
    decreases |payloads|
  {
    var n := |payloads| - 1;
    var before, last := Fold(cfg, payloads[..n]).value, payloads[n];
    assert payloads == payloads[..n] + [last];
    match last
    case Init(_) =>
      order := [];
      InitIsFirst(cfg, payloads[..n]);
    case MethodStart(id) =>
      assert Clean(before) by {
        forall m | m in before.methods ensures m.Some? && before.methods[m] == Pass {
          assert m in Advance(before, last).methods;
        }
      }
      order := CleanHistory(cfg, payloads[..n]);
    case MethodStop(stopped, actual) =>
      order := StopHistory(cfg, payloads, before, stopped, actual);
    case _ =>
      order := [];
  }

  lemma StopBefore(before: Progress, stopped: Option<Id>, actual: Status)
    requires Clean(Advance(before, MethodStop(stopped, actual))) && before.active == stopped && actual != Started
    requires before.active.Some? ==> before.active in before.methods && before.methods[before.active] == Started
    ensures Clean(before) && stopped.Some? && actual == Pass
  {
    var after := Advance(before, MethodStop(stopped, actual));
    assert stopped in after.methods;
    forall m | m in before.methods
      ensures m.Some? && (before.methods[m] == Pass || (before.methods[m] == Started && before.active == m))
    {
      assert m in after.methods;
    }
  }

  lemma StopHistory(cfg: Config, payloads: seq<Payload>, before: Progress, stopped: Option<Id>, actual: Status)
    returns (order: seq<Id>)
    requires payloads != [] && payloads[|payloads| - 1] == MethodStop(stopped, actual)
    requires Fold(cfg, payloads[..|payloads| - 1]) == Some(before)
    requires Fold(cfg, payloads).Some? && Clean(Fold(cfg, payloads).value)
    ensures payloads == [Init(cfg.ids)] + Pairs(order)
    ensures Knows(Fold(cfg, payloads).value, order) && Fold(cfg, payloads).value.active.None?
    decreases |payloads|, 0
  {
    var n := |payloads| - 1;
    ActiveIsStarted(cfg, payloads[..n]);
    StopBefore(before, stopped, actual);
    var passed := CleanHistory(cfg, payloads[..n]);
    order := passed + [stopped.value];
    KnowsStopped(before, passed, stopped.value);
    assert order[..|order| - 1] == passed;
    assert payloads == payloads[..n] + [payloads[n]];
  }

  lemma KnowsStopped(p: Progress, passed: seq<Id>, id: Id)
    requires Knows(p, passed) && p.active == Some(id)
    ensures Knows(Advance(p, MethodStop(Some(id), Pass)), passed + [id])
  {
    ElementsOneMore(passed, id);
  }

  /** The running method is recorded as started. */
  lemma {:induction false} ActiveIsStarted(cfg: Config, payloads: seq<Payload>)
    requires Fold(cfg, payloads).Some?
    ensures
      var p := Fold(cfg, payloads).value;
      p.active.Some? ==> p.active in p.methods && p.methods[p.active] == Started
    decreases |payloads|
  {
    if payloads != [] {
      ActiveIsStarted(cfg, payloads[..|payloads| - 1]);
    }
  }

  /** Nothing comes before INIT. */
  lemma {:induction false} InitIsFirst(cfg: Config, payloads: seq<Payload>)
    requires Fold(cfg, payloads).Some? && !Fold(cfg, payloads).value.started
    ensures payloads == []
    decreases |payloads|
  {
    if payloads != [] {
      var n := |payloads| - 1;
      assert Fold(cfg, payloads[..n]).Some?;
      assert !payloads[n].Init?;
      assert Fold(cfg, payloads[..n]).value.started;
      StartedStays(cfg, payloads);
    }
  }

  lemma StartedStays(cfg: Config, payloads: seq<Payload>)
    requires payloads != [] && Fold(cfg, payloads).Some?
    ensures Fold(cfg, payloads).value.started
  {}

  /** Zero denials are proved exactly by green logs: for any payloads the reader
      accepts, the proof holds exactly when they are INIT, every id started and
      passed once in some order, and a passing TERMINAL. */
  lemma ZeroDenialsExactly(cfg: Config, payloads: seq<Payload>)
    requires Fold(cfg, payloads).Some?
    ensures
      var p := Fold(cfg, payloads).value;
      (GreenTerminal(p.terminal) && p.denials == []) <==>
        exists order :: Runs(cfg.ids, order) && payloads == Green(cfg.ids, order)
  {
    var p := Fold(cfg, payloads).value;
    if GreenTerminal(p.terminal) && p.denials == [] {
      var order := GreenHistory(cfg, payloads);
    }
    if order :| Runs(cfg.ids, order) && payloads == Green(cfg.ids, order) {
      var n := |payloads| - 1;
      assert payloads[n] == Terminal(true, None);
      assert PayloadFlaw(cfg, Fold(cfg, payloads[..n]).value, payloads[n]).None?;
    }
  }

  lemma GreenHistory(cfg: Config, payloads: seq<Payload>) returns (order: seq<Id>)
    requires Fold(cfg, payloads).Some?
    requires GreenTerminal(Fold(cfg, payloads).value.terminal) && Fold(cfg, payloads).value.denials == []
    ensures Runs(cfg.ids, order) && payloads == Green(cfg.ids, order)
  {
    var n := |payloads| - 1;
    TerminalSticks(cfg, payloads, n);
    var before := Fold(cfg, payloads[..n]).value;
    assert payloads == payloads[..n] + [payloads[n]];
    assert before.methods == FromKeys(cfg.ids, Pass) && before.active.None?;
    order := CleanHistory(cfg, payloads[..n]);
    AllPassed(cfg.ids, before, order);
  }

  lemma AllPassed(ids: seq<Id>, p: Progress, order: seq<Id>)
    requires p.methods == FromKeys(ids, Pass) && p.active.None? && Knows(p, order)
    ensures Runs(ids, order)
  {
    forall id ensures id in ids <==> id in order {
      assert Some(id) in FromKeys(ids, Pass) <==> id in ids;
    }
  }

  lemma FoldOneMore(cfg: Config, payloads: seq<Payload>, p: Progress, last: Payload)
    requires Fold(cfg, payloads) == Some(p) && PayloadFlaw(cfg, p, last).None?
    ensures Fold(cfg, payloads + [last]) == Some(Advance(p, last))
  {
    assert (payloads + [last])[..|payloads|] == payloads;
  }

  /** Every green log is accepted. */
  lemma GreenIsAccepted(cfg: Config, order: seq<Id>)
    requires Runs(cfg.ids, order)
    ensures Fold(cfg, Green(cfg.ids, order)).Some?
  {
    PairsAccepted(cfg, order);
    SameMethods(cfg.ids, order);
    var body := [Init(cfg.ids)] + Pairs(order);
    assert PayloadFlaw(cfg, Passed(order), Terminal(true, None)).None?;
    FoldOneMore(cfg, body, Passed(order), Terminal(true, None));
    assert Green(cfg.ids, order) == body + [Terminal(true, None)];
  }

  lemma SameMethods(ids: seq<Id>, order: seq<Id>)
    requires Runs(ids, order)
    ensures FromKeys(ids, Pass) == FromKeys(order, Pass)
  {
    forall m ensures m in FromKeys(ids, Pass) <==> m in FromKeys(order, Pass) {
      if m.Some? {
        var id: Id := m.value;
        assert id in ids <==> id in order;
      }
    }
  }

  function Passed(order: seq<Id>): Progress {
    Progress(true, FromKeys(order, Pass), None, [], None)
  }

  lemma PairAccepted(cfg: Config, body: seq<Payload>, order: seq<Id>, id: Id)
    requires Fold(cfg, body) == Some(Passed(order)) && id !in order && id in cfg.ids
    ensures Fold(cfg, body + [MethodStart(id)] + [MethodStop(Some(id), Pass)]) == Some(Passed(order + [id]))
  {
    var running := Advance(Passed(order), MethodStart(id));
    FoldOneMore(cfg, body, Passed(order), MethodStart(id));
    FoldOneMore(cfg, body + [MethodStart(id)], running, MethodStop(Some(id), Pass));
    FromKeysExtends(order, id, Started, Pass);
  }

  lemma InitAccepted(cfg: Config)
    ensures Fold(cfg, [Init(cfg.ids)]) == Some(Passed([]))
  {
    assert [] + [Init(cfg.ids)] == [Init(cfg.ids)];
    FoldOneMore(cfg, [], NOTHING, Init(cfg.ids));
  }

  lemma PairsStep(cfg: Config, order: seq<Id>, id: Id)
    requires Fold(cfg, [Init(cfg.ids)] + Pairs(order)) == Some(Passed(order)) && id !in order && id in cfg.ids
    ensures Fold(cfg, [Init(cfg.ids)] + Pairs(order + [id])) == Some(Passed(order + [id]))
  {
    PairAccepted(cfg, [Init(cfg.ids)] + Pairs(order), order, id);
    assert (order + [id])[..|order|] == order;
    Regroup([Init(cfg.ids)], Pairs(order), MethodStart(id), MethodStop(Some(id), Pass));
  }

  lemma {:induction false} PairsAccepted(cfg: Config, order: seq<Id>)
    requires NoDup(order) && forall id :: id in order ==> id in cfg.ids
    ensures Fold(cfg, [Init(cfg.ids)] + Pairs(order)) == Some(Passed(order))
    decreases |order|
  {
    if order == [] {
      InitAccepted(cfg);
      assert [Init(cfg.ids)] + [] == [Init(cfg.ids)];
    } else {
      var shorter, id := order[..|order| - 1], order[|order| - 1];
      assert shorter + [id] == order;
      PairsAccepted(cfg, shorter);
      PairsStep(cfg, shorter, id);
    }
  }

  /** For any bytes at all: a proof of zero denials means that the file is whole
      lines of a green log, and any green log so recovered is such a proof. */
  lemma ZeroDenialsMeansGreenFile(c: Codec<Frame>, cfg: Config, raw: seq<Byte>)
    requires LinksPrevious(c)
    ensures ZeroDenialsProven(Read(c, cfg, raw))
       <==> && Read(c, cfg, raw).flaw.None?
            && exists order :: Runs(cfg.ids, order) && Payloads(Read(c, cfg, raw).reader.frames) == Green(cfg.ids, order)
  {
    RecoveredPrefixIsValid(c, cfg, raw);
    ZeroDenialsExactly(cfg, Payloads(Read(c, cfg, raw).reader.frames));
  }
}
