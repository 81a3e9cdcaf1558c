/**
 The owner-scope journal as a file: the reader, the files it accepts, and what is
 left of an accepted file when it is cut.
 */
module ScopeFile {
  import opened Wrappers
  import opened Framing
  import opened ScopeJournal

  // ---------------------------------------------------------------- the reader

  datatype Reader = Reader(frames: seq<Frame>, progress: Progress, previous: Option<Digest>, lastClock: int)

  const UNREAD: Reader := Reader([], NOTHING, None, -1)

  predicate LineOk(c: Codec<Frame>, cfg: Config, r: Reader, line: seq<Byte>) {
    && line != [] && line[|line| - 1] == LF && c.dec(line).Some?
    && var f := c.dec(line).value;
       && f.seqNo == |r.frames| < cfg.maxFrames && f.previous == r.previous
       && f.pid == cfg.pid && f.source == cfg.source && f.clock > r.lastClock
       && Allows(cfg.ids, r.progress, f.payload)
  }

  function Accept(c: Codec<Frame>, r: Reader, line: seq<Byte>): Reader
    requires c.dec(line).Some?
  {
    var f := c.dec(line).value;
    Reader(r.frames + [f], Advance(r.progress, f.payload), Some(c.sha(line)), f.clock)
  }

  /** The reader's state after all lines, or nothing if some line makes it raise. */
  function ReadLines(c: Codec<Frame>, cfg: Config, lines: seq<seq<Byte>>): Option<Reader>
    decreases |lines|
  {
    if lines == [] then Some(UNREAD)
    else
      var before, last := ReadLines(c, cfg, lines[..|lines| - 1]), lines[|lines| - 1];
      if before.Some? && LineOk(c, cfg, before.value, last) then Some(Accept(c, before.value, last)) else None
  }

  predicate Accepted(c: Codec<Frame>, cfg: Config, raw: seq<Byte>) {
    && 0 < |raw| <= cfg.maxFile
    && ReadLines(c, cfg, Lines(raw)).Some? && Passing(cfg.ids, ReadLines(c, cfg, Lines(raw)).value.progress)
  }

  method ReadJournal(c: Codec<Frame>, cfg: Config, raw: seq<Byte>) returns (ok: bool, frames: nat)
    ensures ok <==> Accepted(c, cfg, raw)
    ensures ok ==> frames == |Lines(raw)|
  {
    ok, frames := false, 0;
    if |raw| == 0 || |raw| > cfg.maxFile {
      return;
    }
    var lines := Lines(raw);
    var r := UNREAD;
    var i := 0;
    while i < |lines|
      invariant 0 <= i <= |lines|
      invariant ReadLines(c, cfg, lines[..i]) == Some(r) && |r.frames| == i
    {
      ReadsOneMore(c, cfg, lines, i);
      if !LineOk(c, cfg, r, lines[i]) {
        RaisesForGood(c, cfg, lines, i + 1);
        return;
      }
      r := Accept(c, r, lines[i]);
      i := i + 1;
    }
    assert lines[..i] == lines;
    ok, frames := Passing(cfg.ids, r.progress), i;
  }

  lemma ReadsOneMore(c: Codec<Frame>, cfg: Config, lines: seq<seq<Byte>>, i: nat)
    requires i < |lines| && ReadLines(c, cfg, lines[..i]).Some?
    ensures
      var r := ReadLines(c, cfg, lines[..i]).value;
      ReadLines(c, cfg, lines[..i + 1]) == if LineOk(c, cfg, r, lines[i]) then Some(Accept(c, r, lines[i])) else None
  {
    assert lines[..i + 1][..i] == lines[..i];
  }

  lemma {:induction false} RaisesForGood(c: Codec<Frame>, cfg: Config, lines: seq<seq<Byte>>, i: nat)
    requires i <= |lines| && ReadLines(c, cfg, lines[..i]).None?
    ensures ReadLines(c, cfg, lines).None?
    decreases |lines| - i
  {
    if i == |lines| {
      assert lines[..i] == lines;
    } else {
      assert lines[..i + 1][..i] == lines[..i];
      RaisesForGood(c, cfg, lines, i + 1);
    }
  }

  function Payloads(frames: seq<Frame>): seq<Payload> {
    seq(|frames|, i requires 0 <= i < |frames| => frames[i].payload)
  }

  /** `dec` reads these frames off the lines, and they are in order: numbered,
      bound to this run, chained, with a rising clock. */
  ghost predicate InOrder(c: Codec<Frame>, cfg: Config, lines: seq<seq<Byte>>, frames: seq<Frame>) {
    && |frames| == |lines| <= cfg.maxFrames
    && forall i :: 0 <= i < |lines| ==> LineInOrder(c, cfg, lines, frames, i)
  }

  ghost predicate LineInOrder(c: Codec<Frame>, cfg: Config, lines: seq<seq<Byte>>, frames: seq<Frame>, i: nat)
    requires i < |lines| == |frames|
  {
    var f := frames[i];
    && lines[i] != [] && lines[i][|lines[i]| - 1] == LF && c.dec(lines[i]) == Some(f)
    && f.seqNo == i && f.previous == Tip(c, lines[..i]) && f.pid == cfg.pid && f.source == cfg.source
    && f.clock > LastClock(frames[..i])
  }

  function LastClock(frames: seq<Frame>): int {
    if frames == [] then -1 else frames[|frames| - 1].clock
  }

  lemma InOrderOneMore(c: Codec<Frame>, cfg: Config, lines: seq<seq<Byte>>, frames: seq<Frame>)
    requires |frames| == |lines| > 0
    ensures
      var n := |lines| - 1;
      InOrder(c, cfg, lines, frames) <==>
        n < cfg.maxFrames && InOrder(c, cfg, lines[..n], frames[..n]) && LineInOrder(c, cfg, lines, frames, n)
  {
    var n := |lines| - 1;
    forall i | 0 <= i < n
      ensures LineInOrder(c, cfg, lines[..n], frames[..n], i) == LineInOrder(c, cfg, lines, frames, i)
    {
      assert lines[..n][..i] == lines[..i] && frames[..n][..i] == frames[..i];
    }
    if InOrder(c, cfg, lines, frames) {
      forall i | 0 <= i < n ensures LineInOrder(c, cfg, lines[..n], frames[..n], i) {
        assert LineInOrder(c, cfg, lines, frames, i);
      }
    }
  }

  lemma PayloadsOneMore(frames: seq<Frame>)
    requires frames != []
    ensures Payloads(frames)[..|frames| - 1] == Payloads(frames[..|frames| - 1])
    ensures Payloads(frames)[|frames| - 1] == frames[|frames| - 1].payload
  {}

  /** The reader's state when it has read these frames off these lines. */
  function StateOf(c: Codec<Frame>, lines: seq<seq<Byte>>, frames: seq<Frame>, p: Progress): Reader {
    Reader(frames, p, Tip(c, lines), LastClock(frames))
  }

  /** The lines the reader gets through, and the state they leave it in. */
  lemma {:induction false} ReadsInOrder(c: Codec<Frame>, cfg: Config, lines: seq<seq<Byte>>)
    requires ReadLines(c, cfg, lines).Some?
    ensures
      var r := ReadLines(c, cfg, lines).value;
      && InOrder(c, cfg, lines, r.frames)
      && Fold(cfg.ids, Payloads(r.frames)) == Some(r.progress)
      && r == StateOf(c, lines, r.frames, r.progress)
    decreases |lines|
  {
    if lines != [] {
      var n := |lines| - 1;
      ReadsInOrder(c, cfg, lines[..n]);
      var before, r := ReadLines(c, cfg, lines[..n]).value, ReadLines(c, cfg, lines).value;
      assert r.frames[..n] == before.frames;
      InOrderOneMore(c, cfg, lines, r.frames);
      PayloadsOneMore(r.frames);
    }
  }

  /** Conversely, lines in order whose payloads fold are read to the end. */
  lemma {:induction false} InOrderReads(c: Codec<Frame>, cfg: Config, lines: seq<seq<Byte>>, frames: seq<Frame>)
    requires InOrder(c, cfg, lines, frames) && Fold(cfg.ids, Payloads(frames)).Some?
    ensures ReadLines(c, cfg, lines) == Some(StateOf(c, lines, frames, Fold(cfg.ids, Payloads(frames)).value))
    decreases |lines|
  {
    if lines != [] {
      var n := |lines| - 1;
      InOrderOneMore(c, cfg, lines, frames);
      PayloadsOneMore(frames);
      InOrderReads(c, cfg, lines[..n], frames[..n]);
      assert frames == frames[..n] + [frames[n]];
    }
  }

  /** The frames of a passing log. */
  ghost predicate GreenFrames(cfg: Config, frames: seq<Frame>) {
    NoDup(cfg.ids) && Interleaved(Payloads(frames)) && Strip(Payloads(frames)) == Green(cfg.ids)
  }

  /** The files the reader accepts, with no word about how it reads: those of
      admissible size whose lines are frames in order that form a passing log. */
  lemma AcceptedExactly(c: Codec<Frame>, cfg: Config, raw: seq<Byte>)
    ensures Accepted(c, cfg, raw) <==>
      0 < |raw| <= cfg.maxFile && exists frames :: InOrder(c, cfg, Lines(raw), frames) && GreenFrames(cfg, frames)
  {
    if Accepted(c, cfg, raw) {
      ReadsInOrder(c, cfg, Lines(raw));
      var r := ReadLines(c, cfg, Lines(raw)).value;
      AcceptsExactly(cfg.ids, Payloads(r.frames));
      assert InOrder(c, cfg, Lines(raw), r.frames) && GreenFrames(cfg, r.frames);
    }
    if frames :| 0 < |raw| <= cfg.maxFile && InOrder(c, cfg, Lines(raw), frames) && GreenFrames(cfg, frames) {
      AcceptsExactly(cfg.ids, Payloads(frames));
      InOrderReads(c, cfg, Lines(raw), frames);
    }
  }

  ghost predicate LinksPrevious(c: Codec<Frame>) {
    forall f :: c.link(f) == f.previous
  }

  /** Frames in order are a hash chain. */
  lemma ReadDescribes(c: Codec<Frame>, cfg: Config, lines: seq<seq<Byte>>)
    requires LinksPrevious(c) && ReadLines(c, cfg, lines).Some?
    ensures
      var r := ReadLines(c, cfg, lines).value;
      && |r.frames| == |lines| && Linked(c, lines) && r.previous == Tip(c, lines)
      && Fold(cfg.ids, Payloads(r.frames)) == Some(r.progress)
  {
    ReadsInOrder(c, cfg, lines);
    var frames := ReadLines(c, cfg, lines).value.frames;
    forall i | 0 <= i < |lines|
      ensures c.dec(lines[i]).Some? && c.link(c.dec(lines[i]).value) == Tip(c, lines[..i])
    {
      assert LineInOrder(c, cfg, lines, frames, i);
      assert c.link(frames[i]) == frames[i].previous;
    }
  }

  /** The frames of an accepted file form a green log, whatever bytes encode them. */
  lemma AcceptedFileIsGreen(c: Codec<Frame>, cfg: Config, raw: seq<Byte>)
    requires LinksPrevious(c) && Accepted(c, cfg, raw)
    ensures
      var frames := ReadLines(c, cfg, Lines(raw)).value.frames;
      && |frames| == |Lines(raw)| == 2 * |cfg.ids| + 2 + Listings(Payloads(frames))
      && GreenFrames(cfg, frames) && InOrder(c, cfg, Lines(raw), frames)
      && Linked(c, Lines(raw))
  {
    ReadDescribes(c, cfg, Lines(raw));
    ReadsInOrder(c, cfg, Lines(raw));
    var payloads := Payloads(ReadLines(c, cfg, Lines(raw)).value.frames);
    AcceptsExactly(cfg.ids, payloads);
    AcceptedLength(cfg.ids, payloads);
  }

  // ---------------------------------------------------------------- written files

  function Encoded(c: Codec<Frame>, frames: seq<Frame>): (lines: seq<seq<Byte>>)
    ensures |lines| == |frames|
  {
    seq(|frames|, i requires 0 <= i < |frames| => c.enc(frames[i]))
  }

  /** The frames a writer appends: numbered, bound to this run, chained. */
  ghost predicate Chained(c: Codec<Frame>, cfg: Config, frames: seq<Frame>) {
    && |frames| <= cfg.maxFrames
    && forall i :: 0 <= i < |frames| ==>
         && frames[i].seqNo == i && frames[i].previous == Tip(c, Encoded(c, frames)[..i])
         && frames[i].pid == cfg.pid && frames[i].source == cfg.source
  }

  /** The clock rises strictly from frame to frame; the reader demands it, the writer does not check it. */
  ghost predicate ClockRises(frames: seq<Frame>) {
    forall i :: 0 <= i < |frames| ==> frames[i].clock > LastClock(frames[..i])
  }

  lemma WrittenInOrder(c: Codec<Frame>, cfg: Config, frames: seq<Frame>)
    requires Faithful(c) && Chained(c, cfg, frames) && ClockRises(frames)
    ensures InOrder(c, cfg, Encoded(c, frames), frames)
    ensures Lines(Join(Encoded(c, frames))) == Encoded(c, frames)
  {
    var lines := Encoded(c, frames);
    forall i | 0 <= i < |lines| ensures LineInOrder(c, cfg, lines, frames, i) && WholeLine(lines[i]) {
      assert lines[i] == c.enc(frames[i]);
    }
    LinesOfJoin(lines, []);
    assert Join(lines) + [] == Join(lines);
  }

  /** What a writer has written is accepted exactly when it is a passing log of admissible size. */
  lemma WrittenAcceptedExactly(c: Codec<Frame>, cfg: Config, frames: seq<Frame>)
    requires Faithful(c) && Chained(c, cfg, frames) && ClockRises(frames)
    ensures Accepted(c, cfg, Join(Encoded(c, frames)))
       <==> |Join(Encoded(c, frames))| <= cfg.maxFile && GreenFrames(cfg, frames)
  {
    var raw := Join(Encoded(c, frames));
    WrittenInOrder(c, cfg, frames);
    AcceptedExactly(c, cfg, raw);
    if Accepted(c, cfg, raw) {
      var other :| InOrder(c, cfg, Lines(raw), other) && GreenFrames(cfg, other);
      SameFrames(c, cfg, Lines(raw), frames, other);
    }
    if GreenFrames(cfg, frames) {
      assert frames != [] && Encoded(c, frames)[0] == c.enc(frames[0]) && WholeLine(c.enc(frames[0]));
    }
  }

  /** The lines determine the frames. */
  lemma SameFrames(c: Codec<Frame>, cfg: Config, lines: seq<seq<Byte>>, a: seq<Frame>, b: seq<Frame>)
    requires InOrder(c, cfg, lines, a) && InOrder(c, cfg, lines, b)
    ensures a == b
  {
    forall i | 0 <= i < |lines| ensures a[i] == b[i] {
      assert LineInOrder(c, cfg, lines, a, i) && LineInOrder(c, cfg, lines, b, i);
    }
  }

  /** Two accepted files with equal tips hold the same lines. */
  lemma EqualTipsEqualFiles(c: Codec<Frame>, cfg: Config, a: seq<Byte>, b: seq<Byte>)
    requires LinksPrevious(c) && Injective(c.sha) && Accepted(c, cfg, a) && Accepted(c, cfg, b)
    requires Tip(c, Lines(a)) == Tip(c, Lines(b))
    ensures a == b
  {
    ReadDescribes(c, cfg, Lines(a));
    ReadDescribes(c, cfg, Lines(b));
    EqualTipsEqualLines(c, Lines(a), Lines(b));
    JoinLines(a);
    JoinLines(b);
  }

  // ---------------------------------------------------------------- truncation

  lemma {:induction false} JoinLines(raw: seq<Byte>)
    ensures Join(Lines(raw)) == raw
    decreases |raw|
  {
    if raw != [] {
      var n := FirstLine(raw);
      JoinLines(raw[n..]);
      assert ([raw[..n]] + Lines(raw[n..]))[1..] == Lines(raw[n..]);
    }
  }

  /** Cutting a file inside its first line leaves a piece that does not end in LF. */
  lemma {:induction false} CutInFirstLine(raw: seq<Byte>, n: nat)
    requires 0 < n < |raw| && n < FirstLine(raw)
    ensures FirstLine(raw[..n]) == n && raw[n - 1] != LF
    decreases |raw|
  {
    if n > 1 {
      assert raw[..n][1..] == raw[1..][..n - 1];
      CutInFirstLine(raw[1..], n - 1);
    }
  }

  lemma {:induction false} CutBehindFirstLine(raw: seq<Byte>, n: nat)
    requires raw != [] && FirstLine(raw) <= n <= |raw|
    ensures FirstLine(raw[..n]) == FirstLine(raw)
    decreases |raw|
  {
    if !IsBreak(raw[0]) && |raw| > 1 {
      assert raw[..n][1..] == raw[1..][..n - 1];
      CutBehindFirstLine(raw[1..], n - 1);
    }
  }

  ghost predicate Ragged(piece: seq<Byte>) {
    piece != [] && piece[|piece| - 1] != LF
  }

  /** The lines of a cut file: the first `k`, and possibly a ragged piece. */
  ghost predicate CutAt(whole: seq<seq<Byte>>, cut: seq<seq<Byte>>, k: nat) {
    && k < |whole| && k <= |cut| <= k + 1 && cut[..k] == whole[..k]
    && (|cut| == k + 1 ==> Ragged(cut[k]))
  }

  lemma CutBehind(head: seq<Byte>, whole: seq<seq<Byte>>, cut: seq<seq<Byte>>, k: nat)
    requires CutAt(whole, cut, k)
    ensures CutAt([head] + whole, [head] + cut, k + 1)
  {}

  /** A cut file splits into the first lines of the whole one and, unless the cut
      is between lines, a piece that does not end in LF. */
  lemma {:induction false} CutLines(raw: seq<Byte>, n: nat) returns (k: nat)
    requires n < |raw|
    ensures CutAt(Lines(raw), Lines(raw[..n]), k)
    decreases |raw|
  {
    var m := FirstLine(raw);
    if n == 0 {
      k := 0;
    } else if n < m {
      CutInFirstLine(raw, n);
      assert raw[..n][n..] == [] && raw[..n][..n] == raw[..n];
      k := 0;
    } else {
      CutBehindFirstLine(raw, n);
      assert raw[..n][m..] == raw[m..][..n - m] && raw[..n][..m] == raw[..m];
      var rest := CutLines(raw[m..], n - m);
      CutBehind(raw[..m], Lines(raw[m..]), Lines(raw[m..][..n - m]), rest);
      k := rest + 1;
    }
  }

  /** No proper prefix of an accepted file is accepted: a torn journal never passes. */
  lemma TruncationRejected(c: Codec<Frame>, cfg: Config, raw: seq<Byte>, n: nat)
    requires LinksPrevious(c) && Accepted(c, cfg, raw) && n < |raw|
    ensures !Accepted(c, cfg, raw[..n])
  {
    var k := CutLines(raw, n);
    var cut := Lines(raw[..n]);
    if |cut| == k + 1 {
      assert Ragged(cut[|cut| - 1]);
      assert ReadLines(c, cfg, cut).None?;
    } else {
      assert cut == Lines(raw)[..k];
      ShorterIsOpen(c, cfg, Lines(raw), k);
    }
  }

  lemma ShorterIsOpen(c: Codec<Frame>, cfg: Config, lines: seq<seq<Byte>>, k: nat)
    requires LinksPrevious(c) && ReadLines(c, cfg, lines).Some? && k < |lines|
    ensures ReadLines(c, cfg, lines[..k]).Some? && ReadLines(c, cfg, lines[..k]).value.progress.terminal.None?
    decreases |lines|
  {
    var n := |lines| - 1;
    if k < n {
      ShorterIsOpen(c, cfg, lines[..n], k);
      assert lines[..n][..k] == lines[..k];
    }
  }
}
