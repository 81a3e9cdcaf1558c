/**
 Crash recovery of the denial journal: what the reader makes of the file of any
 writer, cut at any byte.
 */
module DenialRecovery {
  import opened Wrappers
  import opened Framing
  import opened DenialJournal

  /** The clock rises strictly from frame to frame; the reader demands it, the writer does not check it. */
  ghost predicate ClockRises(frames: seq<Frame>) {
    && (forall i :: 0 <= i < |frames| ==> 0 <= frames[i].clock)
    && (forall i, j :: 0 <= i < j < |frames| ==> frames[i].clock < frames[j].clock)
  }

  /** A log written in protocol order. */
  ghost predicate Proper(c: Codec<Frame>, cfg: Config, run: Id, frames: seq<Frame>) {
    WellChained(c, cfg, run, frames) && ClockRises(frames) && Fold(cfg, Payloads(frames)).Some?
  }

  lemma {:induction false} FoldPrefix(cfg: Config, payloads: seq<Payload>, i: nat)
    requires i <= |payloads| && Fold(cfg, payloads).Some?
    ensures Fold(cfg, payloads[..i]).Some?
    decreases |payloads|
  {
    if i == |payloads| {
      assert payloads[..i] == payloads;
    } else {
      var shorter := payloads[..|payloads| - 1];
      FoldPrefix(cfg, shorter, i);
      assert shorter[..i] == payloads[..i];
    }
  }

  /** The reader's state after the first `i` frames. */
  ghost function After(c: Codec<Frame>, cfg: Config, frames: seq<Frame>, i: nat): Reader
    requires i <= |frames| && Fold(cfg, Payloads(frames)[..i]).Some?
  {
    Reader(
      frames[..i], Fold(cfg, Payloads(frames)[..i]).value, Tip(c, Encoded(c, frames)[..i]),
      if i == 0 then -1 else frames[i - 1].clock, if i == 0 then None else Some(frames[i - 1].run))
  }

  lemma AfterOneMore(c: Codec<Frame>, cfg: Config, frames: seq<Frame>, i: nat)
    requires i < |frames|
    requires Fold(cfg, Payloads(frames)[..i]).Some? && Fold(cfg, Payloads(frames)[..i + 1]).Some?
    ensures PayloadFlaw(cfg, Fold(cfg, Payloads(frames)[..i]).value, frames[i].payload).None?
    ensures Accept(c, After(c, cfg, frames, i), frames[i], Encoded(c, frames)[i]) == After(c, cfg, frames, i + 1)
  {
    var p := Payloads(frames);
    assert p[..i + 1][..i] == p[..i] && p[..i + 1][i] == frames[i].payload;
    assert frames[..i + 1] == frames[..i] + [frames[i]];
    assert Encoded(c, frames)[..i + 1][i] == Encoded(c, frames)[i];
  }

  /** One well-formed frame is accepted, and takes the reader one state further. */
  lemma AcceptOne(c: Codec<Frame>, cfg: Config, run: Id, frames: seq<Frame>, i: nat)
    requires Faithful(c) && Proper(c, cfg, run, frames) && i < |frames|
    requires Fold(cfg, Payloads(frames)[..i]).Some? && Fold(cfg, Payloads(frames)[..i + 1]).Some?
    ensures
      var line := Encoded(c, frames)[i];
      && line != [] && c.dec(line) == Some(frames[i])
      && LineFlaw(c, cfg, After(c, cfg, frames, i), line).None?
      && Accept(c, After(c, cfg, frames, i), frames[i], line) == After(c, cfg, frames, i + 1)
  {
    var line := Encoded(c, frames)[i];
    assert line == c.enc(frames[i]) && WholeLine(line);
    AfterOneMore(c, cfg, frames, i);
  }

  lemma EncodedWhole(c: Codec<Frame>, frames: seq<Frame>)
    requires Faithful(c)
    ensures forall i :: 0 <= i < |frames| ==> WholeLine(Encoded(c, frames)[i])
  {}

  /** Each line takes the reader from one state of the list to the next. */
  ghost predicate Drives(c: Codec<Frame>, cfg: Config, states: seq<Reader>, lines: seq<seq<Byte>>) {
    |states| == |lines| + 1
    && forall i, j :: 0 <= i < |lines| && j == i + 1 ==> Moves(c, cfg, states[i], lines[i], states[j])
  }

  ghost predicate Moves(c: Codec<Frame>, cfg: Config, r: Reader, line: seq<Byte>, next: Reader) {
    line != [] && LineFlaw(c, cfg, r, line).None? && Accept(c, r, c.dec(line).value, line) == next
  }

  /** A piece without a line break is where reading stops. */
  lemma {:induction false} ReadDriven(c: Codec<Frame>, cfg: Config, states: seq<Reader>, lines: seq<seq<Byte>>, tail: seq<Byte>)
    requires Drives(c, cfg, states, lines) && Unbroken(tail)
    ensures forall j :: 0 <= j < |WithPiece(lines, tail)| ==> WithPiece(lines, tail)[j] != []
    ensures ReadLines(c, cfg, states[0], WithPiece(lines, tail))
         == Reading(states[|lines|], if tail == [] then None else Some(Torn))
    decreases |lines|
  {
    var here := WithPiece(lines, tail);
    if lines == [] {
      assert tail != [] ==> here == [tail] && tail[|tail| - 1] != LF;
    } else {
      forall i, j | 0 <= i < |lines| - 1 && j == i + 1 ensures Moves(c, cfg, states[1..][i], lines[1..][i], states[1..][j]) {
        assert Moves(c, cfg, states[i + 1], lines[i + 1], states[j + 1]);
      }
      ReadDriven(c, cfg, states[1..], lines[1..], tail);
      assert here[1..] == WithPiece(lines[1..], tail);
      assert Moves(c, cfg, states[0], lines[0], states[1]);
    }
  }

  lemma Driven(c: Codec<Frame>, cfg: Config, run: Id, frames: seq<Frame>, k: nat) returns (states: seq<Reader>)
    requires Faithful(c) && Proper(c, cfg, run, frames) && k <= |frames|
    requires forall j :: 0 <= j <= |frames| ==> Fold(cfg, Payloads(frames)[..j]).Some?
    ensures Drives(c, cfg, states, Encoded(c, frames)[..k])
    ensures states[0] == UNREAD && states[k] == After(c, cfg, frames, k)
  {
    states := seq(k + 1, i requires 0 <= i < k + 1 => After(c, cfg, frames, i));
    forall i, j | 0 <= i < k && j == i + 1
      ensures Moves(c, cfg, states[i], Encoded(c, frames)[..k][i], states[j])
    {
      AcceptOne(c, cfg, run, frames, i);
    }
  }

  lemma {:induction false} JoinSize(lines: seq<seq<Byte>>, limit: nat)
    requires forall i :: 0 <= i < |lines| ==> |lines[i]| <= limit
    ensures |Join(lines)| <= |lines| * limit
    decreases |lines|
  {
    if lines != [] {
      JoinSize(lines[1..], limit);
      assert |lines| * limit == |lines[1..]| * limit + limit;
    }
  }

  lemma FileFits(c: Codec<Frame>, cfg: Config, run: Id, frames: seq<Frame>)
    requires WellChained(c, cfg, run, frames)
    ensures |Join(Encoded(c, frames))| <= cfg.maxFrames * cfg.maxBytes
  {
    JoinSize(Encoded(c, frames), cfg.maxBytes);
    Scale(|frames|, cfg.maxFrames, cfg.maxBytes);
  }

  /** What the reader makes of the first `n` bytes. */
  lemma ReadsCut(c: Codec<Frame>, cfg: Config, run: Id, frames: seq<Frame>, n: nat)
    requires Faithful(c) && Proper(c, cfg, run, frames)
    requires n <= |Join(Encoded(c, frames))|
    ensures
      var k := Whole(Encoded(c, frames), n);
      && Fold(cfg, Payloads(frames)[..k]).Some?
      && Read(c, cfg, Join(Encoded(c, frames))[..n])
           == Reading(
                After(c, cfg, frames, k),
                if Tail(Encoded(c, frames), n) != [] then Some(Torn) else if k == 0 then Some(Empty) else None)
  {
    var lines := Encoded(c, frames);
    var k, tail := Whole(lines, n), Tail(lines, n);
    EncodedWhole(c, frames);
    CutIsWholeLinesAndPiece(lines, n);
    LinesOfJoin(lines[..k], tail);
    forall j | 0 <= j <= |frames| ensures Fold(cfg, Payloads(frames)[..j]).Some? {
      FoldPrefix(cfg, Payloads(frames), j);
    }
    var states := Driven(c, cfg, run, frames, k);
    ReadDriven(c, cfg, states, lines[..k], tail);
    FileFits(c, cfg, run, frames);
  }

  /** Cut the file of a proper log anywhere: the reader recovers exactly the whole
      frames before the cut, with the state those frames lead to; it reports no
      flaw exactly for a non-empty cut between frames; and it proves zero denials
      exactly when nothing was cut and the last frame is a passing TERMINAL. */
  lemma TruncationRecovers(c: Codec<Frame>, cfg: Config, run: Id, frames: seq<Frame>, n: nat)
    requires Faithful(c) && Proper(c, cfg, run, frames)
    requires n <= |Join(Encoded(c, frames))|
    ensures
      var lines := Encoded(c, frames);
      var k := Whole(lines, n);
      var reading := Read(c, cfg, Join(lines)[..n]);
      && reading.reader.frames == frames[..k]
      && Fold(cfg, Payloads(frames)[..k]) == Some(reading.reader.progress)
      && (reading.flaw.None? <==> 0 < k && n == |Join(lines[..k])|)
      && (ZeroDenialsProven(reading) <==>
            n == |Join(lines)| && frames != [] && GreenTerminal(Some(frames[|frames| - 1].payload)))
  {
    var lines := Encoded(c, frames);
    EncodedWhole(c, frames);
    CutIsWholeLinesAndPiece(lines, n);
    ReadsCut(c, cfg, run, frames, n);
    var k, whole := Whole(lines, n), Tail(lines, n) == [];
    assert k == |lines| ==> whole by {
      assert lines[..|lines|] == lines;
    }
    var reading := Read(c, cfg, Join(lines)[..n]);
    ZeroFromState(cfg, Payloads(frames), k, reading, whole);
  }

  /** The whole lines among the first `n` bytes are at least those that end there. */
  lemma {:induction false} WholeAtLeast(lines: seq<seq<Byte>>, k: nat, n: nat)
    requires k <= |lines| && |Join(lines[..k])| <= n
    ensures Whole(lines, n) >= k
    decreases |lines|
  {
    if k > 0 {
      assert lines[..k][1..] == lines[1..][..k - 1] && lines[..k][0] == lines[0];
      WholeAtLeast(lines[1..], k - 1, n - |lines[0]|);
    }
  }

  /** All but the last of the lines sent are in the file: a cut has more than
      those only where nothing is cut. */
  lemma WholeOfSent(lines: seq<seq<Byte>>, acked: nat, n: nat)
    requires forall i :: 0 <= i < |lines| ==> WholeLine(lines[i])
    requires acked <= |lines| <= acked + 1 && n <= |Join(lines)|
    ensures Whole(lines, n) > acked <==> |lines| > acked && n == |Join(lines)|
    ensures n >= |Join(lines[..acked])| ==> Whole(lines, n) >= acked
  {
    CutIsWholeLinesAndPiece(lines, n);
    if n >= |Join(lines[..acked])| {
      WholeAtLeast(lines, acked, n);
    }
  }

  /** Whatever short writes, failed writes or failed syncs a journal has been
      through, cut its file anywhere: the reader recovers the whole frames before
      the cut, and the frame that failed only if every byte of it arrived. No
      frame whose append succeeded is missing from the uncut file. */
  lemma CrashRecovers(j: Journal, n: nat)
    requires j.Valid() && Faithful(j.c) && ClockRises(j.Sent()) && Fold(j.cfg, Payloads(j.Sent())).Some?
    requires n <= |j.file|
    ensures
      var lines := Encoded(j.c, j.Sent());
      var k := Whole(lines, n);
      var reading := Read(j.c, j.cfg, j.file[..n]);
      && reading.reader.frames == j.Sent()[..k]
      && Fold(j.cfg, Payloads(j.Sent())[..k]) == Some(reading.reader.progress)
      && (reading.flaw.None? <==> 0 < k && n == |Join(lines[..k])|)
      && (k > |j.frames| <==> j.refused.Some? && n == |Join(lines)|)
      && (n == |j.file| ==> j.frames <= reading.reader.frames)
      && (ZeroDenialsProven(reading) <==>
            n == |Join(lines)| && j.Sent() != [] && GreenTerminal(Some(j.Sent()[|j.Sent()| - 1].payload)))
  {
    var lines := Encoded(j.c, j.Sent());
    assert j.file[..n] == Join(lines)[..n];
    EncodedWhole(j.c, j.Sent());
    assert lines[..|j.frames|] == Encoded(j.c, j.frames);
    WholeOfSent(lines, |j.frames|, n);
    TruncationRecovers(j.c, j.cfg, j.run, j.Sent(), n);
  }

  lemma ZeroFromState(cfg: Config, payloads: seq<Payload>, k: nat, reading: Reading, whole: bool)
    requires Fold(cfg, payloads).Some? && k <= |payloads|
    requires Fold(cfg, payloads[..k]) == Some(reading.reader.progress)
    requires reading.flaw.None? <==> 0 < k && whole
    ensures ZeroDenialsProven(reading)
       <==> whole && k == |payloads| && payloads != [] && GreenTerminal(Some(payloads[|payloads| - 1]))
  {
    TerminalIsLast(cfg, payloads, k);
  }

  lemma Scale(a: nat, b: nat, m: nat)
    requires a <= b
    ensures a * m <= b * m
  {
    assert b * m == a * m + (b - a) * m;
  }

  /** A passing TERMINAL shows in the state exactly when it is the last payload read. */
  lemma TerminalIsLast(cfg: Config, payloads: seq<Payload>, k: nat)
    requires Fold(cfg, payloads).Some? && k <= |payloads|
    ensures Fold(cfg, payloads[..k]).Some?
    ensures
      var p := Fold(cfg, payloads[..k]).value;
      (GreenTerminal(p.terminal) && p.denials == []) <==>
        k == |payloads| && payloads != [] && GreenTerminal(Some(payloads[|payloads| - 1]))
  {
    FoldPrefix(cfg, payloads, k);
    if k == |payloads| {
      assert payloads[..k] == payloads;
      if k > 0 {
        FoldPrefix(cfg, payloads, k - 1);
        TerminalSticks(cfg, payloads, k - 1);
      }
    } else {
      TerminalSticks(cfg, payloads, k);
    }
  }

  /** Nothing may follow a TERMINAL. */
  lemma {:induction false} TerminalSticks(cfg: Config, payloads: seq<Payload>, k: nat)
    requires Fold(cfg, payloads).Some? && k < |payloads|
    ensures Fold(cfg, payloads[..k]).Some? && Fold(cfg, payloads[..k]).value.terminal.None?
    decreases |payloads| - k
  {
    FoldPrefix(cfg, payloads, k);
    FoldPrefix(cfg, payloads, k + 1);
    assert payloads[..k + 1][..k] == payloads[..k];
  }
}
