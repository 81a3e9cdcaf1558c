/**
 Bytes, lines and hash chains shared by the two append-only test journals and
 the write-ahead log.

 A journal is a byte string of frames, one per line, each naming the digest of
 the line before it. How a frame is turned into bytes is left open: a codec is
 any encoding whose lines end in their only line break, any partial decoding
 that undoes it, and any collision-free hash.
 */
module Framing {
  import opened Wrappers

  type Byte = n: nat | n < 256

  type Digest = int

  const LF: Byte := 10
  const CR: Byte := 13

  datatype Codec<!F> = Codec(
    enc: F -> seq<Byte>, dec: seq<Byte> -> Option<F>, sha: seq<Byte> -> Digest, link: F -> Option<Digest>)

  predicate IsBreak(b: Byte) {
    b == LF || b == CR
  }

  /** A line that ends in LF and holds no other line break. */
  ghost predicate WholeLine(l: seq<Byte>) {
    l != [] && l[|l| - 1] == LF && Unbroken(l[..|l| - 1])
  }

  ghost predicate Unbroken(l: seq<Byte>) {
    forall i :: 0 <= i < |l| ==> !IsBreak(l[i])
  }

  ghost predicate Injective(sha: seq<Byte> -> Digest) {
    forall a, b :: sha(a) == sha(b) ==> a == b
  }

  ghost predicate Faithful<F(!new)>(c: Codec<F>) {
    && (forall f :: WholeLine(c.enc(f)) && c.dec(c.enc(f)) == Some(f))
    && Injective(c.sha)
  }

  // ---------------------------------------------------------------- splitting into lines

  /** The length of the first line with its break; LF, CR and CR LF end a line. */
  function FirstLine(raw: seq<Byte>): (n: nat)
    requires raw != []
    ensures 1 <= n <= |raw|
    decreases |raw|
  {
    if raw[0] == LF then 1
    else if raw[0] == CR then if |raw| > 1 && raw[1] == LF then 2 else 1
    else if |raw| == 1 then 1
    else 1 + FirstLine(raw[1..])
  }

  /** `raw.splitlines(keepends=True)`. */
  function Lines(raw: seq<Byte>): seq<seq<Byte>>
    decreases |raw|
  {
    if raw == [] then [] else [raw[..FirstLine(raw)]] + Lines(raw[FirstLine(raw)..])
  }

  function Join(lines: seq<seq<Byte>>): seq<Byte>
    decreases |lines|
  {
    if lines == [] then [] else lines[0] + Join(lines[1..])
  }

  lemma {:induction false} JoinAppend(lines: seq<seq<Byte>>, l: seq<Byte>)
    ensures Join(lines + [l]) == Join(lines) + l
    decreases |lines|
  {
    if lines == [] {
      assert lines + [l] == [l] && [l][1..] == [];
    } else {
      assert (lines + [l])[1..] == lines[1..] + [l];
      JoinAppend(lines[1..], l);
    }
  }

  lemma {:induction false} FirstLineIsFrame(l: seq<Byte>, rest: seq<Byte>)
    requires WholeLine(l)
    ensures FirstLine(l + rest) == |l|
    decreases |l|
  {
    if |l| > 1 {
      assert l[..|l| - 1][0] == l[0];
      assert l[1..][..|l| - 2] == l[..|l| - 1][1..];
      FirstLineIsFrame(l[1..], rest);
      assert (l + rest)[1..] == l[1..] + rest;
    }
  }

  lemma {:induction false} FirstLineIsPiece(p: seq<Byte>)
    requires p != [] && Unbroken(p)
    ensures FirstLine(p) == |p|
    decreases |p|
  {
    if |p| > 1 {
      FirstLineIsPiece(p[1..]);
    }
  }

  /** No break before the end, where LF, CR or CR LF may stand. */
  ghost predicate OneLine(l: seq<Byte>) {
    && l != []
    && forall i :: 0 <= i < |l| - 1 ==> !IsBreak(l[i]) || (i == |l| - 2 && l[i] == CR && l[|l| - 1] == LF)
  }

  /** A line that another follows: it ends in a break, which the next does not complete. */
  ghost predicate Separate(l: seq<Byte>, rest: seq<Byte>)
    requires l != [] && rest != []
  {
    IsBreak(l[|l| - 1]) && !(l[|l| - 1] == CR && rest[0] == LF)
  }

  ghost predicate WellSplit(lines: seq<seq<Byte>>)
    decreases |lines|
  {
    lines == [] ||
    (OneLine(lines[0]) && WellSplit(lines[1..]) && (Join(lines[1..]) != [] ==> Separate(lines[0], Join(lines[1..]))))
  }

  lemma {:induction false} FirstLineExactly(l: seq<Byte>, rest: seq<Byte>)
    requires l != []
    ensures FirstLine(l + rest) == |l| <==> OneLine(l) && (rest != [] ==> Separate(l, rest))
    decreases |l|
  {
    var raw := l + rest;
    assert raw[0] == l[0] && raw[..|l|] == l && raw[|l|..] == rest;
    if |l| > 1 {
      assert raw[1..] == l[1..] + rest && raw[1] == l[1];
      if !IsBreak(l[0]) {
        FirstLineExactly(l[1..], rest);
        OneLineTail(l);
      } else if |l| > 2 {
        assert !OneLine(l);
      }
    }
  }

  lemma OneLineTail(l: seq<Byte>)
    requires |l| > 1 && !IsBreak(l[0])
    ensures OneLine(l) <==> OneLine(l[1..])
  {
    var t := l[1..];
    if OneLine(t) {
      forall i | 0 < i < |l| - 1 ensures !IsBreak(l[i]) || (i == |l| - 2 && l[i] == CR && l[|l| - 1] == LF) {
        assert l[i] == t[i - 1];
      }
    }
  }

  lemma {:induction false} LinesAreSplit(raw: seq<Byte>)
    ensures Join(Lines(raw)) == raw && WellSplit(Lines(raw))
    decreases |raw|
  {
    if raw != [] {
      var n := FirstLine(raw);
      assert raw == raw[..n] + raw[n..];
      FirstLineExactly(raw[..n], raw[n..]);
      LinesAreSplit(raw[n..]);
      assert Lines(raw)[1..] == Lines(raw[n..]);
    }
  }

  lemma {:induction false} SplitIsLines(lines: seq<seq<Byte>>)
    requires WellSplit(lines)
    ensures Lines(Join(lines)) == lines
    decreases |lines|
  {
    if lines != [] {
      var rest := Join(lines[1..]);
      FirstLineExactly(lines[0], rest);
      SplitIsLines(lines[1..]);
      assert (lines[0] + rest)[..|lines[0]|] == lines[0] && (lines[0] + rest)[|lines[0]|..] == rest;
      assert lines == [lines[0]] + lines[1..];
    }
  }

  /** The lines of a file are the one way to split it, leaving out nothing, behind each
      LF, CR LF and CR without LF. */
  lemma LinesExactly(raw: seq<Byte>, lines: seq<seq<Byte>>)
    ensures lines == Lines(raw) <==> Join(lines) == raw && WellSplit(lines)
  {
    LinesAreSplit(raw);
    if WellSplit(lines) {
      SplitIsLines(lines);
    }
  }

  /** Whole lines, then the piece left of a line that was cut. */
  function WithPiece(lines: seq<seq<Byte>>, piece: seq<Byte>): seq<seq<Byte>> {
    lines + if piece == [] then [] else [piece]
  }

  /** Splitting returns the frames and, if the file is cut inside a frame, the piece left of it. */
  lemma {:induction false} LinesOfJoin(lines: seq<seq<Byte>>, piece: seq<Byte>)
    requires forall i :: 0 <= i < |lines| ==> WholeLine(lines[i])
    requires Unbroken(piece)
    ensures Lines(Join(lines) + piece) == WithPiece(lines, piece)
    decreases |lines|
  {
    if lines == [] {
      assert Join(lines) + piece == piece;
      if piece != [] {
        FirstLineIsPiece(piece);
        assert piece[..|piece|] == piece && piece[|piece|..] == [];
        assert Lines(piece) == [piece];
      }
    } else {
      var rest := Join(lines[1..]) + piece;
      assert Join(lines) + piece == lines[0] + rest;
      FirstLineIsFrame(lines[0], rest);
      LinesOfJoin(lines[1..], piece);
      assert (lines[0] + rest)[|lines[0]|..] == rest;
    }
  }

  /** How many whole lines the first `n` bytes hold. */
  function Whole(lines: seq<seq<Byte>>, n: nat): (k: nat)
    ensures k <= |lines|
    decreases |lines|
  {
    if lines == [] || n < |lines[0]| then 0 else 1 + Whole(lines[1..], n - |lines[0]|)
  }

  /** The bytes beyond the last whole line. */
  function Tail(lines: seq<seq<Byte>>, n: nat): seq<Byte>
    requires n <= |Join(lines)|
    decreases |lines|
  {
    if lines == [] then [] else if n < |lines[0]| then lines[0][..n] else Tail(lines[1..], n - |lines[0]|)
  }

  /** Any cut is whole lines followed by a piece of the next, which holds no line break. */
  lemma {:induction false} CutIsWholeLinesAndPiece(lines: seq<seq<Byte>>, n: nat)
    requires forall i :: 0 <= i < |lines| ==> WholeLine(lines[i])
    requires n <= |Join(lines)|
    ensures Join(lines)[..n] == Join(lines[..Whole(lines, n)]) + Tail(lines, n)
    ensures Unbroken(Tail(lines, n))
    ensures Tail(lines, n) == [] <==> n == |Join(lines[..Whole(lines, n)])|
    ensures n == |Join(lines)| <==> Whole(lines, n) == |lines|
    decreases |lines|
  {
    if lines != [] {
      if n < |lines[0]| {
        assert lines[..0] == [];
        assert Join(lines)[..n] == lines[0][..n];
        assert forall i :: 0 <= i < n ==> lines[0][..n][i] == lines[0][..|lines[0]| - 1][i];
      } else {
        var rest, m := lines[1..], n - |lines[0]|;
        CutIsWholeLinesAndPiece(rest, m);
        var k := Whole(rest, m);
        assert lines[..k + 1][1..] == rest[..k];
        assert Join(lines)[..n] == lines[0] + Join(rest)[..m];
      }
    } else {
      assert lines[..0] == [];
    }
  }

  // ---------------------------------------------------------------- hash chains

  /** Every line decodes and names the digest of the line before it; the first names none. */
  ghost predicate Linked<F>(c: Codec<F>, lines: seq<seq<Byte>>) {
    forall i :: 0 <= i < |lines| ==>
      && c.dec(lines[i]).Some?
      && c.link(c.dec(lines[i]).value) == Tip(c, lines[..i])
  }

  /** The digest a next frame has to name. */
  function Tip<F>(c: Codec<F>, lines: seq<seq<Byte>>): Option<Digest> {
    if lines == [] then None else Some(c.sha(lines[|lines| - 1]))
  }

  lemma LinkedPrefix<F>(c: Codec<F>, lines: seq<seq<Byte>>, k: nat)
    requires Linked(c, lines) && k <= |lines|
    ensures Linked(c, lines[..k])
  {
    forall i | 0 <= i < k ensures c.dec(lines[..k][i]).Some? && c.link(c.dec(lines[..k][i]).value) == Tip(c, lines[..k][..i]) {
      assert lines[..k][..i] == lines[..i];
    }
  }

  /** With a collision-free hash the tip of a chain identifies every line of it. */
  lemma {:induction false} EqualTipsEqualLines<F>(c: Codec<F>, a: seq<seq<Byte>>, b: seq<seq<Byte>>)
    requires Injective(c.sha)
    requires Linked(c, a) && Linked(c, b) && Tip(c, a) == Tip(c, b)
    ensures a == b
    decreases |a|
  {
    if a != [] {
      var m, n := |a| - 1, |b| - 1;
      assert a[m] == b[n];
      LinkedPrefix(c, a, m);
      LinkedPrefix(c, b, n);
      EqualTipsEqualLines(c, a[..m], b[..n]);
      assert a == a[..m] + [a[m]] && b == b[..n] + [b[n]];
    }
  }

  lemma LinkedExtend<F>(c: Codec<F>, lines: seq<seq<Byte>>, l: seq<Byte>)
    requires Linked(c, lines) && c.dec(l).Some? && c.link(c.dec(l).value) == Tip(c, lines)
    ensures Linked(c, lines + [l])
  {
    var all := lines + [l];
    forall i | 0 <= i < |all| ensures c.dec(all[i]).Some? && c.link(c.dec(all[i]).value) == Tip(c, all[..i]) {
      assert all[..i] == if i < |lines| then lines[..i] else lines;
    }
  }
}
