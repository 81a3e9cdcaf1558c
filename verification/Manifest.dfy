/**
 Reading a declared manifest against the directory tree it describes, and the
 write-ahead logs among its files.
 */
module Manifest {
  import opened Wrappers
  import opened Framing

  /** A path below the work directory, as its components; the work directory is `[]`. */
  type Path = seq<nat>

  datatype Entry = Directory | File(content: seq<Byte>)

  /** A directory tree: every entry but the root lies in a directory of the tree. */
  type Tree = map<Path, Entry>

  ghost predicate WellFormed(t: Tree) {
    && [] in t && t[[]] == Directory
    && forall p :: p in t && p != [] ==> p[..|p| - 1] in t && t[p[..|p| - 1]] == Directory
  }

  datatype Row = Row(path: Path, bytes: nat, digest: Digest)

  /** A directory on the way to `x`. */
  predicate Above(p: Path, x: Path) {
    p < x
  }

  /** The directories the reader lists: the work directory and every parent of a declared file. */
  ghost predicate Parent(rows: seq<Row>, p: Path) {
    p == [] || exists i :: 0 <= i < |rows| && Above(p, rows[i].path)
  }

  ghost predicate Declared(rows: seq<Row>, p: Path) {
    exists i :: 0 <= i < |rows| && rows[i].path == p
  }

  /** Each row names a file of the tree with the declared size and digest. */
  predicate RowMatches(t: Tree, sha: seq<Byte> -> Digest, row: Row) {
    && row.path != [] && row.path in t && t[row.path].File?
    && |t[row.path].content| == row.bytes && sha(t[row.path].content) == row.digest
  }

  /** Every entry of a listed directory is listed itself or declared. */
  ghost predicate ListingsExpected(t: Tree, rows: seq<Row>) {
    forall q :: q in t && q != [] && Parent(rows, q[..|q| - 1]) ==> Parent(rows, q) || Declared(rows, q)
  }

  /** The tree part of `manifest_read`. */
  ghost predicate Accepts(t: Tree, sha: seq<Byte> -> Digest, rows: seq<Row>) {
    && rows != []
    && Distinct(rows)
    && AllMatch(t, sha, rows)
    && ListingsExpected(t, rows)
  }

  /** What the manifest is for: the files of the whole tree are exactly the
      declared ones, and it has no directory that leads to none of them. */
  ghost predicate Exact(t: Tree, sha: seq<Byte> -> Digest, rows: seq<Row>) {
    && (forall p :: p in t && t[p].File? ==> Declared(rows, p))
    && AllMatch(t, sha, rows)
    && (forall p :: p in t && t[p] == Directory ==> Parent(rows, p))
  }

  /** A directory on the way to an entry of a tree is a directory of the tree. */
  lemma {:induction false} PrefixInTree(t: Tree, p: Path, k: nat)
    requires WellFormed(t) && p in t && k < |p|
    ensures p[..k] in t && t[p[..k]] == Directory
    decreases |p|
  {
    var up := p[..|p| - 1];
    if k < |up| {
      PrefixInTree(t, up, k);
      assert up[..k] == p[..k];
    } else {
      assert up == p[..k];
    }
  }

  ghost predicate AllMatch(t: Tree, sha: seq<Byte> -> Digest, rows: seq<Row>) {
    forall i :: 0 <= i < |rows| ==>
      && rows[i].path != [] && rows[i].path in t && t[rows[i].path].File?
      && |t[rows[i].path].content| == rows[i].bytes && sha(t[rows[i].path].content) == rows[i].digest
  }

  lemma DeclaredIsFile(t: Tree, sha: seq<Byte> -> Digest, rows: seq<Row>, p: Path)
    requires AllMatch(t, sha, rows) && Declared(rows, p)
    ensures p in t && t[p].File?
  {
    var i :| 0 <= i < |rows| && rows[i].path == p;
    assert RowMatches(t, sha, rows[i]);
  }

  lemma ParentIsDirectory(t: Tree, sha: seq<Byte> -> Digest, rows: seq<Row>, p: Path)
    requires WellFormed(t) && AllMatch(t, sha, rows) && Parent(rows, p)
    ensures p in t && t[p] == Directory
  {
    if p != [] {
      var i :| 0 <= i < |rows| && Above(p, rows[i].path);
      assert RowMatches(t, sha, rows[i]);
      PrefixInTree(t, rows[i].path, |p|);
      assert rows[i].path[..|p|] == p;
    }
  }

  /** Listing only the parents of declared files, level by level, leaves nothing out:
      every entry of the tree, at any depth, is declared or a parent. */
  lemma {:induction false} NothingUndeclared(t: Tree, sha: seq<Byte> -> Digest, rows: seq<Row>, p: Path)
    requires WellFormed(t) && Accepts(t, sha, rows) && p in t
    ensures Parent(rows, p) || Declared(rows, p)
    decreases |p|
  {
    if p != [] {
      var up := p[..|p| - 1];
      NothingUndeclared(t, sha, rows, up);
      assert Parent(rows, up) by {
        if Declared(rows, up) {
          DeclaredIsFile(t, sha, rows, up);
        }
      }
    }
  }

  /** The reader accepts exactly the trees that hold the declared files and no
      undeclared file or directory at any depth. */
  lemma AcceptsExactly(t: Tree, sha: seq<Byte> -> Digest, rows: seq<Row>)
    requires WellFormed(t) && rows != [] && Distinct(rows)
    ensures Accepts(t, sha, rows) <==> Exact(t, sha, rows)
  {
    if Accepts(t, sha, rows) {
      forall p | p in t ensures (t[p].File? ==> Declared(rows, p)) && (t[p] == Directory ==> Parent(rows, p)) {
        NothingUndeclared(t, sha, rows, p);
        if Parent(rows, p) {
          ParentIsDirectory(t, sha, rows, p);
        }
        if Declared(rows, p) {
          DeclaredIsFile(t, sha, rows, p);
        }
      }
    }
  }

  /** What the row loop has gathered. */
  ghost predicate Gathered(rows: seq<Row>, seen: set<Path>, parents: set<Path>) {
    && (forall p :: p in seen <==> Declared(rows, p))
    && (forall p :: p in parents <==> Parent(rows, p))
  }

  ghost predicate Distinct(rows: seq<Row>) {
    forall i, j :: 0 <= i < j < |rows| ==> rows[i].path != rows[j].path
  }

  /** The row loop: paths, sizes and digests, and the directories to list. */
  method ReadRows(t: Tree, sha: seq<Byte> -> Digest, rows: seq<Row>) returns (ok: bool, seen: set<Path>, parents: set<Path>)
    ensures ok <==> Distinct(rows) && AllMatch(t, sha, rows)
    ensures ok ==> Gathered(rows, seen, parents)
  {
    ok, seen, parents := false, {}, {[]};
    var i := 0;
    while i < |rows|
      invariant 0 <= i <= |rows|
      invariant Gathered(rows[..i], seen, parents) && Distinct(rows[..i]) && AllMatch(t, sha, rows[..i])
    {
      assert rows[..i] + [rows[i]] == rows[..i + 1];
      OneMoreRow(t, sha, rows[..i], rows[i]);
      if rows[i].path in seen || !RowMatches(t, sha, rows[i]) {
        PrefixFails(t, sha, rows, i + 1);
        return;
      }
      seen, parents := seen + {rows[i].path}, parents + Prefixes(rows[i].path);
      i := i + 1;
    }
    assert rows[..i] == rows;
    ok := true;
  }

  lemma PrefixFails(t: Tree, sha: seq<Byte> -> Digest, rows: seq<Row>, i: nat)
    requires i <= |rows| && !(Distinct(rows[..i]) && AllMatch(t, sha, rows[..i]))
    ensures !(Distinct(rows) && AllMatch(t, sha, rows))
  {}

  /** The tree part of the reader as it runs: rows first, then one listing per parent. */
  method ReadTree(t: Tree, sha: seq<Byte> -> Digest, rows: seq<Row>) returns (ok: bool)
    ensures ok <==> Accepts(t, sha, rows)
  {
    if rows == [] {
      return false;
    }
    var seen, parents;
    ok, seen, parents := ReadRows(t, sha, rows);
    if ok {
      ok := forall q :: q in t.Keys && q != [] && q[..|q| - 1] in parents ==> q in parents || q in seen;
    }
  }

  /** The directories above a path. */
  function Prefixes(p: Path): (above: set<Path>)
    ensures forall q :: q in above <==> Above(q, p)
    decreases |p|
  {
    if p == [] then {} else
      AboveOneMore(p);
      Prefixes(p[..|p| - 1]) + {p[..|p| - 1]}
  }

  lemma AboveOneMore(p: Path)
    requires p != []
    ensures forall q :: Above(q, p) <==> Above(q, p[..|p| - 1]) || q == p[..|p| - 1]
  {
    var up := p[..|p| - 1];
    forall q ensures Above(q, p) <==> Above(q, up) || q == up {
      if Above(q, p) {
        assert q == p[..|q|] && up[..|q|] == p[..|q|];
      }
    }
  }

  lemma OneMoreRow(t: Tree, sha: seq<Byte> -> Digest, rows: seq<Row>, row: Row)
    ensures forall p :: Declared(rows + [row], p) <==> Declared(rows, p) || p == row.path
    ensures forall p :: Parent(rows + [row], p) <==> Parent(rows, p) || Above(p, row.path)
    ensures Distinct(rows + [row]) <==> Distinct(rows) && !Declared(rows, row.path)
    ensures AllMatch(t, sha, rows + [row]) <==> AllMatch(t, sha, rows) && RowMatches(t, sha, row)
  {
    var all := rows + [row];
    assert all[|rows|] == row;
    assert forall i :: 0 <= i < |rows| ==> all[i] == rows[i];
    forall p ensures Declared(all, p) <==> Declared(rows, p) || p == row.path {
      if i :| 0 <= i < |rows| && rows[i].path == p {
        assert all[i].path == p;
      }
    }
    forall p ensures Parent(all, p) <==> Parent(rows, p) || Above(p, row.path) {
      if i :| 0 <= i < |rows| && Above(p, rows[i].path) {
        assert all[i] == rows[i];
      }
    }
    if Distinct(all) {
      forall i | 0 <= i < |rows| ensures rows[i].path != row.path {
        assert all[i].path != all[|rows|].path;
      }
      assert Distinct(rows);
    }
    if AllMatch(t, sha, all) {
      assert RowMatches(t, sha, all[|rows|]);
      forall i | 0 <= i < |rows| ensures RowMatches(t, sha, rows[i]) {
        assert RowMatches(t, sha, all[i]);
      }
    }
  }

  // ---------------------------------------------------------------- write-ahead logs

  datatype Resource = AuthorityRead | ConfigHttp(get: bool) | RealResource | OtherResource

  datatype Kind = Owner(contextNamed: bool) | Reserve(resource: Resource) | Result(unknown: bool) | OtherKind

  /** `intact` says that the frame carries the digest of its own fields. */
  datatype WalFrame = WalFrame(seqNo: int, previous: Option<Digest>, session: nat, clock: int, kind: Kind, intact: bool)

  /** A resource that only reads. */
  predicate ReadsOnly(r: Resource) {
    r == AuthorityRead || r == ConfigHttp(true)
  }

  predicate FrameOk(session: nat, f: WalFrame, i: nat, previous: Option<Digest>, clock: int, unknown: bool) {
    && f.seqNo == i && f.previous == previous && f.intact
    && f.session == session && f.clock >= clock
    && (i == 0 ==> f.kind == Owner(true))
    && (f.kind.Reserve? ==> f.kind.resource != RealResource && (unknown ==> ReadsOnly(f.kind.resource)))
  }

  function WalTip(digest: WalFrame -> Digest, frames: seq<WalFrame>): Option<Digest> {
    if frames == [] then None else Some(digest(frames[|frames| - 1]))
  }

  predicate UnknownBefore(frames: seq<WalFrame>, i: nat)
    requires i <= |frames|
  {
    exists j :: 0 <= j < i && frames[j].kind == Result(true)
  }

  /** A log that can be relied on: sealed and chained frames of one session, owned
      from the first, clocks that never go back, no real resource, and after an
      unknown outcome only reads. */
  ghost predicate Sound(digest: WalFrame -> Digest, session: nat, frames: seq<WalFrame>) {
    && frames != [] && frames[0].kind == Owner(true)
    && (forall i :: 0 <= i < |frames| ==> ChainedFrame(digest, session, frames, i))
    && ClocksRise(frames) && ReadsAfterUnknown(frames)
  }

  ghost predicate ChainedFrame(digest: WalFrame -> Digest, session: nat, frames: seq<WalFrame>, i: nat)
    requires i < |frames|
  {
    && frames[i].seqNo == i && frames[i].intact && frames[i].session == session
    && frames[i].previous == WalTip(digest, frames[..i])
    && (frames[i].kind.Reserve? ==> frames[i].kind.resource != RealResource)
  }

  ghost predicate ClocksRise(frames: seq<WalFrame>) {
    && (forall i :: 0 <= i < |frames| ==> -1 <= frames[i].clock)
    && (forall i, j :: 0 <= i < j < |frames| ==> frames[i].clock <= frames[j].clock)
  }

  ghost predicate ReadsAfterUnknown(frames: seq<WalFrame>) {
    forall i, j :: 0 <= i < j < |frames| && frames[i].kind == Result(true) && frames[j].kind.Reserve?
      ==> frames[j].kind.resource == AuthorityRead || frames[j].kind.resource == ConfigHttp(true)
  }

  /** The log loop of the reader; `torn` says that the file does not end in LF. */
  method ReadWal(digest: WalFrame -> Digest, session: nat, frames: seq<WalFrame>, torn: bool) returns (ok: bool)
    ensures ok <==> Sound(digest, session, frames) && !torn
  {
    var previous: Option<Digest>, clock, unknown := None, -1, false;
    var i := 0;
    while i < |frames|
      invariant 0 <= i <= |frames|
      invariant previous == WalTip(digest, frames[..i]) && clock == (if i == 0 then -1 else frames[i - 1].clock)
      invariant unknown <==> UnknownBefore(frames, i)
      invariant i > 0 ==> Sound(digest, session, frames[..i])
    {
      var f := frames[i];
      assert frames[..i + 1] == frames[..i] + [f];
      SoundOneMore(digest, session, frames[..i], f, unknown);
      if !FrameOk(session, f, i, previous, clock, unknown) {
        UnsoundForGood(digest, session, frames, i + 1);
        return false;
      }
      previous, clock, unknown := Some(digest(f)), f.clock, unknown || f.kind == Result(true);
      i := i + 1;
    }
    assert frames[..i] == frames;
    ok := !torn && previous.Some?;
  }

  lemma ChainedOneMore(digest: WalFrame -> Digest, session: nat, frames: seq<WalFrame>, f: WalFrame)
    ensures (forall i :: 0 <= i < |frames + [f]| ==> ChainedFrame(digest, session, frames + [f], i))
       <==> (forall i :: 0 <= i < |frames| ==> ChainedFrame(digest, session, frames, i))
            && ChainedFrame(digest, session, frames + [f], |frames|)
  {
    var all := frames + [f];
    forall i | 0 <= i < |frames| ensures ChainedFrame(digest, session, all, i) <==> ChainedFrame(digest, session, frames, i) {
      assert all[i] == frames[i] && all[..i] == frames[..i];
    }
  }

  lemma ClocksOneMore(frames: seq<WalFrame>, f: WalFrame)
    ensures ClocksRise(frames + [f])
       <==> ClocksRise(frames) && f.clock >= (if frames == [] then -1 else frames[|frames| - 1].clock)
  {
    var all := frames + [f];
    assert all[|frames|] == f && forall i :: 0 <= i < |frames| ==> all[i] == frames[i];
  }

  lemma UnknownOneMore(frames: seq<WalFrame>, f: WalFrame)
    ensures ReadsAfterUnknown(frames + [f])
       <==> ReadsAfterUnknown(frames)
            && (UnknownBefore(frames, |frames|) && f.kind.Reserve? ==> ReadsOnly(f.kind.resource))
  {
    var all := frames + [f];
    assert all[|frames|] == f && forall i :: 0 <= i < |frames| ==> all[i] == frames[i];
  }

  lemma SoundOneMore(digest: WalFrame -> Digest, session: nat, frames: seq<WalFrame>, f: WalFrame, unknown: bool)
    requires frames != [] ==> Sound(digest, session, frames)
    requires unknown <==> UnknownBefore(frames, |frames|)
    ensures Sound(digest, session, frames + [f])
       <==> FrameOk(session, f, |frames|, WalTip(digest, frames), if frames == [] then -1 else frames[|frames| - 1].clock, unknown)
  {
    var all := frames + [f];
    assert all[|frames|] == f && all[..|frames|] == frames && (frames != [] ==> all[0] == frames[0]);
    ChainedOneMore(digest, session, frames, f);
    ClocksOneMore(frames, f);
    UnknownOneMore(frames, f);
  }

  lemma UnsoundForGood(digest: WalFrame -> Digest, session: nat, frames: seq<WalFrame>, i: nat)
    requires 0 < i <= |frames| && !Sound(digest, session, frames[..i])
    ensures !Sound(digest, session, frames)
  {
    var start := frames[..i];
    if Sound(digest, session, frames) {
      forall k | 0 <= k < i ensures ChainedFrame(digest, session, start, k) {
        assert ChainedFrame(digest, session, frames, k) && start[..k] == frames[..k];
      }
      assert Sound(digest, session, start);
    }
  }

  ghost predicate Chained(digest: WalFrame -> Digest, frames: seq<WalFrame>) {
    forall i :: 0 <= i < |frames| ==> frames[i].previous == WalTip(digest, frames[..i])
  }

  lemma ChainedPrefix(digest: WalFrame -> Digest, frames: seq<WalFrame>, k: nat)
    requires Chained(digest, frames) && k <= |frames|
    ensures Chained(digest, frames[..k])
  {
    forall i | 0 <= i < k ensures frames[..k][i].previous == WalTip(digest, frames[..k][..i]) {
      assert frames[..k][..i] == frames[..i];
    }
  }

  lemma SoundIsChained(digest: WalFrame -> Digest, session: nat, frames: seq<WalFrame>)
    requires Sound(digest, session, frames)
    ensures Chained(digest, frames)
  {
    forall i | 0 <= i < |frames| ensures frames[i].previous == WalTip(digest, frames[..i]) {
      assert ChainedFrame(digest, session, frames, i);
    }
  }

  /** With a collision-free digest the tip of a chained log identifies all its frames. */
  lemma {:induction false} EqualTipsEqualFrames(digest: WalFrame -> Digest, a: seq<WalFrame>, b: seq<WalFrame>)
    requires forall f, g :: digest(f) == digest(g) ==> f == g
    requires Chained(digest, a) && Chained(digest, b) && WalTip(digest, a) == WalTip(digest, b)
    ensures a == b
    decreases |a|
  {
    if a != [] {
      var m, n := |a| - 1, |b| - 1;
      assert a[m] == b[n];
      ChainedPrefix(digest, a, m);
      ChainedPrefix(digest, b, n);
      EqualTipsEqualFrames(digest, a[..m], b[..n]);
      assert a == a[..m] + [a[m]] && b == b[..n] + [b[n]];
    }
  }

  /** Two accepted logs with equal tips are the same log. */
  lemma SoundLogsWithEqualTips(digest: WalFrame -> Digest, session: nat, other: nat, a: seq<WalFrame>, b: seq<WalFrame>)
    requires forall f, g :: digest(f) == digest(g) ==> f == g
    requires Sound(digest, session, a) && Sound(digest, other, b) && WalTip(digest, a) == WalTip(digest, b)
    ensures a == b && session == other
  {
    SoundIsChained(digest, session, a);
    SoundIsChained(digest, other, b);
    EqualTipsEqualFrames(digest, a, b);
    assert ChainedFrame(digest, session, a, 0) && ChainedFrame(digest, other, b, 0);
  }
}
