/**
 Staged admission of dedicated test evidence into the required-coverage table.
 Each stage admits all of its ids or none.
 */
module Admission {
  import opened Wrappers

  type Id = nat

  datatype Mark = Pass | Skip | Unavailable

  datatype Lane = OriginalRouter | FirstDedicated | SecondDedicated

  datatype Row = Row(id: Id, dedicated: bool, original: Mark, effective: Mark, lane: Lane)

  function Ids(rows: seq<Row>): seq<Id> {
    seq(|rows|, i requires 0 <= i < |rows| => rows[i].id)
  }

  /** A row a stage may admit: dedicated, unavailable from the start, and still unavailable. */
  predicate Open(r: Row) {
    r.dedicated && r.original == Unavailable && r.effective == Unavailable && r.lane == OriginalRouter
  }

  predicate HasOpen(rows: seq<Row>, id: Id) {
    exists i :: 0 <= i < |rows| && rows[i].id == id && Open(rows[i])
  }

  /** The checks before anything is admitted; `size` is the number of ids the stage is for. */
  ghost predicate Admissible(rows: seq<Row>, ids: seq<Id>, size: nat) {
    && |ids| == size && NoDup(ids) && NoDup(Ids(rows))
    && forall id :: id in ids ==> exists r :: r in rows && r.id == id && StillOpen(r)
  }

  /** Dedicated, unavailable in the original table and since, and touched by no stage. */
  ghost predicate StillOpen(r: Row) {
    r.dedicated && r.original == Unavailable && r.effective == Unavailable && r.lane == OriginalRouter
  }

  lemma HasOpenExactly(rows: seq<Row>, id: Id)
    ensures HasOpen(rows, id) <==> exists r :: r in rows && r.id == id && StillOpen(r)
  {
    if i :| 0 <= i < |rows| && rows[i].id == id && Open(rows[i]) {
      assert rows[i] in rows && StillOpen(rows[i]);
    }
    if r :| r in rows && r.id == id && StillOpen(r) {
      var i :| 0 <= i < |rows| && rows[i] == r;
      assert Open(rows[i]);
    }
  }

  function Admitted(r: Row, accepted: seq<Id>, lane: Lane): Row {
    if r.id in accepted then r.(effective := Pass, lane := lane) else r
  }

  function Count(rows: seq<Row>, m: Mark): nat
    decreases |rows|
  {
    if rows == [] then 0 else Count(rows[..|rows| - 1], m) + if rows[|rows| - 1].effective == m then 1 else 0
  }

  datatype Table = Refused | Derived(rows: seq<Row>, admitted: seq<Id>, passes: nat, skips: nat, unavailable: nat)

  /** One stage: validate, then rebuild every row, counting effective marks. A
      proof that failed admits nothing, but still derives a table. */
  method Admit(rows: seq<Row>, ids: seq<Id>, size: nat, lane: Lane, proved: bool) returns (t: Table)
    requires lane != OriginalRouter
    ensures t.Refused? <==> !Admissible(rows, ids, size)
    ensures t.Derived? ==>
      && t.admitted == (if proved then ids else [])
      && |t.rows| == |rows| && (forall i :: 0 <= i < |rows| ==> t.rows[i] == Admitted(rows[i], t.admitted, lane))
      && t.passes == Count(t.rows, Pass) && t.skips == Count(t.rows, Skip) && t.unavailable == Count(t.rows, Unavailable)
  {
    NoDupExactly(ids);
    NoDupExactly(Ids(rows));
    forall id ensures HasOpen(rows, id) <==> exists r :: r in rows && r.id == id && StillOpen(r) {
      HasOpenExactly(rows, id);
    }
    if |ids| != size || |Elements(ids)| != |ids| || |Elements(Ids(rows))| != |Ids(rows)| {
      return Refused;
    }
    if exists k :: 0 <= k < |ids| && !HasOpen(rows, ids[k]) {
      ghost var k :| 0 <= k < |ids| && !HasOpen(rows, ids[k]);
      assert ids[k] in ids;
      return Refused;
    }
    var accepted := if proved then ids else [];
    var derived, passes, skips, unavailable := Rebuild(rows, accepted, lane);
    t := Derived(derived, accepted, passes, skips, unavailable);
  }

  method Rebuild(rows: seq<Row>, accepted: seq<Id>, lane: Lane)
    returns (derived: seq<Row>, passes: nat, skips: nat, unavailable: nat)
    ensures |derived| == |rows| && forall i :: 0 <= i < |rows| ==> derived[i] == Admitted(rows[i], accepted, lane)
    ensures passes == Count(derived, Pass) && skips == Count(derived, Skip) && unavailable == Count(derived, Unavailable)
  {
    derived, passes, skips, unavailable := [], 0, 0, 0;
    var i := 0;
    while i < |rows|
      invariant 0 <= i <= |rows| && |derived| == i
      invariant forall j :: 0 <= j < i ==> derived[j] == Admitted(rows[j], accepted, lane)
      invariant passes == Count(derived, Pass) && skips == Count(derived, Skip) && unavailable == Count(derived, Unavailable)
    {
      var row := Admitted(rows[i], accepted, lane);
      CountOneMore(derived, row);
      derived := derived + [row];
      match row.effective {
        case Pass => passes := passes + 1;
        case Skip => skips := skips + 1;
        case Unavailable => unavailable := unavailable + 1;
      }
      i := i + 1;
    }
  }

  lemma CountOneMore(rows: seq<Row>, row: Row)
    ensures forall m :: Count(rows + [row], m) == Count(rows, m) + if row.effective == m then 1 else 0
  {
    assert (rows + [row])[..|rows|] == rows;
  }

  // ---------------------------------------------------------------- conservation

  /** The table a stage derives. */
  function Stage(rows: seq<Row>, accepted: seq<Id>, lane: Lane): (derived: seq<Row>)
    ensures |derived| == |rows|
  {
    seq(|rows|, i requires 0 <= i < |rows| => Admitted(rows[i], accepted, lane))
  }

  function CountIn(rows: seq<Row>, ids: seq<Id>): nat
    decreases |rows|
  {
    if rows == [] then 0 else CountIn(rows[..|rows| - 1], ids) + if rows[|rows| - 1].id in ids then 1 else 0
  }

  /** Of the admitted rows every one was unavailable and passes now. */
  lemma {:induction false} CountsMove(rows: seq<Row>, accepted: seq<Id>, lane: Lane)
    requires forall i :: 0 <= i < |rows| && rows[i].id in accepted ==> Open(rows[i])
    ensures
      var derived := Stage(rows, accepted, lane);
      && Count(derived, Pass) == Count(rows, Pass) + CountIn(rows, accepted)
      && Count(derived, Unavailable) + CountIn(rows, accepted) == Count(rows, Unavailable)
      && Count(derived, Skip) == Count(rows, Skip)
      && Count(derived, Pass) + Count(derived, Skip) + Count(derived, Unavailable) == |rows|
    decreases |rows|
  {
    if rows != [] {
      var n := |rows| - 1;
      CountsMove(rows[..n], accepted, lane);
      var derived := Stage(rows, accepted, lane);
      assert derived[..n] == Stage(rows[..n], accepted, lane);
    }
  }

  /** Distinct rows that include every id hold exactly as many of them as there are ids. */
  lemma {:induction false} CountInIsSize(rows: seq<Row>, ids: seq<Id>)
    requires NoDup(ids) && NoDup(Ids(rows)) && forall id :: id in ids ==> id in Ids(rows)
    ensures CountIn(rows, ids) == |ids|
  {
    CountInElements(rows, ids);
    assert Elements(Ids(rows)) * Elements(ids) == Elements(ids);
    NoDupCardinality(ids);
  }

  lemma {:induction false} CountInElements(rows: seq<Row>, ids: seq<Id>)
    requires NoDup(Ids(rows))
    ensures CountIn(rows, ids) == |Elements(Ids(rows)) * Elements(ids)|
    decreases |rows|
  {
    if rows == [] {
      assert Elements(Ids(rows)) * Elements(ids) == {};
    } else {
      var n := |rows| - 1;
      assert rows[..n] + [rows[n]] == rows;
      IdsOneMore(rows[..n], rows[n]);
      CountInElements(rows[..n], ids);
      MeetOneMore(Elements(Ids(rows[..n])), rows[n].id, Elements(ids));
    }
  }

  lemma IdsOneMore(rows: seq<Row>, row: Row)
    requires NoDup(Ids(rows + [row]))
    ensures NoDup(Ids(rows)) && row.id !in Ids(rows)
    ensures Elements(Ids(rows + [row])) == Elements(Ids(rows)) + {row.id}
  {
    assert Ids(rows + [row]) == Ids(rows) + [row.id];
    ElementsOneMore(Ids(rows), row.id);
  }

  lemma MeetOneMore(a: set<Id>, x: Id, b: set<Id>)
    requires x !in a
    ensures |(a + {x}) * b| == |a * b| + if x in b then 1 else 0
  {
    if x in b {
      assert (a + {x}) * b == a * b + {x};
    } else {
      assert (a + {x}) * b == a * b;
    }
  }

  /** Atomic and conserving: ids, order and total stay fixed, no row is demoted, and
      either nothing changes or exactly `|ids|` unavailable rows pass. */
  lemma StageConserves(rows: seq<Row>, ids: seq<Id>, size: nat, lane: Lane, proved: bool)
    requires Admissible(rows, ids, size) && lane != OriginalRouter
    ensures
      var derived := Stage(rows, if proved then ids else [], lane);
      && Ids(derived) == Ids(rows)
      && (forall i :: 0 <= i < |rows| ==>
            if proved && rows[i].id in ids
            then StillOpen(rows[i]) && derived[i] == Row(rows[i].id, true, Unavailable, Pass, lane)
            else derived[i] == rows[i])
      && (!proved ==> derived == rows)
      && Count(derived, Pass) == Count(rows, Pass) + (if proved then size else 0)
      && Count(derived, Unavailable) == Count(rows, Unavailable) - (if proved then size else 0)
      && Count(derived, Skip) == Count(rows, Skip)
  {
    var accepted := if proved then ids else [];
    AcceptedAreOpen(rows, ids);
    CountsMove(rows, accepted, lane);
    forall id | id in accepted ensures id in Ids(rows) {
      var i :| 0 <= i < |rows| && rows[i].id == id && Open(rows[i]);
      assert Ids(rows)[i] == id;
    }
    CountInIsSize(rows, accepted);
  }

  /** Row ids are unique, so the row of an admissible id is the open one. */
  lemma AcceptedAreOpen(rows: seq<Row>, ids: seq<Id>)
    requires NoDup(Ids(rows)) && forall id :: id in ids ==> HasOpen(rows, id)
    ensures forall i :: 0 <= i < |rows| && rows[i].id in ids ==> Open(rows[i])
  {
    forall i | 0 <= i < |rows| && rows[i].id in ids ensures Open(rows[i]) {
      assert HasOpen(rows, rows[i].id);
      var j :| 0 <= j < |rows| && rows[j].id == rows[i].id && Open(rows[j]);
      assert Ids(rows)[i] == rows[i].id && Ids(rows)[j] == rows[j].id;
    }
  }

  /** The two stages can never admit the same row: what the first admitted is no
      longer open for the second. */
  lemma StagesAreDisjoint(rows: seq<Row>, first: seq<Id>, m: nat, second: seq<Id>, n: nat)
    requires Admissible(rows, first, m) && Admissible(Stage(rows, first, FirstDedicated), second, n)
    ensures forall id :: id in first ==> id !in second
    ensures
      var derived := Stage(Stage(rows, first, FirstDedicated), second, SecondDedicated);
      && Count(derived, Pass) == Count(rows, Pass) + m + n
      && Count(derived, Unavailable) == Count(rows, Unavailable) - m - n
  {
    var middle := Stage(rows, first, FirstDedicated);
    StageConserves(rows, first, m, FirstDedicated, true);
    StageConserves(middle, second, n, SecondDedicated, true);
    AcceptedAreOpen(middle, second);
    forall id | id in first ensures id !in second {
      var i :| 0 <= i < |rows| && rows[i].id == id && Open(rows[i]);
      assert middle[i] == Admitted(rows[i], first, FirstDedicated) && !Open(middle[i]);
    }
  }
}
