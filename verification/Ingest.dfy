/**
 Ingesting a manifest over an unreliable connection: one write, a read to
 reconcile an uncertain outcome, and at most one more write.
 */
module Ingest {
  type Identity = (nat, nat)

  /** What makes two manifests the same immutable fact: content hash and the remaining fields. */
  datatype Manifest = Manifest(identity: Identity, sha: nat, rest: nat, key: nat)

  datatype Row = Row(sha: nat, rest: nat, key: nat)

  type Rows = map<Identity, Row>

  function RowOf(m: Manifest): Row {
    Row(m.sha, m.rest, m.key)
  }

  datatype Answer = Inserted | Replayed | Conflict | Invalid

  predicate SameFingerprint(r: Row, m: Manifest) {
    r.sha == m.sha && r.rest == m.rest
  }

  predicate KeyTaken(rows: Rows, m: Manifest) {
    exists id :: id in rows && rows[id].key == m.key
  }

  /** The server's transaction; `valid` says that the manifest and its artifact pass validation. */
  function Register(rows: Rows, m: Manifest, valid: bool): (Rows, Answer) {
    if !valid then (rows, Invalid)
    else if m.identity in rows then (rows, if SameFingerprint(rows[m.identity], m) then Replayed else Conflict)
    else if KeyTaken(rows, m) then (rows, Conflict)
    else (rows[m.identity := RowOf(m)], Inserted)
  }

  /** How one write request fares: answered, lost on the way in or out, refused or
      dropped by a gateway before or after the transaction, answered unreadably. */
  datatype WriteFate = Answered | RequestLost | ResponseLost | BusyBefore | BusyAfter | Unreadable

  datatype ReadFate = ReadOk | ReadFailed

  /** What the client sees of a write: a document, an error it may retry, or one it may not. */
  datatype Seen = Document(answer: Answer) | Uncertain | Rejected

  function Reaches(f: WriteFate): bool {
    f != RequestLost && f != BusyBefore
  }

  function SeenOf(f: WriteFate, a: Answer): Seen {
    match f
    case Answered => if a == Conflict || a == Invalid then Rejected else Document(a)
    case Unreadable => Rejected
    case _ => Uncertain
  }

  /** Other writers register what they like between two requests of the client. */
  function Others(rows: Rows, ms: seq<Manifest>): Rows
    decreases |ms|
  {
    if ms == [] then rows else Register(Others(rows, ms[..|ms| - 1]), ms[|ms| - 1], true).0
  }

  datatype Code = RejectedByServer | ReadFailure | DifferentContent | StillUncertain

  datatype Ending = Returned | Raised(code: Code)

  /** Everything the environment does during one call. */
  datatype Weather = Weather(
    before: seq<Manifest>, first: WriteFate, between: seq<Manifest>, read: ReadFate,
    after: seq<Manifest>, second: WriteFate, valid: bool)

  /** Rows are immutable: a later table has every earlier row, unchanged. */
  ghost predicate Keeps(earlier: Rows, rows: Rows) {
    forall id :: id in earlier ==> id in rows && rows[id] == earlier[id]
  }

  lemma {:induction false} OthersKeep(rows: Rows, ms: seq<Manifest>)
    ensures Keeps(rows, Others(rows, ms))
    decreases |ms|
  {
    if ms != [] {
      OthersKeep(rows, ms[..|ms| - 1]);
    }
  }

  /** Other writers store whatever has a free identity and a free key. */
  lemma {:induction false} OthersStore(rows: Rows, ms: seq<Manifest>, m: Manifest)
    ensures
      var there := Others(rows, ms);
      Others(rows, ms + [m])
      == if m.identity !in there && (forall id :: id in there ==> there[id].key != m.key) then there[m.identity := RowOf(m)] else there
  {
    assert (ms + [m])[..|ms|] == ms;
  }

  class Store {
    var rows: Rows
    /** Rows that this client's own requests inserted, and the writes it sent. */
    ghost var inserted: seq<Identity>
    ghost var writes: nat

    constructor (rows: Rows)
      ensures this.rows == rows && inserted == [] && writes == 0
    {
      this.rows, inserted, writes := rows, [], 0;
    }

    method Write(m: Manifest, fate: WriteFate, valid: bool) returns (seen: Seen)
      modifies this
      ensures writes == old(writes) + 1
      ensures rows == if Reaches(fate) then Register(old(rows), m, valid).0 else old(rows)
      ensures seen == SeenOf(fate, Register(old(rows), m, valid).1)
      ensures inserted == if rows != old(rows) then old(inserted) + [m.identity] else old(inserted)
    {
      var result := Register(rows, m, valid);
      seen := SeenOf(fate, result.1);
      writes := writes + 1;
      if Reaches(fate) {
        inserted := if result.0 != rows then inserted + [m.identity] else inserted;
        rows := result.0;
      }
    }

    method Interfere(ms: seq<Manifest>)
      modifies this`rows
      ensures rows == Others(old(rows), ms)
    {
      rows := Others(rows, ms);
    }
  }

  /** `ingest_with_reconcile`. Whatever is lost and whoever else writes: at most two
      writes, at most one row inserted, no row changed, and a normal return means
      that the stored row has the manifest's content hash. */
  method IngestWithReconcile(store: Store, m: Manifest, w: Weather) returns (end: Ending)
    requires store.writes == 0 && store.inserted == []
    modifies store
    ensures 1 <= store.writes <= 2 && |store.inserted| <= 1
    ensures Keeps(old(store.rows), store.rows)
    ensures end == Returned ==> m.identity in store.rows && store.rows[m.identity].sha == m.sha
    ensures end == Raised(DifferentContent) ==> m.identity in store.rows && store.rows[m.identity].sha != m.sha
    ensures store.writes == 2 ==> end != Raised(DifferentContent) && end != Raised(ReadFailure)
    ensures (end, store.writes) == Expected(old(store.rows), m, w)
  {
    store.Interfere(w.before);
    OthersKeep(old(store.rows), w.before);
    var seen := store.Write(m, w.first, w.valid);
    ghost var written := store.rows;
    if seen.Document? {
      return Returned;
    }
    if seen == Rejected {
      return Raised(RejectedByServer);
    }
    store.Interfere(w.between);
    OthersKeep(written, w.between);
    if w.read == ReadFailed {
      return Raised(ReadFailure);
    }
    if m.identity in store.rows {
      return if store.rows[m.identity].sha == m.sha then Returned else Raised(DifferentContent);
    }
    ghost var reconciled := store.rows;
    store.Interfere(w.after);
    OthersKeep(reconciled, w.after);
    seen := store.Write(m, w.second, w.valid);
    end := if seen.Document? then Returned else if seen == Rejected then Raised(RejectedByServer) else Raised(StillUncertain);
  }

  /** The ending, and the number of writes, as a function of what happened. */
  function Expected(rows: Rows, m: Manifest, w: Weather): (Ending, nat) {
    var start := Others(rows, w.before);
    var first := Register(start, m, w.valid);
    var seen := SeenOf(w.first, first.1);
    if seen.Document? then (Returned, 1)
    else if seen == Rejected then (Raised(RejectedByServer), 1)
    else if w.read == ReadFailed then (Raised(ReadFailure), 1)
    else
      var found := Others(if Reaches(w.first) then first.0 else start, w.between);
      if m.identity in found then (if found[m.identity].sha == m.sha then Returned else Raised(DifferentContent), 1)
      else
        var second := SeenOf(w.second, Register(Others(found, w.after), m, w.valid).1);
        (if second.Document? then Returned else if second == Rejected then Raised(RejectedByServer) else Raised(StillUncertain), 2)
  }

  /** A write that took effect is never repeated: after a lost response the client
      finds its own row and returns, whatever others write in between. */
  lemma LostResponseIsRecovered(rows: Rows, m: Manifest, w: Weather)
    requires w.first == ResponseLost || w.first == BusyAfter
    requires Register(Others(rows, w.before), m, w.valid).1 == Inserted || Register(Others(rows, w.before), m, w.valid).1 == Replayed
    requires w.read == ReadOk
    ensures Expected(rows, m, w) == (Returned, 1)
  {
    OthersKeep(Register(Others(rows, w.before), m, w.valid).0, w.between);
  }

  /** A second write is sent exactly when the first outcome was uncertain, the read
      succeeded and found no row: then nothing of the first write was stored. */
  lemma SecondWriteExactly(rows: Rows, m: Manifest, w: Weather)
    ensures
      var start := Others(rows, w.before);
      var first := Register(start, m, w.valid);
      Expected(rows, m, w).1 == 2 <==>
        && SeenOf(w.first, first.1) == Uncertain && w.read == ReadOk
        && m.identity !in Others(if Reaches(w.first) then first.0 else start, w.between)
  {}

  // ---------------------------------------------------------------- what each ending means

  /** The server's answer, on what it has stored. */
  lemma RegisterExactly(rows: Rows, m: Manifest, valid: bool)
    ensures
      var after, answer := Register(rows, m, valid).0, Register(rows, m, valid).1;
      && (answer == Inserted <==> valid && m.identity !in rows && forall id :: id in rows ==> rows[id].key != m.key)
      && (answer == Replayed <==> valid && m.identity in rows && rows[m.identity].sha == m.sha && rows[m.identity].rest == m.rest)
      && (answer == Invalid <==> !valid)
      && (answer == Inserted ==> m.identity in after && after[m.identity] == RowOf(m) && after.Keys == rows.Keys + {m.identity})
      && (answer != Inserted ==> after == rows) && Keeps(rows, after)
  {}

  /** The client cannot know whether the write took effect. */
  predicate Silent(f: WriteFate) {
    f == RequestLost || f == ResponseLost || f == BusyBefore || f == BusyAfter
  }

  /** A write that is answered, and with success; or answered with a refusal or unreadably. */
  predicate Succeeds(f: WriteFate, a: Answer) {
    f == Answered && (a == Inserted || a == Replayed)
  }

  predicate IsRefused(f: WriteFate, a: Answer) {
    f == Unreadable || (f == Answered && (a == Conflict || a == Invalid))
  }

  /** What the client finds when it reads after a silent first write. */
  function FoundRows(rows: Rows, m: Manifest, w: Weather): Rows {
    var start := Others(rows, w.before);
    Others(if w.first == ResponseLost || w.first == BusyAfter then Register(start, m, w.valid).0 else start, w.between)
  }

  /** A second write is due: the first was silent, the read went through and found nothing. */
  predicate Retries(rows: Rows, m: Manifest, w: Weather) {
    Silent(w.first) && w.read == ReadOk && m.identity !in FoundRows(rows, m, w)
  }

  /** When a call ends how: it returns when a write is answered with success or the
      read finds the content; it reports a rejection when a write is refused, a
      failed read, other content, or, only after two silent writes, that the outcome
      is still uncertain. */
  lemma EndingExactly(rows: Rows, m: Manifest, w: Weather)
    ensures
      var first := Register(Others(rows, w.before), m, w.valid).1;
      var found := FoundRows(rows, m, w);
      var second := Register(Others(found, w.after), m, w.valid).1;
      var readBack := Silent(w.first) && w.read == ReadOk;
      var end := Expected(rows, m, w).0;
      && (end == Returned <==>
            || Succeeds(w.first, first) || (readBack && m.identity in found && found[m.identity].sha == m.sha)
            || (Retries(rows, m, w) && Succeeds(w.second, second)))
      && (end == Raised(RejectedByServer) <==>
            IsRefused(w.first, first) || (Retries(rows, m, w) && IsRefused(w.second, second)))
      && (end == Raised(ReadFailure) <==> Silent(w.first) && w.read == ReadFailed)
      && (end == Raised(DifferentContent) <==> readBack && m.identity in found && found[m.identity].sha != m.sha)
      && (end == Raised(StillUncertain) <==> Retries(rows, m, w) && Silent(w.second))
      && (Expected(rows, m, w).1 == if Retries(rows, m, w) then 2 else 1)
  {}
}
