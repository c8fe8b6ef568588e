/** What the operations on the job table keep, and what doing them again changes. */
module JobTable {

  import opened Wrappers
  import opened Database

  /* ---- the queue after each operation ---- */

  lemma HandedOutRow(db: Tables, id: nat, k: nat)
    ensures Lookup(HandedOut(db, id).queue, k)
         == if k != id then Lookup(db.queue, k)
            else match Lookup(db.queue, id)
                 case None => Some(Row(id, STARTED, 1, None))
                 case Some(row) => Some(Row(id, STARTED, row.count + 1, row.comment))
  {
    LookupAfterAppend(db.queue, Row(id, STARTED, 1, None), k);
    LookupAfterSet(db.queue, id, Change(STARTED, 1, None), k);
  }

  lemma MarkedDoneRow(q: seq<Row>, id: nat, known: bool, k: nat)
    ensures Lookup(MarkedDone(q, id, known), k)
         == if k != id then Lookup(q, k)
            else match Lookup(q, id)
                 case None => Some(Row(id, OK, 0, None))
                 case Some(row) => if known && row.status >= OK then Some(row) else Some(Row(id, OK, row.count, None))
  {
    LookupAfterAppend(q, Row(id, OK, 0, None), k);
    LookupAfterSet(q, id, Change(OK, 0, Some(None)), k);
  }

  /** What addFile may do to the row of any id: nothing, raise it to status 5, or add it, untried. */
  predicate RowAfterAdd(was: Option<Row>, now: Option<Row>)
  {
    match was
    case None => now.None? || (now.value.count == 0 && now.value.status in {NOT_STARTED, OK})
    case Some(row) => now == was || (now.Some? && now.value.count == row.count && now.value.status == OK)
  }

  lemma SourceAddedRow(db: Tables, src: FileInfo, archived: bool, queue: bool, k: nat)
    ensures var (d, id) := SourceAdded(db, src, archived, queue);
            Lookup(d.queue, k) == if Lookup(db.queue, k).None? && k == id && (queue || archived)
                                  then Some(Row(id, if archived then OK else NOT_STARTED, 0, None))
                                  else Lookup(db.queue, k)
  {
    var id := SourceAdded(db, src, archived, queue).1;
    LookupAfterAppend(db.queue, Row(id, if archived then OK else NOT_STARTED, 0, None), k);
  }

  lemma ArchiveAddedRow(db: Tables, id: nat, dst: string, k: nat)
    ensures RowAfterAdd(Lookup(db.queue, k), Lookup(ArchiveAdded(db, id, dst).0.queue, k))
  {
    var owner := ArchiveId(db, dst);
    MarkedDoneRow(db.queue, if owner != 0 then owner else id, owner != 0, k);
  }

  lemma FileAddedRow(db: Tables, src: Option<FileInfo>, dst: Option<FileInfo>, queue: bool, k: nat)
    ensures RowAfterAdd(Lookup(db.queue, k), Lookup(FileAdded(db, src, dst, queue).0.queue, k))
  {
    var (d, id) := if Given(src) then SourceAdded(db, src.value, Given(dst), queue) else (db, 0);
    if Given(src) {
      SourceAddedRow(db, src.value, Given(dst), queue, k);
    }
    if Given(dst) {
      ArchiveAddedRow(d, id, dst.value.path, k);
    }
  }

  /* ---- integrity ---- */

  lemma ValidHandedOut(db: Tables, maxSize: nat, id: nat)
    requires Valid(db) && Eligible(db, maxSize, id)
    ensures Valid(HandedOut(db, id))
  {
    if Lookup(db.queue, id).None? {
      OneRowAfterAppend(db.queue, Row(id, STARTED, 1, None));
    } else {
      OneRowAfterSet(db.queue, id, Change(STARTED, 1, None));
    }
    forall k ensures Lookup(HandedOut(db, id).queue, k).Some? <==> k == id || Lookup(db.queue, k).Some? {
      HandedOutRow(db, id, k);
    }
  }

  lemma ValidChanged(db: Tables, id: nat, c: Change)
    requires Valid(db)
    ensures Valid(db.(queue := SetRow(db.queue, id, c)))
  {
    OneRowAfterSet(db.queue, id, c);
    forall k ensures Lookup(SetRow(db.queue, id, c), k).Some? <==> Lookup(db.queue, k).Some? {
      LookupAfterSet(db.queue, id, c, k);
    }
  }

  function ResultChange(f: EncodedFile): Change
  {
    Change(f.result, 0, Some(if f.error == "" then None else Some(f.error)))
  }

  lemma ValidEncodedAdded(db: Tables, f: EncodedFile)
    requires Valid(db) && Lookup(db.queue, f.id).Some?
    ensures Valid(EncodedAdded(db, f))
  {
    ValidChanged(db, f.id, ResultChange(f));
    LookupAfterSet(db.queue, f.id, ResultChange(f), f.id);
  }

  /** The source half keeps the tables valid, finds or makes the source, and queues it when asked. */
  lemma ValidSourceAdded(db: Tables, src: FileInfo, archived: bool, queue: bool)
    requires Valid(db) && src.path != ""
    ensures var (d, id) := SourceAdded(db, src, archived, queue);
            && Valid(d) && id != 0 && id in d.sources && d.sources[id].path == src.path
            && id == SourceId(d, src.path) && d.archives == db.archives
            && (queue || archived ==> Lookup(d.queue, id).Some?)
  {
    var (d, id) := SourceAdded(db, src, archived, queue);
    ValidWithSource(db, src);
    if Lookup(db.queue, id).None? {
      OneRowAfterAppend(db.queue, Row(id, if archived then OK else NOT_STARTED, 0, None));
    }
    forall k ensures Lookup(d.queue, k).Some? ==> Lookup(db.queue, k).Some? || k == id
             ensures Lookup(db.queue, k).Some? ==> Lookup(d.queue, k).Some? {
      SourceAddedRow(db, src, archived, queue, k);
    }
    SourceAddedRow(db, src, archived, queue, id);
  }

  lemma ValidWithSource(db: Tables, src: FileInfo)
    requires Valid(db) && src.path != ""
    ensures var d := WithSource(db, src);
            Valid(d) && SourceId(d, src.path) in d.sources && d.sources[SourceId(d, src.path)].path == src.path
  {
  }

  lemma ValidMarkedDone(db: Tables, id: nat, known: bool)
    requires Valid(db) && id in db.sources
    ensures Valid(db.(queue := MarkedDone(db.queue, id, known)))
  {
    if Lookup(db.queue, id).None? {
      OneRowAfterAppend(db.queue, Row(id, OK, 0, None));
    } else {
      OneRowAfterSet(db.queue, id, Change(OK, 0, Some(None)));
    }
    forall k ensures Lookup(MarkedDone(db.queue, id, known), k).Some? <==> k == id || Lookup(db.queue, k).Some? {
      MarkedDoneRow(db.queue, id, known, k);
    }
  }

  lemma ValidArchiveAdded(db: Tables, id: nat, dst: string)
    requires Valid(db)
    requires id != 0 ==> id in db.sources && Lookup(db.queue, id).Some?
    ensures Valid(ArchiveAdded(db, id, dst).0)
  {
    var owner := ArchiveId(db, dst);
    var target := if owner != 0 then owner else id;
    if target != 0 {
      var d := if owner != 0 || id in db.archives then db else db.(archives := db.archives[id := dst]);
      ValidMarkedDone(d, target, owner != 0);
    }
  }

  /** addFile keeps the tables valid whatever it is given. */
  lemma ValidFileAdded(db: Tables, src: Option<FileInfo>, dst: Option<FileInfo>, queue: bool)
    requires Valid(db)
    ensures Valid(FileAdded(db, src, dst, queue).0)
  {
    var (d, id) := if Given(src) then SourceAdded(db, src.value, Given(dst), queue) else (db, 0);
    if Given(src) {
      ValidSourceAdded(db, src.value, Given(dst), queue);
    }
    if Given(dst) {
      ValidArchiveAdded(d, id, dst.value.path);
    }
  }

  /* ---- idempotence ---- */

  /** Once the source is there and queued, the source half finds it and changes nothing. */
  lemma SourceAddedAgain(db: Tables, src: FileInfo, archived: bool, queue: bool, id: nat)
    requires Valid(db) && id in db.sources && db.sources[id].path == src.path
    requires queue || archived ==> Lookup(db.queue, id).Some?
    ensures SourceAdded(db, src, archived, queue) == (db, id)
  {
    SourceIdIs(db, id);
  }

  lemma ArchiveAddedAgain(db: Tables, id: nat, dst: string)
    requires Valid(db)
    requires id != 0 ==> id in db.sources && Lookup(db.queue, id).Some?
    ensures var (d, r) := ArchiveAdded(db, id, dst);
            && ArchiveAdded(d, id, dst) == (d, r)
            && d.sources == db.sources && d.lastId == db.lastId
            && (id != 0 ==> Lookup(d.queue, id).Some?)
  {
    var (d, r) := ArchiveAdded(db, id, dst);
    var owner := ArchiveId(db, dst);
    var target := if owner != 0 then owner else id;
    MarkedDoneRow(db.queue, target, owner != 0, id);
    MarkedDoneRow(db.queue, target, owner != 0, target);
    if target != 0 && !(id in d.archives && d.archives[id] == dst) {
      assert d.archives == db.archives;
      var row := Lookup(d.queue, target).value;
      if owner == 0 {
        assert row.status == OK && row.comment == None;
        ValidArchiveAdded(db, id, dst);
        SetRowKeeps(d.queue, target, Change(OK, 0, Some(None)));
      }
    }
  }

  /** Adding the same file again returns the same id and changes no table. */
  lemma FileAddedAgain(db: Tables, src: Option<FileInfo>, dst: Option<FileInfo>, queue: bool)
    requires Valid(db)
    ensures var (d, id) := FileAdded(db, src, dst, queue); FileAdded(d, src, dst, queue) == (d, id)
  {
    var (d1, id1) := if Given(src) then SourceAdded(db, src.value, Given(dst), queue) else (db, 0);
    var (d, id) := FileAdded(db, src, dst, queue);
    if Given(src) {
      ValidSourceAdded(db, src.value, Given(dst), queue);
    }
    if Given(dst) {
      ArchiveAddedAgain(d1, id1, dst.value.path);
    }
    ValidFileAdded(db, src, dst, queue);
    if Given(src) {
      SourceAddedAgain(d, src.value, Given(dst), queue, id1);
    }
  }

  /* ---- all that addFile does ---- */

  /** The id of the source a call brings, which may be a new one; 0 without. */
  function IdOfSource(db: Tables, src: Option<FileInfo>): nat
  {
    if !Given(src) then 0
    else if SourceId(db, src.value.path) != 0 then SourceId(db, src.value.path)
    else db.lastId + 1
  }

  /** The id the archive of a call is filed under, or is to be; 0 when that is settled or there is none. */
  function ToBeDone(db: Tables, src: Option<FileInfo>, dst: Option<FileInfo>): nat
  {
    var id := IdOfSource(db, src);
    if !Given(dst) || (id in db.archives && db.archives[id] == dst.value.path) then 0
    else if ArchiveId(db, dst.value.path) != 0 then ArchiveId(db, dst.value.path)
    else id
  }

  /** The row of any id after a call: marked as done with the archive, unless it was and the archive was
      known; or new with the source, done if it comes with an archive; or as it was. */
  function RowOf(db: Tables, src: Option<FileInfo>, dst: Option<FileInfo>, queue: bool, k: nat): Option<Row>
  {
    var was := Lookup(db.queue, k);
    if k != 0 && k == ToBeDone(db, src, dst) then
      match was
      case None => Some(Row(k, 5, 0, None))
      case Some(row) =>
        if ArchiveId(db, dst.value.path) != 0 && row.status >= 5 then was else Some(Row(k, 5, row.count, None))
    else if k != 0 && k == IdOfSource(db, src) && was.None? && (queue || Given(dst)) then
      Some(Row(k, if Given(dst) then 5 else 0, 0, None))
    else was
  }

  /** The effect of addFile on each table, row by row. */
  lemma FileAddedIs(db: Tables, src: Option<FileInfo>, dst: Option<FileInfo>, queue: bool, k: nat)
    requires Valid(db)
    ensures var (now, r) := FileAdded(db, src, dst, queue);
            var id := IdOfSource(db, src);
            && now.sources == (if Given(src) && id !in db.sources then db.sources[id := src.value] else db.sources)
            && now.archives == (if Given(dst) && id != 0 && id !in db.archives && ArchiveId(db, dst.value.path) == 0
                                then db.archives[id := dst.value.path] else db.archives)
            && r == (if ToBeDone(db, src, dst) != 0 then ToBeDone(db, src, dst) else id)
            && Lookup(now.queue, k) == RowOf(db, src, dst, queue, k)
  {
    var (d, id) := if Given(src) then SourceAdded(db, src.value, Given(dst), queue) else (db, 0);
    if Given(src) {
      SourceHalfIs(db, src.value, Given(dst), queue, k);
    }
    if Given(dst) {
      assert ArchiveId(d, dst.value.path) == ArchiveId(db, dst.value.path) by { SameArchiveIds(db, d, dst.value.path); }
      ArchiveHalfIs(d, id, dst.value.path, k);
    }
  }

  lemma SameArchiveIds(db: Tables, d: Tables, path: string)
    requires Valid(db) && Valid(d) && d.archives == db.archives
    ensures ArchiveId(d, path) == ArchiveId(db, path)
  {
  }

  lemma SourceHalfIs(db: Tables, src: FileInfo, archived: bool, queue: bool, k: nat)
    requires Valid(db) && src.path != ""
    ensures var (d, id) := SourceAdded(db, src, archived, queue);
            && Valid(d) && id == IdOfSource(db, Some(src)) && id != 0 && d.archives == db.archives
            && d.sources == (if id !in db.sources then db.sources[id := src] else db.sources)
            && Lookup(d.queue, k) == if k == id && Lookup(db.queue, k).None? && (queue || archived)
                                     then Some(Row(k, if archived then 5 else 0, 0, None)) else Lookup(db.queue, k)
  {
    ValidSourceAdded(db, src, archived, queue);
    SourceAddedRow(db, src, archived, queue, k);
    IdOfSourceIs(db, src);
  }

  lemma ArchiveHalfIs(d: Tables, id: nat, archive: string, k: nat)
    requires Valid(d) && archive != ""
    ensures var (now, r) := ArchiveAdded(d, id, archive);
            var owner := ArchiveId(d, archive);
            && now.sources == d.sources
            && r == (if (id in d.archives && d.archives[id] == archive) || owner == 0 then id else owner)
            && now.archives == (if id != 0 && id !in d.archives && owner == 0 then d.archives[id := archive]
                                else d.archives)
            && Lookup(now.queue, k)
               == if k == 0 || k != r || (id in d.archives && d.archives[id] == archive) then Lookup(d.queue, k)
                  else match Lookup(d.queue, k)
                       case None => Some(Row(k, 5, 0, None))
                       case Some(row) => if owner != 0 && row.status >= 5 then Some(row)
                                         else Some(Row(k, 5, row.count, None))
  {
    var owner := ArchiveId(d, archive);
    MarkedDoneRow(d.queue, if owner != 0 then owner else id, owner != 0, k);
  }

  lemma IdOfSourceIs(db: Tables, src: FileInfo)
    requires Valid(db) && src.path != ""
    ensures IdOfSource(db, Some(src)) == SourceId(WithSource(db, src), src.path)
  {
    ValidWithSource(db, src);
  }

  /* ---- draining the queue ---- */

  /** How often a file can still be handed out, when every try ends in a retriable failure. */
  function Tries(db: Tables, maxSize: nat, id: nat): nat
  {
    if !Eligible(db, maxSize, id) then 0
    else match Lookup(db.queue, id)
         case None => MAX_TRIES
         case Some(row) => if row.count < MAX_TRIES then MAX_TRIES - row.count else 1
  }

  function TriesUpTo(db: Tables, maxSize: nat, n: nat): nat
  {
    if n == 0 then 0 else TriesUpTo(db, maxSize, n - 1) + Tries(db, maxSize, n)
  }

  function TriesLeft(db: Tables, maxSize: nat): nat { TriesUpTo(db, maxSize, db.lastId) }

  /** A worker's turn: it is handed `id` and reports `failure` for it. */
  datatype Turn = Turn(id: nat, failure: EncodedFile)

  ghost predicate IsFailure(t: Turn)
  {
    t.failure.id == t.id && RETRIABLE_MIN <= t.failure.result < 0
  }

  function AfterTurn(db: Tables, t: Turn): Tables { EncodedAdded(HandedOut(db, t.id), t.failure) }

  /** A run of a worker that is always handed an eligible file and always fails. */
  ghost predicate FailingRun(db: Tables, maxSize: nat, turns: seq<Turn>)
    decreases |turns|
  {
    turns == [] || (IsFailure(turns[0]) && Eligible(db, maxSize, turns[0].id)
                    && FailingRun(AfterTurn(db, turns[0]), maxSize, turns[1..]))
  }

  function AfterTurns(db: Tables, turns: seq<Turn>): Tables
    decreases |turns|
  {
    if turns == [] then db else AfterTurns(AfterTurn(db, turns[0]), turns[1..])
  }

  lemma TurnTakesOneTry(db: Tables, maxSize: nat, t: Turn, k: nat)
    requires Valid(db) && IsFailure(t) && Eligible(db, maxSize, t.id)
    ensures Tries(AfterTurn(db, t), maxSize, k) == Tries(db, maxSize, k) - if k == t.id then 1 else 0
  {
    HandedOutRow(db, t.id, k);
    LookupAfterSet(HandedOut(db, t.id).queue, t.id, ResultChange(t.failure), k);
  }

  lemma {:induction false} TurnTakesOneOfAll(db: Tables, maxSize: nat, t: Turn, n: nat)
    requires Valid(db) && IsFailure(t) && Eligible(db, maxSize, t.id)
    ensures TriesUpTo(AfterTurn(db, t), maxSize, n) == TriesUpTo(db, maxSize, n) - if t.id <= n then 1 else 0
  {
    if n > 0 {
      TurnTakesOneOfAll(db, maxSize, t, n - 1);
      TurnTakesOneTry(db, maxSize, t, n);
    }
  }

  lemma {:induction false} NoTriesLeft(db: Tables, maxSize: nat, n: nat)
    ensures TriesUpTo(db, maxSize, n) == 0 <==> forall id | 0 < id <= n :: !Eligible(db, maxSize, id)
  {
    if n > 0 {
      NoTriesLeft(db, maxSize, n - 1);
    }
  }

  /** Whatever is handed out when, a worker that keeps failing uses up exactly the tries the tables hold
      at the start, and finds nothing to do exactly when they are used up. */
  lemma {:induction false} DrainTakesEveryTry(db: Tables, maxSize: nat, turns: seq<Turn>)
    requires Valid(db) && FailingRun(db, maxSize, turns)
    ensures var d := AfterTurns(db, turns);
            && |turns| + TriesLeft(d, maxSize) == TriesLeft(db, maxSize)
            && (NothingEligible(d, maxSize) <==> |turns| == TriesLeft(db, maxSize))
    decreases |turns|
  {
    if turns == [] {
      NoTriesLeft(db, maxSize, db.lastId);
    } else {
      var t := turns[0];
      ValidHandedOut(db, maxSize, t.id);
      HandedOutRow(db, t.id, t.id);
      ValidEncodedAdded(HandedOut(db, t.id), t.failure);
      TurnTakesOneOfAll(db, maxSize, t, db.lastId);
      DrainTakesEveryTry(AfterTurn(db, t), maxSize, turns[1..]);
    }
  }
}
