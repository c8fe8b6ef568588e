/** The job table: the three tables of setupTables and the four operations on them. */
module Database {

  import opened Wrappers

  /** A row of `sourcefiles`, apart from its key. */
  datatype FileInfo = FileInfo(path: string, size: nat)

  /** A row of `queue`; the time stamp is left out. The table has no key. */
  datatype Row = Row(id: nat, status: int, count: nat, comment: Option<string>)

  /** EncodedFile: a posted result, with the source it belongs to and the name of its archive. */
  datatype EncodedFile = EncodedFile(result: int, fileLength: nat, error: string, id: nat, archive: string)

  /** The tables with an INTEGER PRIMARY KEY are maps; `lastId` is the AUTOINCREMENT counter. */
  datatype Tables = Tables(sources: map<nat, FileInfo>, archives: map<nat, string>, queue: seq<Row>, lastId: nat)

  const EMPTY_TABLES := Tables(map[], map[], [], 0)

  const NOT_STARTED := 0
  const STARTED := 1
  const OK := 5
  const RETRIABLE_MIN := -99
  const MAX_TRIES := 3
  const MAX_SIZE_T := 0xFFFF_FFFF_FFFF_FFFF

  /* ---- rows of the queue ---- */

  /** The row of an id: the first, which is the only one in a valid table. */
  function Lookup(q: seq<Row>, id: nat): (r: Option<Row>)
    ensures r.Some? ==> r.value.id == id
  {
    if q == [] then None else if q[0].id == id then Some(q[0]) else Lookup(q[1..], id)
  }

  lemma {:induction false} LookupFinds(q: seq<Row>, id: nat)
    ensures Lookup(q, id).Some? ==> Lookup(q, id).value in q
    ensures Lookup(q, id).Some? <==> exists row :: row in q && row.id == id
  {
    if q != [] {
      LookupFinds(q[1..], id);
      assert forall row :: row in q <==> row == q[0] || row in q[1..];
    }
  }

  /** No id has two rows: the first row is the only one of its id, and so on down the table. */
  predicate OneRowPerId(q: seq<Row>)
  {
    q == [] || (Lookup(q[1..], q[0].id).None? && OneRowPerId(q[1..]))
  }

  /** The SET list of an update of `queue`: the status always, the rest where it is named. */
  datatype Change = Change(status: int, tried: nat, comment: Option<Option<string>>)

  function Changed(row: Row, c: Change): Row
  {
    Row(row.id, c.status, row.count + c.tried, if c.comment.Some? then c.comment.value else row.comment)
  }

  /** `update queue set .. where id=..` changes every row of that id. */
  function SetRow(q: seq<Row>, id: nat, c: Change): (r: seq<Row>)
    ensures |r| == |q|
  {
    if q == [] then [] else [if q[0].id == id then Changed(q[0], c) else q[0]] + SetRow(q[1..], id, c)
  }

  lemma {:induction false} SetRowAt(q: seq<Row>, id: nat, c: Change, i: nat)
    requires i < |q|
    ensures SetRow(q, id, c)[i] == if q[i].id == id then Changed(q[i], c) else q[i]
  {
    if i > 0 {
      SetRowAt(q[1..], id, c, i - 1);
    }
  }

  lemma SetRowKeeps(q: seq<Row>, id: nat, c: Change)
    requires OneRowPerId(q) && (Lookup(q, id).Some? ==> Changed(Lookup(q, id).value, c) == Lookup(q, id).value)
    ensures SetRow(q, id, c) == q
  {
    OnlyRow(q, id);
    forall i | 0 <= i < |q| ensures SetRow(q, id, c)[i] == q[i] {
      SetRowAt(q, id, c, i);
    }
  }

  lemma {:induction false} LookupAfterSet(q: seq<Row>, id: nat, c: Change, k: nat)
    ensures Lookup(SetRow(q, id, c), k)
         == if k == id && Lookup(q, k).Some? then Some(Changed(Lookup(q, k).value, c)) else Lookup(q, k)
  {
    if q != [] {
      assert SetRow(q, id, c)[1..] == SetRow(q[1..], id, c);
      LookupAfterSet(q[1..], id, c, k);
    }
  }

  lemma {:induction false} LookupAfterAppend(q: seq<Row>, row: Row, k: nat)
    ensures Lookup(q + [row], k)
         == if Lookup(q, k).Some? then Lookup(q, k) else if row.id == k then Some(row) else None
  {
    if q == [] {
      assert q + [row] == [row];
      assert [row][1..] == [];
    } else {
      assert (q + [row])[0] == q[0] && (q + [row])[1..] == q[1..] + [row];
      LookupAfterAppend(q[1..], row, k);
    }
  }

  lemma {:induction false} OneRowAfterAppend(q: seq<Row>, row: Row)
    requires OneRowPerId(q) && Lookup(q, row.id).None?
    ensures OneRowPerId(q + [row])
  {
    if q == [] {
      assert (q + [row])[1..] == [];
    } else {
      assert (q + [row])[1..] == q[1..] + [row];
      OneRowAfterAppend(q[1..], row);
      LookupAfterAppend(q[1..], row, q[0].id);
    }
  }

  lemma {:induction false} OneRowAfterSet(q: seq<Row>, id: nat, c: Change)
    requires OneRowPerId(q)
    ensures OneRowPerId(SetRow(q, id, c))
  {
    if q != [] {
      assert SetRow(q, id, c)[1..] == SetRow(q[1..], id, c);
      OneRowAfterSet(q[1..], id, c);
      LookupAfterSet(q[1..], id, c, q[0].id);
    }
  }

  lemma {:induction false} OnlyRow(q: seq<Row>, id: nat)
    requires OneRowPerId(q)
    ensures forall row | row in q && row.id == id :: Lookup(q, id) == Some(row)
  {
    if q != [] {
      OnlyRow(q[1..], id);
      LookupFinds(q[1..], id);
      assert forall row | row in q :: row == q[0] || row in q[1..];
    }
  }

  /** In the words of a key constraint. */
  lemma {:induction false} OneRowPerIdMeans(q: seq<Row>)
    ensures OneRowPerId(q) <==> forall i, j | 0 <= i < j < |q| :: q[i].id != q[j].id
  {
    if q != [] {
      var t := q[1..];
      OneRowPerIdMeans(t);
      LookupFinds(t, q[0].id);
      assert forall i, j | 0 <= i < j < |t| :: t[i].id != t[j].id <==> q[i + 1].id != q[j + 1].id;
      if forall i, j | 0 <= i < j < |q| :: q[i].id != q[j].id {
        forall i, j | 0 <= i < j < |t| ensures t[i].id != t[j].id {
          assert q[i + 1].id != q[j + 1].id;
        }
        forall row | row in t ensures row.id != q[0].id {
          var i :| 0 <= i < |t| && t[i] == row;
          assert q[i + 1].id != q[0].id;
        }
      } else {
        var i, j :| 0 <= i < j < |q| && q[i].id == q[j].id;
        assert t[j - 1] == q[j] && t[j - 1] in t;
        if i > 0 {
          assert t[i - 1].id == t[j - 1].id;
        }
      }
    }
  }

  /* ---- look-ups by path: the query's callback runs for every row found, in key order, and the last wins ---- */

  function LastSource(sources: map<nat, FileInfo>, path: string, n: nat): (id: nat)
    ensures id <= n
    ensures id != 0 ==> id in sources && sources[id].path == path
    ensures forall k | id < k <= n && k in sources :: sources[k].path != path
  {
    if n == 0 then 0 else if n in sources && sources[n].path == path then n else LastSource(sources, path, n - 1)
  }

  function LastArchive(archives: map<nat, string>, path: string, n: nat): (id: nat)
    ensures id <= n
    ensures id != 0 ==> id in archives && archives[id] == path
    ensures forall k | id < k <= n && k in archives :: archives[k] != path
  {
    if n == 0 then 0 else if n in archives && archives[n] == path then n else LastArchive(archives, path, n - 1)
  }

  /** The id of a source path, 0 when there is none. */
  function SourceId(db: Tables, path: string): nat { LastSource(db.sources, path, db.lastId) }

  /** The id an archive path is filed under, 0 when there is none. */
  function ArchiveId(db: Tables, path: string): nat { LastArchive(db.archives, path, db.lastId) }

  /* ---- what the code keeps true of the tables ---- */

  ghost predicate Valid(db: Tables)
  {
    && (forall id | id in db.sources :: 0 < id <= db.lastId && db.sources[id].path != "")
    && (forall i, j | i in db.sources && j in db.sources && db.sources[i].path == db.sources[j].path :: i == j)
    && OneRowPerId(db.queue)
    && (forall id | Lookup(db.queue, id).Some? :: id in db.sources)
    && (forall id | id in db.archives :: id in db.sources && Lookup(db.queue, id).Some?)
  }

  lemma SourceIdIs(db: Tables, id: nat)
    requires Valid(db) && id in db.sources
    ensures SourceId(db, db.sources[id].path) == id
  {
  }

  /* ---- the operations, as functions of the tables ---- */

  /** One description of what getNextFile may hand out. */
  predicate Eligible(db: Tables, maxSize: nat, id: nat)
  {
    && id in db.sources && db.sources[id].size <= maxSize
    && match Lookup(db.queue, id)
       case None => true
       case Some(row) => row.status == NOT_STARTED || (RETRIABLE_MIN <= row.status < 0 && row.count < MAX_TRIES)
  }

  ghost predicate NothingEligible(db: Tables, maxSize: nat)
  {
    forall id :: !Eligible(db, maxSize, id)
  }

  function SizeLimit(maxFileSize: nat): nat { if maxFileSize > 0 then maxFileSize else MAX_SIZE_T }

  function HandedOut(db: Tables, id: nat): Tables
  {
    db.(queue := if Lookup(db.queue, id).None? then db.queue + [Row(id, STARTED, 1, None)]
                 else SetRow(db.queue, id, Change(STARTED, 1, None)))
  }

  function WithSource(db: Tables, src: FileInfo): Tables
  {
    if SourceId(db, src.path) != 0 then db
    else db.(sources := db.sources[db.lastId + 1 := src], lastId := db.lastId + 1)
  }

  /** The source's half of addFile: the row of the file, and its place in the queue. */
  function SourceAdded(db: Tables, src: FileInfo, archived: bool, queue: bool): (r: (Tables, nat))
  {
    var d := WithSource(db, src);
    var id := SourceId(d, src.path);
    if Lookup(d.queue, id).None? && (queue || archived)
    then (d.(queue := d.queue + [Row(id, if archived then OK else NOT_STARTED, 0, None)]), id)
    else (d, id)
  }

  /** The archive's half: file it under the source unless it is filed somewhere already, and mark the
      one it is filed under as done. */
  function ArchiveAdded(db: Tables, id: nat, dst: string): (Tables, nat)
  {
    if id in db.archives && db.archives[id] == dst then (db, id)
    else
      var owner := ArchiveId(db, dst);
      var target := if owner != 0 then owner else id;
      if target == 0 then (db, 0)
      else
        var d := if owner != 0 || id in db.archives then db else db.(archives := db.archives[id := dst]);
        (d.(queue := MarkedDone(d.queue, target, owner != 0)), target)
  }

  predicate JustDone(r: Option<Row>) { r.Some? && r.value.status == OK && r.value.comment == None }

  /** Status 5 for the id an archive is filed under; a row that has it or more is left alone when the
      archive was known before. */
  function MarkedDone(q: seq<Row>, id: nat, known: bool): seq<Row>
  {
    match Lookup(q, id)
    case None => q + [Row(id, OK, 0, None)]
    case Some(row) => if known && row.status >= OK then q else SetRow(q, id, Change(OK, 0, Some(None)))
  }

  /** A file argument counts as given when it is there and has a name. */
  predicate Given(f: Option<FileInfo>) { f.Some? && f.value.path != "" }

  function FileAdded(db: Tables, src: Option<FileInfo>, dst: Option<FileInfo>, queue: bool): (Tables, nat)
  {
    var (d, id) := if Given(src) then SourceAdded(db, src.value, Given(dst), queue) else (db, 0);
    if Given(dst) then ArchiveAdded(d, id, dst.value.path) else (d, id)
  }

  function EncodedAdded(db: Tables, f: EncodedFile): Tables
  {
    db.(queue := SetRow(db.queue, f.id, Change(f.result, 0, Some(if f.error == "" then None else Some(f.error)))),
        archives := if f.fileLength > 0 && f.id !in db.archives then db.archives[f.id := f.archive] else db.archives)
  }

  function JobReset(db: Tables, id: nat): Tables
  {
    db.(queue := SetRow(db.queue, id, Change(NOT_STARTED, 0, None)))
  }

  /* ---- the three arms of the UNION are that one description ---- */

  function QueuedArm(db: Tables, maxSize: nat): set<nat>
  {
    set row | row in db.queue && row.id in db.sources && db.sources[row.id].size <= maxSize
              && row.status == 0 :: row.id
  }

  function UnqueuedArm(db: Tables, maxSize: nat): set<nat>
  {
    set id | id in db.sources && db.sources[id].size <= maxSize && forall row | row in db.queue :: row.id != id
  }

  function RetryArm(db: Tables, maxSize: nat): set<nat>
  {
    set row | row in db.queue && row.id in db.sources && db.sources[row.id].size <= maxSize
              && row.status < 0 && row.status >= -99 && row.count < 3 :: row.id
  }

  lemma ArmsAreEligible(db: Tables, maxSize: nat, id: nat)
    requires OneRowPerId(db.queue)
    ensures id in QueuedArm(db, maxSize) + UnqueuedArm(db, maxSize) + RetryArm(db, maxSize)
       <==> Eligible(db, maxSize, id)
  {
    OnlyRow(db.queue, id);
    LookupFinds(db.queue, id);
  }

  /** SQLite, with a table as a field the methods replace. */
  class SQLite {
    var sources: map<nat, FileInfo>
    var archives: map<nat, string>
    var queue: seq<Row>
    var lastId: nat

    ghost function Contents(): Tables
      reads this
    {
      Tables(sources, archives, queue, lastId)
    }

    /** setupTables. */
    constructor ()
      ensures Contents() == EMPTY_TABLES
    {
      sources, archives, queue, lastId := map[], map[], [], 0;
    }

    /** Hands out any eligible file, as LIMIT 1 leaves open which. */
    method GetNextFile(maxFileSize: nat) returns (srcId: nat, file: FileInfo)
      requires Valid(Contents())
      modifies this
      ensures srcId == 0 <==> NothingEligible(old(Contents()), SizeLimit(maxFileSize))
      ensures srcId == 0 ==> file == FileInfo("", 0) && Contents() == old(Contents())
      ensures srcId != 0 ==> Eligible(old(Contents()), SizeLimit(maxFileSize), srcId)
                             && file == old(sources)[srcId] && Contents() == HandedOut(old(Contents()), srcId)
    {
      var maxSize := if maxFileSize > 0 then maxFileSize else MAX_SIZE_T;
      srcId, file := SelectNext(maxSize);
      if srcId == 0 {
        return;
      }
      var queued := false;
      for i := 0 to |queue|
        invariant queued <==> exists k :: 0 <= k < i && queue[k].id == srcId
      {
        if queue[i].id == srcId {
          queued := true;
        }
      }
      LookupFinds(queue, srcId);
      if !queued {
        queue := queue + [Row(srcId, STARTED, 1, None)];
      } else {
        queue := SetRow(queue, srcId, Change(STARTED, 1, None));
      }
    }

    /** The UNION query with LIMIT 1. */
    method SelectNext(maxSize: nat) returns (srcId: nat, file: FileInfo)
      requires Valid(Contents())
      ensures srcId == 0 <==> NothingEligible(Contents(), maxSize)
      ensures srcId == 0 ==> file == FileInfo("", 0)
      ensures srcId != 0 ==> Eligible(Contents(), maxSize, srcId) && file == sources[srcId]
    {
      var db := Tables(sources, archives, queue, lastId);
      var found := QueuedArm(db, maxSize) + UnqueuedArm(db, maxSize) + RetryArm(db, maxSize);
      forall id ensures id in found <==> Eligible(Contents(), maxSize, id) {
        ArmsAreEligible(db, maxSize, id);
      }
      srcId, file := 0, FileInfo("", 0);
      if found != {} {
        srcId :| srcId in found;
        file := sources[srcId];
      }
    }

    method AddFile(src: Option<FileInfo>, dst: Option<FileInfo>, toQueue: bool) returns (srcId: nat)
      requires Valid(Contents())
      modifies this
      ensures (Contents(), srcId) == FileAdded(old(Contents()), src, dst, toQueue)
    {
      ghost var was := Contents();
      var srcGiven, dstGiven := src.Some? && src.value.path != "", dst.Some? && dst.value.path != "";
      srcId := 0;
      var inQueue, putToQueue, archiveName := false, false, "";

      if srcGiven {
        srcId, inQueue, archiveName := LookUpSource(src.value.path);
        if srcId == 0 {
          lastId := lastId + 1;
          sources := sources[lastId := src.value];
          srcId := lastId;
        }
        assert Contents() == WithSource(was, src.value) && srcId == SourceId(Contents(), src.value.path);
        if !inQueue && (toQueue || dstGiven) {
          LookupAfterAppend(queue, Row(srcId, if dstGiven then 5 else 0, 0, None), srcId);
          OneRowAfterAppend(queue, Row(srcId, if dstGiven then 5 else 0, 0, None));
          queue := queue + [Row(srcId, if dstGiven then 5 else 0, 0, None)];
          putToQueue, inQueue := true, true;
        }
        assert (Contents(), srcId) == SourceAdded(was, src.value, dstGiven, toQueue);
      }

      if dstGiven {
        if archiveName != "" {
          if dst.value.path == archiveName {
            return;
          }
        }
        srcId := FileArchive(dst.value.path, srcId, inQueue, putToQueue);
      }
    }

    /** The part of AddFile that looks the archive up and files it. */
    method FileArchive(dst: string, id: nat, queued: bool, justPut: bool) returns (srcId: nat)
      requires dst != "" && !(id in archives && archives[id] == dst)
      requires queued <==> Lookup(queue, id).Some?
      requires justPut ==> queued && OneRowPerId(queue) && JustDone(Lookup(queue, id))
      modifies this
      ensures (Contents(), srcId) == ArchiveAdded(old(Contents()), id, dst)
    {
      ghost var was := Contents();
      srcId := id;
      var inQueue, putToQueue := queued, justPut;
      var found, id2, queued2, done := LookUpArchive(dst);
      if found {
        srcId, inQueue, putToQueue := id2, queued2, done;
      }
      if srcId != 0 {
        if !found && srcId !in archives {
          archives := archives[srcId := dst];
        }
        MarkDone(srcId, inQueue, putToQueue, found);
      }
    }

    method MarkDone(srcId: nat, inQueue: bool, putToQueue: bool, ghost known: bool)
      requires inQueue <==> Lookup(queue, srcId).Some?
      requires known ==> (putToQueue <==> inQueue && Lookup(queue, srcId).value.status >= OK)
      requires !known && putToQueue ==>
                 inQueue && OneRowPerId(queue) && JustDone(Lookup(queue, srcId))
      modifies this`queue
      ensures queue == MarkedDone(old(queue), srcId, known)
    {
      if !inQueue {
        queue := queue + [Row(srcId, 5, 0, None)];
      } else if !putToQueue {
        queue := SetRow(queue, srcId, Change(5, 0, Some(None)));
      } else if !known {
        SetRowKeeps(queue, srcId, Change(OK, 0, Some(None)));
      }
    }

    /** The query by source path and its callback: the row's id, whether it is queued, and its archive. */
    method LookUpSource(path: string) returns (srcId: nat, inQueue: bool, archiveName: string)
      requires Valid(Contents())
      ensures srcId == SourceId(Contents(), path)
      ensures inQueue <==> srcId != 0 && Lookup(queue, srcId).Some?
      ensures archiveName == if srcId in archives then archives[srcId] else ""
    {
      srcId, inQueue, archiveName := 0, false, "";
      for id := 1 to lastId + 1
        invariant srcId == LastSource(sources, path, id - 1)
        invariant inQueue <==> srcId != 0 && Lookup(queue, srcId).Some?
        invariant archiveName == if srcId in archives then archives[srcId] else ""
      {
        if id in sources && sources[id].path == path {
          srcId := id;
          inQueue := Lookup(queue, id).Some?;
          if id in archives && archives[id] != "" {
            archiveName := archives[id];
          }
        }
      }
    }

    /** The query by archive path and its callback. */
    method LookUpArchive(path: string) returns (found: bool, srcId: nat, inQueue: bool, done: bool)
      ensures srcId == ArchiveId(Contents(), path) && (found <==> srcId != 0)
      ensures inQueue <==> srcId != 0 && Lookup(queue, srcId).Some?
      ensures done <==> inQueue && Lookup(queue, srcId).value.status >= OK
    {
      found, srcId, inQueue, done := false, 0, false, false;
      for id := 1 to lastId + 1
        invariant srcId == LastArchive(archives, path, id - 1) && (found <==> srcId != 0)
        invariant inQueue <==> srcId != 0 && Lookup(queue, srcId).Some?
        invariant done <==> inQueue && Lookup(queue, srcId).value.status >= OK
      {
        if id in archives && archives[id] == path {
          found, srcId := true, id;
          inQueue := Lookup(queue, id).Some?;
          done := inQueue && Lookup(queue, id).value.status >= 5;
        }
      }
    }

    method AddEncodedFile(file: EncodedFile)
      modifies this
      ensures Contents() == EncodedAdded(old(Contents()), file)
    {
      var comment := None;
      if file.error != "" {
        comment := Some(file.error);
      }
      queue := SetRow(queue, file.id, Change(file.result, 0, Some(comment)));
      if file.fileLength > 0 && file.id !in archives {
        archives := archives[file.id := file.archive];
      }
    }

    method Reset(srcFileId: nat)
      modifies this
      ensures Contents() == JobReset(old(Contents()), srcFileId)
    {
      queue := SetRow(queue, srcFileId, Change(0, 0, None));
    }
  }
}
