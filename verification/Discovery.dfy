/** What the daemon makes of the files the watcher finds, and in what order they may be found. */
module Discovery {

  import opened Wrappers
  import opened Listener
  import opened Text
  import opened Naming
  import opened Database
  import opened JobTable

  /** The files there are, with their sizes. */
  type FileSystem = f: map<string, nat> | "" !in f witness map[]

  /** The arguments of a call of addFile. */
  datatype Call = Call(src: Option<FileInfo>, dst: Option<FileInfo>, queue: bool)

  const NO_CALL := Call(None, None, false)

  function SizeOf(fs: FileSystem, path: string): nat { if path in fs then fs[path] else 0 }

  /** A source is filed with its archive when that is there and not empty; an archive is filed under its
      source when that is there and not empty, and otherwise only looked up. */
  function CallFor(cfg: Config, interesting: string -> bool, fs: FileSystem, path: string): Call
  {
    if path !in fs then NO_CALL
    else if IsArchive(cfg, path) then
      var source := Stripped(cfg, path);
      if SizeOf(fs, source) > 0
      then Call(Some(FileInfo(source, fs[source])), Some(FileInfo(path, fs[path])), true)
      else Call(None, Some(FileInfo(path, fs[path])), false)
    else if interesting(path) then
      var archive := ArchivedName(cfg, path);
      Call(Some(FileInfo(path, fs[path])),
           if SizeOf(fs, archive) > 0 then Some(FileInfo(archive, fs[archive])) else None, true)
    else NO_CALL
  }

  /** onFileSystemChange up to the database call it ends in; a file whose size cannot be read makes it throw. */
  method OnFileSystemChange(cfg: Config, interesting: string -> bool, fs: FileSystem,
                            e: EventType, src: string, dst: string) returns (call: Call, thrown: bool)
    ensures thrown <==> e != FileDeleted && dst != "" && dst !in fs
    ensures call == if e in {FileDiscovered, FileCreated, FileMoved} then CallFor(cfg, interesting, fs, dst)
                    else NO_CALL
  {
    call, thrown := NO_CALL, false;
    if e == FileDeleted {
      return;
    }
    if dst == "" {
      return;
    }
    if dst !in fs {
      thrown := true;
      return;
    }
    var dstIsArchive, aName, aSize := false, "", 0;
    if IsArchive(cfg, dst) {
      dstIsArchive := true;
      aName := dst;
      var pos := LastOccurrence(aName, cfg.suffix);
      aName := aName[..pos] + aName[pos + |cfg.suffix|..];
    }
    if interesting(dst) {
      if !dstIsArchive {
        aName := GetArchivedFileName(cfg, dst);
      }
    } else if !dstIsArchive {
      return;
    }
    if aName != "" {
      if aName in fs {
        aSize := fs[aName];
      }
    }
    var source := FileInfo(if dstIsArchive then aName else dst, if dstIsArchive then aSize else fs[dst]);
    var archive := FileInfo(if dstIsArchive then dst else aName, if dstIsArchive then fs[dst] else aSize);
    match e {
      case FileDiscovered | FileCreated | FileMoved =>
        call := Call(if !dstIsArchive || (dstIsArchive && aSize != 0) then Some(source) else None,
                     if dstIsArchive || (!dstIsArchive && aSize != 0) then Some(archive) else None,
                     !dstIsArchive || aSize != 0);
      case _ =>
    }
  }

  function Calls(cfg: Config, interesting: string -> bool, fs: FileSystem, files: seq<string>): (calls: seq<Call>)
    ensures |calls| == |files|
    ensures forall i | 0 <= i < |files| :: calls[i] == CallFor(cfg, interesting, fs, files[i])
  {
    seq(|files|, i requires 0 <= i < |files| => CallFor(cfg, interesting, fs, files[i]))
  }

  /** The tables after a run of calls on an empty database. */
  function Run(calls: seq<Call>): Tables
  {
    if calls == [] then EMPTY_TABLES else RunOne(Run(calls[..|calls| - 1]), calls[|calls| - 1])
  }

  function RunOne(db: Tables, c: Call): Tables { FileAdded(db, c.src, c.dst, c.queue).0 }

  /* ---- rows up to renaming of ids ---- */

  datatype Job = Job(status: int, count: nat, comment: Option<string>)

  /** All that the three tables say of one source path. */
  datatype Entry = Entry(size: nat, archive: Option<string>, job: Option<Job>)

  function JobOf(q: seq<Row>, id: nat): Option<Job>
  {
    match Lookup(q, id)
    case None => None
    case Some(r) => Some(Job(r.status, r.count, r.comment))
  }

  function EntryOf(db: Tables, path: string): Option<Entry>
  {
    var id := SourceId(db, path);
    if id == 0 then None
    else
      var archive := if id in db.archives then Some(db.archives[id]) else None;
      Some(Entry(db.sources[id].size, archive, JobOf(db.queue, id)))
  }

  /** Two databases hold the same rows, whatever ids they were given. */
  ghost predicate SameRows(d1: Tables, d2: Tables)
  {
    forall path :: EntryOf(d1, path) == EntryOf(d2, path)
  }

  /* ---- what a set of calls says ---- */

  ghost predicate HasSource(calls: seq<Call>, path: string, size: nat)
  {
    exists c :: c in calls && c.src == Some(FileInfo(path, size))
  }

  predicate Pairs(c: Call, path: string, archive: string)
  {
    c.src.Some? && c.src.value.path == path && c.dst.Some? && c.dst.value.path == archive
  }

  ghost predicate Paired(calls: seq<Call>, path: string, archive: string)
  {
    exists c :: c in calls && Pairs(c, path, archive)
  }

  /** No source has two archives, and no archive two sources. */
  ghost predicate OneToOne(calls: seq<Call>)
  {
    forall p, a, q, b | Paired(calls, p, a) && Paired(calls, q, b) :: p == q <==> a == b
  }

  /** Calls as discovery makes them: names that are there, and one size per source. */
  ghost predicate Proper(calls: seq<Call>)
  {
    && (forall c | c in calls :: ProperCall(c))
    && (forall p, s, t | HasSource(calls, p, s) && HasSource(calls, p, t) :: s == t)
  }

  predicate ProperCall(c: Call)
  {
    && (c.src.Some? ==> Given(c.src) && c.queue)
    && (c.dst.Some? ==> Given(c.dst))
  }

  /** What the tables say of a source after a set of calls, whatever they pair: status 5 needs a call that
      pairs it, an archive makes it sure, and a paired source is without one only when every archive it was
      paired with is filed under another. */
  ghost predicate RowsDescribed(calls: seq<Call>, db: Tables, id: nat)
    requires id in db.sources
  {
    var path, job := db.sources[id].path, JobOf(db.queue, id);
    && HasSource(calls, path, db.sources[id].size)
    && job in {Some(Job(OK, 0, None)), Some(Job(NOT_STARTED, 0, None))}
    && (job == Some(Job(OK, 0, None)) ==> exists a :: Paired(calls, path, a))
    && (id in db.archives ==> job == Some(Job(OK, 0, None)) && Paired(calls, path, db.archives[id]))
    && (id !in db.archives ==> forall a | Paired(calls, path, a) :: ArchiveId(db, a) != 0)
  }

  ghost predicate TablesDescribed(calls: seq<Call>, db: Tables)
  {
    && Valid(db)
    && (forall path, size | HasSource(calls, path, size) :: SourceId(db, path) != 0)
    && (forall id | id in db.sources :: RowsDescribed(calls, db, id))
  }

  /** The entry a set of calls calls for when it pairs one to one: status 5 exactly with an archive, 0 without. */
  ghost predicate Described(calls: seq<Call>, path: string, e: Option<Entry>)
  {
    match e
    case None => forall size :: !HasSource(calls, path, size)
    case Some(Entry(size, archive, job)) =>
      && HasSource(calls, path, size)
      && match archive
         case Some(a) => Paired(calls, path, a) && job == Some(Job(OK, 0, None))
         case None => (forall a :: !Paired(calls, path, a)) && job == Some(Job(NOT_STARTED, 0, None))
  }

  lemma CallsAreProper(cfg: Config, interesting: string -> bool, fs: FileSystem, files: seq<string>)
    ensures Proper(Calls(cfg, interesting, fs, files))
  {
    var calls := Calls(cfg, interesting, fs, files);
    forall c | c in calls
      ensures ProperCall(c)
      ensures c.src.Some? ==> c.src.value.path in fs && c.src.value.size == fs[c.src.value.path] {
      var i :| 0 <= i < |files| && calls[i] == c;
      ArchivedNameIsArchive(cfg, files[i]);
    }
  }

  /* ---- one call on described tables ---- */

  lemma PairedInMore(calls: seq<Call>, c: Call)
    ensures forall p, a :: Paired(calls + [c], p, a) <==> Paired(calls, p, a) || Pairs(c, p, a)
    ensures forall p, s :: HasSource(calls + [c], p, s) <==> HasSource(calls, p, s) || c.src == Some(FileInfo(p, s))
  {
    assert forall d :: d in calls + [c] <==> d in calls || d == c;
  }

  lemma PairedHasSource(calls: seq<Call>, db: Tables, path: string)
    requires TablesDescribed(calls, db)
    ensures forall a :: Paired(calls, path, a) ==> SourceId(db, path) != 0
  {
    forall a | Paired(calls, path, a) ensures SourceId(db, path) != 0 {
      var c :| c in calls && Pairs(c, path, a);
      assert HasSource(calls, path, c.src.value.size);
    }
  }

  lemma FiledHasOwner(db: Tables, id: nat)
    requires Valid(db) && id in db.archives
    ensures ArchiveId(db, db.archives[id]) != 0
  {
  }

  /** An archive that comes without its source changes nothing. */
  lemma ArchiveAloneChangesNothing(calls: seq<Call>, c: Call, db: Tables)
    requires TablesDescribed(calls, db) && ProperCall(c) && c.src.None?
    ensures RunOne(db, c) == db
  {
    if c.dst.Some? && ArchiveId(db, c.dst.value.path) != 0 {
      assert RowsDescribed(calls, db, ArchiveId(db, c.dst.value.path));
    }
  }

  /** No row was ever handed out, and an archive comes with status 5. */
  predicate Untried(db: Tables, id: nat)
  {
    && JobOf(db.queue, id) in {Some(Job(OK, 0, None)), Some(Job(NOT_STARTED, 0, None))}
    && (id in db.archives ==> JobOf(db.queue, id) == Some(Job(OK, 0, None)))
  }

  /** The source's half: a new source is queued, with status 5 when an archive comes with it. */
  lemma SourceHalf(db: Tables, src: FileInfo, archived: bool, k: nat)
    requires Valid(db) && src.path != "" && k in SourceAdded(db, src, archived, true).0.sources
    requires forall id | id in db.sources :: Untried(db, id)
    ensures var (d, id) := SourceAdded(db, src, archived, true);
            if k in db.sources then
              d.sources[k] == db.sources[k] && JobOf(d.queue, k) == JobOf(db.queue, k)
            else
              && k == id && SourceId(db, src.path) == 0 && d.sources[k] == src && k !in db.archives
              && JobOf(d.queue, k) == Some(Job(if archived then OK else NOT_STARTED, 0, None))
  {
    SourceAddedRow(db, src, archived, true, k);
    if k in db.sources {
      assert Untried(db, k);
    }
  }

  /** The archive's half: the source it comes with is given it, unless one of the two is taken. */
  lemma ArchiveHalf(d: Tables, id: nat, archive: string, k: nat)
    requires Valid(d) && id in d.sources && Untried(d, id)
    requires ArchiveId(d, archive) != 0 ==> Untried(d, ArchiveId(d, archive))
    ensures var after := ArchiveAdded(d, id, archive).0;
            && after.sources == d.sources
            && (if id in d.archives || ArchiveId(d, archive) != 0
                then after.archives == d.archives && JobOf(after.queue, k) == JobOf(d.queue, k)
                else after.archives == d.archives[id := archive]
                     && JobOf(after.queue, k) == if k == id then Some(Job(OK, 0, None)) else JobOf(d.queue, k))
  {
    var owner := ArchiveId(d, archive);
    MarkedDoneRow(d.queue, if owner != 0 then owner else id, owner != 0, k);
  }

  /** Both halves, for a call that brings a source. */
  lemma CallHalves(db: Tables, c: Call, k: nat)
    requires Valid(db) && ProperCall(c) && c.src.Some? && k in RunOne(db, c).sources
    requires forall id | id in db.sources :: Untried(db, id)
    ensures var (d, id) := SourceAdded(db, c.src.value, c.dst.Some?, true);
            var after := RunOne(db, c);
            var gets := c.dst.Some? && id !in db.archives && ArchiveId(d, c.dst.value.path) == 0;
            && after.archives == (if gets then db.archives[id := c.dst.value.path] else db.archives)
            && (k in db.sources ==> after.sources[k] == db.sources[k])
            && (k !in db.sources ==>
                  && k == id && SourceId(db, c.src.value.path) == 0 && after.sources[k] == c.src.value
                  && k !in db.archives)
            && JobOf(after.queue, k)
               == (if k == id && (gets || (c.dst.Some? && k !in db.sources)) then Some(Job(OK, 0, None))
                   else if k in db.sources then JobOf(db.queue, k)
                   else Some(Job(NOT_STARTED, 0, None)))
  {
    var (d, id) := SourceAdded(db, c.src.value, c.dst.Some?, true);
    ValidSourceAdded(db, c.src.value, c.dst.Some?, true);
    if c.dst.Some? {
      SourceHalf(db, c.src.value, true, id);
      if ArchiveId(d, c.dst.value.path) != 0 {
        SourceHalf(db, c.src.value, true, ArchiveId(d, c.dst.value.path));
      }
      ArchiveHalf(d, id, c.dst.value.path, k);
    }
    SourceHalf(db, c.src.value, c.dst.Some?, k);
  }

  /** An archive that is filed stays filed; one that comes with a source is filed, unless the source has one. */
  lemma MetIsFiled(db: Tables, c: Call, a: string)
    requires Valid(db) && ProperCall(c) && c.src.Some?
    requires forall id | id in db.sources :: Untried(db, id)
    requires ArchiveId(db, a) != 0
             || (c.dst.Some? && c.dst.value.path == a
                 && SourceAdded(db, c.src.value, true, true).1 !in RunOne(db, c).archives)
    ensures ArchiveId(RunOne(db, c), a) != 0
  {
    ValidFileAdded(db, c.src, c.dst, c.queue);
    CallGrows(db, c);
    if ArchiveId(db, a) != 0 {
      FiledHasOwner(RunOne(db, c), ArchiveId(db, a));
    } else {
      var (d, id) := SourceAdded(db, c.src.value, true, true);
      ValidSourceAdded(db, c.src.value, true, true);
      CallHalves(db, c, id);
    }
  }

  lemma RowsAfterCall(calls: seq<Call>, c: Call, db: Tables, k: nat)
    requires TablesDescribed(calls, db) && ProperCall(c) && c.src.Some?
    requires k in RunOne(db, c).sources
    ensures RowsDescribed(calls + [c], RunOne(db, c), k)
  {
    var after := RunOne(db, c);
    SourceOfCall(db, c);
    RowsPaired(calls, c, db, k);
    if k !in after.archives {
      AllUntried(calls, db);
      PairedInMore(calls, c);
      forall a | Paired(calls + [c], after.sources[k].path, a) ensures ArchiveId(after, a) != 0 {
        if k in db.sources {
          assert RowsDescribed(calls, db, k);
        } else {
          CallHalves(db, c, k);
          PairedHasSource(calls, db, c.src.value.path);
        }
        CallHalves(db, c, k);
        MetIsFiled(db, c, a);
      }
    }
  }

  /** Size, status and archive of a source after the call. */
  lemma RowsPaired(calls: seq<Call>, c: Call, db: Tables, k: nat)
    requires TablesDescribed(calls, db) && ProperCall(c) && c.src.Some? && k in RunOne(db, c).sources
    ensures var after := RunOne(db, c);
            var path, job := after.sources[k].path, JobOf(after.queue, k);
            && HasSource(calls + [c], path, after.sources[k].size)
            && job in {Some(Job(OK, 0, None)), Some(Job(NOT_STARTED, 0, None))}
            && (job == Some(Job(OK, 0, None)) ==> exists a :: Paired(calls + [c], path, a))
            && (k in after.archives ==> job == Some(Job(OK, 0, None)) && Paired(calls + [c], path, after.archives[k]))
  {
    AllUntried(calls, db);
    CallHalves(db, c, k);
    SourceOfCall(db, c);
    PairedInMore(calls, c);
    if c.dst.Some? {
      assert Pairs(c, c.src.value.path, c.dst.value.path);
    }
    if k in db.sources {
      assert RowsDescribed(calls, db, k);
    }
  }

  /** The source a call brings is the one with its path. */
  lemma SourceOfCall(db: Tables, c: Call)
    requires Valid(db) && ProperCall(c) && c.src.Some?
    ensures var id, after := SourceAdded(db, c.src.value, c.dst.Some?, true).1, RunOne(db, c);
            && id in after.sources
            && forall k | k in after.sources :: after.sources[k].path == c.src.value.path <==> k == id
  {
    ValidFileAdded(db, c.src, c.dst, c.queue);
    ValidSourceAdded(db, c.src.value, c.dst.Some?, true);
  }

  lemma AllUntried(calls: seq<Call>, db: Tables)
    requires TablesDescribed(calls, db)
    ensures forall id | id in db.sources :: Untried(db, id)
  {
    forall id | id in db.sources ensures Untried(db, id) {
      assert RowsDescribed(calls, db, id);
    }
  }

  lemma DescribedAfterCall(calls: seq<Call>, c: Call, db: Tables)
    requires TablesDescribed(calls, db) && ProperCall(c)
    ensures TablesDescribed(calls + [c], RunOne(db, c))
  {
    ValidFileAdded(db, c.src, c.dst, c.queue);
    SourcesAfterCall(calls, c, db);
    if c.src.None? {
      ArchiveAloneChangesNothing(calls, c, db);
      PairedInMore(calls, c);
      forall id | id in db.sources ensures RowsDescribed(calls + [c], db, id) {
        assert RowsDescribed(calls, db, id);
      }
    } else {
      forall id | id in RunOne(db, c).sources ensures RowsDescribed(calls + [c], RunOne(db, c), id) {
        RowsAfterCall(calls, c, db, id);
      }
    }
  }

  lemma SourcesAfterCall(calls: seq<Call>, c: Call, db: Tables)
    requires TablesDescribed(calls, db) && ProperCall(c)
    ensures forall path, size | HasSource(calls + [c], path, size) :: SourceId(RunOne(db, c), path) != 0
  {
    PairedInMore(calls, c);
    ValidFileAdded(db, c.src, c.dst, c.queue);
    CallGrows(db, c);
    if c.src.Some? {
      SourceOfCall(db, c);
    }
  }

  /** Discovery from an empty database, whatever it meets in whatever order. */
  lemma {:induction false} RunIsDescribed(calls: seq<Call>)
    requires forall c | c in calls :: ProperCall(c)
    ensures TablesDescribed(calls, Run(calls))
  {
    if calls != [] {
      var before, c := calls[..|calls| - 1], calls[|calls| - 1];
      assert calls == before + [c];
      RunIsDescribed(before);
      DescribedAfterCall(before, c, Run(before));
    }
  }

  /** When it pairs one to one, status 5 goes with an archive and status 0 without. */
  lemma OneToOneDescribed(calls: seq<Call>, path: string)
    requires OneToOne(calls) && Proper(calls)
    ensures Described(calls, path, EntryOf(Run(calls), path))
  {
    RunIsDescribed(calls);
    var db := Run(calls);
    var id := SourceId(db, path);
    if id != 0 {
      assert RowsDescribed(calls, db, id);
      forall a | Paired(calls, path, a) ensures ArchiveId(db, a) == id {
        if id in db.archives {
          FiledHasOwner(db, id);
        }
        assert RowsDescribed(calls, db, ArchiveId(db, a));
      }
    }
  }

  lemma DescriptionIsUnique(c1: seq<Call>, c2: seq<Call>, path: string, e1: Option<Entry>, e2: Option<Entry>)
    requires Described(c1, path, e1) && Described(c2, path, e2)
    requires forall c :: c in c1 <==> c in c2
    requires OneToOne(c1) && Proper(c1)
    ensures e1 == e2
  {
    assert forall p, s :: HasSource(c1, p, s) <==> HasSource(c2, p, s);
    assert forall p, a :: Paired(c1, p, a) <==> Paired(c2, p, a);
  }

  /* ---- the order files are found in ---- */

  ghost predicate OrderIrrelevant(cfg: Config, interesting: string -> bool, fs: FileSystem, files: seq<string>)
  {
    forall other | multiset(other) == multiset(files) ::
      SameRows(Run(Calls(cfg, interesting, fs, other)), Run(Calls(cfg, interesting, fs, files)))
  }

  lemma SameCalls(cfg: Config, interesting: string -> bool, fs: FileSystem, f1: seq<string>, f2: seq<string>)
    requires forall f | f in f1 :: f in f2
    ensures forall c | c in Calls(cfg, interesting, fs, f1) :: c in Calls(cfg, interesting, fs, f2)
  {
    var c1, c2 := Calls(cfg, interesting, fs, f1), Calls(cfg, interesting, fs, f2);
    forall c | c in c1 ensures c in c2 {
      var i :| 0 <= i < |f1| && c1[i] == c;
      assert f1[i] in f2;
      var j :| 0 <= j < |f2| && f2[j] == f1[i];
      assert c2[j] == c;
    }
  }

  /** What is filed stays filed, and an archive is never filed twice. */
  ghost predicate Filed(db: Tables, path: string, archive: string)
  {
    Valid(db) && FiledUnder(db, path, archive) && FiledOnce(db.archives)
  }

  ghost predicate FiledUnder(db: Tables, path: string, archive: string)
  {
    exists id :: id in db.archives && db.archives[id] == archive && id in db.sources && db.sources[id].path == path
  }

  ghost predicate FiledOnce(archives: map<nat, string>)
  {
    forall i, j | i in archives && j in archives && archives[i] == archives[j] :: i == j
  }

  /** Rows of both tables only come, and an archive only when its name is not there yet. */
  ghost predicate Grows(db: Tables, d: Tables)
  {
    && (forall k | k in db.sources :: k in d.sources && d.sources[k] == db.sources[k])
    && (forall k | k in db.archives :: k in d.archives && d.archives[k] == db.archives[k])
    && (FiledOnce(db.archives) ==> FiledOnce(d.archives))
  }

  lemma SourceHalfGrows(db: Tables, src: FileInfo, archived: bool, queue: bool)
    requires Valid(db)
    ensures Grows(db, SourceAdded(db, src, archived, queue).0)
  {
  }

  lemma ArchiveHalfGrows(db: Tables, id: nat, dst: string)
    requires Valid(db)
    ensures Grows(db, ArchiveAdded(db, id, dst).0)
  {
    if ArchiveId(db, dst) == 0 {
      assert forall k | k in db.archives :: db.archives[k] != dst;
    }
  }

  lemma CallGrows(db: Tables, c: Call)
    requires Valid(db)
    ensures Grows(db, RunOne(db, c))
  {
    var (d, id) := if Given(c.src) then SourceAdded(db, c.src.value, Given(c.dst), c.queue) else (db, 0);
    if Given(c.src) {
      SourceHalfGrows(db, c.src.value, Given(c.dst), c.queue);
      ValidSourceAdded(db, c.src.value, Given(c.dst), c.queue);
    }
    if Given(c.dst) {
      ArchiveHalfGrows(d, id, c.dst.value.path);
    }
  }

  lemma FiledStays(db: Tables, c: Call, path: string, archive: string)
    requires Filed(db, path, archive)
    ensures Filed(RunOne(db, c), path, archive)
  {
    ValidFileAdded(db, c.src, c.dst, c.queue);
    CallGrows(db, c);
    var k :| k in db.archives && db.archives[k] == archive && k in db.sources && db.sources[k].path == path;
    var after := RunOne(db, c);
    assert after.archives[k] == archive && after.sources[k].path == path;
  }

  lemma FiledFirst(c: Call, path: string, archive: string)
    requires ProperCall(c) && Pairs(c, path, archive)
    ensures Filed(RunOne(EMPTY_TABLES, c), path, archive)
  {
    var (d, id) := SourceAdded(EMPTY_TABLES, c.src.value, true, true);
    ValidSourceAdded(EMPTY_TABLES, c.src.value, true, true);
    ValidFileAdded(EMPTY_TABLES, c.src, c.dst, c.queue);
    CallGrows(EMPTY_TABLES, c);
    var after := RunOne(EMPTY_TABLES, c);
    assert id in after.archives && after.archives[id] == archive && after.sources[id].path == path;
  }

  lemma {:induction false} FirstCallDecides(c: Call, rest: seq<Call>, path: string, archive: string)
    requires ProperCall(c) && Pairs(c, path, archive)
    ensures Filed(Run([c] + rest), path, archive)
  {
    if rest == [] {
      assert ([c] + rest)[..0] == [] && [c] + rest == [c];
      FiledFirst(c, path, archive);
    } else {
      assert ([c] + rest)[..|rest|] == [c] + rest[..|rest| - 1];
      FirstCallDecides(c, rest[..|rest| - 1], path, archive);
      FiledStays(Run([c] + rest[..|rest| - 1]), rest[|rest| - 1], path, archive);
    }
  }

  /** Two databases with the same rows file the same archives under the same sources. */
  lemma FiledInBoth(d1: Tables, d2: Tables, p: string, a: string, q: string, b: string)
    requires SameRows(d1, d2) && Filed(d1, p, a) && Filed(d2, q, b)
    ensures p == q <==> a == b
  {
    var i :| i in d1.archives && d1.archives[i] == a && i in d1.sources && d1.sources[i].path == p;
    var j :| j in d2.archives && d2.archives[j] == b && j in d2.sources && d2.sources[j].path == q;
    SourceIdIs(d1, i);
    SourceIdIs(d2, j);
    assert EntryOf(d1, p) == EntryOf(d2, p) && EntryOf(d1, q) == EntryOf(d2, q);
    assert EntryOf(d1, p).value.archive == Some(a) && EntryOf(d2, q).value.archive == Some(b);
    if a == b {
      var k := SourceId(d2, p);
      assert d2.archives[k] == d2.archives[j];
    }
  }

  /** Any file may be found first. */
  lemma FoundFirst(cfg: Config, interesting: string -> bool, fs: FileSystem, files: seq<string>, c: Call)
    returns (other: seq<string>)
    requires c in Calls(cfg, interesting, fs, files)
    ensures multiset(other) == multiset(files)
    ensures other != [] && Calls(cfg, interesting, fs, other) == [c] + Calls(cfg, interesting, fs, other[1..])
  {
    var calls := Calls(cfg, interesting, fs, files);
    var i :| 0 <= i < |files| && calls[i] == c;
    other := [files[i]] + (files[..i] + files[i + 1..]);
    assert files == files[..i] + [files[i]] + files[i + 1..];
  }

  /** Finding the same files in another order gives the same rows, up to their ids, exactly when no source
      is met with two archives and no archive with two sources. */
  lemma OrderIrrelevantIff(cfg: Config, interesting: string -> bool, fs: FileSystem, files: seq<string>)
    ensures OrderIrrelevant(cfg, interesting, fs, files) <==> OneToOne(Calls(cfg, interesting, fs, files))
  {
    var calls := Calls(cfg, interesting, fs, files);
    CallsAreProper(cfg, interesting, fs, files);
    if OneToOne(calls) {
      forall other | multiset(other) == multiset(files)
        ensures SameRows(Run(Calls(cfg, interesting, fs, other)), Run(calls)) {
        SameRowsInOrder(cfg, interesting, fs, files, other);
      }
    } else {
      var p, a, q, b :| Paired(calls, p, a) && Paired(calls, q, b) && !(p == q <==> a == b);
      var c :| c in calls && Pairs(c, p, a);
      var d :| d in calls && Pairs(d, q, b);
      var o1 := FoundFirst(cfg, interesting, fs, files, c);
      var o2 := FoundFirst(cfg, interesting, fs, files, d);
      FirstCallDecides(c, Calls(cfg, interesting, fs, o1[1..]), p, a);
      FirstCallDecides(d, Calls(cfg, interesting, fs, o2[1..]), q, b);
      var d1, d2 := Run(Calls(cfg, interesting, fs, o1)), Run(Calls(cfg, interesting, fs, o2));
      if OrderIrrelevant(cfg, interesting, fs, files) {
        assert SameRows(d1, Run(calls)) && SameRows(d2, Run(calls));
        FiledInBoth(d1, d2, p, a, q, b);
      }
    }
  }

  lemma SameRowsInOrder(cfg: Config, interesting: string -> bool, fs: FileSystem, files: seq<string>,
                        other: seq<string>)
    requires OneToOne(Calls(cfg, interesting, fs, files))
    requires multiset(other) == multiset(files)
    ensures SameRows(Run(Calls(cfg, interesting, fs, other)), Run(Calls(cfg, interesting, fs, files)))
  {
    var c1, c2 := Calls(cfg, interesting, fs, files), Calls(cfg, interesting, fs, other);
    forall f ensures f in files <==> f in other {
      assert f in multiset(files) <==> f in multiset(other);
    }
    SameCalls(cfg, interesting, fs, files, other);
    SameCalls(cfg, interesting, fs, other, files);
    CallsAreProper(cfg, interesting, fs, files);
    CallsAreProper(cfg, interesting, fs, other);
    assert forall p, a :: Paired(c1, p, a) <==> Paired(c2, p, a);
    forall path ensures EntryOf(Run(c2), path) == EntryOf(Run(c1), path) {
      OneToOneDescribed(c1, path);
      OneToOneDescribed(c2, path);
      DescriptionIsUnique(c1, c2, path, EntryOf(Run(c1), path), EntryOf(Run(c2), path));
    }
  }

  /* ---- what is met, in terms of the files alone ---- */

  /** A name with the suffix in it somewhere and the final extension at the end. */
  ghost predicate LooksArchived(cfg: Config, name: string)
  {
    Contains(name, cfg.suffix) && EndsWith(name, cfg.finalExtension)
  }

  /** This name without the last suffix in it is `source`. */
  ghost predicate LeadsBackTo(cfg: Config, name: string, source: string)
  {
    exists i :: OccursAt(name, cfg.suffix, i) && (forall j | j > i :: !OccursAt(name, cfg.suffix, j))
                && source == name[..i] + name[i + |cfg.suffix|..]
  }

  lemma IsArchiveMeans(cfg: Config, name: string)
    ensures IsArchive(cfg, name) <==> LooksArchived(cfg, name)
  {
  }

  lemma StrippedMeans(cfg: Config, name: string, source: string)
    requires IsArchive(cfg, name)
    ensures LeadsBackTo(cfg, name, source) <==> source == Stripped(cfg, name)
  {
    var pos := LastOccurrence(name, cfg.suffix);
    assert OccursAt(name, cfg.suffix, pos);
  }

  predicate NonEmpty(fs: FileSystem, path: string) { path in fs && fs[path] > 0 }

  /** A file that is a source by its own looks. */
  ghost predicate FoundSource(cfg: Config, interesting: string -> bool, fs: FileSystem, files: seq<string>, p: string)
  {
    p in files && p in fs && interesting(p) && !LooksArchived(cfg, p)
  }

  /** A file that is an archive by its looks, and leads back to a source that is there. */
  ghost predicate FoundArchiveOf(cfg: Config, fs: FileSystem, files: seq<string>, a: string, p: string)
  {
    a in files && a in fs && LooksArchived(cfg, a) && LeadsBackTo(cfg, a, p) && NonEmpty(fs, p)
  }

  lemma CallFound(cfg: Config, interesting: string -> bool, fs: FileSystem, files: seq<string>, c: Call)
    returns (f: string)
    requires c in Calls(cfg, interesting, fs, files)
    ensures f in files && c == CallFor(cfg, interesting, fs, f)
  {
    var i :| 0 <= i < |files| && Calls(cfg, interesting, fs, files)[i] == c;
    f := files[i];
  }

  lemma CallMade(cfg: Config, interesting: string -> bool, fs: FileSystem, files: seq<string>, f: string)
    requires f in files
    ensures CallFor(cfg, interesting, fs, f) in Calls(cfg, interesting, fs, files)
  {
    var i :| 0 <= i < |files| && files[i] == f;
    assert Calls(cfg, interesting, fs, files)[i] == CallFor(cfg, interesting, fs, f);
  }

  /** The sources that are passed on: the interesting files found that are no archives, and those that an
      archive found leads back to; with their own sizes. */
  lemma SourcesMet(cfg: Config, interesting: string -> bool, fs: FileSystem, files: seq<string>, p: string, size: nat)
    ensures HasSource(Calls(cfg, interesting, fs, files), p, size)
       <==> p in fs && size == fs[p]
            && (FoundSource(cfg, interesting, fs, files, p) || exists a :: FoundArchiveOf(cfg, fs, files, a, p))
  {
    var calls := Calls(cfg, interesting, fs, files);
    if HasSource(calls, p, size) {
      var c :| c in calls && c.src == Some(FileInfo(p, size));
      var f := CallFound(cfg, interesting, fs, files, c);
      IsArchiveMeans(cfg, f);
      if IsArchive(cfg, f) {
        StrippedMeans(cfg, f, p);
        assert FoundArchiveOf(cfg, fs, files, f, p);
      }
    }
    if FoundSource(cfg, interesting, fs, files, p) {
      IsArchiveMeans(cfg, p);
      CallMade(cfg, interesting, fs, files, p);
    }
    if a :| FoundArchiveOf(cfg, fs, files, a, p) {
      IsArchiveMeans(cfg, a);
      StrippedMeans(cfg, a, p);
      CallMade(cfg, interesting, fs, files, a);
    }
  }

  /** The pairs that are passed on: an interesting file found with the archive of its name, if that is there
      and not empty, and an archive found with the source it leads back to, if that is there and not empty. */
  lemma PairsMet(cfg: Config, interesting: string -> bool, fs: FileSystem, files: seq<string>, p: string, a: string)
    ensures Paired(Calls(cfg, interesting, fs, files), p, a)
       <==> || (FoundSource(cfg, interesting, fs, files, p) && a == ArchivedName(cfg, p) && NonEmpty(fs, a))
            || FoundArchiveOf(cfg, fs, files, a, p)
  {
    var calls := Calls(cfg, interesting, fs, files);
    if Paired(calls, p, a) {
      var c :| c in calls && Pairs(c, p, a);
      var f := CallFound(cfg, interesting, fs, files, c);
      IsArchiveMeans(cfg, f);
      if IsArchive(cfg, f) {
        StrippedMeans(cfg, f, p);
      }
    }
    if FoundSource(cfg, interesting, fs, files, p) && a == ArchivedName(cfg, p) && NonEmpty(fs, a) {
      IsArchiveMeans(cfg, p);
      CallMade(cfg, interesting, fs, files, p);
      assert Pairs(CallFor(cfg, interesting, fs, p), p, a);
    }
    if FoundArchiveOf(cfg, fs, files, a, p) {
      IsArchiveMeans(cfg, a);
      StrippedMeans(cfg, a, p);
      CallMade(cfg, interesting, fs, files, a);
      assert Pairs(CallFor(cfg, interesting, fs, a), p, a);
    }
  }

  ghost predicate HasArchive(cfg: Config, interesting: string -> bool, fs: FileSystem, files: seq<string>,
                             p: string, a: string)
  {
    || (FoundSource(cfg, interesting, fs, files, p) && a == ArchivedName(cfg, p) && NonEmpty(fs, a))
    || FoundArchiveOf(cfg, fs, files, a, p)
  }

  /** An archive that is found without its source adds nothing to any database: it makes sure that the file it
      is filed under, if there is one, counts as done. */
  lemma ArchiveAlone(cfg: Config, interesting: string -> bool, fs: FileSystem, a: string, db: Tables, k: nat)
    requires Valid(db) && a in fs && LooksArchived(cfg, a)
    requires forall p | LeadsBackTo(cfg, a, p) :: !NonEmpty(fs, p)
    ensures var now, was := RunOne(db, CallFor(cfg, interesting, fs, a)), Lookup(db.queue, k);
            && now.sources == db.sources && now.archives == db.archives
            && Lookup(now.queue, k)
               == if k != 0 && k == ArchiveId(db, a) && was.Some? && was.value.status < 5
                  then Some(Row(k, 5, was.value.count, None)) else was
  {
    IsArchiveMeans(cfg, a);
    StrippedMeans(cfg, a, Stripped(cfg, a));
    var c := CallFor(cfg, interesting, fs, a);
    FileAddedIs(db, c.src, c.dst, c.queue, k);
  }

  /** From the files to the tables: after discovery in any order, with pairs one to one, a source is there
      exactly if it was met, with its size; it has status 5 exactly if there is an archive for it, and that is
      the archive filed; otherwise it waits to be encoded. */
  lemma DiscoveryFinds(cfg: Config, interesting: string -> bool, fs: FileSystem, files: seq<string>, p: string)
    requires forall q, a, r, b ::
               HasArchive(cfg, interesting, fs, files, q, a) && HasArchive(cfg, interesting, fs, files, r, b)
               ==> (q == r <==> a == b)
    ensures var e := EntryOf(Run(Calls(cfg, interesting, fs, files)), p);
            && (e.Some? <==> p in fs && (FoundSource(cfg, interesting, fs, files, p)
                                         || exists a :: FoundArchiveOf(cfg, fs, files, a, p)))
            && (e.Some? ==> e.value.size == fs[p])
            && (e.Some? && e.value.archive.Some? ==>
                  && HasArchive(cfg, interesting, fs, files, p, e.value.archive.value)
                  && e.value.job == Some(Job(5, 0, None)))
            && (e.Some? && e.value.archive.None? ==>
                  (forall a :: !HasArchive(cfg, interesting, fs, files, p, a)) && e.value.job == Some(Job(0, 0, None)))
  {
    var calls := Calls(cfg, interesting, fs, files);
    forall q, a ensures Paired(calls, q, a) <==> HasArchive(cfg, interesting, fs, files, q, a) {
      PairsMet(cfg, interesting, fs, files, q, a);
    }
    CallsAreProper(cfg, interesting, fs, files);
    OneToOneDescribed(calls, p);
    forall size ensures HasSource(calls, p, size)
                   <==> p in fs && size == fs[p]
                        && (FoundSource(cfg, interesting, fs, files, p)
                            || exists a :: FoundArchiveOf(cfg, fs, files, a, p)) {
      SourcesMet(cfg, interesting, fs, files, p, size);
    }
    var met := FoundSource(cfg, interesting, fs, files, p) || exists a :: FoundArchiveOf(cfg, fs, files, a, p);
    assert p in fs ==> (HasSource(calls, p, fs[p]) <==> met);
  }
}
