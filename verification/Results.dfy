/** From a result to the tables: what is posted for a file is what is recorded for it, under the file's own
    name, and in the order the results came in. */
module Results {

  import opened Wrappers
  import opened Naming
  import opened Database
  import opened JobTable
  import opened Daemon
  import opened Lease
  import opened Accounts
  import Discovery

  /* ---- names ---- */

  /** A session with a file has its path and its size as they are recorded; none reads without. */
  predicate SessionNamed(db: Tables, cli: ConnectedClient)
  {
    && (cli.inFile.Some? ==> cli.id != 0)
    && (cli.id != 0 ==>
          && cli.id in db.sources
          && cli.originalFileName == db.sources[cli.id].path && cli.fileLength == db.sources[cli.id].size)
  }

  /** A result goes to the archive name of its own source. */
  predicate EntryNamed(cfg: Config, db: Tables, f: FileToMove)
  {
    f.result.id != 0 ==>
      f.result.id in db.sources && f.result.archive == ArchivedName(cfg, db.sources[f.result.id].path)
  }

  ghost predicate NameInv(cfg: Config, s: State)
  {
    && (forall k | k in s.connections :: SessionNamed(s.db, s.connections[k]))
    && (forall f | f in Line(s) :: EntryNamed(cfg, s.db, f))
  }

  /** Rows of sources are never changed. */
  ghost predicate KeepsSources(was: Tables, now: Tables)
  {
    forall id | id in was.sources :: id in now.sources && now.sources[id] == was.sources[id]
  }

  lemma SourcesStay(cfg: Config, s: State, e: Event)
    requires Inv(s)
    ensures KeepsSources(s.db, Step(cfg, s, e).db)
  {
    if e.FileChange? {
      CallKeepsSources(s.db, e.call);
    } else {
      FewTouchSources(cfg, s, e);
    }
  }

  lemma CallKeepsSources(db: Tables, c: Discovery.Call)
    requires Valid(db)
    ensures KeepsSources(db, FileAdded(db, c.src, c.dst, c.queue).0)
  {
    Discovery.CallGrows(db, c);
  }

  lemma FewTouchSources(cfg: Config, s: State, e: Event)
    requires !e.FileChange?
    ensures Step(cfg, s, e).db.sources == s.db.sources
  {
    match e
    case GetNextFile(sid, maxFileSize, pick, source) =>
    case Abort(sid) =>
    case Report(outcome) =>
    case _ => TablesUntouched(cfg, s, e);
  }

  /** The sessions after a step: as before, cleared, or handed the file it was asked for. */
  lemma SessionsNamed(cfg: Config, s: State, e: Event)
    requires Inv(s) && NameInv(cfg, s) && Enabled(s, e)
    ensures var t := Step(cfg, s, e); forall k | k in t.connections :: SessionNamed(t.db, t.connections[k])
  {
    SourcesStay(cfg, s, e);
    match e
    case Authenticate(sid, token) => var _ := TokenHolder(s.connections, token);
    case GetNextFile(sid, maxFileSize, pick, source) => AskingNames(cfg, s, sid, pick, source);
    case PostFile(sid, result, opens) => PostingNames(cfg, s, sid, result, opens);
    case WriteChunk(sid, data, reached) => WritingNames(cfg, s, sid, data, reached);
    case _ => FewNames(cfg, s, e);
  }

  lemma FewNames(cfg: Config, s: State, e: Event)
    requires NameInv(cfg, s) && KeepsSources(s.db, Step(cfg, s, e).db)
    requires !e.Authenticate? && !e.GetNextFile? && !e.PostFile? && !e.WriteChunk?
    ensures var t := Step(cfg, s, e); forall k | k in t.connections :: SessionNamed(t.db, t.connections[k])
  {
  }

  lemma AskingNames(cfg: Config, s: State, sid: nat, pick: nat, source: Option<Bytes>)
    requires Valid(s.db) && NameInv(cfg, s)
    ensures var t := NextFileGot(s, sid, pick, source).0;
            forall k | k in t.connections :: SessionNamed(t.db, t.connections[k])
  {
  }

  lemma PostingNames(cfg: Config, s: State, sid: nat, result: ResultInfo, opens: bool)
    requires NameInv(cfg, s)
    ensures var t := FilePosted(cfg, s, sid, result, opens).0;
            forall k | k in t.connections :: SessionNamed(t.db, t.connections[k])
  {
  }

  lemma WritingNames(cfg: Config, s: State, sid: nat, data: Bytes, reached: Option<nat>)
    requires NameInv(cfg, s)
    ensures var t := ChunkWritten(cfg, s, sid, data, reached).0;
            forall k | k in t.connections :: SessionNamed(t.db, t.connections[k])
  {
  }

  /** What a step may do to the line: nothing, drop its first entry, or add one at the end. */
  ghost predicate LineMoves(s: State, e: Event, t: State)
  {
    || Line(t) == Line(s)
    || (Line(s) != [] && Line(t) == Line(s)[1..]
        && (IsReported(s, e, Line(s)[0].result.id) || Line(s)[0].result.id == 0))
    || (Line(t) != [] && Line(t)[..|Line(t)| - 1] == Line(s) && (e.PostFile? || e.WriteChunk?))
  }

  lemma LineStep(cfg: Config, s: State, e: Event)
    requires Inv(s)
    ensures LineMoves(s, e, Step(cfg, s, e))
  {
    match e
    case PostFile(sid, result, opens) => LineAfterPost(cfg, s, sid, result, opens);
    case WriteChunk(sid, data, reached) => LineAfterWrite(cfg, s, sid, data, reached);
    case Take => LineAfterTake(s);
    case Report(outcome) =>
      if s.moving.Some? {
        LineAfterReport(s, outcome);
      }
    case _ => LineUntouched(cfg, s, e);
  }

  lemma LineAfterTake(s: State)
    ensures Line(Taken(s)) == Line(s)
            || (Line(s) != [] && Line(Taken(s)) == Line(s)[1..] && Line(s)[0].result.id == 0)
  {
    var t := Taken(s);
    if t != s {
      assert if s.filesToMove[0].result.id != 0 then Line(t) == Line(s) else Line(t) == Line(s)[1..];
    }
  }

  lemma LineUntouched(cfg: Config, s: State, e: Event)
    requires !e.PostFile? && !e.WriteChunk? && !e.Take? && !e.Report?
    ensures Line(Step(cfg, s, e)) == Line(s)
  {
    var t := Step(cfg, s, e);
    assert t.filesToMove == s.filesToMove && t.moving == s.moving;
  }

  lemma LineAfterPost(cfg: Config, s: State, sid: nat, result: ResultInfo, opens: bool)
    ensures var t := FilePosted(cfg, s, sid, result, opens).0;
            Line(t) == Line(s)
            || (sid in s.connections
                && Line(t) == Line(s) + [EntryFor(cfg, s.connections[sid].(inFile := None, encResult := result))])
  {
    var t := FilePosted(cfg, s, sid, result, opens).0;
    if sid in s.connections && s.connections[sid].outFile.None? && !Uploads(result) {
      LineAfterQueued(cfg, s, sid, s.connections[sid].(inFile := None, encResult := result));
    } else {
      assert Line(t) == Line(s);
    }
  }

  lemma LineAfterWrite(cfg: Config, s: State, sid: nat, data: Bytes, reached: Option<nat>)
    ensures var (t, r) := ChunkWritten(cfg, s, sid, data, reached);
            Line(t) == Line(s)
            || (r == Done(false) && sid in s.connections && Line(t) == Line(s) + [EntryFor(cfg, s.connections[sid])])
  {
    var (t, r) := ChunkWritten(cfg, s, sid, data, reached);
    if r == Done(false) {
      LineAfterQueued(cfg, s.(temps := t.temps), sid, s.connections[sid]);
      assert Line(s.(temps := t.temps)) == Line(s);
    } else {
      assert Line(t) == Line(s);
    }
  }

  lemma LineNamed(cfg: Config, s: State, e: Event)
    requires Inv(s) && NameInv(cfg, s) && Enabled(s, e)
    ensures forall f | f in Line(Step(cfg, s, e)) :: EntryNamed(cfg, Step(cfg, s, e).db, f)
  {
    SourcesStay(cfg, s, e);
    var line := Line(Step(cfg, s, e));
    forall f | f in line ensures f in Line(s) || EntryNamed(cfg, s.db, f) {
      EntryIsOldOrNamed(cfg, s, e, f);
    }
  }

  /** Whatever is in the line after a step was there before, or is of a session that was. */
  lemma EntryIsOldOrNamed(cfg: Config, s: State, e: Event, f: FileToMove)
    requires Inv(s) && NameInv(cfg, s) && f in Line(Step(cfg, s, e))
    ensures f in Line(s) || EntryNamed(cfg, s.db, f)
  {
    match e
    case PostFile(sid, result, opens) => LineAfterPost(cfg, s, sid, result, opens);
    case WriteChunk(sid, data, reached) => LineAfterWrite(cfg, s, sid, data, reached);
    case _ => LineStep(cfg, s, e);
  }

  lemma NameInvStep(cfg: Config, s: State, e: Event)
    requires Inv(s) && NameInv(cfg, s) && Enabled(s, e)
    ensures NameInv(cfg, Step(cfg, s, e))
  {
    SessionsNamed(cfg, s, e);
    LineNamed(cfg, s, e);
  }

  /** In every run, a session with a file has that file's recorded path and size, and every result in the line
      is to go to the archive name of its own source. */
  lemma {:induction false} NamesAlways(cfg: Config, db: Tables, run: seq<Event>)
    requires Valid(db) && IsRun(cfg, Started(db), run)
    ensures NameInv(cfg, After(cfg, Started(db), run))
  {
    if run == [] {
      assert Line(Started(db)) == [];
    } else {
      var before := run[..|run| - 1];
      NamesAlways(cfg, db, before);
      InvAlways(cfg, db, before);
      NameInvStep(cfg, After(cfg, Started(db), before), run[|run| - 1]);
    }
  }

  /* ---- from the line to the tables ---- */

  /** A report writes one row. A result of OK whose file is not moved into place is recorded as an i/o error
      of the server with the error's text, and files no archive; any other is recorded as it was posted. */
  lemma ReportLeaves(cfg: Config, s: State, outcome: MoveOutcome)
    requires Inv(s) && Enabled(s, Report(outcome))
    ensures var r, db, now := s.moving.value.result, s.db, Step(cfg, s, Report(outcome)).db;
            var stays := r.result == 5 && r.fileLength > 0 && !outcome.Moved?;
            var row := Lookup(db.queue, r.id);
            && row.Some?
            && Lookup(now.queue, r.id)
               == Some(if stays then Row(r.id, -9, row.value.count, Some(outcome.error))
                       else Row(r.id, r.result, row.value.count, if r.error == "" then None else Some(r.error)))
            && now.archives == (if stays || r.fileLength == 0 || r.id in db.archives then db.archives
                                else db.archives[r.id := r.archive])
            && now.sources == db.sources
            && forall id | id != r.id :: Lookup(now.queue, id) == Lookup(db.queue, id)
  {
    var r := s.moving.value.result;
    assert Line(s)[0].result == r && HeldInLine(Line(s), r.id) && Held(s, r.id);
    var recorded := Recorded(s.moving.value, outcome);
    forall id ensures Lookup(SetRow(s.db.queue, r.id, ResultChange(recorded)), id)
                   == if id == r.id then Some(Changed(Lookup(s.db.queue, id).value, ResultChange(recorded)))
                      else Lookup(s.db.queue, id) {
      LookupAfterSet(s.db.queue, r.id, ResultChange(recorded), id);
    }
    assert Step(cfg, s, Report(outcome)).db == EncodedAdded(s.db, recorded);
  }

  /** And moves one file: the temp file of a result of OK, to the archive's name. */
  lemma ReportMoves(cfg: Config, s: State, outcome: MoveOutcome)
    requires Enabled(s, Report(outcome))
    ensures var f, t := s.moving.value, Step(cfg, s, Report(outcome));
            if f.result.result == 5 && f.result.fileLength > 0 && !outcome.NotMoved? then
              f.tmp in s.temps && t.temps == s.temps - {f.tmp}
              && t.archived == s.archived[f.result.archive := s.temps[f.tmp]]
            else t.temps == s.temps && t.archived == s.archived
  {
  }

  /** A file whose archive could not be moved into place is tried again, while it has tries left. */
  lemma FailedMoveIsRetried(cfg: Config, s: State, outcome: MoveOutcome, maxSize: nat)
    requires Inv(s) && Enabled(s, Report(outcome)) && !outcome.Moved?
    requires s.moving.value.result.result == 5 && s.moving.value.result.fileLength > 0
    ensures var id, now := s.moving.value.result.id, Step(cfg, s, Report(outcome)).db;
            && id in now.sources && Lookup(now.queue, id).Some?
            && (Eligible(now, maxSize, id)
                <==> now.sources[id].size <= maxSize && Lookup(now.queue, id).value.count < 3)
  {
    ReportLeaves(cfg, s, outcome);
    ReportedTablesValid(s, outcome);
  }

  /* ---- archives and their rows ---- */

  ghost predicate NamedInRun(run: seq<Event>, path: string)
  {
    exists e :: e in run && e.FileChange? && Given(e.call.dst) && e.call.dst.value.path == path
  }

  /** An error that is posted with a length is filed with an archive nobody made. */
  predicate FilesNothing(s: State, e: Event, id: nat)
  {
    && IsReported(s, e, id)
    && s.moving.value.result.result != 5 && s.moving.value.result.fileLength > 0
  }

  lemma ArchivesAfterAdd(db: Tables, c: Discovery.Call, id: nat)
    requires Valid(db) && id in FileAdded(db, c.src, c.dst, c.queue).0.archives
    ensures var now := FileAdded(db, c.src, c.dst, c.queue).0;
            (id in db.archives && now.archives[id] == db.archives[id])
            || (Given(c.dst) && now.archives[id] == c.dst.value.path)
  {
    var (d, k) := if Given(c.src) then SourceAdded(db, c.src.value, Given(c.dst), c.queue) else (db, 0);
    if Given(c.dst) {
      ArchivesAfterFiling(d, k, c.dst.value.path, id);
    }
  }

  lemma ArchivesAfterFiling(d: Tables, k: nat, archive: string, id: nat)
    requires id in ArchiveAdded(d, k, archive).0.archives
    ensures (id in d.archives && ArchiveAdded(d, k, archive).0.archives[id] == d.archives[id])
            || ArchiveAdded(d, k, archive).0.archives[id] == archive
  {
  }

  lemma ArchivesAfterStep(cfg: Config, s: State, e: Event, id: nat)
    requires Inv(s) && Enabled(s, e) && id in Step(cfg, s, e).db.archives && !FilesNothing(s, e, id)
    ensures var t := Step(cfg, s, e);
            || (id in s.db.archives && t.db.archives[id] == s.db.archives[id])
            || (e.FileChange? && Given(e.call.dst) && t.db.archives[id] == e.call.dst.value.path)
            || t.db.archives[id] in t.archived
    ensures forall path | path in s.archived :: path in Step(cfg, s, e).archived
  {
    match e
    case FileChange(call) => ArchivesAfterAdd(s.db, call, id);
    case Report(outcome) =>
      ReportLeaves(cfg, s, outcome);
      ReportMoves(cfg, s, outcome);
    case _ => ArchivesUntouched(cfg, s, e);
  }

  lemma ArchivesUntouched(cfg: Config, s: State, e: Event)
    requires !e.Report? && !e.FileChange?
    ensures Step(cfg, s, e).db.archives == s.db.archives && Step(cfg, s, e).archived == s.archived
  {
    match e
    case PostFile(sid, result, opens) =>
    case WriteChunk(sid, data, reached) =>
    case GetNextFile(sid, maxFileSize, pick, source) =>
    case _ => FewTouchArchives(cfg, s, e);
  }

  lemma FewTouchArchives(cfg: Config, s: State, e: Event)
    requires !e.Report? && !e.FileChange? && !e.PostFile? && !e.WriteChunk? && !e.GetNextFile?
    ensures Step(cfg, s, e).db.archives == s.db.archives && Step(cfg, s, e).archived == s.archived
  {
  }

  /** In every run in which no error is posted with a length, whatever is filed as an archive was filed at the
      start, was met by the watcher, or was moved into place under that very name. */
  lemma {:induction false} FiledIsThere(cfg: Config, db: Tables, run: seq<Event>, id: nat)
    requires Valid(db) && IsRun(cfg, Started(db), run)
    requires forall i | 0 <= i < |run| :: !FilesNothing(After(cfg, Started(db), run[..i]), run[i], id)
    requires id in After(cfg, Started(db), run).db.archives
    ensures var t := After(cfg, Started(db), run);
            || (id in db.archives && t.db.archives[id] == db.archives[id])
            || NamedInRun(run, t.db.archives[id])
            || t.db.archives[id] in t.archived
  {
    if run != [] {
      var before, e := run[..|run| - 1], run[|run| - 1];
      var s := After(cfg, Started(db), before);
      InvAlways(cfg, db, before);
      assert run[..|run| - 1] == before;
      ArchivesAfterStep(cfg, s, e, id);
      forall i | 0 <= i < |before| ensures !FilesNothing(After(cfg, Started(db), before[..i]), before[i], id) {
        assert before[..i] == run[..i];
      }
      assert e in run && forall d | d in before :: d in run;
      if id in s.db.archives && After(cfg, Started(db), run).db.archives[id] == s.db.archives[id] {
        FiledIsThere(cfg, db, before, id);
      }
    }
  }

  /* ---- from a call to the tables ---- */

  /** What postFile asks of a session: its source read to the recorded length, no upload under way, and a
      temp file that opens when there is to be one. */
  lemma PostTakenIff(cfg: Config, s: State, sid: nat, r: ResultInfo, opens: bool)
    requires NameInv(cfg, s) && sid in s.connections && s.connections[sid].id != 0
    ensures var cli := s.connections[sid];
            FilePosted(cfg, s, sid, r, opens).1.Done?
            <==> && cli.outFile.None?
                 && (cli.inFile.Some? ==> cli.inFile.value.pos == s.db.sources[cli.id].size)
                 && (r.result == 5 && r.fileLength > 0 ==> opens)
    ensures s.connections[sid].id in s.db.sources
  {
  }

  lemma EntryStays(cfg: Config, s: State, e: Event, f: FileToMove)
    requires Inv(s) && f in Line(s) && f.result.id != 0 && !IsReported(s, e, f.result.id)
    ensures f in Line(Step(cfg, s, e))
  {
    LineStep(cfg, s, e);
    var i :| 0 <= i < |Line(s)| && Line(s)[i] == f;
    var line := Line(Step(cfg, s, e));
    if line == Line(s) {
    } else if Line(s) != [] && line == Line(s)[1..] {
      assert line[i - 1] == f;
    } else {
      assert line[..|line| - 1][i] == line[i];
    }
  }

  lemma {:induction false} EntryStaysInRun(cfg: Config, s: State, run: seq<Event>, f: FileToMove)
    requires Inv(s) && NameInv(cfg, s) && IsRun(cfg, s, run) && f in Line(s) && f.result.id != 0
    requires forall i | 0 <= i < |run| :: !IsReported(After(cfg, s, run[..i]), run[i], f.result.id)
    ensures Inv(After(cfg, s, run)) && NameInv(cfg, After(cfg, s, run)) && f in Line(After(cfg, s, run))
    ensures KeepsSources(s.db, After(cfg, s, run).db)
  {
    if run != [] {
      var before, e := run[..|run| - 1], run[|run| - 1];
      forall i | 0 <= i < |before| ensures !IsReported(After(cfg, s, before[..i]), before[i], f.result.id) {
        assert before[..i] == run[..i];
      }
      EntryStaysInRun(cfg, s, before, f);
      var t := After(cfg, s, before);
      assert run[..|run| - 1] == before;
      EntryStays(cfg, t, e, f);
      InvStep(cfg, t, e);
      NameInvStep(cfg, t, e);
      SourcesStay(cfg, t, e);
    }
  }

  /** No two entries of the line are of one file. */
  lemma MovingIs(s: State, f: FileToMove)
    requires Inv(s) && f in Line(s) && s.moving.Some? && s.moving.value.result.id == f.result.id
    ensures s.moving.value == f
  {
    var i :| 0 <= i < |Line(s)| && Line(s)[i] == f;
    assert Line(s)[0] == s.moving.value;
  }

  /** A result that needs no upload joins the line, as it was posted and under its file's own name. */
  lemma PostedWaits(cfg: Config, s: State, sid: nat, r: ResultInfo, opens: bool) returns (f: FileToMove)
    requires Inv(s) && NameInv(cfg, s) && sid in s.connections && s.connections[sid].id != 0
    requires FilePosted(cfg, s, sid, r, opens).1.Done? && !(r.result == 5 && r.fileLength > 0)
    ensures var t, id := Step(cfg, s, PostFile(sid, r, opens)), s.connections[sid].id;
            && Inv(t) && NameInv(cfg, t) && t.db == s.db && f in Line(t) && id in s.db.sources
            && f.result == EncodedFile(r.result, r.fileLength, r.error, id, ArchivedName(cfg, s.db.sources[id].path))
  {
    var posted := s.connections[sid].(inFile := None, encResult := r);
    f := EntryFor(cfg, posted);
    LineAfterQueued(cfg, s, sid, posted);
    var t := Step(cfg, s, PostFile(sid, r, opens));
    assert Line(t)[|Line(t)| - 1] == f;
    InvStep(cfg, s, PostFile(sid, r, opens));
    NameInvStep(cfg, s, PostFile(sid, r, opens));
  }

  /** In a run, the file's result is not reported, and then it is about to be. */
  ghost predicate ReportedAfter(cfg: Config, s: State, run: seq<Event>, outcome: MoveOutcome, id: nat)
  {
    && IsRun(cfg, s, run) && (forall i | 0 <= i < |run| :: !IsReported(After(cfg, s, run[..i]), run[i], id))
    && Enabled(After(cfg, s, run), Report(outcome)) && After(cfg, s, run).moving.value.result.id == id
  }

  lemma WaitingIsRecorded(cfg: Config, s: State, f: FileToMove, run: seq<Event>, outcome: MoveOutcome)
    requires Inv(s) && NameInv(cfg, s) && f in Line(s) && f.result.id != 0
    requires ReportedAfter(cfg, s, run, outcome, f.result.id)
    ensures Inv(After(cfg, s, run)) && After(cfg, s, run).moving == Some(f)
  {
    EntryStaysInRun(cfg, s, run, f);
    MovingIs(After(cfg, s, run), f);
  }

  /** From the call to the tables: a result that needs no upload is recorded as it was posted, for the file of
      the session it was posted in, however long it waits and whatever happens meanwhile. */
  lemma PostedIsRecorded(cfg: Config, s: State, sid: nat, r: ResultInfo, opens: bool, run: seq<Event>,
                         outcome: MoveOutcome)
    requires Inv(s) && NameInv(cfg, s) && sid in s.connections && s.connections[sid].id != 0
    requires FilePosted(cfg, s, sid, r, opens).1.Done? && !(r.result == 5 && r.fileLength > 0)
    requires ReportedAfter(cfg, Step(cfg, s, PostFile(sid, r, opens)), run, outcome, s.connections[sid].id)
    ensures var id := s.connections[sid].id;
            var db := After(cfg, Step(cfg, s, PostFile(sid, r, opens)), run).db;
            var now := Step(cfg, After(cfg, Step(cfg, s, PostFile(sid, r, opens)), run), Report(outcome)).db;
            && id in s.db.sources && Lookup(db.queue, id).Some?
            && Lookup(now.queue, id) == Some(Row(id, r.result, Lookup(db.queue, id).value.count,
                                                 if r.error == "" then None else Some(r.error)))
            && now.archives == if r.fileLength == 0 || id in db.archives then db.archives
                               else db.archives[id := ArchivedName(cfg, s.db.sources[id].path)]
  {
    var f := PostedWaits(cfg, s, sid, r, opens);
    var t := Step(cfg, s, PostFile(sid, r, opens));
    WaitingIsRecorded(cfg, t, f, run, outcome);
    ReportLeaves(cfg, After(cfg, t, run), outcome);
  }

  /* ---- in order ---- */

  /** The one result waits in front of the other. */
  ghost predicate Ahead(line: seq<FileToMove>, f: FileToMove, g: FileToMove)
  {
    exists i, j :: 0 <= i < j < |line| && line[i] == f && line[j] == g
  }

  lemma AheadStep(cfg: Config, s: State, e: Event, f: FileToMove, g: FileToMove)
    requires Inv(s) && Ahead(Line(s), f, g) && f.result.id != 0 && !IsReported(s, e, f.result.id)
    ensures Ahead(Line(Step(cfg, s, e)), f, g)
  {
    LineStep(cfg, s, e);
    var i, j :| 0 <= i < j < |Line(s)| && Line(s)[i] == f && Line(s)[j] == g;
    var line := Line(Step(cfg, s, e));
    if line == Line(s) {
    } else if Line(s) != [] && line == Line(s)[1..] {
      assert line[i - 1] == f && line[j - 1] == g;
    } else {
      assert line[..|line| - 1][i] == line[i] && line[..|line| - 1][j] == line[j];
    }
  }

  /** Results are reported in the order they came in: while one has not been reported, none behind it is
      being moved. */
  lemma {:induction false} InOrder(cfg: Config, s: State, run: seq<Event>, f: FileToMove, g: FileToMove)
    requires Inv(s) && IsRun(cfg, s, run) && Ahead(Line(s), f, g) && f.result.id != 0 && g.result.id != 0
    requires forall i | 0 <= i < |run| :: !IsReported(After(cfg, s, run[..i]), run[i], f.result.id)
    ensures Inv(After(cfg, s, run)) && Ahead(Line(After(cfg, s, run)), f, g)
    ensures After(cfg, s, run).moving != Some(g)
  {
    if run != [] {
      var before, e := run[..|run| - 1], run[|run| - 1];
      forall i | 0 <= i < |before| ensures !IsReported(After(cfg, s, before[..i]), before[i], f.result.id) {
        assert before[..i] == run[..i];
      }
      InOrder(cfg, s, before, f, g);
      assert run[..|run| - 1] == before;
      AheadStep(cfg, After(cfg, s, before), e, f, g);
      InvStep(cfg, After(cfg, s, before), e);
    }
    var t := After(cfg, s, run);
    var i, j :| 0 <= i < j < |Line(t)| && Line(t)[i] == f && Line(t)[j] == g;
    assert t.moving.Some? ==> Line(t)[0] == t.moving.value;
  }
}
