/** What the daemon never comes back to: files nobody holds that stay out, and files done without an archive. */
module Losses {

  import opened Wrappers
  import opened Naming
  import opened Database
  import opened JobTable
  import opened Daemon
  import opened Lease
  import opened Accounts
  import opened Results

  /* ---- stranded files ---- */

  /** Started or done in the tables, and in nobody's hands. */
  ghost predicate Stranded(s: State, id: nat)
  {
    id != 0 && Leased(s.db, id) && !Held(s, id)
  }

  lemma HolderHolds(s: State, e: Event, id: nat)
    requires IsReset(s, e, id) || IsReported(s, e, id)
    ensures Held(s, id)
  {
    if e.Report? {
      assert Line(s)[0].result.id == id;
    } else {
      assert HeldBySession(s, id);
    }
  }

  lemma LeasedIsNotHandedOut(s: State, e: Event, id: nat)
    requires Inv(s) && Enabled(s, e) && id != 0 && Leased(s.db, id)
    ensures !HandsOut(s, e, id)
  {
  }

  lemma StrandedStep(cfg: Config, s: State, e: Event, id: nat)
    requires Inv(s) && Enabled(s, e) && Stranded(s, id)
    ensures Stranded(Step(cfg, s, e), id) && !HandsOut(s, e, id)
  {
    LeasedIsNotHandedOut(s, e, id);
    if IsReset(s, e, id) || IsReported(s, e, id) {
      HolderHolds(s, e, id);
    }
    HeldAfterStep(cfg, s, e, id);
    RowAfterStep(cfg, s, e, id);
  }

  /** A stranded file is handed out no more, whatever happens. */
  lemma {:induction false} StrandedForGood(cfg: Config, s: State, run: seq<Event>, id: nat)
    requires Inv(s) && IsRun(cfg, s, run) && Stranded(s, id)
    ensures Inv(After(cfg, s, run)) && Stranded(After(cfg, s, run), id) && Handouts(cfg, s, run, id) == 0
  {
    if run != [] {
      var before := run[..|run| - 1];
      StrandedForGood(cfg, s, before, id);
      InvStep(cfg, After(cfg, s, before), run[|run| - 1]);
      StrandedStep(cfg, After(cfg, s, before), run[|run| - 1], id);
    }
  }

  /** Every file that is abandoned is stranded. */
  lemma StrandedWhenAbandoned(cfg: Config, s: State, e: Event, id: nat)
    requires Inv(s) && Enabled(s, e) && id != 0 && IsAbandoned(s, e, id)
    ensures Stranded(Step(cfg, s, e), id)
  {
    HeldAfterStep(cfg, s, e, id);
    RowAfterStep(cfg, s, e, id);
    if !CannotBeOpened(s, e, id) {
      assert HeldBySession(s, id) && Leased(s.db, id);
      LeasedIsNotHandedOut(s, e, id);
    }
  }

  /** A file that is reported is, exactly when the result that is recorded reads as started or done. */
  lemma StrandedWhenReported(cfg: Config, s: State, e: Event, id: nat)
    requires Inv(s) && Enabled(s, e) && id != 0 && IsReported(s, e, id)
    ensures Stranded(Step(cfg, s, e), id) <==> Recorded(s.moving.value, e.outcome).result in {STARTED, OK}
  {
    HeldAfterStep(cfg, s, e, id);
    RowAfterStep(cfg, s, e, id);
  }

  /** And so is every file held while the daemon goes down. */
  lemma StrandedOnRestart(s: State, id: nat)
    requires Inv(s) && id != 0
    ensures Stranded(Started(s.db), id) <==> Leased(s.db, id)
    ensures Held(s, id) ==> Stranded(Started(s.db), id)
  {
    assert Line(Started(s.db)) == [];
  }

  /* ---- files done without an archive ---- */

  /** Status 5, and no archive filed. */
  predicate Unfiled(db: Tables, id: nat)
  {
    Lookup(db.queue, id).Some? && Lookup(db.queue, id).value.status == OK && id !in db.archives
  }

  /** A call that brings this source together with an archive. */
  predicate BringsBoth(db: Tables, src: Option<FileInfo>, dst: Option<FileInfo>, id: nat)
  {
    Given(src) && Given(dst) && id == SourceId(WithSource(db, src.value), src.value.path)
  }

  /** The source keeps or gets status 5 without an archive only when the archive is another's. */
  lemma UnfiledAfterAdd(db: Tables, src: Option<FileInfo>, dst: Option<FileInfo>, queue: bool, id: nat)
    requires Valid(db)
    ensures Unfiled(FileAdded(db, src, dst, queue).0, id)
       <==> if BringsBoth(db, src, dst, id)
            then ArchiveId(db, dst.value.path) != 0 && (Unfiled(db, id) || Lookup(db.queue, id).None?)
            else Unfiled(db, id)
  {
    var (d, target) := if Given(src) then SourceAdded(db, src.value, Given(dst), queue) else (db, 0);
    if Given(src) {
      ValidSourceAdded(db, src.value, Given(dst), queue);
      SourceAddedRow(db, src.value, Given(dst), queue, id);
    }
    if Given(dst) {
      SameArchiveIds(db, d, dst.value.path);
      UnfiledAfterArchive(d, target, dst.value.path, id);
    }
  }

  lemma UnfiledAfterArchive(d: Tables, target: nat, archive: string, id: nat)
    requires Valid(d) && (target != 0 ==> Lookup(d.queue, target).Some?)
    ensures Unfiled(ArchiveAdded(d, target, archive).0, id)
       <==> Unfiled(d, id) && (id != target || ArchiveId(d, archive) != 0)
  {
    var owner := ArchiveId(d, archive);
    MarkedDoneRow(d.queue, if owner != 0 then owner else target, owner != 0, id);
  }

  predicate ReportsNoOutput(s: State, e: Event, id: nat)
  {
    && IsReported(s, e, id) && id !in s.db.archives
    && s.moving.value.result.result == OK && s.moving.value.result.fileLength == 0
  }

  predicate BringsTakenArchive(s: State, e: Event, id: nat)
  {
    && e.FileChange? && BringsBoth(s.db, e.call.src, e.call.dst, id) && Lookup(s.db.queue, id).None?
    && ArchiveId(s.db, e.call.dst.value.path) != 0
  }

  predicate BringsFreeArchive(s: State, e: Event, id: nat)
  {
    e.FileChange? && BringsBoth(s.db, e.call.src, e.call.dst, id) && ArchiveId(s.db, e.call.dst.value.path) == 0
  }

  /** A file ends up done without an archive in two ways: it is reported as OK with no output, or it is
      discovered with an archive that is filed under another source. */
  lemma UnfiledAfterStep(cfg: Config, s: State, e: Event, id: nat)
    requires Inv(s) && Enabled(s, e) && id != 0
    ensures Unfiled(Step(cfg, s, e).db, id)
       <==> ReportsNoOutput(s, e, id) || BringsTakenArchive(s, e, id)
            || (Unfiled(s.db, id) && !IsReset(s, e, id) && !IsReported(s, e, id) && !BringsFreeArchive(s, e, id))
  {
    match e
    case GetNextFile(sid, maxFileSize, pick, source) => UnfiledAfterNextFile(s, e, id);
    case Abort(sid) => RowAfterAbort(s, sid, id);
    case Report(outcome) => UnfiledAfterReport(cfg, s, outcome, id);
    case FileChange(call) => UnfiledAfterAdd(s.db, call.src, call.dst, call.queue, id);
    case _ => TablesUntouched(cfg, s, e);
  }

  lemma UnfiledAfterNextFile(s: State, e: Event, id: nat)
    requires Inv(s) && Enabled(s, e) && id != 0 && e.GetNextFile?
    ensures Unfiled(NextFileGot(s, e.sid, e.pick, e.source).0.db, id) <==> Unfiled(s.db, id)
  {
    RowAfterNextFile(s, e, id);
    if Leased(s.db, id) {
      LeasedIsNotHandedOut(s, e, id);
    }
  }

  lemma UnfiledAfterReport(cfg: Config, s: State, outcome: MoveOutcome, id: nat)
    requires Inv(s) && Enabled(s, Report(outcome)) && id != 0
    ensures var e := Report(outcome);
            Unfiled(Reported(s, outcome).db, id)
            <==> ReportsNoOutput(s, e, id) || (Unfiled(s.db, id) && !IsReported(s, e, id))
  {
    ReportLeaves(cfg, s, outcome);
  }

  /** So in a run with neither of the two, everything done has its archive. */
  lemma {:induction false} DoneIsFiled(cfg: Config, db: Tables, run: seq<Event>, id: nat)
    requires Valid(db) && IsRun(cfg, Started(db), run) && id != 0 && !Unfiled(db, id)
    requires EventCount(cfg, Started(db), run, (s, e) => ReportsNoOutput(s, e, id)) == 0
    requires EventCount(cfg, Started(db), run, (s, e) => BringsTakenArchive(s, e, id)) == 0
    ensures !Unfiled(After(cfg, Started(db), run).db, id)
  {
    if run != [] {
      var before := run[..|run| - 1];
      DoneIsFiled(cfg, db, before, id);
      InvAlways(cfg, db, before);
      UnfiledAfterStep(cfg, After(cfg, Started(db), before), run[|run| - 1], id);
    }
  }
}
