/** The temp file of an upload: written by its session alone, then left alone until it is moved. */
module TempFiles {

  import opened Wrappers
  import opened Naming
  import opened Database
  import opened Daemon
  import opened Lease
  import opened Accounts

  /** A session that uploads a file writes to the temp file of its id, which is still short of the
      announced length. */
  predicate UploadOk(cfg: Config, temps: map<string, Bytes>, cli: ConnectedClient)
  {
    cli.id != 0 && cli.outFile.Some? ==>
      var f := cli.outFile.value;
      && f.path == cli.tempFileName == TempName(cfg, cli.originalFileName, cli.id)
      && f.path in temps && f.pos <= |temps[f.path]| < cli.encResult.fileLength
      && Uploads(cli.encResult)
  }

  ghost predicate IsTempOf(cfg: Config, path: string, id: nat)
  {
    exists name :: path == TempName(cfg, name, id)
  }

  /** A result that is to be moved names the temp file of its id. */
  ghost predicate EntryOk(cfg: Config, temps: map<string, Bytes>, f: FileToMove)
  {
    f.result.id != 0 && Movable(f) ==> IsTempOf(cfg, f.tmp, f.result.id) && f.tmp in temps
  }

  predicate Whole(temps: map<string, Bytes>, f: FileToMove)
  {
    f.result.id != 0 && Movable(f) ==> f.tmp in temps && |temps[f.tmp]| == f.result.fileLength
  }

  ghost predicate TempInv(cfg: Config, s: State)
  {
    && SessionsReadOrWrite(s)
    && (forall k | k in s.connections :: UploadOk(cfg, s.temps, s.connections[k]))
    && (forall i | 0 <= i < |Line(s)| :: EntryOk(cfg, s.temps, Line(s)[i]))
  }

  ghost predicate AllWhole(s: State)
  {
    forall i | 0 <= i < |Line(s)| :: Whole(s.temps, Line(s)[i])
  }

  /** The two maps agree on the temp files of every id but one. */
  ghost predicate AgreeBut(cfg: Config, was: map<string, Bytes>, now: map<string, Bytes>, id: nat)
  {
    forall path, i | IsTempOf(cfg, path, i) && i != id ::
      (path in now <==> path in was) && (path in was ==> now[path] == was[path])
  }

  lemma OneTempFile(cfg: Config, temps: map<string, Bytes>, name: string, id: nat, content: Bytes)
    ensures AgreeBut(cfg, temps, temps[TempName(cfg, name, id) := content], id)
    ensures AgreeBut(cfg, temps, temps - {TempName(cfg, name, id)}, id)
  {
    forall path, i | IsTempOf(cfg, path, i) && i != id ensures path != TempName(cfg, name, id) {
      var other :| path == TempName(cfg, other, i);
      if path == TempName(cfg, name, id) {
        TempNamesDiffer(cfg, other, i, name, id);
      }
    }
  }

  lemma TempInvStarted(cfg: Config, db: Tables)
    ensures TempInv(cfg, Started(db)) && AllWhole(Started(db))
  {
    assert Line(Started(db)) == [];
  }

  /** Sessions and results of other ids keep their temp files. */
  lemma OthersKeep(cfg: Config, s: State, temps: map<string, Bytes>, id: nat)
    requires TempInv(cfg, s) && AgreeBut(cfg, s.temps, temps, id)
    ensures forall k | k in s.connections && (s.connections[k].id != id || id == 0) ::
              UploadOk(cfg, temps, s.connections[k])
    ensures forall i | 0 <= i < |Line(s)| && (Line(s)[i].result.id != id || id == 0) ::
              && EntryOk(cfg, temps, Line(s)[i])
              && (Whole(s.temps, Line(s)[i]) ==> Whole(temps, Line(s)[i]))
  {
    forall k | k in s.connections && (s.connections[k].id != id || id == 0)
      ensures UploadOk(cfg, temps, s.connections[k]) {
      var cli := s.connections[k];
      assert IsTempOf(cfg, TempName(cfg, cli.originalFileName, cli.id), cli.id);
      assert UploadOk(cfg, s.temps, cli);
    }
    forall i | 0 <= i < |Line(s)| && (Line(s)[i].result.id != id || id == 0)
      ensures EntryOk(cfg, temps, Line(s)[i]) && (Whole(s.temps, Line(s)[i]) ==> Whole(temps, Line(s)[i])) {
      assert EntryOk(cfg, s.temps, Line(s)[i]);
    }
  }

  /** One session changes, and with it at most its own temp file. */
  lemma TempInvWith(cfg: Config, s: State, sid: nat, t: State)
    requires Inv(s) && TempInv(cfg, s) && sid in s.connections && sid in t.connections
    requires t.connections == s.connections[sid := t.connections[sid]] && Line(t) == Line(s)
    requires t.temps == s.temps || AgreeBut(cfg, s.temps, t.temps, s.connections[sid].id)
    requires UploadOk(cfg, t.temps, t.connections[sid])
    requires t.connections[sid].inFile.None? || t.connections[sid].outFile.None?
    ensures TempInv(cfg, t) && (AllWhole(s) ==> AllWhole(t))
  {
    var id := s.connections[sid].id;
    assert HeldBySession(s, id);
    if t.temps != s.temps {
      OthersKeep(cfg, s, t.temps, id);
      forall i | 0 <= i < |Line(s)| && Line(s)[i].result.id == id ensures id == 0 {
        assert HeldInLine(Line(s), id);
      }
    }
  }

  /** One session hands its result over, and writes at most to its own temp file while doing so. */
  lemma TempInvQueued(cfg: Config, s: State, written: State, sid: nat, cli: ConnectedClient)
    requires Inv(s) && TempInv(cfg, s) && sid in s.connections && cli.id == s.connections[sid].id
    requires written == s.(temps := written.temps)
    requires written.temps == s.temps || AgreeBut(cfg, s.temps, written.temps, cli.id)
    requires EntryOk(cfg, written.temps, EntryFor(cfg, cli))
    ensures var t := Queued(cfg, written, sid, cli);
            TempInv(cfg, t) && (AllWhole(s) && Whole(t.temps, EntryFor(cfg, cli)) ==> AllWhole(t))
  {
    var t := Queued(cfg, written, sid, cli);
    assert Line(written) == Line(s);
    LineAfterQueued(cfg, written, sid, cli);
    var cleared := With(written, sid, FreshClient(cli.token));
    assert Line(cleared) == Line(s);
    TempInvWith(cfg, s, sid, cleared);
  }

  /* ---- the handlers ---- */

  /** A write to the disk that comes to nothing, or to less than it should. */
  predicate DiskFails(e: Event)
  {
    e.WriteChunk? && e.reached.Some? && e.reached.value < |e.data|
  }

  lemma TempInvAuthenticated(cfg: Config, s: State, sid: nat, token: string)
    requires Inv(s) && TempInv(cfg, s)
    ensures TempInv(cfg, Authenticated(s, sid, token)) && (AllWhole(s) ==> AllWhole(Authenticated(s, sid, token)))
  {
    assert Line(Authenticated(s, sid, token)) == Line(s);
  }

  lemma TempInvPosted(cfg: Config, s: State, sid: nat, result: ResultInfo, tempOpened: bool)
    requires Inv(s) && TempInv(cfg, s)
    ensures var t := FilePosted(cfg, s, sid, result, tempOpened).0;
            TempInv(cfg, t) && (AllWhole(s) ==> AllWhole(t))
  {
    var t := FilePosted(cfg, s, sid, result, tempOpened).0;
    if t != s {
      var cli := s.connections[sid];
      if cli.outFile.None? && !Uploads(result) {
        TempInvQueued(cfg, s, s, sid, cli.(inFile := None, encResult := result));
      } else {
        OneTempFile(cfg, s.temps, cli.originalFileName, cli.id, []);
        assert UploadOk(cfg, s.temps, cli);
        assert Line(t) == Line(s);
        TempInvWith(cfg, s, sid, t);
      }
    }
  }

  /** What reaches the disk of a chunk stands where the upload had got to, and what was there before stays. */
  lemma ChunkStands(cfg: Config, s: State, sid: nat, data: Bytes, reached: Option<nat>)
    requires Accepts(s, sid, data)
    ensures var f, t := s.connections[sid].outFile.value, ChunkWritten(cfg, s, sid, data, reached).0;
            var there := if reached.Some? && reached.value < |data| then reached.value else |data|;
            && f.path in t.temps && f.pos + there <= |t.temps[f.path]|
            && t.temps[f.path][..f.pos] == s.temps[f.path][..f.pos]
            && t.temps[f.path][f.pos..f.pos + there] == data[..there]
            && (forall path | path != f.path :: path in t.temps <==> path in s.temps)
            && (forall path | path != f.path && path in s.temps :: t.temps[path] == s.temps[path])
  {
  }

  /** A chunk lengthens the temp file by what it adds, and completes it when the announced length is
      reached: unless the disk fails, exactly that much is there then. */
  lemma WriteKeepsLength(cfg: Config, s: State, sid: nat, data: Bytes, reached: Option<nat>)
    requires TempInv(cfg, s) && Accepts(s, sid, data)
    ensures var (t, reply) := ChunkWritten(cfg, s, sid, data, reached);
            var cli := s.connections[sid];
            && cli.tempFileName == TempName(cfg, cli.originalFileName, cli.id) && cli.tempFileName in t.temps
            && AgreeBut(cfg, s.temps, t.temps, cli.id)
            && (reply == Done(true) ==> UploadOk(cfg, t.temps, t.connections[sid]))
            && (reply == Done(false) ==> Movable(EntryFor(cfg, cli)))
            && (reply == Done(false) ==> (|t.temps[cli.tempFileName]| == cli.encResult.fileLength
                                          <==> !DiskFails(WriteChunk(sid, data, reached))))
  {
    var cli := s.connections[sid];
    var f := cli.outFile.value;
    assert UploadOk(cfg, s.temps, cli);
    var stored := if DiskFails(WriteChunk(sid, data, reached)) then data[..reached.value] else data;
    OneTempFile(cfg, s.temps, cli.originalFileName, cli.id, Overwrite(s.temps[f.path], f.pos, stored));
  }

  lemma TempInvWritten(cfg: Config, s: State, sid: nat, data: Bytes, reached: Option<nat>)
    requires Inv(s) && TempInv(cfg, s)
    ensures var t := ChunkWritten(cfg, s, sid, data, reached).0;
            TempInv(cfg, t) && (AllWhole(s) && !DiskFails(WriteChunk(sid, data, reached)) ==> AllWhole(t))
  {
    var (t, reply) := ChunkWritten(cfg, s, sid, data, reached);
    if Accepts(s, sid, data) {
      WriteKeepsLength(cfg, s, sid, data, reached);
      var cli := s.connections[sid];
      if reply == Done(true) {
        assert Line(t) == Line(s);
        TempInvWith(cfg, s, sid, t);
      } else {
        assert IsTempOf(cfg, cli.tempFileName, cli.id);
        TempInvQueued(cfg, s, s.(temps := t.temps), sid, cli);
      }
    }
  }

  lemma TempInvTaken(cfg: Config, s: State)
    requires Inv(s) && TempInv(cfg, s)
    ensures TempInv(cfg, Taken(s)) && (AllWhole(s) ==> AllWhole(Taken(s)))
  {
    var t := Taken(s);
    if t != s {
      if s.filesToMove[0].result.id != 0 {
        assert Line(t) == Line(s);
      } else {
        assert Line(t) == Line(s)[1..];
        assert forall i | 0 <= i < |Line(t)| :: Line(t)[i] == Line(s)[i + 1];
      }
    }
  }

  /** A report shortens the line by its first entry, and takes at most that entry's temp file away. */
  lemma ReportedShape(cfg: Config, s: State, outcome: MoveOutcome)
    requires Inv(s) && TempInv(cfg, s) && s.moving.Some?
    ensures var t, f := Reported(s, outcome), s.moving.value;
            && t.connections == s.connections && Line(s) == [f] + Line(t)
            && (t.temps == s.temps || AgreeBut(cfg, s.temps, t.temps, f.result.id))
  {
    var f := s.moving.value;
    assert Line(s)[0] == f;
    assert EntryOk(cfg, s.temps, Line(s)[0]);
    if Movable(f) {
      var name :| f.tmp == TempName(cfg, name, f.result.id);
      OneTempFile(cfg, s.temps, name, f.result.id, []);
    }
  }

  lemma TempInvReported(cfg: Config, s: State, outcome: MoveOutcome)
    requires Inv(s) && TempInv(cfg, s)
    ensures TempInv(cfg, Reported(s, outcome)) && (AllWhole(s) ==> AllWhole(Reported(s, outcome)))
  {
    if s.moving.Some? {
      ReportedShape(cfg, s, outcome);
      TempInvShorter(cfg, s, Reported(s, outcome));
    }
  }

  lemma TempInvShorter(cfg: Config, s: State, t: State)
    requires Inv(s) && TempInv(cfg, s) && s.moving.Some?
    requires t.connections == s.connections && Line(s) == [s.moving.value] + Line(t)
    requires t.temps == s.temps || AgreeBut(cfg, s.temps, t.temps, s.moving.value.result.id)
    ensures TempInv(cfg, t) && (AllWhole(s) ==> AllWhole(t))
  {
    var id := s.moving.value.result.id;
    assert Line(s)[0].result.id == id;
    assert forall i | 0 <= i < |Line(t)| :: Line(t)[i] == Line(s)[i + 1];
    if t.temps != s.temps {
      OthersKeep(cfg, s, t.temps, id);
      forall k | k in s.connections ensures s.connections[k].id != id {
        assert HeldInLine(Line(s), id) && HeldBySession(s, s.connections[k].id);
      }
    }
  }

  lemma TempInvStep(cfg: Config, s: State, e: Event)
    requires Inv(s) && TempInv(cfg, s) && Enabled(s, e)
    ensures TempInv(cfg, Step(cfg, s, e))
    ensures AllWhole(s) && !DiskFails(e) ==> AllWhole(Step(cfg, s, e))
  {
    match e
    case Authenticate(sid, token) => TempInvAuthenticated(cfg, s, sid, token);
    case PostFile(sid, result, tempOpened) => TempInvPosted(cfg, s, sid, result, tempOpened);
    case WriteChunk(sid, data, reached) => TempInvWritten(cfg, s, sid, data, reached);
    case Take => TempInvTaken(cfg, s);
    case Report(outcome) => TempInvReported(cfg, s, outcome);
    case _ => TempInvOthers(cfg, s, e);
  }

  /** The calls that write to no temp file and queue nothing. */
  predicate WritesNothing(e: Event)
  {
    e.GetNextFile? || e.ReadChunk? || e.Reset? || e.Abort? || e.FileChange? || e.Stop?
  }

  predicate Readies(was: ConnectedClient, now: ConnectedClient)
  {
    || now.outFile.None?
    || (was.outFile.Some? && now == was.(outFile := Some(was.outFile.value.(pos := 0))))
  }

  predicate OnlySession(s: State, t: State, sid: nat)
  {
    && t.temps == s.temps && t.filesToMove == s.filesToMove && t.moving == s.moving
    && (|| t.connections == s.connections
        || (sid in s.connections && sid in t.connections && t.connections == s.connections[sid := t.connections[sid]]
            && Readies(s.connections[sid], t.connections[sid])))
  }

  lemma OthersChangeOneSession(cfg: Config, s: State, e: Event) returns (sid: nat)
    requires WritesNothing(e) && SessionsReadOrWrite(s)
    ensures OnlySession(s, Step(cfg, s, e), sid)
  {
    sid := if e.FileChange? || e.Stop? then 0 else e.sid;
    match e
    case GetNextFile(_, maxFileSize, pick, source) => AskingReadies(s, sid, pick, source);
    case ReadChunk(_, available) => ReadingReadies(cfg, s, sid, available);
    case _ =>
  }

  lemma AskingReadies(s: State, sid: nat, pick: nat, source: Option<Bytes>)
    ensures OnlySession(s, NextFileGot(s, sid, pick, source).0, sid)
  {
  }

  lemma ReadingReadies(cfg: Config, s: State, sid: nat, available: nat)
    requires SessionsReadOrWrite(s)
    ensures OnlySession(s, ChunkRead(cfg, s, sid, available).0, sid)
  {
  }

  /** No session reads and writes at the same time. */
  ghost predicate SessionsReadOrWrite(s: State)
  {
    forall k | k in s.connections :: s.connections[k].inFile.None? || s.connections[k].outFile.None?
  }

  lemma TempInvOthers(cfg: Config, s: State, e: Event)
    requires Inv(s) && TempInv(cfg, s) && WritesNothing(e)
    ensures TempInv(cfg, Step(cfg, s, e)) && (AllWhole(s) ==> AllWhole(Step(cfg, s, e)))
  {
    var sid := OthersChangeOneSession(cfg, s, e);
    TempInvReady(cfg, s, Step(cfg, s, e), sid);
  }

  lemma TempInvReady(cfg: Config, s: State, t: State, sid: nat)
    requires Inv(s) && TempInv(cfg, s) && OnlySession(s, t, sid)
    ensures TempInv(cfg, t) && (AllWhole(s) ==> AllWhole(t))
  {
    assert Line(t) == Line(s);
    if t.connections != s.connections {
      assert UploadOk(cfg, s.temps, s.connections[sid]);
      TempInvWith(cfg, s, sid, t);
    }
  }

  /* ---- whole runs ---- */

  lemma {:induction false} TempInvAlways(cfg: Config, db: Tables, run: seq<Event>)
    requires Valid(db) && IsRun(cfg, Started(db), run)
    ensures TempInv(cfg, After(cfg, Started(db), run))
    ensures (forall e | e in run :: !DiskFails(e)) ==> AllWhole(After(cfg, Started(db), run))
  {
    if run == [] {
      TempInvStarted(cfg, db);
    } else {
      var before := run[..|run| - 1];
      TempInvAlways(cfg, db, before);
      InvAlways(cfg, db, before);
      assert run[|run| - 1] in run;
      TempInvStep(cfg, After(cfg, Started(db), before), run[|run| - 1]);
    }
  }

  /** Whatever the clients do: when the main loop moves an upload of the announced length, the temp file
      has that length, unless a write failed before. */
  lemma MovedFileIsWhole(cfg: Config, db: Tables, run: seq<Event>)
    requires Valid(db) && IsRun(cfg, Started(db), run) && forall e | e in run :: !DiskFails(e)
    ensures var s := After(cfg, Started(db), run);
            s.moving.Some? && Movable(s.moving.value) ==>
              var f := s.moving.value;
              && Enabled(s, Report(Moved))
              && var archived := Step(cfg, s, Report(Moved)).archived;
                 f.result.archive in archived && |archived[f.result.archive]| == f.result.fileLength
  {
    TempInvAlways(cfg, db, run);
    InvAlways(cfg, db, run);
    var s := After(cfg, Started(db), run);
    if s.moving.Some? {
      assert Line(s)[0] == s.moving.value;
    }
  }

  /** The temp file of a result in the line stays as it is, whatever happens, until the result is reported. */
  lemma StepLeavesTemp(cfg: Config, s: State, e: Event, f: FileToMove)
    requires Inv(s) && TempInv(cfg, s) && Enabled(s, e)
    requires f in Line(s) && f.result.id != 0 && Movable(f) && !IsReported(s, e, f.result.id)
    ensures var t := Step(cfg, s, e); f in Line(t) && f.tmp in t.temps && t.temps[f.tmp] == s.temps[f.tmp]
  {
    var id := f.result.id;
    var i :| 0 <= i < |Line(s)| && Line(s)[i] == f;
    assert EntryOk(cfg, s.temps, Line(s)[i]) && HeldInLine(Line(s), id);
    match e
    case PostFile(sid, result, tempOpened) => PostLeavesTemp(cfg, s, sid, result, tempOpened, f, i);
    case WriteChunk(sid, data, reached) => WriteLeavesTemp(cfg, s, sid, data, reached, f, i);
    case Take => TakeLeavesTemp(s, f, i);
    case Report(outcome) => ReportLeavesTemp(cfg, s, outcome, f, i);
    case Authenticate(sid, token) => assert Line(Authenticated(s, sid, token)) == Line(s);
    case _ => OthersLeaveTemps(cfg, s, e);
  }

  lemma OthersLeaveTemps(cfg: Config, s: State, e: Event)
    requires WritesNothing(e)
    ensures Line(Step(cfg, s, e)) == Line(s) && Step(cfg, s, e).temps == s.temps
  {
  }

  lemma TakeLeavesTemp(s: State, f: FileToMove, i: nat)
    requires i < |Line(s)| && Line(s)[i] == f && f.result.id != 0
    ensures f in Line(Taken(s))
  {
    if s.filesToMove != [] && s.filesToMove[0].result.id == 0 && s.moving.None? {
      assert Line(Taken(s)) == Line(s)[1..];
      assert Line(Taken(s))[i - 1] == f;
    } else {
      assert Line(Taken(s)) == Line(s);
    }
  }

  lemma PostLeavesTemp(cfg: Config, s: State, sid: nat, result: ResultInfo, tempOpened: bool, f: FileToMove, i: nat)
    requires Inv(s) && i < |Line(s)| && Line(s)[i] == f && f.result.id != 0 && EntryOk(cfg, s.temps, f) && Movable(f)
    ensures var t := FilePosted(cfg, s, sid, result, tempOpened).0;
            f in Line(t) && f.tmp in t.temps && t.temps[f.tmp] == s.temps[f.tmp]
  {
    var t := FilePosted(cfg, s, sid, result, tempOpened).0;
    if t != s {
      var cli := s.connections[sid];
      assert HeldBySession(s, cli.id) && HeldInLine(Line(s), f.result.id);
      OneTempFile(cfg, s.temps, cli.originalFileName, cli.id, []);
      if cli.outFile.None? && !Uploads(result) {
        LineAfterQueued(cfg, s, sid, cli.(inFile := None, encResult := result));
        assert Line(t)[i] == f;
      } else {
        assert Line(t) == Line(s);
      }
    }
  }

  lemma WriteLeavesTemp(cfg: Config, s: State, sid: nat, data: Bytes, reached: Option<nat>, f: FileToMove, i: nat)
    requires Inv(s) && TempInv(cfg, s)
    requires i < |Line(s)| && Line(s)[i] == f && f.result.id != 0 && EntryOk(cfg, s.temps, f) && Movable(f)
    ensures var t := ChunkWritten(cfg, s, sid, data, reached).0;
            f in Line(t) && f.tmp in t.temps && t.temps[f.tmp] == s.temps[f.tmp]
  {
    var (t, reply) := ChunkWritten(cfg, s, sid, data, reached);
    if Accepts(s, sid, data) {
      var cli := s.connections[sid];
      assert HeldBySession(s, cli.id) && HeldInLine(Line(s), f.result.id);
      WriteKeepsLength(cfg, s, sid, data, reached);
      if reply == Done(false) {
        var written := s.(temps := t.temps);
        LineAfterQueued(cfg, written, sid, cli);
        assert Line(written) == Line(s) && Line(t)[i] == f;
      } else {
        assert Line(t) == Line(s);
      }
    }
  }

  lemma ReportLeavesTemp(cfg: Config, s: State, outcome: MoveOutcome, f: FileToMove, i: nat)
    requires Inv(s) && TempInv(cfg, s)
    requires i < |Line(s)| && Line(s)[i] == f && f.result.id != 0 && Movable(f)
    requires !IsReported(s, Report(outcome), f.result.id)
    ensures var t := Reported(s, outcome); f in Line(t) && f.tmp in t.temps && t.temps[f.tmp] == s.temps[f.tmp]
  {
    assert EntryOk(cfg, s.temps, f);
    if s.moving.Some? {
      ReportedShape(cfg, s, outcome);
      assert Line(Reported(s, outcome))[i - 1] == f;
    }
  }

  /** Over any run, what an upload left in its temp file is what the main loop finds there. */
  lemma {:induction false} RunLeavesTemp(cfg: Config, s: State, run: seq<Event>, f: FileToMove)
    requires Inv(s) && TempInv(cfg, s) && IsRun(cfg, s, run)
    requires f in Line(s) && f.result.id != 0 && Movable(f)
    requires forall i | 0 <= i < |run| :: !IsReported(After(cfg, s, run[..i]), run[i], f.result.id)
    ensures var t := After(cfg, s, run);
            Inv(t) && TempInv(cfg, t) && f in Line(t)
            && f.tmp in s.temps && f.tmp in t.temps && t.temps[f.tmp] == s.temps[f.tmp]
  {
    if run == [] {
      var i :| 0 <= i < |Line(s)| && Line(s)[i] == f;
      assert EntryOk(cfg, s.temps, Line(s)[i]);
    } else {
      var before, e := run[..|run| - 1], run[|run| - 1];
      forall i | 0 <= i < |before| ensures !IsReported(After(cfg, s, before[..i]), before[i], f.result.id) {
        assert before[..i] == run[..i];
      }
      RunLeavesTemp(cfg, s, before, f);
      var t := After(cfg, s, before);
      assert run[..|run| - 1] == before;
      StepLeavesTemp(cfg, t, e, f);
      InvStep(cfg, t, e);
      TempInvStep(cfg, t, e);
    }
  }
}
