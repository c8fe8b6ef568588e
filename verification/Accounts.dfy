/** What becomes of every file that is handed out, counted over whole runs. */
module Accounts {

  import opened Wrappers
  import opened Database
  import opened JobTable
  import opened Naming
  import opened Daemon
  import opened Lease

  /** A call of getNextFile that gets as far as the database. */
  predicate AsksDatabase(s: State, sid: nat)
  {
    sid in s.connections && s.connections[sid].inFile.None? && s.connections[sid].outFile.None?
  }

  /** The database marks `id` as started. */
  predicate HandsOut(s: State, e: Event, id: nat)
  {
    e.GetNextFile? && AsksDatabase(s, e.sid) && !s.stopRequested && e.pick in s.db.sources && e.pick == id
  }

  /** The database is told of `id`: by a client's abort, or by the main loop. */
  predicate IsReset(s: State, e: Event, id: nat)
  {
    e.Abort? && e.sid in s.connections && !AsksDatabase(s, e.sid) && s.connections[e.sid].id == id
  }

  predicate IsReported(s: State, e: Event, id: nat)
  {
    e.Report? && s.moving.Some? && s.moving.value.result.id == id
  }

  /** The three places that lose a file without telling the database: a session that asks for a new file,
      a file that cannot be opened, a session overwritten by another client under the same key. */
  predicate ForgottenByNextFile(s: State, e: Event, id: nat)
  {
    e.GetNextFile? && AsksDatabase(s, e.sid) && s.connections[e.sid].id == id
  }

  predicate CannotBeOpened(s: State, e: Event, id: nat)
  {
    HandsOut(s, e, id) && (s.db.sources[id].size == 0 || e.source.None?)
  }

  predicate Overwritten(s: State, e: Event, id: nat)
  {
    e.Authenticate? && e.sid in s.connections && s.connections[e.sid].token != e.token && s.connections[e.sid].id == id
  }

  predicate IsAbandoned(s: State, e: Event, id: nat)
  {
    ForgottenByNextFile(s, e, id) || CannotBeOpened(s, e, id) || Overwritten(s, e, id)
  }

  lemma HeldWith(s: State, sid: nat, cli: ConnectedClient, id: nat)
    requires Inv(s) && sid in s.connections && id != 0
    ensures HeldBySession(With(s, sid, cli), id)
       <==> cli.id == id || (HeldBySession(s, id) && s.connections[sid].id != id)
  {
    var t := With(s, sid, cli);
    if HeldBySession(t, id) {
      var k :| k in t.connections && t.connections[k].id == id;
      assert k != sid ==> s.connections[k].id == id;
    }
    if cli.id == id {
      assert t.connections[sid].id == id;
    }
    if HeldBySession(s, id) {
      var k :| k in s.connections && s.connections[k].id == id;
      assert k != sid ==> t.connections[k].id == id;
    }
  }

  lemma HeldAfterAuthenticate(s: State, sid: nat, token: string, id: nat)
    requires Inv(s) && id != 0
    ensures Held(Authenticated(s, sid, token), id)
       <==> Held(s, id) && !Overwritten(s, Authenticate(sid, token), id)
  {
    var t := Authenticated(s, sid, token);
    assert Line(t) == Line(s);
    if HeldBySession(t, id) {
      KeptByAuthenticate(s, sid, token, id);
    }
    if HeldBySession(s, id) {
      var k :| k in s.connections && s.connections[k].id == id;
      if k != sid || s.connections[k].token == token {
        KeepsOnAuthenticate(s, sid, token, k);
      }
    }
    if Overwritten(s, Authenticate(sid, token), id) {
      assert HeldBySession(s, id);
    }
  }

  lemma KeptByAuthenticate(s: State, sid: nat, token: string, id: nat)
    requires Inv(s) && id != 0 && HeldBySession(Authenticated(s, sid, token), id)
    ensures HeldBySession(s, id) && !Overwritten(s, Authenticate(sid, token), id)
  {
    var t := Authenticated(s, sid, token);
    var holder := TokenHolder(s.connections, token);
    var k :| k in t.connections && t.connections[k].id == id;
    var was := if k == sid then holder.value else k;
    assert was in s.connections && s.connections[was].id == id;
  }

  lemma KeepsOnAuthenticate(s: State, sid: nat, token: string, k: nat)
    requires Inv(s) && k in s.connections && (k == sid ==> s.connections[k].token == token)
    ensures HeldBySession(Authenticated(s, sid, token), s.connections[k].id)
  {
    var t := Authenticated(s, sid, token);
    if s.connections[k].token == token {
      assert TokenHolder(s.connections, token) == Some(k);
      assert t.connections[sid].id == s.connections[k].id;
    } else {
      assert t.connections[k].id == s.connections[k].id;
    }
  }

  lemma HeldAfterQueued(cfg: Config, s: State, sid: nat, cli: ConnectedClient, id: nat)
    requires Inv(s) && sid in s.connections && id != 0 && cli.id == s.connections[sid].id
    ensures Held(Queued(cfg, s, sid, cli), id) <==> Held(s, id)
  {
    var t := Queued(cfg, s, sid, cli);
    HeldWith(s, sid, FreshClient(cli.token), id);
    assert HeldBySession(t, id) <==> HeldBySession(With(s, sid, FreshClient(cli.token)), id);
    assert HeldBySession(s, cli.id);
    LineAfterQueued(cfg, s, sid, cli);
    var line, longer := Line(s), Line(t);
    if HeldInLine(longer, id) {
      var i :| 0 <= i < |longer| && longer[i].result.id == id;
      assert i < |line| ==> line[i].result.id == id;
    }
    if HeldInLine(line, id) {
      var i :| 0 <= i < |line| && line[i].result.id == id;
      assert longer[i].result.id == id;
    }
    if cli.id == id {
      assert longer[|line|].result.id == id;
    }
  }

  /** A step that leaves the line alone and changes one session at most. */
  lemma HeldAfterOne(s: State, t: State, sid: nat, id: nat)
    requires Inv(s) && id != 0 && Line(t) == Line(s)
    requires t.connections == s.connections
             || (sid in s.connections && sid in t.connections
                 && t.connections == s.connections[sid := t.connections[sid]])
    ensures t.connections == s.connections ==> (Held(t, id) <==> Held(s, id))
    ensures sid in s.connections && sid in t.connections
        ==> (Held(t, id) <==> t.connections[sid].id == id || (Held(s, id) && s.connections[sid].id != id))
  {
    if t.connections == s.connections {
      assert HeldBySession(t, id) <==> HeldBySession(s, id);
      if sid in s.connections && s.connections[sid].id == id {
        assert HeldBySession(s, id);
      }
    } else {
      HeldWith(s, sid, t.connections[sid], id);
      assert HeldBySession(t, id) <==> HeldBySession(With(s, sid, t.connections[sid]), id);
      if s.connections[sid].id == id {
        assert HeldBySession(s, id);
      }
    }
  }

  lemma HeldAfterReport(s: State, outcome: MoveOutcome, id: nat)
    requires Inv(s) && id != 0
    ensures Held(Reported(s, outcome), id) <==> Held(s, id) && !IsReported(s, Report(outcome), id)
  {
    if s.moving.Some? {
      var t := Reported(s, outcome);
      LineAfterReport(s, outcome);
      assert HeldBySession(t, id) <==> HeldBySession(s, id);
      assert HeldInLine(Line(s), s.moving.value.result.id);
      ShorterLine(s, t);
      HeldInRest(Line(s), id);
    }
  }

  lemma LineAfterReport(s: State, outcome: MoveOutcome)
    requires s.moving.Some?
    ensures Line(Reported(s, outcome)) == Line(s)[1..] && Line(s)[0] == s.moving.value
    ensures Reported(s, outcome).connections == s.connections
  {
  }

  lemma HeldInRest(line: seq<FileToMove>, id: nat)
    requires line != []
    ensures HeldInLine(line, id) ==> line[0].result.id == id || HeldInLine(line[1..], id)
  {
    if HeldInLine(line, id) {
      var i :| 0 <= i < |line| && line[i].result.id == id;
      if i > 0 {
        assert line[1..][i - 1].result.id == id;
      }
    }
  }

  lemma HeldAfterTake(s: State, id: nat)
    requires Inv(s) && id != 0
    ensures Held(Taken(s), id) <==> Held(s, id)
  {
    var t := Taken(s);
    assert HeldBySession(t, id) <==> HeldBySession(s, id);
    if t != s {
      if s.filesToMove[0].result.id != 0 {
        assert Line(t) == Line(s);
      } else {
        assert Line(t) == Line(s)[1..];
        ShorterLine(s, t);
        HeldInRest(Line(s), id);
      }
    }
  }

  /** Who holds a file after a step. */
  lemma HeldAfterStep(cfg: Config, s: State, e: Event, id: nat)
    requires Inv(s) && Enabled(s, e) && id != 0
    ensures Held(Step(cfg, s, e), id)
       <==> if HandsOut(s, e, id) then !CannotBeOpened(s, e, id)
            else Held(s, id) && !IsReset(s, e, id) && !IsReported(s, e, id) && !IsAbandoned(s, e, id)
  {
    match e
    case Authenticate(sid, token) => HeldAfterAuthenticate(s, sid, token, id);
    case GetNextFile(sid, maxFileSize, pick, source) => HeldAfterNextFile(s, e, id);
    case Abort(sid) => HeldAfterAbort(s, sid, id);
    case Report(outcome) => HeldAfterReport(s, outcome, id);
    case _ =>
      HeldAfterOthers(cfg, s, e, id);
      NothingHappensTo(s, e, id);
  }

  lemma NothingHappensTo(s: State, e: Event, id: nat)
    requires !e.GetNextFile? && !e.Abort? && !e.Report?
    ensures !HandsOut(s, e, id) && !IsReset(s, e, id) && !IsReported(s, e, id)
    ensures IsAbandoned(s, e, id) ==> e.Authenticate?
  {
  }

  /** The other calls leave every file with whoever has it: at most it goes from a session into the line. */
  lemma HeldAfterOthers(cfg: Config, s: State, e: Event, id: nat)
    requires Inv(s) && id != 0
    requires !e.Authenticate? && !e.GetNextFile? && !e.Abort? && !e.Report?
    ensures Held(Step(cfg, s, e), id) <==> Held(s, id)
  {
    match e
    case ReadChunk(sid, available) => HeldAfterSame(s, ChunkRead(cfg, s, sid, available).0, sid, id);
    case Reset(sid) => HeldAfterSame(s, Rewound(s, sid).0, sid, id);
    case PostFile(sid, result, tempOpened) => HeldAfterPost(cfg, s, sid, result, tempOpened, id);
    case WriteChunk(sid, data, reached) => HeldAfterWrite(cfg, s, sid, data, reached, id);
    case FileChange(call) => HeldAfterSame(s, Step(cfg, s, e), 0, id);
    case Take => HeldAfterTake(s, id);
    case Stop => HeldAfterSame(s, Step(cfg, s, e), 0, id);
  }

  lemma HeldAfterNextFile(s: State, e: Event, id: nat)
    requires Inv(s) && Enabled(s, e) && id != 0 && e.GetNextFile?
    ensures Held(NextFileGot(s, e.sid, e.pick, e.source).0, id)
       <==> if HandsOut(s, e, id) then !CannotBeOpened(s, e, id) else Held(s, id) && !ForgottenByNextFile(s, e, id)
  {
    var t := NextFileGot(s, e.sid, e.pick, e.source).0;
    assert Line(t) == Line(s);
    HeldAfterOne(s, t, e.sid, id);
    SessionAfterNextFile(s, e.sid, e.pick, e.source);
    if HandsOut(s, e, id) {
      HandoutIsFree(s, SizeLimit(e.maxFileSize), id);
    }
  }

  /** A file of any size may be handed out to who asks for 0, and otherwise one of at most the size asked for. */
  lemma WithinSizeAsked(db: Tables, maxFileSize: nat, id: nat)
    requires id in db.sources && db.sources[id].size < 0x1_0000_0000_0000_0000
    ensures Eligible(db, SizeLimit(maxFileSize), id)
       <==> Eligible(db, db.sources[id].size, id) && (maxFileSize == 0 || db.sources[id].size <= maxFileSize)
  {
  }

  /** The session that asks for a file has the one it is given, or none; unless it is refused. */
  lemma SessionAfterNextFile(s: State, sid: nat, pick: nat, source: Option<Bytes>)
    ensures var t := NextFileGot(s, sid, pick, source).0;
            if AsksDatabase(s, sid) then
              && sid in t.connections && t.connections == s.connections[sid := t.connections[sid]]
              && t.connections[sid].id == if s.stopRequested || pick !in s.db.sources || s.db.sources[pick].size == 0
                                             || source.None? then 0 else pick
            else t == s
  {
  }

  lemma HeldAfterAbort(s: State, sid: nat, id: nat)
    requires Inv(s) && id != 0
    ensures Held(Aborted(s, sid).0, id) <==> Held(s, id) && !IsReset(s, Abort(sid), id)
  {
    var t := Aborted(s, sid).0;
    assert Line(t) == Line(s);
    HeldAfterOne(s, t, sid, id);
  }

  lemma HeldAfterSame(s: State, t: State, sid: nat, id: nat)
    requires Inv(s) && id != 0 && t.filesToMove == s.filesToMove && t.moving == s.moving
    requires t.connections == s.connections
             || (sid in s.connections && sid in t.connections && t.connections[sid].id == s.connections[sid].id
                 && t.connections == s.connections[sid := t.connections[sid]])
    ensures Held(t, id) <==> Held(s, id)
  {
    assert Line(t) == Line(s);
    HeldAfterOne(s, t, sid, id);
    if sid in s.connections && s.connections[sid].id == id {
      assert HeldBySession(s, id);
    }
  }

  lemma HeldAfterPost(cfg: Config, s: State, sid: nat, result: ResultInfo, tempOpened: bool, id: nat)
    requires Inv(s) && id != 0
    ensures Held(FilePosted(cfg, s, sid, result, tempOpened).0, id) <==> Held(s, id)
  {
    var t := FilePosted(cfg, s, sid, result, tempOpened).0;
    if t != s && s.connections[sid].outFile.None? && !Uploads(result) {
      HeldAfterQueued(cfg, s, sid, s.connections[sid].(inFile := None, encResult := result), id);
    } else {
      assert Line(t) == Line(s);
      HeldAfterOne(s, t, sid, id);
      assert sid in s.connections && s.connections[sid].id == id ==> HeldBySession(s, id);
    }
  }

  lemma HeldAfterWrite(cfg: Config, s: State, sid: nat, data: Bytes, reached: Option<nat>, id: nat)
    requires Inv(s) && id != 0
    ensures Held(ChunkWritten(cfg, s, sid, data, reached).0, id) <==> Held(s, id)
  {
    var (t, reply) := ChunkWritten(cfg, s, sid, data, reached);
    var written := s.(temps := t.temps);
    SameHolders(s, written);
    assert HeldBySession(written, id) <==> HeldBySession(s, id);
    if reply == Done(false) {
      HeldAfterQueued(cfg, written, sid, s.connections[sid], id);
    } else {
      assert Line(t) == Line(s);
      HeldAfterOne(s, t, sid, id);
      assert sid in s.connections && s.connections[sid].id == id ==> HeldBySession(s, id);
    }
  }

  /* ---- conservation ---- */

  /** How often an event of some kind happened to `id` in a run. */
  ghost function EventCount(cfg: Config, s: State, run: seq<Event>, kind: (State, Event) -> bool): nat
  {
    if run == [] then 0
    else EventCount(cfg, s, run[..|run| - 1], kind) + One(kind(After(cfg, s, run[..|run| - 1]), run[|run| - 1]))
  }

  ghost function Handouts(cfg: Config, s: State, run: seq<Event>, id: nat): nat
  {
    EventCount(cfg, s, run, (t, e) => HandsOut(t, e, id))
  }

  ghost function Resets(cfg: Config, s: State, run: seq<Event>, id: nat): nat
  {
    EventCount(cfg, s, run, (t, e) => IsReset(t, e, id))
  }

  ghost function Reports(cfg: Config, s: State, run: seq<Event>, id: nat): nat
  {
    EventCount(cfg, s, run, (t, e) => IsReported(t, e, id))
  }

  ghost function Abandonments(cfg: Config, s: State, run: seq<Event>, id: nat): nat
  {
    EventCount(cfg, s, run, (t, e) => IsAbandoned(t, e, id))
  }

  /** A step hands a file out, or ends a hold on it, in exactly one of the named ways. */
  lemma StepBalances(cfg: Config, s: State, e: Event, id: nat)
    requires Inv(s) && Enabled(s, e) && id != 0
    ensures One(HandsOut(s, e, id)) + One(Held(s, id))
         == One(IsReset(s, e, id)) + One(IsReported(s, e, id)) + One(IsAbandoned(s, e, id))
            + One(Held(Step(cfg, s, e), id))
  {
    HeldAfterStep(cfg, s, e, id);
    if HandsOut(s, e, id) {
      HandoutIsFree(s, SizeLimit(e.maxFileSize), id);
      assert s.connections[e.sid].id == id ==> HeldBySession(s, id);
    } else {
      if e.Report? && IsReported(s, e, id) {
        assert Line(s)[0] == s.moving.value;
      }
      if (e.Abort? || e.GetNextFile? || e.Authenticate?) && e.sid in s.connections && s.connections[e.sid].id == id {
        assert HeldBySession(s, id);
      }
    }
  }

  /** Every handout of a file has ended in a reset, in a report, in one of the three ways of losing it, or
      is the one now held: nothing is counted twice and nothing is lost elsewhere. */
  lemma {:induction false} Conservation(cfg: Config, db: Tables, run: seq<Event>, id: nat)
    requires Valid(db) && IsRun(cfg, Started(db), run) && id != 0
    ensures Handouts(cfg, Started(db), run, id)
         == Resets(cfg, Started(db), run, id) + Reports(cfg, Started(db), run, id)
            + Abandonments(cfg, Started(db), run, id) + One(Held(After(cfg, Started(db), run), id))
  {
    if run == [] {
      assert Line(Started(db)) == [];
    } else {
      var before := run[..|run| - 1];
      Conservation(cfg, db, before, id);
      InvAlways(cfg, db, before);
      StepBalances(cfg, After(cfg, Started(db), before), run[|run| - 1], id);
    }
  }

  /* ---- the retry bound ---- */

  function TimesTried(db: Tables, id: nat): nat
  {
    match Lookup(db.queue, id)
    case None => 0
    case Some(row) => row.count
  }

  predicate IsZeroReport(s: State, e: Event, id: nat)
  {
    IsReported(s, e, id) && Recorded(s.moving.value, e.outcome).result == NOT_STARTED
  }

  ghost function ZeroReports(cfg: Config, s: State, run: seq<Event>, id: nat): nat
  {
    EventCount(cfg, s, run, (t, e) => IsZeroReport(t, e, id))
  }

  /** Three tries, and one more for every time the file was put back by hand. */
  predicate WithinTries(db: Tables, id: nat, putBack: nat)
  {
    match Lookup(db.queue, id)
    case None => true
    case Some(row) =>
      row.count <= MAX_TRIES + putBack && (row.status == NOT_STARTED ==> row.count < MAX_TRIES + putBack)
  }

  /** The row of a file after a step: what a handout, a reset, a report make of it, or what addFile may. */
  lemma RowAfterStep(cfg: Config, s: State, e: Event, id: nat)
    requires Inv(s) && Enabled(s, e) && id != 0
    ensures var was, now := Lookup(s.db.queue, id), Lookup(Step(cfg, s, e).db.queue, id);
            if HandsOut(s, e, id) then
              now.Some? && now.value.status == STARTED && now.value.count == TimesTried(s.db, id) + 1
            else if IsReset(s, e, id) then
              was.Some? && now.Some? && now.value.status == NOT_STARTED && now.value.count == was.value.count
            else if IsReported(s, e, id) then
              was.Some? && now.Some? && now.value.count == was.value.count
              && now.value.status == Recorded(s.moving.value, e.outcome).result
            else RowAfterAdd(was, now)
  {
    match e
    case GetNextFile(sid, maxFileSize, pick, source) => RowAfterNextFile(s, e, id);
    case Abort(sid) => RowAfterAbort(s, sid, id);
    case Report(outcome) => RowAfterReport(s, outcome, id);
    case FileChange(call) =>
      FileAddedRow(s.db, call.src, call.dst, call.queue, id);
      NothingHappensTo(s, e, id);
    case _ =>
      TablesUntouched(cfg, s, e);
      NothingHappensTo(s, e, id);
  }

  lemma RowAfterNextFile(s: State, e: Event, id: nat)
    requires Inv(s) && Enabled(s, e) && id != 0 && e.GetNextFile?
    ensures var was, now := Lookup(s.db.queue, id), Lookup(NextFileGot(s, e.sid, e.pick, e.source).0.db.queue, id);
            if HandsOut(s, e, id) then
              now.Some? && now.value.status == STARTED && now.value.count == TimesTried(s.db, id) + 1
            else now == was
  {
    HandedOutRow(s.db, e.pick, id);
  }

  lemma TablesUntouched(cfg: Config, s: State, e: Event)
    requires !e.GetNextFile? && !e.Abort? && !e.Report? && !e.FileChange?
    ensures Step(cfg, s, e).db == s.db
  {
  }

  lemma RowAfterAbort(s: State, sid: nat, id: nat)
    requires Inv(s) && id != 0
    ensures var was, now := Lookup(s.db.queue, id), Lookup(Aborted(s, sid).0.db.queue, id);
            if IsReset(s, Abort(sid), id) then
              was.Some? && now.Some? && now.value.status == NOT_STARTED && now.value.count == was.value.count
            else now == was
  {
    if sid in s.connections && !AsksDatabase(s, sid) {
      LookupAfterSet(s.db.queue, s.connections[sid].id, Change(NOT_STARTED, 0, None), id);
      if s.connections[sid].id == id {
        assert HeldBySession(s, id) && Held(s, id);
      }
    }
  }

  lemma RowAfterReport(s: State, outcome: MoveOutcome, id: nat)
    requires Inv(s) && id != 0
    ensures var was, now := Lookup(s.db.queue, id), Lookup(Reported(s, outcome).db.queue, id);
            if IsReported(s, Report(outcome), id) then
              was.Some? && now.Some? && now.value.count == was.value.count
              && now.value.status == Recorded(s.moving.value, outcome).result
            else now == was
  {
    if s.moving.Some? {
      var r := Recorded(s.moving.value, outcome);
      LookupAfterSet(s.db.queue, r.id, ResultChange(r), id);
      assert Reported(s, outcome).db.queue == SetRow(s.db.queue, r.id, ResultChange(r));
      if r.id == id {
        assert Line(s)[0] == s.moving.value && HeldInLine(Line(s), id) && Held(s, id);
      }
    }
  }

  lemma StepWithinTries(cfg: Config, s: State, e: Event, id: nat, putBack: nat)
    requires Inv(s) && Enabled(s, e) && id != 0 && WithinTries(s.db, id, putBack)
    ensures WithinTries(Step(cfg, s, e).db, id, putBack + One(IsReset(s, e, id)) + One(IsZeroReport(s, e, id)))
    ensures TimesTried(Step(cfg, s, e).db, id) == TimesTried(s.db, id) + One(HandsOut(s, e, id))
  {
    RowAfterStep(cfg, s, e, id);
  }

  /** From any database, of which it is known how often a file may have been put back: the count column
      grows by the number of handouts, and stays within three tries and one more for every time the file
      was put back, reset or reported with result 0. */
  lemma {:induction false} RetryBound(cfg: Config, db: Tables, run: seq<Event>, id: nat, putBack: nat)
    requires Valid(db) && WithinTries(db, id, putBack) && IsRun(cfg, Started(db), run) && id != 0
    ensures var s := Started(db);
            var more := putBack + Resets(cfg, s, run, id) + ZeroReports(cfg, s, run, id);
            && TimesTried(After(cfg, s, run).db, id) == TimesTried(db, id) + Handouts(cfg, s, run, id)
            && TimesTried(db, id) + Handouts(cfg, s, run, id) <= MAX_TRIES + more
            && WithinTries(After(cfg, s, run).db, id, more)
  {
    if run != [] {
      var before := run[..|run| - 1];
      var s := Started(db);
      RetryBound(cfg, db, before, id, putBack);
      InvAlways(cfg, db, before);
      StepWithinTries(cfg, After(cfg, s, before), run[|run| - 1], id,
                      putBack + Resets(cfg, s, before, id) + ZeroReports(cfg, s, before, id));
    }
  }
}
