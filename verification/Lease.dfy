/** What every step of the daemon keeps: a file that is out is out once, and stays out. */
module Lease {

  import opened Wrappers
  import opened Naming
  import opened Database
  import opened JobTable
  import opened Daemon
  import Discovery

  /** The results on their way to the database: the one being moved, then the line. */
  function Line(s: State): seq<FileToMove>
  {
    (if s.moving.Some? then [s.moving.value] else []) + s.filesToMove
  }

  /** Started or done: a status getNextFile passes over. */
  predicate Leased(db: Tables, id: nat)
  {
    Lookup(db.queue, id).Some? && Lookup(db.queue, id).value.status in {STARTED, OK}
  }

  ghost predicate HeldBySession(s: State, id: nat)
  {
    exists k :: k in s.connections && s.connections[k].id == id
  }

  ghost predicate HeldInLine(line: seq<FileToMove>, id: nat)
  {
    exists i :: 0 <= i < |line| && line[i].result.id == id
  }

  /** A file is held by a session, or by a result that has not reached the database. */
  ghost predicate Held(s: State, id: nat)
  {
    HeldBySession(s, id) || HeldInLine(Line(s), id)
  }

  ghost predicate SessionsApart(connections: map<nat, ConnectedClient>)
  {
    forall j, k | j in connections && k in connections && connections[j].id == connections[k].id != 0 :: j == k
  }

  ghost predicate LineApart(line: seq<FileToMove>)
  {
    forall i, j | 0 <= i < j < |line| && line[i].result.id == line[j].result.id :: line[i].result.id == 0
  }

  /** Every file is held at most once, and none that is held can be handed out. */
  ghost predicate Exclusive(s: State)
  {
    && SessionsApart(s.connections)
    && LineApart(Line(s))
    && (forall id | HeldBySession(s, id) && HeldInLine(Line(s), id) :: id == 0)
    && (forall id | Held(s, id) && id != 0 :: Leased(s.db, id))
  }

  ghost predicate TokensApart(connections: map<nat, ConnectedClient>)
  {
    forall j, k | j in connections && k in connections && connections[j].token == connections[k].token :: j == k
  }

  ghost predicate Inv(s: State)
  {
    && Valid(s.db) && TokensApart(s.connections) && Exclusive(s)
    && (s.moving.Some? ==> s.moving.value.result.id != 0)
  }

  /* ---- what a step may do to the tables without touching what is held ---- */

  ghost predicate KeepsLeases(s: State, db: Tables)
  {
    forall id | Held(s, id) && id != 0 && Leased(s.db, id) :: Leased(db, id)
  }

  lemma FileAddedKeepsLeases(s: State, src: Option<FileInfo>, dst: Option<FileInfo>, queue: bool)
    ensures KeepsLeases(s, FileAdded(s.db, src, dst, queue).0)
  {
    forall id | Leased(s.db, id) ensures Leased(FileAdded(s.db, src, dst, queue).0, id) {
      FileAddedRow(s.db, src, dst, queue, id);
    }
  }

  /** One session changes; it keeps its file, or gives it up, or takes one nobody held. */
  lemma ExclusiveWith(s: State, sid: nat, cli: ConnectedClient, db: Tables)
    requires Exclusive(s) && sid in s.connections
    requires cli.id == s.connections[sid].id || cli.id == 0 || (!Held(s, cli.id) && Leased(db, cli.id))
    requires KeepsLeases(s, db)
    ensures Exclusive(With(s, sid, cli).(db := db))
  {
    var t := With(s, sid, cli).(db := db);
    assert Line(t) == Line(s);
    forall id | HeldBySession(t, id) && id != 0 ensures HeldBySession(s, id) || id == cli.id {
      var k :| k in t.connections && t.connections[k].id == id;
      if k != sid {
        assert s.connections[k].id == id;
      }
    }
    assert cli.id == s.connections[sid].id ==> HeldBySession(s, cli.id);
    assert forall k | k in s.connections :: HeldBySession(s, s.connections[k].id);
  }

  lemma InvWith(s: State, sid: nat, cli: ConnectedClient)
    requires Inv(s) && sid in s.connections && cli.token == s.connections[sid].token
    requires cli.id == s.connections[sid].id || cli.id == 0
    ensures Inv(With(s, sid, cli))
  {
    ExclusiveWith(s, sid, cli, s.db);
    assert With(s, sid, cli).(db := s.db) == With(s, sid, cli);
  }

  /* ---- the handlers ---- */

  /** The token moves to the caller's key; the sessions under other keys are as they were. */
  lemma InvAuthenticated(s: State, sid: nat, token: string)
    requires Inv(s)
    ensures Inv(Authenticated(s, sid, token))
  {
    var connections := Authenticated(s, sid, token).connections;
    SessionsAfterAuthenticate(s.connections, sid, token);
    SessionsFrom(s, connections);
  }

  /** Every session there is after authentication was there before, or is the caller's and new. */
  lemma SessionsAfterAuthenticate(connections: map<nat, ConnectedClient>, sid: nat, token: string)
    requires TokensApart(connections) && SessionsApart(connections)
    ensures var now := Authenticated(Started(EMPTY_TABLES).(connections := connections), sid, token).connections;
            && (forall k | k in now && now[k].id != 0 :: IsSession(connections, now[k]))
            && TokensApart(now) && SessionsApart(now)
  {
    var holder := TokenHolder(connections, token);
    if holder.Some? {
      assert IsSession(connections, connections[holder.value]);
    }
    assert forall k | k in connections :: IsSession(connections, connections[k]);
  }

  ghost predicate IsSession(connections: map<nat, ConnectedClient>, cli: ConnectedClient)
  {
    exists k :: k in connections && connections[k] == cli
  }

  lemma SessionsFrom(s: State, connections: map<nat, ConnectedClient>)
    requires Inv(s)
    requires forall k | k in connections && connections[k].id != 0 :: IsSession(s.connections, connections[k])
    requires TokensApart(connections) && SessionsApart(connections)
    ensures Inv(s.(connections := connections))
  {
    var t := s.(connections := connections);
    assert Line(t) == Line(s);
    forall id | HeldBySession(t, id) && id != 0 ensures HeldBySession(s, id) {
      var k :| k in connections && connections[k].id == id;
      var j :| j in s.connections && s.connections[j] == connections[k];
    }
  }

  /** A client that comes back under another key finds its session as it left it: file, stream positions,
      result and all. The loop over the sessions meets its token once, and the sessions under other keys
      stay; a token not seen before starts with nothing. */
  lemma Reconnection(s: State, sid: nat, token: string)
    requires Inv(s)
    ensures var t := Authenticated(s, sid, token).connections;
            && sid in t && t[sid].token == token
            && (forall k | k in s.connections && s.connections[k].token == token ::
                  && t[sid] == s.connections[k]
                  && (k != sid ==> k !in t)
                  && (forall j | j in s.connections && s.connections[j].token == token :: j == k))
            && ((forall k | k in s.connections :: s.connections[k].token != token) ==> t[sid] == FreshClient(token))
            && (forall j | j != sid && j in s.connections && s.connections[j].token != token ::
                  j in t && t[j] == s.connections[j])
            && (forall j | j != sid && j in t :: j in s.connections && t[j] == s.connections[j])
  {
    match TokenHolder(s.connections, token)
    case None =>
    case Some(holder) =>
      assert forall k | k in s.connections && s.connections[k].token == token :: k == holder;
  }

  lemma InvNextFileGot(s: State, sid: nat, maxFileSize: nat, pick: nat, source: Option<Bytes>)
    requires Inv(s) && Enabled(s, GetNextFile(sid, maxFileSize, pick, source))
    ensures Inv(NextFileGot(s, sid, pick, source).0)
  {
    AskingFollows(s, sid, pick, source);
    InvAfterAsking(s, sid, SizeLimit(maxFileSize), pick, NextFileGot(s, sid, pick, source).0);
  }

  lemma AskingFollows(s: State, sid: nat, pick: nat, source: Option<Bytes>)
    ensures MayFollowAsking(s, sid, pick, NextFileGot(s, sid, pick, source).0)
  {
  }

  /** What asking for a file may do: nothing, free the session, or give it what the database hands out. */
  predicate MayFollowAsking(s: State, sid: nat, pick: nat, t: State)
  {
    || t == s
    || (&& sid in s.connections && sid in t.connections && t.connections[sid].token == s.connections[sid].token
        && ((t.connections[sid].id == 0 && t == With(s, sid, t.connections[sid]))
            || (pick in s.db.sources && t.connections[sid].id in {0, pick}
                && t == With(s, sid, t.connections[sid]).(db := HandedOut(s.db, pick)))))
  }

  lemma InvAfterAsking(s: State, sid: nat, maxSize: nat, pick: nat, t: State)
    requires Inv(s) && MayFollowAsking(s, sid, pick, t)
    requires pick in s.db.sources ==> Eligible(s.db, maxSize, pick)
    ensures Inv(t)
  {
    if t != s {
      if t == With(s, sid, t.connections[sid]) && t.connections[sid].id == 0 {
        InvWith(s, sid, t.connections[sid]);
      } else {
        HandedTo(s, sid, t.connections[sid], maxSize, pick);
      }
    }
  }

  lemma HandedTo(s: State, sid: nat, cli: ConnectedClient, maxSize: nat, pick: nat)
    requires Inv(s) && Eligible(s.db, maxSize, pick) && sid in s.connections
    requires cli.token == s.connections[sid].token && (cli.id == 0 || cli.id == pick)
    ensures Inv(With(s, sid, cli).(db := HandedOut(s.db, pick)))
  {
    HandoutIsFree(s, maxSize, pick);
    ExclusiveWith(s, sid, cli, HandedOut(s.db, pick));
  }

  /** What the database hands out is held by nobody, and is then out of its reach. */
  lemma HandoutIsFree(s: State, maxSize: nat, pick: nat)
    requires Inv(s) && Eligible(s.db, maxSize, pick)
    ensures !Held(s, pick) && pick != 0
    ensures Valid(HandedOut(s.db, pick)) && Leased(HandedOut(s.db, pick), pick)
    ensures KeepsLeases(s, HandedOut(s.db, pick))
  {
    ValidHandedOut(s.db, maxSize, pick);
    forall id ensures Leased(s.db, id) || id == pick ==> Leased(HandedOut(s.db, pick), id) {
      HandedOutRow(s.db, pick, id);
    }
  }

  lemma InvQueued(cfg: Config, s: State, sid: nat, cli: ConnectedClient)
    requires Inv(s) && sid in s.connections
    requires cli.id == s.connections[sid].id && cli.token == s.connections[sid].token
    ensures Inv(Queued(cfg, s, sid, cli))
  {
    var t := Queued(cfg, s, sid, cli);
    assert HeldBySession(s, cli.id);
    LineAfterQueued(cfg, s, sid, cli);
    var line, longer := Line(s), Line(t);
    assert forall i | 0 <= i < |line| :: HeldInLine(line, line[i].result.id);
    forall id | HeldInLine(longer, id) ensures HeldInLine(line, id) || id == cli.id {
      var i :| 0 <= i < |longer| && longer[i].result.id == id;
      if i < |line| {
        assert line[i].result.id == id;
      }
    }
    forall id | HeldBySession(t, id) && id != 0 ensures HeldBySession(s, id) && id != cli.id {
      var k :| k in t.connections && t.connections[k].id == id;
      assert s.connections[k].id == id && k != sid;
    }
  }

  lemma LineAfterQueued(cfg: Config, s: State, sid: nat, cli: ConnectedClient)
    ensures var longer := Line(Queued(cfg, s, sid, cli));
            |longer| == |Line(s)| + 1 && longer[..|Line(s)|] == Line(s) && longer[|Line(s)|] == EntryFor(cfg, cli)
    ensures forall i | 0 <= i < |Line(s)| :: Line(Queued(cfg, s, sid, cli))[i] == Line(s)[i]
  {
    var t := Queued(cfg, s, sid, cli);
    assert Line(t) == Line(s) + [EntryFor(cfg, cli)];
  }

  lemma InvAborted(s: State, sid: nat)
    requires Inv(s)
    ensures Inv(Aborted(s, sid).0)
  {
    if sid in s.connections {
      var cli := s.connections[sid];
      if cli.inFile.Some? || cli.outFile.Some? {
        GivenUp(s, sid, Change(NOT_STARTED, 0, None));
      }
    }
  }

  /** A session gives up its file, whose row may then say anything. */
  lemma GivenUp(s: State, sid: nat, c: Change)
    requires Inv(s) && sid in s.connections
    ensures var cli := s.connections[sid];
            Inv(With(s, sid, FreshClient(cli.token)).(db := s.db.(queue := SetRow(s.db.queue, cli.id, c))))
  {
    var cli := s.connections[sid];
    var free := With(s, sid, FreshClient(cli.token));
    InvWith(s, sid, FreshClient(cli.token));
    assert HeldBySession(s, cli.id);
    assert Line(free) == Line(s);
    assert !HeldBySession(free, cli.id) || cli.id == 0;
    ForgetUnheld(free, cli.id, c);
  }

  lemma ForgetUnheld(s: State, id: nat, c: Change)
    requires Inv(s) && (id == 0 || !Held(s, id))
    ensures Inv(s.(db := s.db.(queue := SetRow(s.db.queue, id, c))))
  {
    var t := s.(db := s.db.(queue := SetRow(s.db.queue, id, c)));
    ValidChanged(s.db, id, c);
    assert Line(t) == Line(s);
    forall k | Held(t, k) && k != 0 ensures Leased(t.db, k) {
      assert HeldBySession(t, k) ==> HeldBySession(s, k);
      assert Held(s, k);
      LookupAfterSet(s.db.queue, id, c, k);
    }
  }

  lemma InvTaken(s: State)
    requires Inv(s)
    ensures Inv(Taken(s))
  {
    var t := Taken(s);
    if t != s {
      if s.filesToMove[0].result.id != 0 {
        assert Line(t) == Line(s);
      } else {
        assert Line(t) == Line(s)[1..];
        ShorterLine(s, t);
      }
      assert forall id :: HeldBySession(t, id) <==> HeldBySession(s, id);
    }
  }

  lemma ShorterLine(s: State, t: State)
    requires Line(s) != [] && Line(t) == Line(s)[1..]
    ensures forall id | HeldInLine(Line(t), id) :: HeldInLine(Line(s), id)
    ensures LineApart(Line(s)) ==> LineApart(Line(t))
    ensures LineApart(Line(s)) && Line(s)[0].result.id != 0 ==> !HeldInLine(Line(t), Line(s)[0].result.id)
  {
    var line, rest := Line(s), Line(t);
    assert forall i | 0 <= i < |rest| :: rest[i] == line[i + 1];
    forall id | HeldInLine(rest, id) ensures HeldInLine(line, id) {
      var i :| 0 <= i < |rest| && rest[i].result.id == id;
      assert line[i + 1].result.id == id;
    }
  }

  /** A result changes the row of its own file only. */
  lemma RowsReported(db: Tables, r: EncodedFile)
    ensures forall k | k != r.id && Leased(db, k) :: Leased(EncodedAdded(db, r), k)
  {
    forall k | k != r.id ensures Lookup(EncodedAdded(db, r).queue, k) == Lookup(db.queue, k) {
      LookupAfterSet(db.queue, r.id, ResultChange(r), k);
    }
  }

  /** The file of an entry being moved is in the queue, so what it reports leaves the tables valid. */
  lemma ReportedTablesValid(s: State, outcome: MoveOutcome)
    requires Inv(s) && s.moving.Some? && s.moving.value.result.id != 0
    ensures Valid(Reported(s, outcome).db)
  {
    assert Line(s)[0] == s.moving.value;
    assert HeldInLine(Line(s), s.moving.value.result.id);
    assert Held(s, s.moving.value.result.id) && Leased(s.db, s.moving.value.result.id);
    ValidEncodedAdded(s.db, Recorded(s.moving.value, outcome));
  }

  lemma InvReported(s: State, outcome: MoveOutcome)
    requires Inv(s)
    ensures Inv(Reported(s, outcome))
  {
    if s.moving.Some? {
      var f := s.moving.value;
      var r := Recorded(f, outcome);
      var rest := s.(moving := None);
      assert Line(rest) == Line(s)[1..] && Line(s)[0] == f;
      assert HeldInLine(Line(s), r.id);
      ShorterLine(s, rest);
      assert forall id :: HeldBySession(rest, id) <==> HeldBySession(s, id);
      assert Inv(rest);
      assert r.id != 0 ==> !Held(rest, r.id);
      RowsReported(s.db, r);
      var t := Reported(s, outcome);
      assert Line(t) == Line(rest);
      assert forall id :: HeldBySession(t, id) <==> HeldBySession(rest, id);
      ReportedTablesValid(s, outcome);
    }
  }

  lemma InvStep(cfg: Config, s: State, e: Event)
    requires Inv(s) && Enabled(s, e)
    ensures Inv(Step(cfg, s, e))
  {
    match e
    case Authenticate(sid, token) => InvAuthenticated(s, sid, token);
    case GetNextFile(sid, maxFileSize, pick, source) => InvNextFileGot(s, sid, maxFileSize, pick, source);
    case ReadChunk(sid, available) => InvSameFile(s, sid, ChunkRead(cfg, s, sid, available).0);
    case Reset(sid) => InvSameFile(s, sid, Rewound(s, sid).0);
    case Abort(sid) => InvAborted(s, sid);
    case PostFile(sid, result, tempOpened) => InvFilePosted(cfg, s, sid, result, tempOpened);
    case WriteChunk(sid, data, reached) => InvChunkWritten(cfg, s, sid, data, reached);
    case FileChange(call) => InvFileChange(cfg, s, call);
    case Take => InvTaken(s);
    case Report(outcome) => InvReported(s, outcome);
    case Stop =>
      assert Line(s.(stopRequested := true)) == Line(s);
      SameHolders(s, s.(stopRequested := true));
  }

  /** The invariant speaks of the tables, the sessions' files and tokens, and the line. */
  lemma SameHolders(s: State, t: State)
    requires Inv(s) && t.db == s.db && t.connections == s.connections && Line(t) == Line(s) && t.moving == s.moving
    ensures Inv(t)
  {
    assert forall id :: HeldBySession(t, id) <==> HeldBySession(s, id);
  }

  lemma InvSameFile(s: State, sid: nat, t: State)
    requires Inv(s)
    requires t == s || (sid in s.connections && sid in t.connections && t == With(s, sid, t.connections[sid])
                        && t.connections[sid].id == s.connections[sid].id
                        && t.connections[sid].token == s.connections[sid].token)
    ensures Inv(t)
  {
    if t != s {
      InvWith(s, sid, t.connections[sid]);
    }
  }

  lemma InvFilePosted(cfg: Config, s: State, sid: nat, result: ResultInfo, tempOpened: bool)
    requires Inv(s)
    ensures Inv(FilePosted(cfg, s, sid, result, tempOpened).0)
  {
    var t := FilePosted(cfg, s, sid, result, tempOpened).0;
    if t != s {
      var cli := s.connections[sid];
      if cli.outFile.None? && !Uploads(result) {
        InvQueued(cfg, s, sid, cli.(inFile := None, encResult := result));
      } else {
        InvWith(s, sid, t.connections[sid]);
        SameHolders(With(s, sid, t.connections[sid]), t);
      }
    }
  }

  lemma InvChunkWritten(cfg: Config, s: State, sid: nat, data: Bytes, reached: Option<nat>)
    requires Inv(s)
    ensures Inv(ChunkWritten(cfg, s, sid, data, reached).0)
  {
    var (t, reply) := ChunkWritten(cfg, s, sid, data, reached);
    if reply.Done? {
      var written := s.(temps := t.temps);
      SameHolders(s, written);
      if reply.value {
        InvWith(written, sid, t.connections[sid]);
      } else {
        InvQueued(cfg, written, sid, s.connections[sid]);
      }
    }
  }

  lemma InvFileChange(cfg: Config, s: State, call: Discovery.Call)
    requires Inv(s)
    ensures Inv(Step(cfg, s, FileChange(call)))
  {
    var t := Step(cfg, s, FileChange(call));
    ValidFileAdded(s.db, call.src, call.dst, call.queue);
    FileAddedKeepsLeases(s, call.src, call.dst, call.queue);
    assert Line(t) == Line(s);
    assert forall id :: HeldBySession(t, id) <==> HeldBySession(s, id);
  }

  lemma InvStarted(db: Tables)
    requires Valid(db)
    ensures Inv(Started(db))
  {
    assert Line(Started(db)) == [];
  }

  /** In every state the daemon can reach, whatever its clients call and in whatever order, every file out
      is out once, has one row, and cannot be handed out again. */
  lemma {:induction false} InvAlways(cfg: Config, db: Tables, run: seq<Event>)
    requires Valid(db) && IsRun(cfg, Started(db), run)
    ensures Inv(After(cfg, Started(db), run))
  {
    if run == [] {
      InvStarted(db);
    } else {
      InvAlways(cfg, db, run[..|run| - 1]);
      InvStep(cfg, After(cfg, Started(db), run[..|run| - 1]), run[|run| - 1]);
    }
  }

  /** The tables themselves, in every run: the queue never has two rows of one id, no path has two source
      rows, what is archived is queued and what is queued is a source. */
  lemma TablesAlwaysSound(cfg: Config, db: Tables, run: seq<Event>)
    requires Valid(db) && IsRun(cfg, Started(db), run)
    ensures var d := After(cfg, Started(db), run).db;
            && (forall i, j | 0 <= i < j < |d.queue| :: d.queue[i].id != d.queue[j].id)
            && (forall i, j | i in d.sources && j in d.sources && i != j :: d.sources[i].path != d.sources[j].path)
            && (forall id | id in d.archives :: exists row :: row in d.queue && row.id == id)
            && (forall row | row in d.queue :: row.id in d.sources)
  {
    InvAlways(cfg, db, run);
    var d := After(cfg, Started(db), run).db;
    OneRowPerIdMeans(d.queue);
    forall id | id in d.archives ensures exists row :: row in d.queue && row.id == id {
      LookupFinds(d.queue, id);
    }
    forall row | row in d.queue ensures row.id in d.sources {
      OnlyRow(d.queue, row.id);
    }
  }

  lemma HeldIsOutOfReach(cfg: Config, db: Tables, run: seq<Event>, id: nat, maxSize: nat)
    requires Valid(db) && IsRun(cfg, Started(db), run)
    requires id != 0 && Held(After(cfg, Started(db), run), id)
    ensures !Eligible(After(cfg, Started(db), run).db, maxSize, id)
    ensures var queue := After(cfg, Started(db), run).db.queue;
            OneRowPerId(queue) && Lookup(queue, id).Some? && Lookup(queue, id).value.status in {1, 5}
  {
    InvAlways(cfg, db, run);
  }
}
