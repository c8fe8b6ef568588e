/** The daemon as an object: handlers that update its sessions, its line and its database in place. */
module Server {

  import opened Wrappers
  import opened Listener
  import opened Naming
  import opened Database
  import opened Discovery
  import opened Daemon
  import opened Lease

  /** MediaArchiverDaemon. Sessions are structs held by value in a map keyed by rpc session. */
  class MediaArchiverDaemon {
    const cfg: Config
    const db: SQLite
    var connections: map<nat, ConnectedClient>
    var filesToMove: seq<FileToMove>
    var moving: Option<FileToMove>
    var temps: map<string, Bytes>
    var archived: map<string, Bytes>
    var stopRequested: bool

    ghost function Model(): State
      reads this, db
    {
      State(db.Contents(), connections, filesToMove, moving, temps, archived, stopRequested)
    }

    ghost predicate Ready()
      reads this, db
    {
      Inv(Model())
    }

    constructor (cfg: Config, db: SQLite)
      requires Valid(db.Contents())
      ensures this.cfg == cfg && this.db == db
      ensures Model() == Started(db.Contents())
      ensures Ready()
    {
      this.cfg, this.db := cfg, db;
      connections, filesToMove, moving, temps, archived, stopRequested := map[], [], None, map[], map[], false;
      new;
      InvStarted(db.Contents());
    }

    method Stop()
      requires Ready()
      modifies this
      ensures Model() == old(Model()).(stopRequested := true)
      ensures Ready()
    {
      InvStep(cfg, Model(), Event.Stop);
      stopRequested := true;
    }

    /** Walks over all sessions; one that has the token is taken out of the map and put back under the
        caller's key. */
    method Authenticate(sid: nat, token: string)
      requires Ready()
      modifies this
      ensures Model() == Authenticated(old(Model()), sid, token)
      ensures Ready()
    {
      InvAuthenticated(Model(), sid, token);
      ghost var was := connections;
      ghost var holder := TokenHolder(was, token);
      var cl := FreshClient("");
      var todo := connections.Keys;
      while todo != {}
        invariant todo <= was.Keys
        invariant if holder.Some? && holder.value !in todo
                  then connections == was - {holder.value} && cl == was[holder.value]
                  else connections == was && cl == FreshClient("")
        invariant Model() == old(Model()).(connections := connections)
        decreases |todo|
      {
        var k :| k in todo;
        todo := todo - {k};
        if connections[k].token == token {
          assert holder == Some(k);
          cl := connections[k];
          connections := connections - {k};
        }
      }
      cl := cl.(token := token);
      connections := connections[sid := cl];
    }

    /** `open` gives what is in a file that can be opened. `pick` is what the database handed out. */
    method GetNextFile(sid: nat, maxFileSize: nat, open: string -> Option<Bytes>) returns (reply: Reply<nat>, pick: nat)
      requires Ready()
      modifies this, db
      ensures Ready()
      ensures (Model(), reply) == NextFileGot(old(Model()), sid, pick, SourceOf(old(db.Contents()), pick, open))
      ensures old(sid in connections && connections[sid].inFile.None? && connections[sid].outFile.None?
              && !stopRequested)
              ==> Enabled(old(Model()), Event.GetNextFile(sid, maxFileSize, pick, None))
    {
      ghost var was := Model();
      pick := 0;
      if sid !in connections || connections[sid].inFile.Some? || connections[sid].outFile.Some? {
        return Error, 0;
      }
      var cli := connections[sid];
      connections := connections[sid := cli.(id := 0, fileLength := 0, originalFileName := "")];
      var size := 0;
      if !stopRequested {
        var file;
        pick, file := db.GetNextFile(maxFileSize);
        ghost var source := SourceOf(was.db, pick, open);
        AskingFollows(was, sid, pick, source);
        if pick > 0 {
          if file.size == 0 {
            reply := Error;
            InvAfterAsking(was, sid, SizeLimit(maxFileSize), pick, Model());
            return;
          }
          var inFile := open(file.path);
          if inFile.None? {
            reply := Error;
            InvAfterAsking(was, sid, SizeLimit(maxFileSize), pick, Model());
            return;
          }
          size := file.size;
          connections := connections[sid := cli.(id := pick, fileLength := file.size, originalFileName := file.path,
                                                 inFile := Some(InFile(inFile.value, 0)))];
        }
        InvAfterAsking(was, sid, SizeLimit(maxFileSize), pick, Model());
      } else {
        AskingFollows(was, sid, pick, None);
        InvAfterAsking(was, sid, SizeLimit(maxFileSize), pick, Model());
      }
      reply := Done(size);
    }

    method ReadChunk(sid: nat, available: nat) returns (reply: Reply<Bytes>)
      requires Ready()
      modifies this
      ensures (Model(), reply) == ChunkRead(cfg, old(Model()), sid, available)
      ensures Ready()
    {
      InvStep(cfg, Model(), Event.ReadChunk(sid, available));
      if sid !in connections || connections[sid].inFile.None? {
        return Error;
      }
      var f := connections[sid].inFile.value;
      if f.pos > |f.content| {
        return Error;
      }
      var n := ReadLength(cfg.chunkSize, |f.content| - f.pos, available);
      connections := connections[sid := connections[sid].(inFile := Some(f.(pos := f.pos + n)))];
      reply := Done(f.content[f.pos..f.pos + n]);
    }

    method Reset(sid: nat) returns (reply: Reply<()>)
      requires Ready()
      modifies this
      ensures (Model(), reply) == Rewound(old(Model()), sid)
      ensures Ready()
    {
      InvStep(cfg, Model(), Event.Reset(sid));
      if sid !in connections {
        return Error;
      }
      var cli := connections[sid];
      if cli.inFile.Some? {
        connections := connections[sid := cli.(inFile := Some(cli.inFile.value.(pos := 0)))];
      } else if cli.outFile.Some? {
        connections := connections[sid := cli.(outFile := Some(cli.outFile.value.(pos := 0)))];
      }
      reply := Done(());
    }

    method Abort(sid: nat) returns (reply: Reply<()>)
      requires Ready()
      modifies this, db
      ensures (Model(), reply) == Aborted(old(Model()), sid)
      ensures Ready()
    {
      InvAborted(Model(), sid);
      if sid !in connections {
        return Error;
      }
      var cli := connections[sid];
      if cli.inFile.None? && cli.outFile.None? {
        return Done(());
      }
      db.Reset(cli.id);
      cli := cli.(inFile := None, outFile := None);
      cli := cli.(id := 0, tempFileName := "", originalFileName := "", fileLength := 0, encResult := NO_RESULT);
      connections := connections[sid := cli];
      reply := Done(());
    }

    /** `session` is the session's last state. */
    method PrepareNewSession(sid: nat, session: ConnectedClient)
      modifies this`connections, this`filesToMove
      ensures Model() == Queued(cfg, old(Model()), sid, session)
    {
      var cli := session;
      var name := GetArchivedFileName(cfg, cli.originalFileName);
      var r := cli.encResult;
      var file := EncodedFile(r.result, r.fileLength, r.error, cli.id, name);
      filesToMove := filesToMove + [FileToMove(file, cli.tempFileName)];
      cli := cli.(id := 0, tempFileName := "", originalFileName := "", fileLength := 0, encResult := NO_RESULT);
      cli := cli.(inFile := None, outFile := None);
      connections := connections[sid := cli];
    }

    method PostFile(sid: nat, result: ResultInfo, tempOpened: bool) returns (reply: Reply<()>)
      requires Ready()
      modifies this
      ensures (Model(), reply) == FilePosted(cfg, old(Model()), sid, result, tempOpened)
      ensures Ready()
    {
      InvFilePosted(cfg, Model(), sid, result, tempOpened);
      if sid !in connections {
        return Error;
      }
      var cli := connections[sid];
      if cli.inFile.Some? {
        if cli.inFile.value.pos != cli.fileLength {
          return Error;
        }
        cli := cli.(inFile := None);
      }
      if cli.outFile.Some? {
        connections := connections[sid := cli];
        return Error;
      }
      cli := cli.(encResult := result);
      if result.result == OK && result.fileLength > 0 {
        reply := OpenTemp(sid, cli, tempOpened);
      } else {
        PrepareNewSession(sid, cli);
        reply := Done(());
      }
    }

    /** Names the temp file of the session's upload and opens it, empty. */
    method OpenTemp(sid: nat, cli: ConnectedClient, tempOpened: bool) returns (reply: Reply<()>)
      modifies this`connections, this`temps
      ensures var tmp := TempName(cfg, cli.originalFileName, cli.id);
              var named := cli.(tempFileName := tmp);
              var written := With(old(Model()), sid, named.(outFile := Some(OutFile(tmp, 0))));
              (Model(), reply) == if tempOpened then (written.(temps := old(temps)[tmp := []]), Done(()))
                                  else (With(old(Model()), sid, named), Error)
    {
      var session := cli.(tempFileName := TempName(cfg, cli.originalFileName, cli.id));
      if tempOpened {
        temps := temps[session.tempFileName := []];
        session := session.(outFile := Some(OutFile(session.tempFileName, 0)));
      }
      connections := connections[sid := session];
      reply := if tempOpened then Done(()) else Error;
    }

    method WriteChunk(sid: nat, data: Bytes, reached: Option<nat>) returns (reply: Reply<bool>)
      requires Ready()
      modifies this
      ensures (Model(), reply) == ChunkWritten(cfg, old(Model()), sid, data, reached)
      ensures Ready()
    {
      InvChunkWritten(cfg, Model(), sid, data, reached);
      if sid !in connections {
        return Error;
      }
      var cli := connections[sid];
      if cli.id == 0 || cli.outFile.None? || cli.encResult.fileLength == 0
         || cli.outFile.value.pos + |data| > cli.encResult.fileLength
         || cli.outFile.value.path !in temps || cli.outFile.value.pos > |temps[cli.outFile.value.path]| {
        return Error;
      }
      var f := cli.outFile.value;
      var bad := reached.Some? && reached.value < |data|;
      temps := temps[f.path := Overwrite(temps[f.path], f.pos, if bad then data[..reached.value] else data)];
      if !bad && f.pos + |data| < cli.encResult.fileLength {
        connections := connections[sid := cli.(outFile := Some(f.(pos := f.pos + |data|)))];
        return Done(true);
      }
      PrepareNewSession(sid, cli);
      reply := Done(false);
    }

    method OnFileSystemChange(interesting: string -> bool, fs: FileSystem, e: EventType, src: string, dst: string)
      returns (thrown: bool)
      requires Ready()
      modifies this, db
      ensures thrown <==> e != FileDeleted && dst != "" && dst !in fs
      ensures var call := if e in {FileDiscovered, FileCreated, FileMoved} then CallFor(cfg, interesting, fs, dst)
                          else NO_CALL;
              Model() == Step(cfg, old(Model()), FileChange(call))
      ensures Ready()
    {
      var call;
      call, thrown := Discovery.OnFileSystemChange(cfg, interesting, fs, e, src, dst);
      InvFileChange(cfg, Model(), call);
      if call.src.Some? || call.dst.Some? {
        var _ := db.AddFile(call.src, call.dst, call.queue);
      }
    }

    /** The main loop takes the next entry. */
    method Take()
      requires Ready()
      modifies this
      ensures Model() == Taken(old(Model()))
      ensures Ready()
    {
      InvTaken(Model());
      if moving.Some? || |filesToMove| == 0 {
        return;
      }
      var ftm := filesToMove[0];
      filesToMove := filesToMove[1..];
      if ftm.result.id == 0 {
        return;
      }
      moving := Some(ftm);
    }

    /** It moves the file and reports the result, or the failure to move it. */
    method Report(outcome: MoveOutcome)
      requires Ready() && Enabled(Model(), Event.Report(outcome))
      modifies this, db
      ensures Model() == Reported(old(Model()), outcome)
      ensures Ready()
    {
      InvReported(Model(), outcome);
      var ftm := moving.value;
      moving := None;
      var error := "";
      if ftm.result.result != OK || ftm.result.fileLength == 0 {
        db.AddEncodedFile(ftm.result);
      } else {
        if !outcome.NotMoved? {
          archived := archived[ftm.result.archive := temps[ftm.tmp]];
          temps := temps - {ftm.tmp};
        }
        if outcome.Moved? {
          db.AddEncodedFile(ftm.result);
        } else {
          error := outcome.error;
        }
      }
      if error != "" {
        db.AddEncodedFile(ftm.result.(error := error, fileLength := 0, result := SERVER_IO_ERROR));
      }
    }
  }

  function SourceOf(db: Tables, pick: nat, open: string -> Option<Bytes>): Option<Bytes>
  {
    if pick in db.sources then open(db.sources[pick].path) else None
  }
}
