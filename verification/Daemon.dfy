/** The server: its sessions, its line of files to move, and what each call does to them. */
module Daemon {

  import opened Wrappers
  import opened Text
  import opened Naming
  import opened Database
  import opened Discovery

  /** EncodingResultInfo. Clients may post any int8. */
  type int8 = r: int | -128 <= r < 128
  datatype ResultInfo = ResultInfo(result: int8, fileLength: nat, error: string)

  const NO_RESULT := ResultInfo(0, 0, "")
  const SERVER_IO_ERROR: int8 := -9

  /** An open stream: what it reads, or where it writes, and how far it got. */
  datatype InFile = InFile(content: Bytes, pos: nat)
  datatype OutFile = OutFile(path: string, pos: nat)

  /** A session. No file is held while the id is 0. */
  datatype ConnectedClient = ConnectedClient(
    token: string, id: nat, originalFileName: string, tempFileName: string, fileLength: nat,
    encResult: ResultInfo, inFile: Option<InFile>, outFile: Option<OutFile>)

  function FreshClient(token: string): ConnectedClient
  {
    ConnectedClient(token, 0, "", "", 0, NO_RESULT, None, None)
  }

  datatype FileToMove = FileToMove(result: EncodedFile, tmp: string)

  /** The daemon with its database and the files it writes; `moving` is the entry start() has taken from
      the line and not yet reported. */
  datatype State = State(
    db: Tables, connections: map<nat, ConnectedClient>, filesToMove: seq<FileToMove>, moving: Option<FileToMove>,
    temps: map<string, Bytes>, archived: map<string, Bytes>, stopRequested: bool)

  /** The daemon after a start on a database it finds. */
  function Started(db: Tables): State { State(db, map[], [], None, map[], map[], false) }

  /** A call's answer; an exception in a handler becomes an error answer. */
  datatype Reply<+T> = Done(value: T) | Error

  /* ---- what each call does ---- */

  ghost function TokenHolder(connections: map<nat, ConnectedClient>, token: string): (r: Option<nat>)
    ensures r.Some? ==> r.value in connections && connections[r.value].token == token
    ensures r.None? ==> forall k | k in connections :: connections[k].token != token
  {
    if k :| k in connections && connections[k].token == token then Some(k) else None
  }

  /** The session that has the token moves under the caller's key, whatever was there. */
  ghost function Authenticated(s: State, sid: nat, token: string): State
  {
    match TokenHolder(s.connections, token)
    case Some(k) => s.(connections := (s.connections - {k})[sid := s.connections[k]])
    case None => s.(connections := s.connections[sid := FreshClient(token)])
  }

  function With(s: State, sid: nat, cli: ConnectedClient): State { s.(connections := s.connections[sid := cli]) }

  /** `pick` is the file the database hands out, 0 for none; `source` what opening it gives. */
  function NextFileGot(s: State, sid: nat, pick: nat, source: Option<Bytes>): (State, Reply<nat>)
  {
    if sid !in s.connections then (s, Error)
    else
      var cli := s.connections[sid];
      if cli.inFile.Some? || cli.outFile.Some? then (s, Error)
      else
        var free := With(s, sid, cli.(id := 0, fileLength := 0, originalFileName := ""));
        if s.stopRequested || pick !in s.db.sources then (free, Done(0))
        else
          var file := s.db.sources[pick];
          var handed := free.(db := HandedOut(s.db, pick));
          if file.size == 0 || source.None? then (handed, Error)
          else (With(handed, sid, cli.(id := pick, fileLength := file.size, originalFileName := file.path,
                                       inFile := Some(InFile(source.value, 0)))), Done(file.size))
  }

  /** How much readsome returns: nothing only at the end. */
  function ReadLength(chunkSize: nat, left: nat, available: nat): (n: nat)
    ensures n <= left && n <= chunkSize
    ensures n == 0 <==> left == 0 || chunkSize == 0
  {
    var most := if left < chunkSize then left else chunkSize;
    if available == 0 && most > 0 then 1 else if available < most then available else most
  }

  function ChunkRead(cfg: Config, s: State, sid: nat, available: nat): (State, Reply<Bytes>)
  {
    if sid !in s.connections || s.connections[sid].inFile.None? then (s, Error)
    else
      var cli := s.connections[sid];
      var f := cli.inFile.value;
      if f.pos > |f.content| then (s, Error)
      else
        var n := ReadLength(cfg.chunkSize, |f.content| - f.pos, available);
        (With(s, sid, cli.(inFile := Some(f.(pos := f.pos + n)))), Done(f.content[f.pos..f.pos + n]))
  }

  function Rewound(s: State, sid: nat): (State, Reply<()>)
  {
    if sid !in s.connections then (s, Error)
    else
      var cli := s.connections[sid];
      if cli.inFile.Some? then (With(s, sid, cli.(inFile := Some(cli.inFile.value.(pos := 0)))), Done(()))
      else if cli.outFile.Some? then (With(s, sid, cli.(outFile := Some(cli.outFile.value.(pos := 0)))), Done(()))
      else (s, Done(()))
  }

  function Aborted(s: State, sid: nat): (State, Reply<()>)
  {
    if sid !in s.connections then (s, Error)
    else
      var cli := s.connections[sid];
      if cli.inFile.None? && cli.outFile.None? then (s, Done(()))
      else (With(s, sid, FreshClient(cli.token)).(db := JobReset(s.db, cli.id)), Done(()))
  }

  function EntryFor(cfg: Config, cli: ConnectedClient): FileToMove
  {
    var r := cli.encResult;
    FileToMove(EncodedFile(r.result, r.fileLength, r.error, cli.id, ArchivedName(cfg, cli.originalFileName)),
               cli.tempFileName)
  }

  /** prepareNewSession: the result joins the line, the session is cleared. */
  function Queued(cfg: Config, s: State, sid: nat, cli: ConnectedClient): State
  {
    With(s, sid, FreshClient(cli.token)).(filesToMove := s.filesToMove + [EntryFor(cfg, cli)])
  }

  predicate Uploads(r: ResultInfo) { r.result == OK && r.fileLength > 0 }

  function FilePosted(cfg: Config, s: State, sid: nat, result: ResultInfo, tempOpened: bool): (State, Reply<()>)
  {
    if sid !in s.connections then (s, Error)
    else
      var cli := s.connections[sid];
      if cli.inFile.Some? && cli.inFile.value.pos != cli.fileLength then (s, Error)
      else
        var read := cli.(inFile := None);
        if read.outFile.Some? then (With(s, sid, read), Error)
        else
          var posted := read.(encResult := result);
          if !Uploads(result) then (Queued(cfg, s, sid, posted), Done(()))
          else
            var tmp := TempName(cfg, cli.originalFileName, cli.id);
            var named := posted.(tempFileName := tmp);
            if !tempOpened then (With(s, sid, named), Error)
            else (With(s, sid, named.(outFile := Some(OutFile(tmp, 0)))).(temps := s.temps[tmp := []]), Done(()))
  }

  function Overwrite(content: Bytes, pos: nat, data: Bytes): Bytes
    requires pos <= |content|
  {
    content[..pos] + data + if pos + |data| <= |content| then content[pos + |data|..] else []
  }

  predicate Accepts(s: State, sid: nat, data: Bytes)
  {
    && sid in s.connections
    && var cli := s.connections[sid];
       && cli.id != 0 && cli.outFile.Some? && cli.encResult.fileLength != 0
       && cli.outFile.value.pos + |data| <= cli.encResult.fileLength
       && cli.outFile.value.path in s.temps && cli.outFile.value.pos <= |s.temps[cli.outFile.value.path]|
  }

  /** A write that fails after `reached` bytes leaves the stream bad. Its position is then -1, which
      compares as the largest size, and the upload counts as complete. */
  function ChunkWritten(cfg: Config, s: State, sid: nat, data: Bytes, reached: Option<nat>): (State, Reply<bool>)
  {
    if !Accepts(s, sid, data) then (s, Error)
    else
      var cli := s.connections[sid];
      var f := cli.outFile.value;
      var fails := reached.Some? && reached.value < |data|;
      var stored := if fails then data[..reached.value] else data;
      var written := s.(temps := s.temps[f.path := Overwrite(s.temps[f.path], f.pos, stored)]);
      if !fails && f.pos + |data| < cli.encResult.fileLength
      then (With(written, sid, cli.(outFile := Some(f.(pos := f.pos + |data|)))), Done(true))
      else (Queued(cfg, written, sid, cli), Done(false))
  }

  /* ---- the main loop ---- */

  /** start() takes the next entry; one without a file is skipped. */
  function Taken(s: State): State
  {
    if s.moving.Some? || s.filesToMove == [] then s
    else
      var front := s.filesToMove[0];
      s.(filesToMove := s.filesToMove[1..], moving := if front.result.id == 0 then None else Some(front))
  }

  /** How moving a file into place ends: it may be moved and only then fail over its time stamps. */
  datatype MoveOutcome = Moved | MovedThenFailed(error: string) | NotMoved(error: string)

  predicate Movable(f: FileToMove) { f.result.result == OK && f.result.fileLength > 0 }

  /** The result that reaches the database. */
  function Recorded(f: FileToMove, outcome: MoveOutcome): EncodedFile
  {
    if !Movable(f) || outcome.Moved? then f.result
    else f.result.(error := outcome.error, fileLength := 0, result := SERVER_IO_ERROR)
  }

  function Reported(s: State, outcome: MoveOutcome): State
  {
    if s.moving.None? then s
    else
      var f := s.moving.value;
      var done := s.(moving := None, db := EncodedAdded(s.db, Recorded(f, outcome)));
      if Movable(f) && !outcome.NotMoved? && f.tmp in s.temps
      then done.(temps := s.temps - {f.tmp}, archived := s.archived[f.result.archive := s.temps[f.tmp]])
      else done
  }

  /* ---- the daemon as a step system ---- */

  datatype Event =
    | Authenticate(sid: nat, token: string)
    | GetNextFile(sid: nat, maxFileSize: nat, pick: nat, source: Option<Bytes>)
    | ReadChunk(sid: nat, available: nat)
    | Reset(sid: nat)
    | Abort(sid: nat)
    | PostFile(sid: nat, result: ResultInfo, tempOpened: bool)
    | WriteChunk(sid: nat, data: Bytes, reached: Option<nat>)
    | FileChange(call: Call)
    | Take
    | Report(outcome: MoveOutcome)
    | Stop

  /** The database hands out an eligible file while there is one; a file is moved only if it is there, and
      an error has a text. */
  ghost predicate Enabled(s: State, e: Event)
  {
    match e
    case GetNextFile(sid, maxFileSize, pick, source) =>
      if pick == 0 then NothingEligible(s.db, SizeLimit(maxFileSize)) else Eligible(s.db, SizeLimit(maxFileSize), pick)
    case Report(outcome) =>
      && s.moving.Some?
      && (outcome.Moved? || outcome.error != "")
      && (Movable(s.moving.value) && !outcome.NotMoved? ==> s.moving.value.tmp in s.temps)
    case _ => true
  }

  ghost function Step(cfg: Config, s: State, e: Event): State
  {
    match e
    case Authenticate(sid, token) => Authenticated(s, sid, token)
    case GetNextFile(sid, maxFileSize, pick, source) => NextFileGot(s, sid, pick, source).0
    case ReadChunk(sid, available) => ChunkRead(cfg, s, sid, available).0
    case Reset(sid) => Rewound(s, sid).0
    case Abort(sid) => Aborted(s, sid).0
    case PostFile(sid, result, tempOpened) => FilePosted(cfg, s, sid, result, tempOpened).0
    case WriteChunk(sid, data, reached) => ChunkWritten(cfg, s, sid, data, reached).0
    case FileChange(call) => s.(db := FileAdded(s.db, call.src, call.dst, call.queue).0)
    case Take => Taken(s)
    case Report(outcome) => Reported(s, outcome)
    case Stop => s.(stopRequested := true)
  }

  /** The state after a run, and which runs there are. */
  ghost function After(cfg: Config, s: State, run: seq<Event>): State
  {
    if run == [] then s else Step(cfg, After(cfg, s, run[..|run| - 1]), run[|run| - 1])
  }

  ghost predicate IsRun(cfg: Config, s: State, run: seq<Event>)
  {
    run == [] || (IsRun(cfg, s, run[..|run| - 1]) && Enabled(After(cfg, s, run[..|run| - 1]), run[|run| - 1]))
  }
}
