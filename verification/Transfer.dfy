/** A worker and the daemon together: what is fetched and what is uploaded arrives as it was, over a
    network that loses requests and replies, among other clients that do what they like. */
module Transfer {

  import opened Wrappers
  import opened Naming
  import opened Database
  import opened Daemon
  import opened Lease
  import opened Accounts
  import opened TempFiles
  import opened Results
  import opened Client
  import W = WorkerRuns

  /** `source` is what the daemon opened for the file this worker took last; `threw` tells whether a poll
      has thrown. */
  datatype System = System(daemon: State, worker: Worker, source: Bytes, threw: bool)

  /** A call is executed and answered, executed with the answer lost, or not executed. A loss shows as a
      broken connection or as a time-out. */
  datatype Fate = Answered | ReplyLost(broken: bool) | RequestLost(broken: bool)

  /** What the network, the disks, the encoder and the clock do during one poll; `disk` is how much of an
      uploaded chunk reaches the daemon's disk, if not all. */
  datatype Net = Net(
    connected: bool, key: Answer<nat>, call: Fate, reset: Fate, abort: Fate,
    pick: nat, content: Option<Bytes>, hasCrf: bool, available: nat, tempOpens: bool,
    srcOpens: bool, elapsed: bool, encoder: Encoder, disk: Option<nat>)

  function Lost<T>(f: Fate): Answer<T>
    requires !f.Answered?
  {
    if f.broken then Broken else Refused
  }

  /** An error in a handler comes back as an rpc_error. */
  function AnswerTo<T>(f: Fate, r: Reply<T>): Answer<T>
  {
    if !f.Answered? then Lost(f) else if r.Done? then Value(r.value) else Refused
  }

  /** The client asks for 4u * 1024 * 1024 * 1024 bytes at most, which is 0: no limit. */
  const MAX_FILE_SIZE := (4 * 1024 * 1024 * 1024) % 0x1_0000_0000

  /** The worker is handed files of any size. */
  lemma AsksForAnySize(db: Tables, id: nat)
    requires id in db.sources && db.sources[id].size < 0x1_0000_0000_0000_0000
    ensures Eligible(db, SizeLimit(MAX_FILE_SIZE), id) <==> Eligible(db, db.sources[id].size, id)
  {
    WithinSizeAsked(db, MAX_FILE_SIZE, id);
  }

  function KeyAfterConnect(w: Worker, net: Net): Option<nat>
  {
    if (w.conn.None? || !net.connected) && net.key.Value? then Some(net.key.value) else w.conn
  }

  function NoAnswers(net: Net): Env
  {
    Env(net.connected, net.key, Refused, Refused, net.srcOpens, Refused, Refused, Refused, Refused, net.elapsed,
        net.encoder)
  }

  function ToSettings(r: Reply<nat>, hasCrf: bool): Reply<Settings>
  {
    match r case Done(n) => Done(Settings(n, hasCrf)) case Error => Error
  }

  /** readChunk answers whether there was anything to read. */
  function ToChunk(r: Reply<Bytes>): Reply<(bool, Bytes)>
  {
    match r case Done(data) => Done((data != [], data)) case Error => Error
  }

  /** The daemon after a call that gets it from `was` to `now`, if it is executed. */
  function Ran(f: Fate, was: State, now: State): State
  {
    if f.RequestLost? then was else now
  }

  /* Each exchange gives the daemon after the calls of one poll, and what the worker learns from them. */

  function FileRequest(key: nat, net: Net): Event { GetNextFile(key, MAX_FILE_SIZE, net.pick, net.content) }

  function RequestExchange(cfg: Config, d: State, w: Worker, net: Net): (State, Env)
  {
    var key := KeyAfterConnect(w, net);
    if key.None? || !RequestsFile(w, NoAnswers(net)) then (d, NoAnswers(net))
    else
      var (now, r) := NextFileGot(d, key.value, net.pick, net.content);
      (Ran(net.call, d, now), NoAnswers(net).(next := AnswerTo(net.call, ToSettings(r, net.hasCrf))))
  }

  ghost function AuthExchange(cfg: Config, d: State, w: Worker, token: string, net: Net): (State, Env)
  {
    var key := KeyAfterConnect(w, net);
    if key.None? || w.stopRequested || ConnectFails(w, NoAnswers(net)) then (d, NoAnswers(net))
    else (Ran(net.call, d, Authenticated(d, key.value, token)), NoAnswers(net).(auth := AnswerTo(net.call, Done(()))))
  }

  /** Reading a chunk, and after a fault the call that rewinds the server. */
  function FetchExchange(cfg: Config, d: State, w: Worker, net: Net): (State, Env)
  {
    if w.stopRequested || w.conn.None? then (d, NoAnswers(net))
    else
      var key := w.conn.value;
      var d1 := Ran(net.call, d, ChunkRead(cfg, d, key, net.available).0);
      var env := NoAnswers(net).(read := AnswerTo(net.call, ToChunk(ChunkRead(cfg, d, key, net.available).1)));
      if AfterReceive(w, env).1 then Rewind(d1, key, net, env) else (d1, env)
  }

  function Rewind(d: State, key: nat, net: Net, env: Env): (State, Env)
  {
    (Ran(net.reset, d, Rewound(d, key).0), env.(reset := AnswerTo(net.reset, Rewound(d, key).1)))
  }

  function PostExchange(cfg: Config, d: State, w: Worker, net: Net): (State, Env)
  {
    var key := KeyAfterConnect(w, net);
    if key.None? || !PostsResult(w, NoAnswers(net)) then (d, NoAnswers(net))
    else (Ran(net.call, d, FilePosted(cfg, d, key.value, w.encResult, net.tempOpens).0),
          NoAnswers(net).(post := AnswerTo(net.call, FilePosted(cfg, d, key.value, w.encResult, net.tempOpens).1)))
  }

  /** Writing a chunk, and after a fault the call that rewinds the server. */
  function UploadExchange(cfg: Config, chunkSize: nat, d: State, w: Worker, net: Net): (State, Env)
  {
    if w.conn.None? then (d, NoAnswers(net))
    else
      var key := w.conn.value;
      var chunk := NextChunk(chunkSize, w.dstFile).0;
      var d1 := Ran(net.call, d, ChunkWritten(cfg, d, key, chunk, net.disk).0);
      var env := NoAnswers(net).(write := AnswerTo(net.call, ChunkWritten(cfg, d, key, chunk, net.disk).1));
      if AfterTransmit(chunkSize, w, env).1 then Rewind(d1, key, net, env) else (d1, env)
  }

  ghost function Exchange(cfg: Config, chunkSize: nat, token: string, s: System, net: Net): (State, Env)
  {
    match s.worker.main
    case Idle => RequestExchange(cfg, s.daemon, s.worker, net)
    case Authenticateing => AuthExchange(cfg, s.daemon, s.worker, token, net)
    case Receiving => FetchExchange(cfg, s.daemon, s.worker, net)
    case SendResult => PostExchange(cfg, s.daemon, s.worker, net)
    case Transmitting => UploadExchange(cfg, chunkSize, s.daemon, s.worker, net)
    case _ => (s.daemon, NoAnswers(net))
  }

  /** A worker that shuts down aborts what its session has open, if it can. */
  function ShutDown(d: State, w: Worker, thrown: bool, net: Net): State
  {
    if !thrown && w.shutdown && w.conn.Some? && net.connected then Ran(net.abort, d, Aborted(d, w.conn.value).0) else d
  }

  ghost function PolledWith(cfg: Config, chunkSize: nat, token: string, s: System, net: Net): System
  {
    var (d, env) := Exchange(cfg, chunkSize, token, s, net);
    var (w, thrown) := Dispatched(chunkSize, s.worker, env);
    System(ShutDown(d, w, thrown, net), Polled(chunkSize, s.worker, env).0,
           if s.worker.main == Idle && w.main == Receiving && net.content.Some? then net.content.value else s.source,
           s.threw || thrown)
  }

  datatype SystemEvent =
    | Poll(net: Net)
    | StopWorker(forced: bool)
    | Other(event: Event)

  /** Another client never has this worker's session key while the worker is connected. */
  predicate SentUnder(e: Event, key: nat)
  {
    && (e.Authenticate? || e.GetNextFile? || e.ReadChunk? || e.Reset? || e.Abort? || e.PostFile? || e.WriteChunk?)
    && e.sid == key
  }

  ghost predicate SystemEnabled(chunkSize: nat, token: string, s: System, e: SystemEvent)
  {
    match e
    case Poll(net) =>
      && !s.worker.finished
      && (s.worker.main == Idle && KeyAfterConnect(s.worker, net).Some? ==>
            Enabled(s.daemon, FileRequest(KeyAfterConnect(s.worker, net).value, net)))
    case StopWorker(forced) => true
    case Other(event) => Enabled(s.daemon, event) && (s.worker.conn.Some? ==> !SentUnder(event, s.worker.conn.value))
  }

  ghost function SystemStep(cfg: Config, chunkSize: nat, token: string, s: System, e: SystemEvent): System
  {
    match e
    case Poll(net) => PolledWith(cfg, chunkSize, token, s, net)
    case StopWorker(forced) => s.(worker := W.Next(chunkSize, s.worker, W.Stop(forced)))
    case Other(event) => s.(daemon := Step(cfg, s.daemon, event))
  }

  /* ---- what is kept while a file is fetched or uploaded ---- */

  /** The worker's copy never runs ahead of the server, and is right as far as it goes while it keeps up. */
  predicate CopyRel(source: Bytes, sent: nat, copy: LocalCopy)
  {
    && copy.pos <= sent <= |source|
    && copy.pos <= |copy.content| <= |source|
    && (copy.pos == sent ==> copy.content[..sent] == source[..sent])
  }

  /** The server reads the source it opened, and the worker's copy of it is in that relation. */
  predicate Fetching(cfg: Config, cli: ConnectedClient, w: Worker, source: Bytes)
  {
    && cli.inFile.Some? && cli.inFile.value.content == source
    && cli.fileLength == w.settings.fileLength > 0
    && cli.inFile.value.pos <= |source|
    && (cfg.chunkSize == 0 ==> cli.inFile.value.pos == 0)
    && (w.srcFile.Some? ==> CopyRel(source, cli.inFile.value.pos, w.srcFile.value))
  }

  predicate InStep(cli: ConnectedClient, w: Worker)
    requires cli.inFile.Some?
  {
    w.srcFile.Some? ==> w.srcFile.value.pos == cli.inFile.value.pos
  }

  ghost predicate FetchRel(cfg: Config, s: System)
  {
    var w := s.worker;
    w.main == Receiving && !w.finished && w.conn.Some? && w.conn.value in s.daemon.connections ==>
      var cli := s.daemon.connections[w.conn.value];
      Fetching(cfg, cli, w, s.source) && (!s.threw ==> InStep(cli, w))
  }

  /** The server never runs ahead of the worker, and has what the worker sent while it keeps up. */
  predicate SentRel(stored: Bytes, got: nat, f: InStream)
  {
    && got <= f.pos && got <= |stored| && got <= |f.content|
    && (got == f.pos ==> stored[..got] == f.content[..got])
  }

  /** A session that takes an upload expects the output's length, and its temp file is in that relation. */
  predicate Uploading(temps: map<string, Bytes>, cli: ConnectedClient, f: InStream)
  {
    cli.id != 0 && cli.outFile.Some? ==>
      && cli.encResult.fileLength == |f.content|
      && cli.outFile.value.path in temps
      && SentRel(temps[cli.outFile.value.path], cli.outFile.value.pos, f)
  }

  ghost predicate UploadRel(s: System)
  {
    var w := s.worker;
    w.main == Transmitting && !w.finished && w.conn.Some? && w.conn.value in s.daemon.connections ==>
      Uploading(s.daemon.temps, s.daemon.connections[w.conn.value], w.dstFile)
  }

  ghost predicate DaemonInv(cfg: Config, d: State) { Inv(d) && TempInv(cfg, d) && NameInv(cfg, d) }

  ghost predicate SystemInv(cfg: Config, s: System)
  {
    && DaemonInv(cfg, s.daemon) && W.MachineInv(s.worker) && W.UploadInv(s.worker)
    && FetchRel(cfg, s) && UploadRel(s)
  }

  /** Uploads that are done and not yet reported keep their place in the line and what is in their temp
      files. */
  ghost predicate LeavesLine(was: State, now: State)
  {
    forall f | f in Line(was) && f.result.id != 0 && Movable(f) && f.tmp in was.temps ::
      f in Line(now) && f.tmp in now.temps && now.temps[f.tmp] == was.temps[f.tmp]
  }

  lemma DaemonInvStep(cfg: Config, d: State, e: Event)
    requires DaemonInv(cfg, d) && Enabled(d, e)
    ensures DaemonInv(cfg, Step(cfg, d, e))
    ensures !e.Report? ==> LeavesLine(d, Step(cfg, d, e))
  {
    InvStep(cfg, d, e);
    TempInvStep(cfg, d, e);
    NameInvStep(cfg, d, e);
    if !e.Report? {
      forall f | f in Line(d) && f.result.id != 0 && Movable(f) && f.tmp in d.temps
        ensures f in Line(Step(cfg, d, e)) && f.tmp in Step(cfg, d, e).temps
                && Step(cfg, d, e).temps[f.tmp] == d.temps[f.tmp] {
        StepLeavesTemp(cfg, d, e, f);
      }
    }
  }

  /* ---- other clients ---- */

  /** Whatever is not sent under a session's key leaves the session as it is, or takes it elsewhere. */
  lemma OthersLeaveSession(cfg: Config, d: State, e: Event, key: nat)
    requires !SentUnder(e, key) && key in Step(cfg, d, e).connections
    ensures key in d.connections && Step(cfg, d, e).connections[key] == d.connections[key]
  {
    if e.Authenticate? {
      var _ := TokenHolder(d.connections, e.token);
    } else {
      OthersLeaveSessions(cfg, d, e);
    }
  }

  lemma OthersLeaveSessions(cfg: Config, d: State, e: Event)
    requires !e.Authenticate?
    ensures forall key | !SentUnder(e, key) ::
              key in Step(cfg, d, e).connections <==> key in d.connections
    ensures forall key | !SentUnder(e, key) && key in d.connections ::
              Step(cfg, d, e).connections[key] == d.connections[key]
  {
    match e
    case GetNextFile(sid, maxFileSize, pick, source) => SessionAfterNextFile(d, sid, pick, source);
    case PostFile(sid, result, opens) => PostLeavesSessions(cfg, d, sid, result, opens);
    case WriteChunk(sid, data, reached) =>
      if Accepts(d, sid, data) {
        WriteLeavesSessions(cfg, d, sid, data, reached);
      }
    case _ => FewLeaveSessions(cfg, d, e);
  }

  /** Sessions but one are the same. */
  predicate OneChanges(was: State, now: State, sid: nat)
  {
    now.connections == was.connections
    || (sid in was.connections && sid in now.connections
        && now.connections == was.connections[sid := now.connections[sid]])
  }

  lemma PostLeavesSessions(cfg: Config, d: State, sid: nat, result: ResultInfo, opens: bool)
    ensures OneChanges(d, FilePosted(cfg, d, sid, result, opens).0, sid)
  {
  }

  lemma WriteLeavesSessions(cfg: Config, d: State, sid: nat, data: Bytes, reached: Option<nat>)
    requires Accepts(d, sid, data)
    ensures OneChanges(d, ChunkWritten(cfg, d, sid, data, reached).0, sid)
  {
  }

  lemma FewLeaveSessions(cfg: Config, d: State, e: Event)
    requires !e.Authenticate? && !e.GetNextFile? && !e.PostFile? && !e.WriteChunk?
    ensures forall key | !SentUnder(e, key) ::
              key in Step(cfg, d, e).connections <==> key in d.connections
    ensures forall key | !SentUnder(e, key) && key in d.connections ::
              Step(cfg, d, e).connections[key] == d.connections[key]
  {
  }

  /** And the temp file the session writes to as well. */
  lemma OthersLeaveUpload(cfg: Config, d: State, e: Event, key: nat)
    requires DaemonInv(cfg, d) && Enabled(d, e) && !SentUnder(e, key) && key in d.connections
    requires d.connections[key].id != 0 && d.connections[key].outFile.Some?
    ensures var path := d.connections[key].outFile.value.path;
            path in d.temps && path in Step(cfg, d, e).temps && Step(cfg, d, e).temps[path] == d.temps[path]
  {
    var cli := d.connections[key];
    assert UploadOk(cfg, d.temps, cli);
    assert HeldBySession(d, cli.id);
    assert IsTempOf(cfg, cli.outFile.value.path, cli.id);
    match e
    case PostFile(sid, result, opens) => PostLeavesOthers(cfg, d, sid, result, opens, cli.id);
    case WriteChunk(sid, data, reached) => WriteLeavesOthers(cfg, d, sid, data, reached, cli.id);
    case Report(outcome) =>
      ReportedShape(cfg, d, outcome);
      assert Line(d)[0] == d.moving.value && HeldInLine(Line(d), d.moving.value.result.id);
    case Authenticate(sid, token) =>
    case Take =>
    case _ => OthersLeaveTemps(cfg, d, e);
  }

  lemma PostLeavesOthers(cfg: Config, d: State, sid: nat, result: ResultInfo, opens: bool, id: nat)
    requires Inv(d) && id != 0 && (sid in d.connections ==> d.connections[sid].id != id)
    ensures forall path | IsTempOf(cfg, path, id) && path in d.temps ::
              path in FilePosted(cfg, d, sid, result, opens).0.temps
              && FilePosted(cfg, d, sid, result, opens).0.temps[path] == d.temps[path]
  {
    if sid in d.connections {
      OneTempFile(cfg, d.temps, d.connections[sid].originalFileName, d.connections[sid].id, []);
    }
  }

  lemma WriteLeavesOthers(cfg: Config, d: State, sid: nat, data: Bytes, reached: Option<nat>, id: nat)
    requires DaemonInv(cfg, d) && id != 0 && (sid in d.connections ==> d.connections[sid].id != id)
    ensures forall path | IsTempOf(cfg, path, id) && path in d.temps ::
              path in ChunkWritten(cfg, d, sid, data, reached).0.temps
              && ChunkWritten(cfg, d, sid, data, reached).0.temps[path] == d.temps[path]
  {
    if Accepts(d, sid, data) {
      WriteKeepsLength(cfg, d, sid, data, reached);
    }
  }

  lemma SystemInvOther(cfg: Config, s: System, e: Event)
    requires SystemInv(cfg, s) && Enabled(s.daemon, e)
    requires s.worker.conn.Some? ==> !SentUnder(e, s.worker.conn.value)
    ensures SystemInv(cfg, s.(daemon := Step(cfg, s.daemon, e)))
  {
    DaemonInvStep(cfg, s.daemon, e);
    if s.worker.conn.Some? {
      var key := s.worker.conn.value;
      if key in Step(cfg, s.daemon, e).connections {
        OthersLeaveSession(cfg, s.daemon, e, key);
        var cli := s.daemon.connections[key];
        if cli.id != 0 && cli.outFile.Some? {
          OthersLeaveUpload(cfg, s.daemon, e, key);
        }
      }
    }
  }

  /* ---- fetching ---- */

  /** One chunk arrives in full. */
  lemma CopyGrows(source: Bytes, sent: nat, copy: LocalCopy, n: nat)
    requires CopyRel(source, sent, copy) && sent + n <= |source|
    ensures CopyRel(source, sent + n, Stored(copy, source[sent..sent + n]))
    ensures Stored(copy, source[sent..sent + n]).pos == copy.pos + n
  {
    var data := source[sent..sent + n];
    var after := Stored(copy, data);
    if copy.pos == sent {
      assert after.content[..sent + n] == copy.content[..sent] + data;
      assert source[..sent + n] == source[..sent] + data;
    }
  }

  lemma ChunkReadShape(cfg: Config, d: State, key: nat, available: nat) returns (n: nat)
    requires key in d.connections && d.connections[key].inFile.Some?
    requires d.connections[key].inFile.value.pos <= |d.connections[key].inFile.value.content|
    ensures var cli := d.connections[key];
            var f := cli.inFile.value;
            && f.pos + n <= |f.content| && n <= cfg.chunkSize
            && (n == 0 <==> f.pos == |f.content| || cfg.chunkSize == 0)
            && ChunkRead(cfg, d, key, available)
               == (With(d, key, cli.(inFile := Some(f.(pos := f.pos + n)))), Done(f.content[f.pos..f.pos + n]))
  {
    var f := d.connections[key].inFile.value;
    n := ReadLength(cfg.chunkSize, |f.content| - f.pos, available);
  }

  /** Reading a chunk, whether the worker gets it or not. */
  lemma ChunkReadKeeps(cfg: Config, cli: ConnectedClient, w: Worker, source: Bytes, n: nat)
    requires Fetching(cfg, cli, w, source) && n <= cfg.chunkSize && cli.inFile.value.pos + n <= |source|
    ensures var f := cli.inFile.value;
            var now := cli.(inFile := Some(f.(pos := f.pos + n)));
            var got := Received(w, source[f.pos..f.pos + n]);
            && Fetching(cfg, now, w, source) && Fetching(cfg, now, got, source)
            && (InStep(cli, w) ==> InStep(now, got))
  {
    if w.srcFile.Some? {
      CopyGrows(source, cli.inFile.value.pos, w.srcFile.value, n);
    }
  }

  lemma RewindKeeps(cfg: Config, d: State, key: nat, w: Worker, source: Bytes)
    requires key in d.connections && Fetching(cfg, d.connections[key], w, source)
    ensures Fetching(cfg, d.connections[key], RewoundCopy(w), source)
    ensures var (d1, r) := Rewound(d, key);
            && key in d1.connections && r.Done?
            && Fetching(cfg, d1.connections[key], RewoundCopy(w), source)
            && InStep(d1.connections[key], RewoundCopy(w))
  {
  }

  /** The copy after the answer to a read, if there is one. */
  function Got(w: Worker, answer: Answer<(bool, Bytes)>): Worker
  {
    if answer.Value? then Received(w, answer.value.1) else w
  }

  /** A read that is executed keeps the relation, whether the worker gets the chunk or not. */
  lemma ReadExecuted(cfg: Config, d: State, key: nat, w: Worker, source: Bytes, available: nat)
    requires key in d.connections && Fetching(cfg, d.connections[key], w, source)
    ensures var (read, r) := ChunkRead(cfg, d, key, available);
            && r.Done? && key in read.connections
            && Fetching(cfg, read.connections[key], w, source)
            && Fetching(cfg, read.connections[key], Received(w, r.value), source)
            && (InStep(d.connections[key], w) ==> InStep(read.connections[key], Received(w, r.value)))
  {
    var n := ChunkReadShape(cfg, d, key, available);
    ChunkReadKeeps(cfg, d.connections[key], w, source, n);
  }

  /** After the read: the worker either has the chunk in step with the server, or asks for a rewind. */
  lemma ReadAnswered(cfg: Config, d: State, key: nat, w: Worker, source: Bytes, net: Net)
    requires key in d.connections && Fetching(cfg, d.connections[key], w, source)
    ensures var (read, r) := ChunkRead(cfg, d, key, net.available);
            var d1, answer := Ran(net.call, d, read), AnswerTo(net.call, ToChunk(r));
            && key in d1.connections && Fetching(cfg, d1.connections[key], Got(w, answer), source)
            && (answer.Value? && InStep(d.connections[key], w) ==> InStep(d1.connections[key], Got(w, answer)))
  {
    ReadExecuted(cfg, d, key, w, source, net.available);
    var r := ChunkRead(cfg, d, key, net.available).1;
    assert net.call.Answered? ==> Got(w, AnswerTo(net.call, ToChunk(r))) == Received(w, r.value);
  }

  /** What doReceive makes of an answer, apart from reaching the end. */
  lemma ReceiveShape(w: Worker, env: Env)
    requires !w.stopRequested && w.main == Receiving
    ensures var got := Got(w, env.read);
            var (v, thrown) := AfterReceive(w, env);
            && (v.main == Receiving ==> v == got || v == RewoundCopy(got))
            && (v.main == Receiving && !AfterReceive(w, env.(reset := Refused)).1 ==>
                v == got && !thrown && env.read.Value?)
            && (AfterReceive(w, env.(reset := Refused)).1 ==> v == RewoundCopy(got) && thrown == !env.reset.Value?)
            && v.finished == w.finished && (v.main == Receiving ==> v.conn == w.conn)
  {
  }

  /** The calls of a poll in Receiving. */
  lemma FetchExchangeShape(cfg: Config, d: State, w: Worker, net: Net)
    requires !w.stopRequested && w.conn.Some?
    ensures var key := w.conn.value;
            var (read, r) := ChunkRead(cfg, d, key, net.available);
            var d1 := Ran(net.call, d, read);
            var (now, env) := FetchExchange(cfg, d, w, net);
            && env.read == AnswerTo(net.call, ToChunk(r))
            && (if AfterReceive(w, env.(reset := Refused)).1
                then now == Ran(net.reset, d1, Rewound(d1, key).0)
                     && env.reset == AnswerTo(net.reset, Rewound(d1, key).1)
                else now == d1)
  {
  }

  /** A poll in Receiving keeps both sides in relation, given what it calls and what comes of it. */
  lemma FetchPoll(cfg: Config, d: State, w: Worker, source: Bytes, threw: bool, net: Net,
                  now: State, env: Env, v: Worker, thrown: bool)
    requires w.conn.Some? && !w.finished && w.main == Receiving && !w.stopRequested
    requires w.conn.value in d.connections ==>
               && Fetching(cfg, d.connections[w.conn.value], w, source)
               && (!threw ==> InStep(d.connections[w.conn.value], w))
    requires (now, env) == FetchExchange(cfg, d, w, net) && (v, thrown) == AfterReceive(w, env)
    requires v.main == Receiving && w.conn.value in now.connections
    ensures Fetching(cfg, now.connections[w.conn.value], v, source)
    ensures !threw && !thrown ==> InStep(now.connections[w.conn.value], v)
  {
    var key := w.conn.value;
    FetchExchangeShape(cfg, d, w, net);
    ReceiveShape(w, env);
    SessionStays(cfg, d, w, net);
    ReadAnswered(cfg, d, key, w, source, net);
    var d1 := Ran(net.call, d, ChunkRead(cfg, d, key, net.available).0);
    RewindKeeps(cfg, d1, key, Got(w, env.read), source);
  }

  lemma SessionStays(cfg: Config, d: State, w: Worker, net: Net)
    requires w.conn.Some? && !w.stopRequested
    ensures FetchExchange(cfg, d, w, net).0.connections.Keys == d.connections.Keys
  {
    var d1 := ChunkRead(cfg, d, w.conn.value, net.available).0;
    assert d1.connections.Keys == d.connections.Keys;
    assert Rewound(d1, w.conn.value).0.connections.Keys == d1.connections.Keys;
    assert Rewound(d, w.conn.value).0.connections.Keys == d.connections.Keys;
  }

  /** When the worker takes its copy for complete, it is complete: always while no poll has thrown, and
      otherwise as long as the source has not outgrown the length it was handed out with. */
  lemma FetchedExactly(cfg: Config, d: State, w: Worker, source: Bytes, threw: bool, net: Net)
    requires w.conn.Some? && !w.finished && w.main == Receiving && !w.stopRequested
    requires w.conn.value in d.connections ==>
               && Fetching(cfg, d.connections[w.conn.value], w, source)
               && (!threw ==> InStep(d.connections[w.conn.value], w))
    requires AfterReceive(w, FetchExchange(cfg, d, w, net).1).0.main == WaitForEncodingFinished
    ensures w.srcFile.Some?
    ensures !threw || |source| <= w.settings.fileLength ==> w.srcFile.value.content == source
  {
    FetchExchangeShape(cfg, d, w, net);
    assert w.conn.value in d.connections;
    var n := ChunkReadShape(cfg, d, w.conn.value, net.available);
    var copy := w.srcFile.value;
    assert n == 0;
    assert Stored(copy, []).pos == copy.pos == w.settings.fileLength;
  }

  /* ---- uploading ---- */

  /** The next chunk is what follows in the output, or nothing. */
  lemma NextChunkShape(chunkSize: nat, f: InStream) returns (n: nat)
    ensures var (chunk, g) := NextChunk(chunkSize, f);
            && |chunk| == n && g.content == f.content && g.isOpen == f.isOpen && g.pos == f.pos + n
            && (n > 0 ==> f.pos + n <= |f.content| && chunk == f.content[f.pos..f.pos + n])
  {
    n := |NextChunk(chunkSize, f).0|;
  }

  /** A chunk is appended where the worker took it from; the one that completes the upload completes the
      file. */
  lemma SentGrows(stored: Bytes, got: nat, f: InStream, n: nat)
    requires SentRel(stored, got, f) && |stored| <= |f.content| && got + n <= |f.content|
    requires n > 0 ==> f.pos + n <= |f.content|
    ensures var chunk := if n > 0 then f.content[f.pos..f.pos + n] else [];
            var after := Overwrite(stored, got, chunk);
            && SentRel(after, got + n, f.(pos := f.pos + n))
            && SentRel(stored, got, f.(pos := f.pos + n))
            && (got + n == |f.content| && n > 0 ==> after == f.content)
  {
    var chunk := if n > 0 then f.content[f.pos..f.pos + n] else [];
    var after := Overwrite(stored, got, chunk);
    if got == f.pos && n > 0 {
      assert after[..got + n] == stored[..got] + chunk;
      assert f.content[..got + n] == f.content[..got] + chunk;
    }
    if n == 0 {
      assert after == stored;
    }
  }

  /** What writeChunk does to the session and its temp file, when the disk takes the chunk. */
  lemma WriteShape(cfg: Config, d: State, key: nat, data: Bytes, reached: Option<nat>)
    requires Accepts(d, key, data)
    ensures var cli := d.connections[key];
            var f := cli.outFile.value;
            var (now, r) := ChunkWritten(cfg, d, key, data, reached);
            && r.Done? && key in now.connections
            && (DiskFails(WriteChunk(key, data, reached)) ==> r == Done(false))
            && (!DiskFails(WriteChunk(key, data, reached)) ==>
                  now.temps == d.temps[f.path := Overwrite(d.temps[f.path], f.pos, data)]
                  && r == Done(f.pos + |data| < cli.encResult.fileLength))
            && now.connections[key] == (if r == Done(true) then cli.(outFile := Some(f.(pos := f.pos + |data|)))
                                        else FreshClient(cli.token))
            && (r == Done(false) ==> now == Queued(cfg, d.(temps := now.temps), key, cli))
  {
  }

  /** The upload after a call of writeChunk, executed or not. */
  lemma WriteKeeps(cfg: Config, chunkSize: nat, d: State, key: nat, f: InStream, reached: Option<nat>)
    requires key in d.connections && UploadOk(cfg, d.temps, d.connections[key])
             && Uploading(d.temps, d.connections[key], f)
    ensures var (chunk, g) := NextChunk(chunkSize, f);
            var now := ChunkWritten(cfg, d, key, chunk, reached).0;
            && Uploading(d.temps, d.connections[key], g)
            && key in now.connections && Uploading(now.temps, now.connections[key], g)
  {
    var cli := d.connections[key];
    var n := NextChunkShape(chunkSize, f);
    var (chunk, g) := NextChunk(chunkSize, f);
    if cli.id != 0 && cli.outFile.Some? {
      var out := cli.outFile.value;
      if out.pos + n <= |f.content| {
        SentGrows(d.temps[out.path], out.pos, f, n);
      }
      if Accepts(d, key, chunk) {
        WriteShape(cfg, d, key, chunk, reached);
      }
    }
  }

  /** Whenever a chunk of this worker's completes its upload, the temp file is the output, byte for byte,
      exactly if the disk took that chunk. */
  lemma UploadedExactly(cfg: Config, chunkSize: nat, d: State, key: nat, f: InStream, reached: Option<nat>)
    requires TempInv(cfg, d) && key in d.connections && Uploading(d.temps, d.connections[key], f)
    requires ChunkWritten(cfg, d, key, NextChunk(chunkSize, f).0, reached).1 == Done(false)
    ensures var cli, chunk := d.connections[key], NextChunk(chunkSize, f).0;
            var now := ChunkWritten(cfg, d, key, chunk, reached).0;
            && EntryFor(cfg, cli) in Line(now) && cli.id != 0 && Movable(EntryFor(cfg, cli))
            && cli.tempFileName in now.temps
            && (now.temps[cli.tempFileName] == f.content <==> !DiskFails(WriteChunk(key, chunk, reached)))
  {
    var cli := d.connections[key];
    var chunk := NextChunk(chunkSize, f).0;
    var n := NextChunkShape(chunkSize, f);
    var out := cli.outFile.value;
    assert UploadOk(cfg, d.temps, cli);
    WriteShape(cfg, d, key, chunk, reached);
    WriteKeepsLength(cfg, d, key, chunk, reached);
    var now := ChunkWritten(cfg, d, key, chunk, reached).0;
    assert Line(now)[|Line(now)| - 1] == EntryFor(cfg, cli);
    if !DiskFails(WriteChunk(key, chunk, reached)) {
      SentGrows(d.temps[out.path], out.pos, f, n);
    }
  }

  lemma RewindKeepsUpload(d: State, key: nat, f: InStream)
    requires key in d.connections && Uploading(d.temps, d.connections[key], f)
    requires d.connections[key].inFile.None? || d.connections[key].outFile.None?
    ensures var now := Rewound(d, key).0;
            && key in now.connections && now.temps == d.temps && Uploading(now.temps, now.connections[key], f)
            && Uploading(now.temps, now.connections[key], SoughtThenCleared(f))
  {
  }

  lemma UploadExchangeShape(cfg: Config, chunkSize: nat, d: State, w: Worker, net: Net)
    requires w.conn.Some?
    ensures var key := w.conn.value;
            var (written, r) := ChunkWritten(cfg, d, key, NextChunk(chunkSize, w.dstFile).0, net.disk);
            var d1 := Ran(net.call, d, written);
            var (now, env) := UploadExchange(cfg, chunkSize, d, w, net);
            && env.write == AnswerTo(net.call, r)
            && (if AfterTransmit(chunkSize, w, env.(reset := Refused)).1
                then now == Ran(net.reset, d1, Rewound(d1, key).0)
                     && env.reset == AnswerTo(net.reset, Rewound(d1, key).1)
                else now == d1)
  {
    var (written, r) := ChunkWritten(cfg, d, w.conn.value, NextChunk(chunkSize, w.dstFile).0, net.disk);
    var (now, env) := UploadExchange(cfg, chunkSize, d, w, net);
    assert env.(reset := Refused) == NoAnswers(net).(write := AnswerTo(net.call, r));
  }

  lemma TransmitShape(chunkSize: nat, w: Worker, env: Env)
    requires w.main == Transmitting
    ensures var g := NextChunk(chunkSize, w.dstFile).1;
            var (v, thrown) := AfterTransmit(chunkSize, w, env);
            && (v.main == Transmitting ==> v.conn == w.conn)
            && (AfterTransmit(chunkSize, w, env.(reset := Refused)).1 ==>
                  v.dstFile == (if env.reset.Value? then SoughtThenCleared(g) else g))
            && (v.main == Transmitting && !AfterTransmit(chunkSize, w, env.(reset := Refused)).1 ==> v.dstFile == g)
            && (v.main != Transmitting ==> v.main == Idle && env.write == Value(false))
  {
  }

  /** A poll in Transmitting keeps both sides in relation. */
  lemma UploadPoll(cfg: Config, chunkSize: nat, d: State, w: Worker, net: Net, now: State, env: Env, v: Worker,
                   thrown: bool)
    requires w.conn.Some? && w.main == Transmitting && TempInv(cfg, d)
    requires w.conn.value in d.connections ==> Uploading(d.temps, d.connections[w.conn.value], w.dstFile)
    requires (now, env) == UploadExchange(cfg, chunkSize, d, w, net) && (v, thrown) == AfterTransmit(chunkSize, w, env)
    requires v.main == Transmitting && w.conn.value in now.connections
    ensures v.conn == w.conn && Uploading(now.temps, now.connections[w.conn.value], v.dstFile)
  {
    var key := w.conn.value;
    UploadExchangeShape(cfg, chunkSize, d, w, net);
    TransmitShape(chunkSize, w, env);
    var (chunk, g) := NextChunk(chunkSize, w.dstFile);
    var written := ChunkWritten(cfg, d, key, chunk, net.disk).0;
    var d1 := Ran(net.call, d, written);
    SessionsAfterWrite(cfg, d, key, chunk, net.disk);
    if AfterTransmit(chunkSize, w, env.(reset := Refused)).1 {
      assert key in d1.connections;
    }
    WriteKeeps(cfg, chunkSize, d, key, w.dstFile, net.disk);
    RewindKeepsUpload(d1, key, g);
    RewindFromStart(d1, key, g);
  }

  lemma SessionsAfterWrite(cfg: Config, d: State, key: nat, data: Bytes, reached: Option<nat>)
    ensures ChunkWritten(cfg, d, key, data, reached).0.connections.Keys == d.connections.Keys
    ensures SessionsReadOrWrite(d) ==> SessionsReadOrWrite(ChunkWritten(cfg, d, key, data, reached).0)
  {
    if Accepts(d, key, data) {
      WriteShape(cfg, d, key, data, reached);
    }
  }

  lemma RewindFromStart(d: State, key: nat, g: InStream)
    ensures Rewound(d, key).0.connections.Keys == d.connections.Keys
  {
  }

  /** A worker that stops uploading does so on the answer to the chunk that completed its upload. */
  lemma LeavesWhenUploaded(cfg: Config, chunkSize: nat, d: State, w: Worker, net: Net)
    requires w.conn.Some? && w.main == Transmitting
    requires AfterTransmit(chunkSize, w, UploadExchange(cfg, chunkSize, d, w, net).1).0.main != Transmitting
    ensures net.call.Answered?
    ensures ChunkWritten(cfg, d, w.conn.value, NextChunk(chunkSize, w.dstFile).0, net.disk).1 == Done(false)
  {
    UploadExchangeShape(cfg, chunkSize, d, w, net);
    TransmitShape(chunkSize, w, UploadExchange(cfg, chunkSize, d, w, net).1);
  }

  /** A worker begins to upload when its result is taken, at the beginning of a good stream. */
  lemma SendShape(w: Worker, env: Env)
    requires w.main == SendResult && AfterSendResult(w, env).main == Transmitting
    ensures PostsResult(w, env) && env.post.Value? && Uploads(w.encResult)
    ensures AfterSendResult(w, env) == Connected(w, env).(dstFile := SoughtThenCleared(w.dstFile), main := Transmitting)
  {
  }

  /** A result taken for an upload leaves its session with an empty temp file open. */
  lemma PostedOpen(cfg: Config, d: State, key: nat, result: ResultInfo, opens: bool)
    requires Uploads(result) && FilePosted(cfg, d, key, result, opens).1.Done?
    ensures var now := FilePosted(cfg, d, key, result, opens).0;
            && key in d.connections && key in now.connections
            && var cli := d.connections[key];
               var tmp := TempName(cfg, cli.originalFileName, cli.id);
               && now.connections[key]
                  == cli.(inFile := None, encResult := result, tempFileName := tmp, outFile := Some(OutFile(tmp, 0)))
               && now.temps == d.temps[tmp := []]
  {
  }

  /** An upload begins with an empty temp file and a worker that means to send all of its output. */
  lemma UploadStarts(cfg: Config, d: State, w: Worker, net: Net)
    requires w.main == SendResult && W.UploadInv(w) && !w.finished
    requires var (now, env) := PostExchange(cfg, d, w, net); AfterSendResult(w, env).main == Transmitting
    ensures var (now, env) := PostExchange(cfg, d, w, net);
            var v := AfterSendResult(w, env);
            v.conn.Some? && v.conn.value in now.connections
            && Uploading(now.temps, now.connections[v.conn.value], v.dstFile)
  {
    SendShape(w, PostExchange(cfg, d, w, net).1);
    PostedOpen(cfg, d, KeyAfterConnect(w, net).value, w.encResult, net.tempOpens);
  }

  /** A file handed out is open at its beginning. */
  lemma HandedOpen(d: State, key: nat, pick: nat, content: Option<Bytes>)
    ensures var (now, r) := NextFileGot(d, key, pick, content);
            r.Done? && r.value > 0 ==>
              && content.Some? && key in now.connections
              && now.connections[key].inFile == Some(InFile(content.value, 0))
              && now.connections[key].fileLength == r.value
  {
  }

  lemma IdleShape(w: Worker, env: Env)
    requires w.main == Idle && AfterIdle(w, env).main == Receiving
    ensures RequestsFile(w, env) && env.next.Value? && env.next.value.fileLength > 0
    ensures var v := AfterIdle(w, env);
            && v.settings == env.next.value && v.conn == Connected(w, env).conn
            && (v.srcFile.Some? ==> v.srcFile.value == LocalCopy([], 0))
  {
  }

  /** A fetch begins with an empty copy and the source opened for it. */
  lemma FetchStarts(cfg: Config, d: State, w: Worker, net: Net)
    requires w.main == Idle
    requires var (now, env) := RequestExchange(cfg, d, w, net); AfterIdle(w, env).main == Receiving
    ensures var (now, env) := RequestExchange(cfg, d, w, net);
            var v := AfterIdle(w, env);
            && net.content.Some? && v.conn.Some? && v.conn.value in now.connections
            && Fetching(cfg, now.connections[v.conn.value], v, net.content.value)
            && InStep(now.connections[v.conn.value], v)
  {
    var (now, env) := RequestExchange(cfg, d, w, net);
    IdleShape(w, env);
    var key := KeyAfterConnect(w, net);
    HandedOpen(d, key.value, net.pick, net.content);
  }

  /* ---- every step ---- */

  lemma DaemonInvExchange(cfg: Config, chunkSize: nat, token: string, s: System, net: Net)
    requires DaemonInv(cfg, s.daemon) && SystemEnabled(chunkSize, token, s, Poll(net))
    ensures DaemonInv(cfg, Exchange(cfg, chunkSize, token, s, net).0)
    ensures LeavesLine(s.daemon, Exchange(cfg, chunkSize, token, s, net).0)
  {
    match s.worker.main
    case Idle => DaemonInvRequest(cfg, chunkSize, token, s, net);
    case Authenticateing => DaemonInvAuth(cfg, token, s, net);
    case Receiving => DaemonInvFetch(cfg, s, net);
    case SendResult => DaemonInvPost(cfg, s, net);
    case Transmitting => DaemonInvUpload(cfg, chunkSize, s, net);
    case _ =>
  }

  lemma DaemonInvRequest(cfg: Config, chunkSize: nat, token: string, s: System, net: Net)
    requires DaemonInv(cfg, s.daemon) && SystemEnabled(chunkSize, token, s, Poll(net)) && s.worker.main == Idle
    ensures DaemonInv(cfg, RequestExchange(cfg, s.daemon, s.worker, net).0)
    ensures LeavesLine(s.daemon, RequestExchange(cfg, s.daemon, s.worker, net).0)
  {
    var key := KeyAfterConnect(s.worker, net);
    if key.Some? {
      DaemonInvStep(cfg, s.daemon, FileRequest(key.value, net));
    }
  }

  lemma DaemonInvAuth(cfg: Config, token: string, s: System, net: Net)
    requires DaemonInv(cfg, s.daemon)
    ensures DaemonInv(cfg, AuthExchange(cfg, s.daemon, s.worker, token, net).0)
    ensures LeavesLine(s.daemon, AuthExchange(cfg, s.daemon, s.worker, token, net).0)
  {
    var key := KeyAfterConnect(s.worker, net);
    if key.Some? {
      DaemonInvStep(cfg, s.daemon, Authenticate(key.value, token));
    }
  }

  lemma DaemonInvFetch(cfg: Config, s: System, net: Net)
    requires DaemonInv(cfg, s.daemon)
    ensures DaemonInv(cfg, FetchExchange(cfg, s.daemon, s.worker, net).0)
    ensures LeavesLine(s.daemon, FetchExchange(cfg, s.daemon, s.worker, net).0)
  {
    if s.worker.conn.Some? && !s.worker.stopRequested {
      var key := s.worker.conn.value;
      DaemonInvStep(cfg, s.daemon, ReadChunk(key, net.available));
      FetchExchangeShape(cfg, s.daemon, s.worker, net);
      CallThenRewind(cfg, s.daemon, ChunkRead(cfg, s.daemon, key, net.available).0, key, net,
                     FetchExchange(cfg, s.daemon, s.worker, net).0);
    }
  }

  /** A call, executed or not, and perhaps a rewind after it. */
  lemma CallThenRewind(cfg: Config, d: State, called: State, key: nat, net: Net, now: State)
    requires DaemonInv(cfg, d) && DaemonInv(cfg, called) && LeavesLine(d, called)
    requires var d1 := Ran(net.call, d, called); now == d1 || now == Ran(net.reset, d1, Rewound(d1, key).0)
    ensures DaemonInv(cfg, now) && LeavesLine(d, now)
  {
    DaemonInvRewind(cfg, Ran(net.call, d, called), key);
  }

  lemma DaemonInvPost(cfg: Config, s: System, net: Net)
    requires DaemonInv(cfg, s.daemon)
    ensures DaemonInv(cfg, PostExchange(cfg, s.daemon, s.worker, net).0)
    ensures LeavesLine(s.daemon, PostExchange(cfg, s.daemon, s.worker, net).0)
  {
    var key := KeyAfterConnect(s.worker, net);
    if key.Some? {
      DaemonInvStep(cfg, s.daemon, PostFile(key.value, s.worker.encResult, net.tempOpens));
    }
  }

  lemma DaemonInvUpload(cfg: Config, chunkSize: nat, s: System, net: Net)
    requires DaemonInv(cfg, s.daemon)
    ensures DaemonInv(cfg, UploadExchange(cfg, chunkSize, s.daemon, s.worker, net).0)
    ensures LeavesLine(s.daemon, UploadExchange(cfg, chunkSize, s.daemon, s.worker, net).0)
  {
    if s.worker.conn.Some? {
      var key, chunk := s.worker.conn.value, NextChunk(chunkSize, s.worker.dstFile).0;
      DaemonInvStep(cfg, s.daemon, WriteChunk(key, chunk, net.disk));
      UploadExchangeShape(cfg, chunkSize, s.daemon, s.worker, net);
      CallThenRewind(cfg, s.daemon, ChunkWritten(cfg, s.daemon, key, chunk, net.disk).0, key, net,
                     UploadExchange(cfg, chunkSize, s.daemon, s.worker, net).0);
    }
  }

  lemma DaemonInvRewind(cfg: Config, d: State, key: nat)
    requires DaemonInv(cfg, d)
    ensures DaemonInv(cfg, Rewound(d, key).0) && LeavesLine(d, Rewound(d, key).0)
  {
    DaemonInvStep(cfg, d, Reset(key));
  }

  lemma DaemonInvPolled(cfg: Config, chunkSize: nat, token: string, s: System, net: Net)
    requires DaemonInv(cfg, s.daemon) && SystemEnabled(chunkSize, token, s, Poll(net))
    ensures DaemonInv(cfg, PolledWith(cfg, chunkSize, token, s, net).daemon)
    ensures LeavesLine(s.daemon, PolledWith(cfg, chunkSize, token, s, net).daemon)
  {
    DaemonInvExchange(cfg, chunkSize, token, s, net);
    var (d, env) := Exchange(cfg, chunkSize, token, s, net);
    var (w, thrown) := Dispatched(chunkSize, s.worker, env);
    if w.conn.Some? {
      DaemonInvStep(cfg, d, Abort(w.conn.value));
    }
  }

  /** The states a poll can come from that ends in a transfer, and what it does not do then. */
  lemma TransferPolls(chunkSize: nat, w: Worker, env: Env)
    requires W.MachineInv(w) && !w.finished
    ensures var (v, thrown) := Polled(chunkSize, w, env);
            && (v.main == Receiving && !v.finished ==>
                  && w.main in {Idle, Receiving} && !w.stopRequested
                  && (v, thrown) == Dispatched(chunkSize, w, env) && !v.shutdown)
            && (v.main == Transmitting && !v.finished ==>
                  && w.main in {SendResult, Transmitting} && (v, thrown) == Dispatched(chunkSize, w, env)
                  && (thrown || !v.shutdown))
  {
  }

  lemma FetchRelPolled(cfg: Config, chunkSize: nat, token: string, s: System, net: Net)
    requires W.MachineInv(s.worker) && !s.worker.finished && FetchRel(cfg, s)
    ensures FetchRel(cfg, PolledWith(cfg, chunkSize, token, s, net))
  {
    var (d, env) := Exchange(cfg, chunkSize, token, s, net);
    var t := PolledWith(cfg, chunkSize, token, s, net);
    var (v, thrown) := Dispatched(chunkSize, s.worker, env);
    TransferPolls(chunkSize, s.worker, env);
    if t.worker.main == Receiving && !t.worker.finished {
      if s.worker.main == Idle {
        FetchStarts(cfg, s.daemon, s.worker, net);
      } else if s.worker.conn.value in t.daemon.connections {
        FetchPoll(cfg, s.daemon, s.worker, s.source, s.threw, net, d, env, v, thrown);
        FetchExchangeShape(cfg, s.daemon, s.worker, net);
        ReceiveShape(s.worker, env);
      }
    }
  }

  lemma UploadRelPolled(cfg: Config, chunkSize: nat, token: string, s: System, net: Net)
    requires W.MachineInv(s.worker) && W.UploadInv(s.worker) && !s.worker.finished && UploadRel(s)
    requires TempInv(cfg, s.daemon)
    ensures UploadRel(PolledWith(cfg, chunkSize, token, s, net))
  {
    var (d, env) := Exchange(cfg, chunkSize, token, s, net);
    var t := PolledWith(cfg, chunkSize, token, s, net);
    var (v, thrown) := Dispatched(chunkSize, s.worker, env);
    TransferPolls(chunkSize, s.worker, env);
    if t.worker.main == Transmitting && !t.worker.finished {
      assert t.daemon == d;
      if s.worker.main == SendResult {
        UploadStarts(cfg, s.daemon, s.worker, net);
      } else if s.worker.conn.value in d.connections {
        UploadPoll(cfg, chunkSize, s.daemon, s.worker, net, d, env, v, thrown);
      } else {
        TransmitShape(chunkSize, s.worker, env);
      }
    }
  }

  lemma SystemInvStep(cfg: Config, chunkSize: nat, token: string, s: System, e: SystemEvent)
    requires SystemInv(cfg, s) && SystemEnabled(chunkSize, token, s, e)
    ensures SystemInv(cfg, SystemStep(cfg, chunkSize, token, s, e))
  {
    match e
    case Poll(net) =>
      var env := Exchange(cfg, chunkSize, token, s, net).1;
      W.NextOk(chunkSize, s.worker, W.Poll(env));
      DaemonInvPolled(cfg, chunkSize, token, s, net);
      FetchRelPolled(cfg, chunkSize, token, s, net);
      UploadRelPolled(cfg, chunkSize, token, s, net);
    case StopWorker(forced) => W.NextOk(chunkSize, s.worker, W.Stop(forced));
    case Other(event) => SystemInvOther(cfg, s, event);
  }

  /* ---- whole runs ---- */

  ghost function SystemAfter(cfg: Config, chunkSize: nat, token: string, s: System, run: seq<SystemEvent>): System
    decreases |run|
  {
    if run == [] then s else SystemAfter(cfg, chunkSize, token, SystemStep(cfg, chunkSize, token, s, run[0]), run[1..])
  }

  ghost predicate IsSystemRun(cfg: Config, chunkSize: nat, token: string, s: System, run: seq<SystemEvent>)
    decreases |run|
  {
    run == [] || (SystemEnabled(chunkSize, token, s, run[0])
                  && IsSystemRun(cfg, chunkSize, token, SystemStep(cfg, chunkSize, token, s, run[0]), run[1..]))
  }

  lemma {:induction false} SystemInvAlways(cfg: Config, chunkSize: nat, token: string, s: System, run: seq<SystemEvent>)
    requires SystemInv(cfg, s) && IsSystemRun(cfg, chunkSize, token, s, run)
    ensures SystemInv(cfg, SystemAfter(cfg, chunkSize, token, s, run))
    decreases |run|
  {
    if run != [] {
      SystemInvStep(cfg, chunkSize, token, s, run[0]);
      SystemInvAlways(cfg, chunkSize, token, SystemStep(cfg, chunkSize, token, s, run[0]), run[1..]);
    }
  }

  /** A daemon on any database, and a worker that has not been polled. */
  function NewSystem(db: Tables): System { System(Started(db), NEW_WORKER, [], false) }

  lemma NewSystemInv(cfg: Config, db: Tables)
    requires Valid(db)
    ensures SystemInv(cfg, NewSystem(db))
  {
    InvStarted(db);
    TempInvStarted(cfg, db);
    assert Line(Started(db)) == [];
  }

  /** In any run of the whole system, however requests and replies are lost and whatever other clients and
      the file system do: a poll that ends the fetching of a file leaves a copy equal to the source the
      daemon opened, if no poll has thrown so far or the source is not longer than it was said to be. */
  lemma EveryFetchIsExact(cfg: Config, chunkSize: nat, token: string, db: Tables, run: seq<SystemEvent>, net: Net)
    requires Valid(db) && IsSystemRun(cfg, chunkSize, token, NewSystem(db), run)
    requires var s := SystemAfter(cfg, chunkSize, token, NewSystem(db), run);
             && SystemEnabled(chunkSize, token, s, Poll(net)) && s.worker.main == Receiving
             && PolledWith(cfg, chunkSize, token, s, net).worker.main == WaitForEncodingFinished
    ensures var s := SystemAfter(cfg, chunkSize, token, NewSystem(db), run);
            && s.worker.srcFile.Some?
            && (!s.threw || |s.source| <= s.worker.settings.fileLength ==> s.worker.srcFile.value.content == s.source)
  {
    NewSystemInv(cfg, db);
    SystemInvAlways(cfg, chunkSize, token, NewSystem(db), run);
    var s := SystemAfter(cfg, chunkSize, token, NewSystem(db), run);
    FetchedExactly(cfg, s.daemon, s.worker, s.source, s.threw, net);
  }

  /** And whenever a chunk of the worker completes its upload, the temp file is the worker's output, byte
      for byte, exactly if the daemon's disk took that chunk; and a worker stops uploading only on the
      answer to such a chunk. */
  lemma EveryUploadIsExact(cfg: Config, chunkSize: nat, token: string, db: Tables, run: seq<SystemEvent>, net: Net)
    requires Valid(db) && IsSystemRun(cfg, chunkSize, token, NewSystem(db), run)
    requires var s := SystemAfter(cfg, chunkSize, token, NewSystem(db), run);
             SystemEnabled(chunkSize, token, s, Poll(net)) && s.worker.main == Transmitting
    ensures SystemAfter(cfg, chunkSize, token, NewSystem(db), run).worker.conn.Some?
    ensures var s := SystemAfter(cfg, chunkSize, token, NewSystem(db), run);
            var key, chunk := s.worker.conn.value, NextChunk(chunkSize, s.worker.dstFile).0;
            var (now, r) := ChunkWritten(cfg, s.daemon, key, chunk, net.disk);
            && (r == Done(false) ==>
                  var f := EntryFor(cfg, s.daemon.connections[key]);
                  && f in Line(now) && f.result.id != 0 && Movable(f)
                  && f.tmp in now.temps
                  && (now.temps[f.tmp] == s.worker.dstFile.content <==> !DiskFails(WriteChunk(key, chunk, net.disk))))
            && (PolledWith(cfg, chunkSize, token, s, net).worker.main != Transmitting ==>
                net.call.Answered? && r == Done(false))
  {
    NewSystemInv(cfg, db);
    SystemInvAlways(cfg, chunkSize, token, NewSystem(db), run);
    var s := SystemAfter(cfg, chunkSize, token, NewSystem(db), run);
    var key, chunk := s.worker.conn.value, NextChunk(chunkSize, s.worker.dstFile).0;
    if ChunkWritten(cfg, s.daemon, key, chunk, net.disk).1 == Done(false) {
      UploadedExactly(cfg, chunkSize, s.daemon, key, s.worker.dstFile, net.disk);
    }
    if PolledWith(cfg, chunkSize, token, s, net).worker.main != Transmitting {
      LeavesWhenUploaded(cfg, chunkSize, s.daemon, s.worker, net);
    }
  }

  /** The poll that completes an upload leaves it in the line. */
  lemma CompletedStays(cfg: Config, chunkSize: nat, token: string, s: System, net: Net)
    requires SystemInv(cfg, s) && !s.worker.finished && s.worker.main == Transmitting
             && Completes(cfg, chunkSize, s, net)
    ensures Waiting(PolledWith(cfg, chunkSize, token, s, net).daemon, Uploaded(cfg, s), s.worker.dstFile.content)
  {
    var key, chunk := s.worker.conn.value, NextChunk(chunkSize, s.worker.dstFile).0;
    var now := ChunkWritten(cfg, s.daemon, key, chunk, net.disk).0;
    UploadedExactly(cfg, chunkSize, s.daemon, key, s.worker.dstFile, net.disk);
    DaemonInvStep(cfg, s.daemon, WriteChunk(key, chunk, net.disk));
    UploadExchangeShape(cfg, chunkSize, s.daemon, s.worker, net);
    var (d, env) := UploadExchange(cfg, chunkSize, s.daemon, s.worker, net);
    var (w, thrown) := Dispatched(chunkSize, s.worker, env);
    RewindThenAbort(cfg, now, key, net, d, w, thrown);
  }

  /** A finished upload in the line, with what was sent. */
  predicate Waiting(d: State, f: FileToMove, content: Bytes)
  {
    f in Line(d) && f.result.id != 0 && Movable(f) && f.tmp in d.temps && d.temps[f.tmp] == content
  }

  lemma RewindThenAbort(cfg: Config, d: State, key: nat, net: Net, now: State, w: Worker, thrown: bool)
    requires DaemonInv(cfg, d) && (now == d || now == Ran(net.reset, d, Rewound(d, key).0))
    ensures LeavesLine(d, ShutDown(now, w, thrown, net))
  {
    DaemonInvRewind(cfg, d, key);
    if w.conn.Some? {
      DaemonInvStep(cfg, now, Abort(w.conn.value));
    }
  }

  /** The poll writes a chunk, the disk takes it, and the daemon finds the upload complete with it. */
  predicate Completes(cfg: Config, chunkSize: nat, s: System, net: Net)
  {
    && s.worker.conn.Some? && !net.call.RequestLost?
    && !DiskFails(WriteChunk(s.worker.conn.value, NextChunk(chunkSize, s.worker.dstFile).0, net.disk))
    && ChunkWritten(cfg, s.daemon, s.worker.conn.value, NextChunk(chunkSize, s.worker.dstFile).0, net.disk).1
       == Done(false)
  }

  function Uploaded(cfg: Config, s: System): FileToMove
    requires s.worker.conn.Some? && s.worker.conn.value in s.daemon.connections
  {
    EntryFor(cfg, s.daemon.connections[s.worker.conn.value])
  }

  /** The result of `id` is not reported in this run. */
  ghost predicate Unreported(cfg: Config, chunkSize: nat, token: string, s: System, run: seq<SystemEvent>, id: nat)
    decreases |run|
  {
    run == [] || ((run[0].Other? ==> !IsReported(s.daemon, run[0].event, id))
                  && Unreported(cfg, chunkSize, token, SystemStep(cfg, chunkSize, token, s, run[0]), run[1..], id))
  }

  lemma {:induction false} SystemLeavesTemp(cfg: Config, chunkSize: nat, token: string, s: System,
                                            run: seq<SystemEvent>,
                                            f: FileToMove)
    requires SystemInv(cfg, s) && IsSystemRun(cfg, chunkSize, token, s, run)
    requires f in Line(s.daemon) && f.result.id != 0 && Movable(f) && f.tmp in s.daemon.temps
    requires Unreported(cfg, chunkSize, token, s, run, f.result.id)
    ensures var d := SystemAfter(cfg, chunkSize, token, s, run).daemon;
            f in Line(d) && f.tmp in d.temps && d.temps[f.tmp] == s.daemon.temps[f.tmp]
    decreases |run|
  {
    if run != [] {
      var e := run[0];
      SystemInvStep(cfg, chunkSize, token, s, e);
      if e.Poll? {
        DaemonInvPolled(cfg, chunkSize, token, s, e.net);
      } else if e.Other? {
        StepLeavesTemp(cfg, s.daemon, e.event, f);
      }
      SystemLeavesTemp(cfg, chunkSize, token, SystemStep(cfg, chunkSize, token, s, e), run[1..], f);
    }
  }

  /** The file a worker's session is for. */
  function FileOf(s: System): nat
    requires s.worker.conn.Some? && s.worker.conn.value in s.daemon.connections
  {
    s.daemon.connections[s.worker.conn.value].id
  }

  /** A poll completes the upload, and after `later`, in which it is not reported, its file is being moved. */
  ghost predicate MovedLater(cfg: Config, chunkSize: nat, token: string, s: System, net: Net, later: seq<SystemEvent>)
  {
    && SystemEnabled(chunkSize, token, s, Poll(net)) && s.worker.main == Transmitting
    && Completes(cfg, chunkSize, s, net)
    && var t := PolledWith(cfg, chunkSize, token, s, net);
       var moving := SystemAfter(cfg, chunkSize, token, t, later).daemon.moving;
       && IsSystemRun(cfg, chunkSize, token, t, later) && Unreported(cfg, chunkSize, token, t, later, FileOf(s))
       && moving.Some? && moving.value.result.id == FileOf(s)
  }

  /** The archive is in place: under the archive name of its source, with this content, recorded as done. */
  ghost predicate Archived(cfg: Config, was: Tables, t: State, id: nat, content: Bytes)
  {
    && id in t.db.sources && Lookup(t.db.queue, id).Some? && Lookup(t.db.queue, id).value.status == 5
    && var name := ArchivedName(cfg, t.db.sources[id].path);
       && name in t.archived && t.archived[name] == content
       && t.db.archives == if id in was.archives then was.archives else was.archives[id := name]
  }

  /** From the worker to the archive: once a chunk has completed the upload, then however long the result
      waits and whatever everyone does meanwhile, moving the file into place puts exactly the worker's
      output under the archive name of the file's own source, and records the file as done. */
  lemma OutputReachesArchive(cfg: Config, chunkSize: nat, token: string, db: Tables, run: seq<SystemEvent>, net: Net,
                             later: seq<SystemEvent>)
    requires Valid(db) && IsSystemRun(cfg, chunkSize, token, NewSystem(db), run)
    requires MovedLater(cfg, chunkSize, token, SystemAfter(cfg, chunkSize, token, NewSystem(db), run), net, later)
    ensures var s := SystemAfter(cfg, chunkSize, token, NewSystem(db), run);
            var t := SystemAfter(cfg, chunkSize, token, PolledWith(cfg, chunkSize, token, s, net), later).daemon;
            Archived(cfg, t.db, Step(cfg, t, Report(Moved)), FileOf(s), s.worker.dstFile.content)
  {
    NewSystemInv(cfg, db);
    SystemInvAlways(cfg, chunkSize, token, NewSystem(db), run);
    ReachesArchiveFrom(cfg, chunkSize, token, SystemAfter(cfg, chunkSize, token, NewSystem(db), run), net, later);
  }

  lemma ReachesArchiveFrom(cfg: Config, chunkSize: nat, token: string, s: System, net: Net, later: seq<SystemEvent>)
    requires SystemInv(cfg, s) && MovedLater(cfg, chunkSize, token, s, net, later)
    ensures var t := SystemAfter(cfg, chunkSize, token, PolledWith(cfg, chunkSize, token, s, net), later).daemon;
            Archived(cfg, t.db, Step(cfg, t, Report(Moved)), FileOf(s), s.worker.dstFile.content)
  {
    var t := PolledWith(cfg, chunkSize, token, s, net);
    CompletedStays(cfg, chunkSize, token, s, net);
    SystemInvStep(cfg, chunkSize, token, s, Poll(net));
    SystemInvAlways(cfg, chunkSize, token, t, later);
    SystemLeavesTemp(cfg, chunkSize, token, t, later, Uploaded(cfg, s));
    var d := SystemAfter(cfg, chunkSize, token, t, later).daemon;
    MovingIs(d, Uploaded(cfg, s));
    MovedContent(cfg, d, Uploaded(cfg, s), s.worker.dstFile.content);
  }

  lemma MovedContent(cfg: Config, d: State, f: FileToMove, content: Bytes)
    requires DaemonInv(cfg, d) && Waiting(d, f, content) && d.moving == Some(f)
    ensures Archived(cfg, d.db, Step(cfg, d, Report(Moved)), f.result.id, content)
  {
    ReportLeaves(cfg, d, Moved);
    ReportMoves(cfg, d, Moved);
    assert EntryNamed(cfg, d.db, f);
  }
}
