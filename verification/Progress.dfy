/** How far a transfer gets: when an upload or a fetch ends by itself, and how long a source may grow unnoticed. */
module Progress {

  import opened Wrappers
  import opened Naming
  import opened Database
  import opened Daemon
  import opened Lease
  import opened Accounts
  import opened Results
  import opened Client
  import opened Transfer
  import W = WorkerRuns

  /** Every call answered, every chunk stored. */
  predicate Smooth(net: Net) { net.call.Answered? && net.reset.Answered? && net.disk.None? }

  /** The worker is connected to a session and goes on polling. */
  predicate Polling(s: System, main: MainState)
  {
    && s.worker.main == main && s.worker.conn.Some? && s.worker.conn.value in s.daemon.connections
    && !s.worker.shutdown && !s.worker.finished
  }

  function Session(s: System): ConnectedClient
    requires s.worker.conn.Some? && s.worker.conn.value in s.daemon.connections
  {
    s.daemon.connections[s.worker.conn.value]
  }

  /* ---- uploads ---- */

  /** The polls of an uploading worker with nobody else at its session. */
  ghost function UploadPolls(cfg: Config, chunkSize: nat, token: string, s: System, nets: seq<Net>): System
    decreases |nets|
  {
    if nets == [] || s.worker.main != Transmitting then s
    else UploadPolls(cfg, chunkSize, token, PolledWith(cfg, chunkSize, token, s, nets[0]), nets[1..])
  }

  lemma UploadPolledIs(cfg: Config, chunkSize: nat, token: string, s: System, net: Net)
    requires s.worker.main == Transmitting && !s.worker.shutdown
    ensures var (d, env) := UploadExchange(cfg, chunkSize, s.daemon, s.worker, net);
            var t := PolledWith(cfg, chunkSize, token, s, net);
            t.daemon == d && t.worker == AfterTransmit(chunkSize, s.worker, env).0
  {
  }

  /** Both sides stand at `pos`, short of the end. */
  predicate UploadAt(s: System, pos: nat)
  {
    && Polling(s, Transmitting)
    && var f := s.worker.dstFile;
       && f.isOpen && f.pos == pos < |f.content| && !f.eof && !f.fail
       && Session(s).inFile.None? && Session(s).outFile.Some? && Session(s).encResult.fileLength == |f.content|
       && var out := Session(s).outFile.value;
          out.pos == pos && out.path in s.daemon.temps && pos <= |s.daemon.temps[out.path]|
  }

  /** The server takes no chunk, and the worker does not know why. */
  predicate UploadRefused(s: System)
  {
    Polling(s, Transmitting) && Session(s).inFile.None? && (Session(s).outFile.None? || Session(s).id == 0)
  }

  lemma {:induction false} RefusedForGood(cfg: Config, chunkSize: nat, token: string, s: System, nets: seq<Net>)
    requires UploadRefused(s) && forall net | net in nets :: Smooth(net)
    ensures UploadPolls(cfg, chunkSize, token, s, nets).worker.main == Transmitting
    decreases |nets|
  {
    if nets != [] {
      UploadPolledIs(cfg, chunkSize, token, s, nets[0]);
      UploadExchangeShape(cfg, chunkSize, s.daemon, s.worker, nets[0]);
      assert !Accepts(s.daemon, s.worker.conn.value, NextChunk(chunkSize, s.worker.dstFile).0);
      RefusedForGood(cfg, chunkSize, token, PolledWith(cfg, chunkSize, token, s, nets[0]), nets[1..]);
    }
  }

  /** One poll in step: a whole chunk short of the end goes on, a whole chunk up to the end is never noticed,
      a shorter one finishes. */
  lemma UploadStep(cfg: Config, chunkSize: nat, token: string, s: System, net: Net, pos: nat)
    requires UploadAt(s, pos) && Session(s).id != 0 && Smooth(net)
    ensures StepLeaves(s, PolledWith(cfg, chunkSize, token, s, net), pos, chunkSize)
  {
    var key, chunk := s.worker.conn.value, NextChunk(chunkSize, s.worker.dstFile).0;
    UploadPolledIs(cfg, chunkSize, token, s, net);
    UploadExchangeShape(cfg, chunkSize, s.daemon, s.worker, net);
    assert Accepts(s.daemon, key, chunk);
    WriteShape(cfg, s.daemon, key, chunk, None);
  }

  /** What is left for the last chunk. */
  function LastChunk(length: nat, chunkSize: nat): nat
    requires chunkSize > 0
  {
    if length < chunkSize then length else LastChunk(length - chunkSize, chunkSize)
  }

  lemma {:induction false} LastChunkIs(length: nat, chunkSize: nat)
    requires chunkSize > 0
    ensures LastChunk(length, chunkSize) == length % chunkSize
  {
    if length >= chunkSize {
      LastChunkIs(length - chunkSize, chunkSize);
      var q := (length - chunkSize) / chunkSize;
      assert length == (q + 1) * chunkSize + (length - chunkSize) % chunkSize;
      QuotientIs(length, chunkSize, q + 1, (length - chunkSize) % chunkSize);
    }
  }

  /** Where a poll in step leaves both sides. */
  predicate StepLeaves(s: System, t: System, pos: nat, chunkSize: nat)
    requires pos <= |s.worker.dstFile.content|
  {
    var left := |s.worker.dstFile.content| - pos;
    if chunkSize < left then
      UploadAt(t, pos + chunkSize) && t.worker.dstFile.content == s.worker.dstFile.content && Session(t).id != 0
    else if chunkSize == left then UploadRefused(t)
    else t.worker.main == Idle
  }

  lemma {:induction false} UploadGoesOn(cfg: Config, chunkSize: nat, token: string, s: System, nets: seq<Net>, pos: nat)
    requires UploadAt(s, pos) && Session(s).id != 0 && forall net | net in nets :: Smooth(net)
    requires |nets| > |s.worker.dstFile.content| - pos && chunkSize > 0
    ensures UploadPolls(cfg, chunkSize, token, s, nets).worker.main
         == if LastChunk(|s.worker.dstFile.content| - pos, chunkSize) != 0 then Idle else Transmitting
    decreases |nets|, 1
  {
    UploadStep(cfg, chunkSize, token, s, nets[0], pos);
    UploadRest(cfg, chunkSize, token, s, PolledWith(cfg, chunkSize, token, s, nets[0]), nets[1..], pos);
  }

  lemma {:induction false} UploadRest(cfg: Config, chunkSize: nat, token: string, s: System, t: System, nets: seq<Net>,
                                      pos: nat)
    requires pos < |s.worker.dstFile.content| && StepLeaves(s, t, pos, chunkSize) && chunkSize > 0
    requires |nets| + 1 > |s.worker.dstFile.content| - pos && forall net | net in nets :: Smooth(net)
    ensures UploadPolls(cfg, chunkSize, token, t, nets).worker.main
         == if LastChunk(|s.worker.dstFile.content| - pos, chunkSize) != 0 then Idle else Transmitting
    decreases |nets|, 2
  {
    var left := |s.worker.dstFile.content| - pos;
    if chunkSize < left {
      UploadGoesOn(cfg, chunkSize, token, t, nets, pos + chunkSize);
    } else if chunkSize == left {
      RefusedForGood(cfg, chunkSize, token, t, nets);
    }
  }

  lemma {:induction false} NothingSent(cfg: Config, token: string, s: System, nets: seq<Net>)
    requires UploadAt(s, 0) && Session(s).id != 0 && forall net | net in nets :: Smooth(net)
    ensures UploadPolls(cfg, 0, token, s, nets).worker.main == Transmitting
    decreases |nets|
  {
    if nets != [] {
      UploadStep(cfg, 0, token, s, nets[0], 0);
      NothingSent(cfg, token, PolledWith(cfg, 0, token, s, nets[0]), nets[1..]);
    }
  }

  /** The poll that announces a result of OK leaves both sides at the beginning of the upload. */
  lemma UploadBegins(cfg: Config, chunkSize: nat, token: string, s: System, net: Net)
    requires SystemInv(cfg, s) && !s.worker.finished && s.worker.main == SendResult
    requires var t := PolledWith(cfg, chunkSize, token, s, net); t.worker.main == Transmitting && !t.worker.finished
    ensures UploadAt(PolledWith(cfg, chunkSize, token, s, net), 0)
  {
    var (d, env) := PostExchange(cfg, s.daemon, s.worker, net);
    TransferPolls(chunkSize, s.worker, env);
    SendShape(s.worker, env);
    PostedOpen(cfg, s.daemon, KeyAfterConnect(s.worker, net).value, s.worker.encResult, net.tempOpens);
  }

  /** In every run: an upload that starts, with every call answered and every chunk stored from then on, is
      over after as many polls as it has bytes and one more, or never; it ends exactly when the session has
      a file and the length is no multiple of the client's chunk size. */
  lemma UploadEndsIff(cfg: Config, chunkSize: nat, token: string, db: Tables, run: seq<SystemEvent>, net: Net,
                      nets: seq<Net>)
    requires Valid(db) && IsSystemRun(cfg, chunkSize, token, NewSystem(db), run)
    requires var s := SystemAfter(cfg, chunkSize, token, NewSystem(db), run);
             var t := PolledWith(cfg, chunkSize, token, s, net);
             && SystemEnabled(chunkSize, token, s, Poll(net)) && s.worker.main == SendResult
             && t.worker.main == Transmitting && !t.worker.finished && |nets| > |t.worker.dstFile.content|
    requires forall n | n in nets :: Smooth(n)
    ensures var s := SystemAfter(cfg, chunkSize, token, NewSystem(db), run);
            var t := PolledWith(cfg, chunkSize, token, s, net);
            && Polling(t, Transmitting)
            && UploadPolls(cfg, chunkSize, token, t, nets).worker.main
               == if Session(t).id != 0 && chunkSize > 0 && |t.worker.dstFile.content| % chunkSize != 0 then Idle
                  else Transmitting
  {
    NewSystemInv(cfg, db);
    SystemInvAlways(cfg, chunkSize, token, NewSystem(db), run);
    var s := SystemAfter(cfg, chunkSize, token, NewSystem(db), run);
    var t := PolledWith(cfg, chunkSize, token, s, net);
    UploadBegins(cfg, chunkSize, token, s, net);
    UploadFrom(cfg, chunkSize, token, t, nets);
  }

  lemma UploadFrom(cfg: Config, chunkSize: nat, token: string, s: System, nets: seq<Net>)
    requires UploadAt(s, 0) && |nets| > |s.worker.dstFile.content| && forall n | n in nets :: Smooth(n)
    ensures UploadPolls(cfg, chunkSize, token, s, nets).worker.main
         == if Session(s).id != 0 && chunkSize > 0 && |s.worker.dstFile.content| % chunkSize != 0 then Idle
            else Transmitting
  {
    if Session(s).id == 0 {
      RefusedForGood(cfg, chunkSize, token, s, nets);
    } else if chunkSize == 0 {
      NothingSent(cfg, token, s, nets);
    } else {
      UploadGoesOn(cfg, chunkSize, token, s, nets, 0);
      LastChunkIs(|s.worker.dstFile.content|, chunkSize);
    }
  }

  /* ---- uploads after a fault ---- */

  /** The worker stands at the end of its output for good; the server waits for all of it. */
  predicate UploadSpent(s: System)
  {
    && Polling(s, Transmitting)
    && var f := s.worker.dstFile;
       && f.isOpen && f.pos == |f.content| > 0 && !f.eof && !f.fail
       && Session(s).inFile.None? && Session(s).outFile.Some? && Session(s).id != 0
       && Session(s).encResult.fileLength == |f.content| && Session(s).outFile.value.pos == 0
       && Session(s).outFile.value.path in s.daemon.temps
  }

  lemma {:induction false} SpentForGood(cfg: Config, chunkSize: nat, token: string, s: System, nets: seq<Net>)
    requires UploadSpent(s) && chunkSize > 0 && forall net | net in nets :: Smooth(net)
    ensures UploadPolls(cfg, chunkSize, token, s, nets).worker.main == Transmitting
    decreases |nets|
  {
    if nets != [] {
      SpentStep(cfg, chunkSize, token, s, nets[0]);
      SpentForGood(cfg, chunkSize, token, PolledWith(cfg, chunkSize, token, s, nets[0]), nets[1..]);
    }
  }

  lemma SpentStep(cfg: Config, chunkSize: nat, token: string, s: System, net: Net)
    requires UploadSpent(s) && chunkSize > 0 && Smooth(net)
    ensures UploadSpent(PolledWith(cfg, chunkSize, token, s, net))
  {
    UploadPolledIs(cfg, chunkSize, token, s, net);
    UploadExchangeShape(cfg, chunkSize, s.daemon, s.worker, net);
    assert NextChunk(chunkSize, s.worker.dstFile).0 == [];
    assert Accepts(s.daemon, s.worker.conn.value, []);
    WriteShape(cfg, s.daemon, s.worker.conn.value, [], None);
  }

  /** A call that is lost, with the call to rewind getting through. */
  predicate LostOnce(net: Net) { !net.call.Answered? && net.reset.Answered? && net.disk.None? }

  /** What a lost call leaves: both sides at the beginning, unless the server had the last of it, or the worker
      had come to the end of its file. */
  predicate FaultLeaves(s: System, t: System, left: nat, chunkSize: nat, net: Net)
  {
    if left <= chunkSize && net.call.ReplyLost? then UploadRefused(t)
    else if left < chunkSize then UploadSpent(t)
    else UploadAt(t, 0) && t.worker.dstFile.content == s.worker.dstFile.content && Session(t).id != 0
  }

  lemma UploadFault(cfg: Config, chunkSize: nat, token: string, s: System, net: Net, pos: nat)
    requires UploadAt(s, pos) && Session(s).id != 0 && chunkSize > 0 && LostOnce(net)
    ensures FaultLeaves(s, PolledWith(cfg, chunkSize, token, s, net), |s.worker.dstFile.content| - pos, chunkSize, net)
  {
    if net.call.RequestLost? {
      UploadUnsent(cfg, chunkSize, token, s, net, pos);
    } else {
      UploadUnanswered(cfg, chunkSize, token, s, net, pos);
    }
  }

  lemma UploadUnsent(cfg: Config, chunkSize: nat, token: string, s: System, net: Net, pos: nat)
    requires UploadAt(s, pos) && Session(s).id != 0 && chunkSize > 0 && LostOnce(net) && net.call.RequestLost?
    ensures FaultLeaves(s, PolledWith(cfg, chunkSize, token, s, net), |s.worker.dstFile.content| - pos, chunkSize, net)
  {
    UploadPolledIs(cfg, chunkSize, token, s, net);
    UploadExchangeShape(cfg, chunkSize, s.daemon, s.worker, net);
  }

  lemma UploadUnanswered(cfg: Config, chunkSize: nat, token: string, s: System, net: Net, pos: nat)
    requires UploadAt(s, pos) && Session(s).id != 0 && chunkSize > 0 && LostOnce(net) && net.call.ReplyLost?
    ensures FaultLeaves(s, PolledWith(cfg, chunkSize, token, s, net), |s.worker.dstFile.content| - pos, chunkSize, net)
  {
    var key, chunk := s.worker.conn.value, NextChunk(chunkSize, s.worker.dstFile).0;
    UploadPolledIs(cfg, chunkSize, token, s, net);
    UploadExchangeShape(cfg, chunkSize, s.daemon, s.worker, net);
    assert Accepts(s.daemon, key, chunk);
    WriteShape(cfg, s.daemon, key, chunk, None);
  }

  /** After one lost call an upload that goes on without faults starts again and ends, exactly if the call was
      not that of the last chunk and the length is no multiple of the chunk size. On the last chunk the
      stream has met the end of the file, and is told to go back before it is cleared. */
  lemma UploadRecoversIff(cfg: Config, chunkSize: nat, token: string, s: System, net: Net, pos: nat, nets: seq<Net>)
    requires UploadAt(s, pos) && Session(s).id != 0 && chunkSize > 0 && pos % chunkSize == 0 && LostOnce(net)
    requires |nets| > |s.worker.dstFile.content| && forall n | n in nets :: Smooth(n)
    ensures UploadPolls(cfg, chunkSize, token, PolledWith(cfg, chunkSize, token, s, net), nets).worker.main
         == if |s.worker.dstFile.content| - pos > chunkSize && |s.worker.dstFile.content| % chunkSize != 0
            then Idle else Transmitting
  {
    var length := |s.worker.dstFile.content|;
    LastChunkIs(length, chunkSize);
    if length == pos + chunkSize {
      OneMoreWhole(pos, chunkSize);
    }
    UploadFault(cfg, chunkSize, token, s, net, pos);
    AfterFault(cfg, chunkSize, token, s, PolledWith(cfg, chunkSize, token, s, net), net, length - pos, nets);
  }

  lemma OneMoreWhole(pos: nat, c: nat)
    requires c > 0 && pos % c == 0
    ensures (pos + c) % c == 0
  {
    QuotientIs(pos + c, c, pos / c + 1, 0);
  }

  lemma AfterFault(cfg: Config, chunkSize: nat, token: string, s: System, t: System, net: Net, left: nat,
                   nets: seq<Net>)
    requires FaultLeaves(s, t, left, chunkSize, net) && chunkSize > 0
    requires left == chunkSize ==> LastChunk(|s.worker.dstFile.content|, chunkSize) == 0
    requires |nets| > |s.worker.dstFile.content| && forall n | n in nets :: Smooth(n)
    ensures UploadPolls(cfg, chunkSize, token, t, nets).worker.main
         == if left > chunkSize && LastChunk(|s.worker.dstFile.content|, chunkSize) != 0 then Idle else Transmitting
  {
    if left <= chunkSize && net.call.ReplyLost? {
      RefusedForGood(cfg, chunkSize, token, t, nets);
    } else if left < chunkSize {
      SpentForGood(cfg, chunkSize, token, t, nets);
    } else {
      UploadGoesOn(cfg, chunkSize, token, t, nets, 0);
    }
  }

  /* ---- a worker told to stop ---- */

  /** A worker that is told to stop while it fetches, and whose last call gets through, gives its file back:
      nobody holds it, and it can be handed out again. */
  lemma StopGivesBack(cfg: Config, chunkSize: nat, token: string, s: System, net: Net, maxSize: nat)
    requires SystemInv(cfg, s) && s.worker.main == Receiving && s.worker.stopRequested && !s.worker.finished
    requires s.worker.conn.Some? && s.worker.conn.value in s.daemon.connections
    requires net.connected && !net.abort.RequestLost?
    ensures var t, id := PolledWith(cfg, chunkSize, token, s, net), FileOf(s);
            && t.worker.finished && id != 0 && id in t.daemon.db.sources && !Held(t.daemon, id)
            && (Eligible(t.daemon.db, maxSize, id) <==> t.daemon.db.sources[id].size <= maxSize)
  {
    var key, id := s.worker.conn.value, FileOf(s);
    assert SessionNamed(s.daemon.db, s.daemon.connections[key]);
    assert IsReset(s.daemon, Abort(key), id);
    HeldAfterStep(cfg, s.daemon, Abort(key), id);
    RowAfterStep(cfg, s.daemon, Abort(key), id);
    assert PolledWith(cfg, chunkSize, token, s, net).daemon == Step(cfg, s.daemon, Abort(key));
  }

  /* ---- fetches ---- */

  /** The polls of a fetching worker with nobody else at its session, through whatever happens to its calls,
      thrown or not. */
  ghost function FetchPolls(cfg: Config, chunkSize: nat, token: string, s: System, nets: seq<Net>): System
    decreases |nets|
  {
    if nets == [] || s.worker.main != Receiving then s
    else FetchPolls(cfg, chunkSize, token, PolledWith(cfg, chunkSize, token, s, nets[0]), nets[1..])
  }

  lemma FetchPolledIs(cfg: Config, chunkSize: nat, token: string, s: System, net: Net)
    requires s.worker.main == Receiving && !s.worker.stopRequested && !s.worker.shutdown
    ensures var (d, env) := FetchExchange(cfg, s.daemon, s.worker, net);
            var t := PolledWith(cfg, chunkSize, token, s, net);
            t.daemon == d && t.worker == AfterReceive(s.worker, env).0 && t.source == s.source
  {
  }

  /** The server stands at `sent` of the source, the worker at `got` of its copy. */
  predicate FetchAt(s: System, sent: nat, got: nat)
  {
    && Polling(s, Receiving) && !s.worker.stopRequested
    && s.worker.srcFile.Some? && s.worker.srcFile.value.pos == got <= |s.worker.srcFile.value.content|
    && Session(s).inFile == Some(InFile(s.source, sent)) && sent <= |s.source|
    && Session(s).fileLength == s.worker.settings.fileLength > 0
  }

  /** Some bytes arrive. */
  lemma FetchOn(cfg: Config, chunkSize: nat, token: string, s: System, sent: nat, got: nat, net: Net) returns (n: nat)
    requires FetchAt(s, sent, got) && sent < |s.source| && cfg.chunkSize > 0 && Smooth(net)
    ensures var t := PolledWith(cfg, chunkSize, token, s, net);
            && n > 0 && (net.available == 1 ==> n == 1)
            && FetchAt(t, sent + n, got + n) && t.source == s.source && t.worker.settings == s.worker.settings
            && (|s.worker.srcFile.value.content| == got ==> |t.worker.srcFile.value.content| == got + n)
  {
    FetchPolledIs(cfg, chunkSize, token, s, net);
    FetchExchangeShape(cfg, s.daemon, s.worker, net);
    n := ChunkReadShape(cfg, s.daemon, s.worker.conn.value, net.available);
  }

  /** The server is through: the worker takes its copy for complete, or both rewind. */
  lemma FetchLast(cfg: Config, chunkSize: nat, token: string, s: System, got: nat, net: Net)
    requires FetchAt(s, |s.source|, got) && Smooth(net)
    ensures var t := PolledWith(cfg, chunkSize, token, s, net);
            if got == s.worker.settings.fileLength then t.worker.main == WaitForEncodingFinished
            else FetchAt(t, 0, 0) && t.source == s.source && t.worker.settings == s.worker.settings
  {
    FetchPolledIs(cfg, chunkSize, token, s, net);
    FetchExchangeShape(cfg, s.daemon, s.worker, net);
    var n := ChunkReadShape(cfg, s.daemon, s.worker.conn.value, net.available);
  }

  /** Without a copy to write to, or with a server that sends nothing, no fetch ends. */
  ghost predicate Starved(cfg: Config, s: System)
  {
    && SystemInv(cfg, s) && s.worker.main == Receiving
    && !s.worker.stopRequested && !s.worker.shutdown && !s.worker.finished
    && (s.worker.srcFile.None? || cfg.chunkSize == 0)
  }

  /** A poll of a fetching worker that goes on fetching. */
  lemma FetchInvStep(cfg: Config, chunkSize: nat, token: string, s: System, net: Net)
    requires SystemInv(cfg, s) && s.worker.main == Receiving && !s.worker.stopRequested && !s.worker.finished
    ensures var t := PolledWith(cfg, chunkSize, token, s, net);
            && SystemInv(cfg, t) && t.source == s.source
            && t.worker == AfterReceive(s.worker, FetchExchange(cfg, s.daemon, s.worker, net).1).0
            && (t.worker.main == Receiving ==>
                  && !t.worker.finished && !t.worker.stopRequested && !t.worker.shutdown
                  && t.worker.settings == s.worker.settings)
  {
    SystemInvStep(cfg, chunkSize, token, s, Poll(net));
    FetchPolledIs(cfg, chunkSize, token, s, net);
    FetchingOn(s.worker, FetchExchange(cfg, s.daemon, s.worker, net).1);
  }

  lemma FetchingOn(w: Worker, env: Env)
    requires w.main == Receiving && !w.stopRequested && !w.shutdown && !w.finished
    ensures var v := AfterReceive(w, env).0;
            v.main == Receiving ==> !v.finished && !v.stopRequested && !v.shutdown && v.settings == w.settings
  {
  }

  lemma StarvedStep(cfg: Config, chunkSize: nat, token: string, s: System, net: Net)
    requires Starved(cfg, s)
    ensures Starved(cfg, PolledWith(cfg, chunkSize, token, s, net))
  {
    FetchInvStep(cfg, chunkSize, token, s, net);
    StarvedRead(cfg, s.daemon, s.worker, s.source, net);
  }

  lemma StarvedRead(cfg: Config, d: State, w: Worker, source: Bytes, net: Net)
    requires w.main == Receiving && !w.stopRequested && w.conn.Some? && (w.srcFile.None? || cfg.chunkSize == 0)
    requires w.conn.value in d.connections ==> Fetching(cfg, d.connections[w.conn.value], w, source)
    ensures var v := AfterReceive(w, FetchExchange(cfg, d, w, net).1).0;
            v.main == Receiving && (w.srcFile.None? ==> v.srcFile.None?)
  {
    FetchExchangeShape(cfg, d, w, net);
    if w.conn.value in d.connections {
      var n := ChunkReadShape(cfg, d, w.conn.value, net.available);
    }
  }

  lemma {:induction false} StarvedForGood(cfg: Config, chunkSize: nat, token: string, s: System, nets: seq<Net>)
    requires Starved(cfg, s)
    ensures Starved(cfg, FetchPolls(cfg, chunkSize, token, s, nets))
    decreases |nets|
  {
    if nets != [] {
      StarvedStep(cfg, chunkSize, token, s, nets[0]);
      StarvedForGood(cfg, chunkSize, token, PolledWith(cfg, chunkSize, token, s, nets[0]), nets[1..]);
    }
  }

  /** The poll that takes a file leaves both sides at the beginning. */
  lemma FetchBegins(cfg: Config, chunkSize: nat, token: string, s: System, net: Net)
    requires SystemInv(cfg, s) && !s.worker.finished && s.worker.main == Idle
    requires var t := PolledWith(cfg, chunkSize, token, s, net); t.worker.main == Receiving && !t.worker.finished
    ensures var t := PolledWith(cfg, chunkSize, token, s, net);
            && !t.worker.stopRequested && !t.worker.shutdown
            && (t.worker.srcFile.Some? ==> FetchAt(t, 0, 0) && t.worker.srcFile.value.content == [])
  {
    var (d, env) := RequestExchange(cfg, s.daemon, s.worker, net);
    TransferPolls(chunkSize, s.worker, env);
    IdleShape(s.worker, env);
    HandedOpen(s.daemon, KeyAfterConnect(s.worker, net).value, net.pick, net.content);
  }

  lemma {:induction false} FetchGoesOn(cfg: Config, chunkSize: nat, token: string, s: System, nets: seq<Net>, pos: nat)
    requires FetchAt(s, pos, pos) && cfg.chunkSize > 0 && forall net | net in nets :: Smooth(net)
    ensures var main := FetchPolls(cfg, chunkSize, token, s, nets).worker.main;
            if |s.source| != s.worker.settings.fileLength then main == Receiving
            else |nets| > |s.source| - pos ==> main == WaitForEncodingFinished
    decreases |nets|
  {
    if nets != [] {
      var t := PolledWith(cfg, chunkSize, token, s, nets[0]);
      if pos < |s.source| {
        var n := FetchOn(cfg, chunkSize, token, s, pos, pos, nets[0]);
        FetchGoesOn(cfg, chunkSize, token, t, nets[1..], pos + n);
      } else {
        FetchLast(cfg, chunkSize, token, s, pos, nets[0]);
        if pos != s.worker.settings.fileLength {
          FetchGoesOn(cfg, chunkSize, token, t, nets[1..], 0);
        }
      }
    }
  }

  /** A poll of a run that takes a file. */
  ghost predicate StartsFetch(cfg: Config, chunkSize: nat, token: string, db: Tables, run: seq<SystemEvent>, net: Net)
  {
    && IsSystemRun(cfg, chunkSize, token, NewSystem(db), run)
    && var s := SystemAfter(cfg, chunkSize, token, NewSystem(db), run);
       var t := PolledWith(cfg, chunkSize, token, s, net);
       && SystemEnabled(chunkSize, token, s, Poll(net)) && s.worker.main == Idle
       && t.worker.main == Receiving && !t.worker.finished
  }

  ghost function Begun(cfg: Config, chunkSize: nat, token: string, db: Tables, run: seq<SystemEvent>, net: Net): System
  {
    PolledWith(cfg, chunkSize, token, SystemAfter(cfg, chunkSize, token, NewSystem(db), run), net)
  }

  lemma BegunIs(cfg: Config, chunkSize: nat, token: string, db: Tables, run: seq<SystemEvent>, net: Net)
    requires Valid(db) && StartsFetch(cfg, chunkSize, token, db, run, net)
    ensures var t := Begun(cfg, chunkSize, token, db, run, net);
            && SystemInv(cfg, t) && !t.worker.stopRequested && !t.worker.shutdown
            && (t.worker.srcFile.Some? ==> FetchAt(t, 0, 0) && t.worker.srcFile.value.content == [])
  {
    NewSystemInv(cfg, db);
    SystemInvAlways(cfg, chunkSize, token, NewSystem(db), run);
    var s := SystemAfter(cfg, chunkSize, token, NewSystem(db), run);
    SystemInvStep(cfg, chunkSize, token, s, Poll(net));
    FetchBegins(cfg, chunkSize, token, s, net);
  }

  /** In every run: with every call answered from then on, a fetch is over after as many polls as the source
      has bytes and one more, or never; it ends exactly when the copy can be written, the server sends
      anything at all, and the source is as long as recorded. */
  lemma FetchEndsIff(cfg: Config, chunkSize: nat, token: string, db: Tables, run: seq<SystemEvent>, net: Net,
                     nets: seq<Net>)
    requires Valid(db) && StartsFetch(cfg, chunkSize, token, db, run, net)
    requires |nets| > |Begun(cfg, chunkSize, token, db, run, net).source| && forall n | n in nets :: Smooth(n)
    ensures var t := Begun(cfg, chunkSize, token, db, run, net);
            FetchPolls(cfg, chunkSize, token, t, nets).worker.main
            == if t.worker.srcFile.Some? && cfg.chunkSize > 0 && |t.source| == t.worker.settings.fileLength
               then WaitForEncodingFinished else Receiving
  {
    var t := Begun(cfg, chunkSize, token, db, run, net);
    BegunIs(cfg, chunkSize, token, db, run, net);
    if t.worker.srcFile.None? || cfg.chunkSize == 0 {
      StarvedForGood(cfg, chunkSize, token, t, nets);
    } else {
      FetchGoesOn(cfg, chunkSize, token, t, nets, 0);
    }
  }

  /* ---- wrong copies ---- */

  ghost predicate EndsFetch(cfg: Config, chunkSize: nat, token: string, s: System, net: Net)
  {
    s.worker.main == Receiving && PolledWith(cfg, chunkSize, token, s, net).worker.main == WaitForEncodingFinished
  }

  /** If the poll with `net` after those with `nets` ends the fetch, it does so with the source. */
  ghost predicate GivesSource(cfg: Config, chunkSize: nat, token: string, s: System, nets: seq<Net>, net: Net)
  {
    var t := FetchPolls(cfg, chunkSize, token, s, nets);
    EndsFetch(cfg, chunkSize, token, t, net) ==> t.worker.srcFile.Some? && t.worker.srcFile.value.content == s.source
  }

  /** No sequence of faults makes the worker take a wrong copy for the source. */
  ghost predicate FetchSafe(cfg: Config, chunkSize: nat, token: string, s: System)
  {
    forall nets, net :: GivesSource(cfg, chunkSize, token, s, nets, net)
  }

  const TAKE := Net(true, Refused, Answered, Answered, RequestLost(false), 0, None, false, 1, false,
                    false, false, Encoder(false, 0, false, 0, 0, None), None)
  const LOSE := TAKE.(call := ReplyLost(false), reset := RequestLost(false))

  /** A byte is read and the answer lost, and so is the call to rewind. */
  lemma LoseOne(cfg: Config, chunkSize: nat, token: string, s: System, sent: nat)
    requires FetchAt(s, sent, 0) && sent < |s.source| && cfg.chunkSize > 0
    ensures var t := PolledWith(cfg, chunkSize, token, s, LOSE);
            && FetchAt(t, sent + 1, 0) && t.source == s.source && t.worker.settings == s.worker.settings
            && t.worker.srcFile == s.worker.srcFile
  {
    FetchPolledIs(cfg, chunkSize, token, s, LOSE);
    FetchExchangeShape(cfg, s.daemon, s.worker, LOSE);
  }

  /** Lose the first bytes of a source that has outgrown its length, take the rest, and end with a copy
      that is too short. */
  lemma {:induction false} Misread(cfg: Config, chunkSize: nat, token: string, s: System, sent: nat, got: nat)
    returns (nets: seq<Net>)
    requires FetchAt(s, sent, got) && |s.worker.srcFile.value.content| == got && cfg.chunkSize > 0
    requires got == 0 || |s.source| - sent + got == s.worker.settings.fileLength
    requires |s.source| - sent + got >= s.worker.settings.fileLength
    ensures var t := FetchPolls(cfg, chunkSize, token, s, nets);
            && EndsFetch(cfg, chunkSize, token, t, TAKE)
            && t.worker.srcFile.Some? && |t.worker.srcFile.value.content| == s.worker.settings.fileLength
    decreases |s.source| - sent
  {
    if |s.source| - sent + got > s.worker.settings.fileLength {
      LoseOne(cfg, chunkSize, token, s, sent);
      var rest := Misread(cfg, chunkSize, token, PolledWith(cfg, chunkSize, token, s, LOSE), sent + 1, 0);
      nets := [LOSE] + rest;
      assert nets[1..] == rest;
    } else if sent < |s.source| {
      var n := FetchOn(cfg, chunkSize, token, s, sent, got, TAKE);
      var rest := Misread(cfg, chunkSize, token, PolledWith(cfg, chunkSize, token, s, TAKE), sent + n, got + n);
      nets := [TAKE] + rest;
      assert nets[1..] == rest;
    } else {
      FetchLast(cfg, chunkSize, token, s, got, TAKE);
      nets := [];
    }
  }

  lemma {:induction false} FetchInvAlways(cfg: Config, chunkSize: nat, token: string, s: System, nets: seq<Net>)
    requires SystemInv(cfg, s) && s.worker.main == Receiving && !s.worker.stopRequested && !s.worker.finished
    ensures var t := FetchPolls(cfg, chunkSize, token, s, nets);
            && t.source == s.source
            && (t.worker.main == Receiving ==>
                  && SystemInv(cfg, t) && !t.worker.finished && !t.worker.stopRequested
                  && t.worker.settings == s.worker.settings)
    decreases |nets|
  {
    if nets != [] {
      var t := PolledWith(cfg, chunkSize, token, s, nets[0]);
      FetchInvStep(cfg, chunkSize, token, s, nets[0]);
      if t.worker.main == Receiving {
        FetchInvAlways(cfg, chunkSize, token, t, nets[1..]);
      }
    }
  }

  /** In every run: if polls go on after they have thrown, a fetch is safe from wrong copies exactly when
      nothing can be copied at all, or the source is not longer than the length it was handed out with. */
  lemma FetchSafeIff(cfg: Config, chunkSize: nat, token: string, db: Tables, run: seq<SystemEvent>, net: Net)
    requires Valid(db) && StartsFetch(cfg, chunkSize, token, db, run, net)
    ensures var t := Begun(cfg, chunkSize, token, db, run, net);
            FetchSafe(cfg, chunkSize, token, t)
            <==> t.worker.srcFile.None? || cfg.chunkSize == 0 || |t.source| <= t.worker.settings.fileLength
  {
    var t := Begun(cfg, chunkSize, token, db, run, net);
    BegunIs(cfg, chunkSize, token, db, run, net);
    if t.worker.srcFile.None? || cfg.chunkSize == 0 || |t.source| <= t.worker.settings.fileLength {
      forall nets, last ensures GivesSource(cfg, chunkSize, token, t, nets, last) {
        SafeFetch(cfg, chunkSize, token, t, nets, last);
      }
    } else {
      var nets := Misread(cfg, chunkSize, token, t, 0, 0);
      assert !GivesSource(cfg, chunkSize, token, t, nets, TAKE);
    }
  }

  lemma SafeFetch(cfg: Config, chunkSize: nat, token: string, s: System, nets: seq<Net>, net: Net)
    requires SystemInv(cfg, s) && s.worker.main == Receiving
    requires !s.worker.stopRequested && !s.worker.shutdown && !s.worker.finished
    requires s.worker.srcFile.None? || cfg.chunkSize == 0 || |s.source| <= s.worker.settings.fileLength
    ensures GivesSource(cfg, chunkSize, token, s, nets, net)
  {
    var t := FetchPolls(cfg, chunkSize, token, s, nets);
    if s.worker.srcFile.None? || cfg.chunkSize == 0 {
      StarvedForGood(cfg, chunkSize, token, s, nets);
      StarvedStep(cfg, chunkSize, token, t, net);
    } else {
      FetchInvAlways(cfg, chunkSize, token, s, nets);
      if EndsFetch(cfg, chunkSize, token, t, net) {
        FetchedExactly(cfg, t.daemon, t.worker, t.source, true, net);
      }
    }
  }
}
