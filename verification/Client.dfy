/** The worker: one poll after another it fetches a file, encodes it, announces the result and uploads it. */
module Client {

  import opened Wrappers
  import opened Database
  import opened Daemon

  datatype MainState =
    | Idle | WaitForReconnect | WaitForConnect | WaitForFileCheck | Authenticateing
    | Receiving | WaitForEncodingFinished | SendResult | Transmitting

  /** m_srcFile while it is open. */
  datatype LocalCopy = LocalCopy(content: Bytes, pos: nat)

  /** m_dstFile with the state bits of an ifstream. */
  datatype InStream = InStream(isOpen: bool, content: Bytes, pos: nat, eof: bool, fail: bool)

  /** MediaEncoderSettings, as far as the client looks at them. */
  datatype Settings = Settings(fileLength: nat, hasCrf: bool)

  /** A worker; `conn` is the session key of m_rpc at the server, `finished` says that poll returned 1. */
  datatype Worker = Worker(
    main: MainState, prev: MainState, authenticated: bool, conn: Option<nat>,
    srcFile: Option<LocalCopy>, dstFile: InStream, settings: Settings, passNo: nat, encResult: ResultInfo,
    stopRequested: bool, shutdown: bool, finished: bool)

  const NEW_WORKER := Worker(Idle, Idle, false, None, None, InStream(false, [], 0, false, false), Settings(0, false), 0,
                             NO_RESULT, false, false, false)

  const UNKNOWN_ERROR: int8 := -50

  /** How a call to the server ends: rpc::timeout and rpc::rpc_error refuse, rpc::system_error breaks. */
  datatype Answer<+T> = Value(value: T) | Refused | Broken

  /** What the encoder and the probes come up with: the exit code of the process, whether pass 1 left its
      log, the durations probed, and the output file. */
  datatype Encoder = Encoder(ended: bool, retcode: int, logFound: bool, lenOut: int, lenIn: int, output: Option<Bytes>)

  /** All that one poll may learn from outside. */
  datatype Env = Env(
    connected: bool, connect: Answer<nat>, auth: Answer<()>, next: Answer<Settings>, srcOpens: bool,
    read: Answer<(bool, Bytes)>, reset: Answer<()>, post: Answer<()>, write: Answer<bool>,
    elapsed: bool, encoder: Encoder)

  /* ---- the parts of a poll, as functions ---- */

  predicate MustConnect(c: Worker, env: Env) { c.conn.None? || !env.connected }

  /** checkCreateRpc throws when a connection is needed and none is made. */
  predicate ConnectFails(c: Worker, env: Env) { MustConnect(c, env) && !env.connect.Value? }

  function Connected(c: Worker, env: Env): Worker
  {
    if MustConnect(c, env) && env.connect.Value? then c.(conn := Some(env.connect.value)) else c
  }

  function Disconnected(c: Worker): Worker { c.(conn := None, authenticated := false) }

  function CleanedUp(c: Worker): Worker { c.(srcFile := None, dstFile := c.dstFile.(isOpen := false)) }

  function GoTo(c: Worker, next: MainState): Worker
  {
    if next != c.main then c.(prev := c.main, main := next) else c
  }

  function AfterIdle(c: Worker, env: Env): Worker
  {
    if c.stopRequested then c.(shutdown := true)
    else if ConnectFails(c, env) then GoTo(c, WaitForReconnect)
    else
      var w := Connected(c, env);
      if !w.authenticated then GoTo(w, Authenticateing)
      else if !env.next.Value? then GoTo(w, WaitForReconnect)
      else
        var set_ := w.(settings := env.next.value);
        if env.next.value.fileLength > 0
        then GoTo(set_.(srcFile := if env.srcOpens then Some(LocalCopy([], 0)) else None), Receiving)
        else GoTo(Disconnected(set_), WaitForFileCheck)
  }

  function AfterAuth(c: Worker, env: Env): Worker
  {
    if c.stopRequested then c.(shutdown := true)
    else
      var w := Connected(c.(authenticated := false), env);
      var outcome := if ConnectFails(c, env) then (if env.connect.Refused? then Refused else Broken) else env.auth;
      match outcome
      case Value(_) => w.(authenticated := true, main := w.prev)
      case Refused => w
      case Broken => w.(prev := Idle, main := WaitForReconnect)
  }

  /** write() at the current position. */
  function Stored(f: LocalCopy, data: Bytes): LocalCopy
  {
    if f.pos <= |f.content| then LocalCopy(Overwrite(f.content, f.pos, data), f.pos + |data|) else f
  }

  function Received(c: Worker, data: Bytes): Worker
  {
    if c.srcFile.Some? then c.(srcFile := Some(Stored(c.srcFile.value, data))) else c
  }

  predicate ReachedEnd(c: Worker) { c.srcFile.Some? && c.srcFile.value.pos == c.settings.fileLength }

  function Fetched(c: Worker): Worker
  {
    Disconnected(c.(srcFile := None)).(
      encResult := ResultInfo(UNKNOWN_ERROR, 0, ""), passNo := if c.settings.hasCrf then 2 else 1,
      main := WaitForEncodingFinished)
  }

  function RewoundCopy(c: Worker): Worker
  {
    if c.srcFile.Some? then c.(srcFile := Some(c.srcFile.value.(pos := 0))) else c
  }

  /** The chunk, and what an end of file or a fault makes of it. The second value tells whether the call
      of reset in the fault handler threw: then poll throws. */
  function AfterReceive(c: Worker, env: Env): (Worker, bool)
  {
    if c.stopRequested then (c.(shutdown := true), false)
    else
      var got := if env.read.Value? then Received(c, env.read.value.1) else c;
      if env.read.Value? && env.read.value.0 then (got, false)
      else if env.read.Value? && ReachedEnd(got) then (Fetched(got), false)
      else (RewoundCopy(got), !env.reset.Value?)
  }

  function Failed(c: Worker): Worker { c.(encResult := c.encResult.(result := UNKNOWN_ERROR)) }

  function Abs(x: int): int { if x < 0 then -x else x }

  /** Opening a stream that is still open fails and leaves it open; ignore() then counts nothing. */
  function Announced(c: Worker, output: Bytes): Worker
  {
    if c.dstFile.isOpen
    then c.(dstFile := c.dstFile.(fail := true), encResult := ResultInfo(OK, 0, ""))
    else c.(dstFile := InStream(true, output, |output|, true, false), encResult := ResultInfo(OK, |output|, ""))
  }

  function AfterConvert(c: Worker, enc: Encoder): Worker
  {
    if !enc.ended && !c.shutdown then c
    else if c.shutdown || enc.retcode != 0 then Failed(c).(main := SendResult)
    else if c.passNo == 1 then
      if enc.logFound then c.(passNo := 2) else Failed(c).(main := SendResult)
    else if enc.lenOut <= 0 || Abs(enc.lenOut - enc.lenIn) > 1 || (enc.output.None? && !c.dstFile.isOpen)
    then Failed(c).(main := SendResult)
    else Announced(c, if enc.output.Some? then enc.output.value else []).(main := SendResult)
  }

  /** seekg(0) forgets an end of file but not a failure, and does not move a failed stream; clear() follows. */
  function SoughtThenCleared(f: InStream): InStream
  {
    f.(pos := if f.fail then f.pos else 0, eof := false, fail := false)
  }

  function AfterSendResult(c: Worker, env: Env): Worker
  {
    if ConnectFails(c, env) then c.(prev := c.main, main := WaitForReconnect)
    else
      var w := Connected(c, env);
      if !w.authenticated then w.(prev := w.main, main := Authenticateing)
      else if !env.post.Value? then w.(prev := w.main, main := WaitForReconnect)
      else if Uploads(w.encResult) then w.(dstFile := SoughtThenCleared(w.dstFile), main := Transmitting)
      else CleanedUp(w).(main := Idle)
  }

  /** read() of a chunk: what it yields, and the stream behind it. */
  function NextChunk(chunkSize: nat, f: InStream): (Bytes, InStream)
  {
    if f.eof || f.fail then ([], f.(fail := true))
    else if !f.isOpen || f.pos > |f.content| then ([], f.(eof := true, fail := true))
    else
      var left := |f.content| - f.pos;
      if left < chunkSize then (f.content[f.pos..], f.(pos := |f.content|, eof := true, fail := true))
      else (f.content[f.pos..f.pos + chunkSize], f.(pos := f.pos + chunkSize))
  }

  function AfterTransmit(chunkSize: nat, c: Worker, env: Env): (Worker, bool)
  {
    var w := c.(dstFile := NextChunk(chunkSize, c.dstFile).1);
    if env.write.Value? && !w.dstFile.eof then (w, false)
    else if env.write.Value? && !env.write.value then (CleanedUp(w).(main := Idle), false)
    else if env.reset.Value? then (w.(dstFile := SoughtThenCleared(w.dstFile)), false)
    else (w, true)
  }

  function AfterWait(c: Worker, elapsed: bool): Worker
  {
    if c.stopRequested && c.prev == Idle then c.(shutdown := true)
    else if elapsed then c.(main := c.prev)
    else c
  }

  function Dispatched(chunkSize: nat, c: Worker, env: Env): (Worker, bool)
  {
    match c.main
    case Idle => (AfterIdle(c, env), false)
    case Authenticateing => (AfterAuth(c, env), false)
    case Receiving => AfterReceive(c, env)
    case WaitForConnect => (AfterWait(c, env.elapsed), false)
    case WaitForFileCheck => (AfterWait(c, env.elapsed), false)
    case WaitForReconnect => (AfterWait(c, env.elapsed), false)
    case WaitForEncodingFinished => (AfterConvert(c, env.encoder), false)
    case SendResult => (AfterSendResult(c, env), false)
    case Transmitting => AfterTransmit(chunkSize, c, env)
  }

  /** One poll, and whether it threw. */
  function Polled(chunkSize: nat, c: Worker, env: Env): (Worker, bool)
  {
    var (w, thrown) := Dispatched(chunkSize, c, env);
    if thrown || !w.shutdown then (w, thrown)
    else (CleanedUp(Disconnected(w)).(finished := true), false)
  }

  /** What a worker asks of the server in a poll, apart from connecting. */
  predicate RequestsFile(c: Worker, env: Env)
  {
    c.main == Idle && !c.stopRequested && !ConnectFails(c, env) && c.authenticated
  }

  predicate PostsResult(c: Worker, env: Env)
  {
    c.main == SendResult && !ConnectFails(c, env) && c.authenticated
  }

  /** MediaArchiverClient. Every method is told by `env` what it would learn from the server, from the
      encoder and from the clock. */
  class MediaArchiverClient {
    const chunkSize: nat
    var main: MainState
    var prev: MainState
    var authenticated: bool
    var conn: Option<nat>
    var srcFile: Option<LocalCopy>
    var dstFile: InStream
    var settings: Settings
    var passNo: nat
    var encResult: ResultInfo
    var stopRequested: bool
    var shutdown: bool
    var finished: bool

    ghost function Contents(): Worker
      reads this
    {
      Worker(main, prev, authenticated, conn, srcFile, dstFile, settings, passNo, encResult, stopRequested,
             shutdown, finished)
    }

    constructor (chunkSize: nat)
      ensures Contents() == NEW_WORKER && this.chunkSize == chunkSize
    {
      this.chunkSize := chunkSize;
      main, prev, authenticated, conn, srcFile := Idle, Idle, false, None, None;
      dstFile := InStream(false, [], 0, false, false);
      settings, passNo, encResult := Settings(0, false), 0, NO_RESULT;
      stopRequested, shutdown, finished := false, false, false;
    }

    method Stop(forced: bool)
      modifies this
      ensures Contents() == old(Contents()).(stopRequested := true, shutdown := old(shutdown) || forced)
    {
      stopRequested := true;
      if forced {
        shutdown := true;
      }
    }

    method CheckCreateRpc(env: Env) returns (thrown: bool)
      modifies this`conn
      ensures thrown == ConnectFails(old(Contents()), env)
      ensures Contents() == Connected(old(Contents()), env)
    {
      thrown := false;
      if conn.None? || !env.connected {
        match env.connect {
          case Value(key) => conn := Some(key);
          case _ => thrown := true;
        }
      }
    }

    method Disconnect()
      modifies this`conn, this`authenticated
      ensures Contents() == Disconnected(old(Contents()))
    {
      conn := None;
      authenticated := false;
    }

    method CleanUp()
      modifies this`srcFile, this`dstFile
      ensures Contents() == CleanedUp(old(Contents()))
    {
      if srcFile.Some? {
        srcFile := None;
      }
      if dstFile.isOpen {
        dstFile := dstFile.(isOpen := false);
      }
    }

    method DoIdle(env: Env)
      requires main == Idle
      modifies this
      ensures Contents() == AfterIdle(old(Contents()), env)
    {
      if stopRequested {
        shutdown := true;
        return;
      }
      var next := main;
      var thrown := CheckCreateRpc(env);
      if thrown {
        next := WaitForReconnect;
      } else if !authenticated {
        next := Authenticateing;
      } else {
        match env.next {
          case Value(received) =>
            settings := received;
            if received.fileLength > 0 {
              next := Receiving;
              srcFile := if env.srcOpens then Some(LocalCopy([], 0)) else None;
            } else {
              Disconnect();
              next := WaitForFileCheck;
            }
          case _ => next := WaitForReconnect;
        }
      }
      if next != main {
        prev := main;
        main := next;
      }
    }

    method DoAuth(env: Env)
      modifies this
      ensures Contents() == AfterAuth(old(Contents()), env)
    {
      if stopRequested {
        shutdown := true;
        return;
      }
      authenticated := false;
      var thrown := CheckCreateRpc(env);
      var broken := if thrown then !env.connect.Refused? else env.auth.Broken?;
      if !thrown && env.auth.Value? {
        authenticated := true;
        main := prev;
        prev := main;
      } else if broken {
        prev := Idle;
        main := WaitForReconnect;
      }
    }

    method DoReceive(env: Env) returns (thrown: bool)
      modifies this
      ensures (Contents(), thrown) == AfterReceive(old(Contents()), env)
    {
      thrown := false;
      if stopRequested {
        shutdown := true;
        return;
      }
      var fault := false;
      match env.read {
        case Value(answer) =>
          if srcFile.Some? {
            srcFile := Some(Stored(srcFile.value, answer.1));
          }
          if !answer.0 {
            if srcFile.None? || srcFile.value.pos != settings.fileLength {
              fault := true;
            } else {
              srcFile := None;
              Disconnect();
              encResult := ResultInfo(UNKNOWN_ERROR, 0, "");
              passNo := if !settings.hasCrf then 1 else 2;
              main := WaitForEncodingFinished;
            }
          }
        case _ => fault := true;
      }
      if fault {
        if srcFile.Some? {
          srcFile := Some(srcFile.value.(pos := 0));
        }
        thrown := !env.reset.Value?;
      }
    }

    method DoConvert(enc: Encoder)
      modifies this
      ensures Contents() == AfterConvert(old(Contents()), enc)
    {
      if !enc.ended && !shutdown {
        return;
      }
      var changeState := true;
      var retcode := if shutdown then -1 else enc.retcode;
      if retcode == 0 {
        if passNo == 1 {
          if enc.logFound {
            passNo := 2;
            changeState := false;
          } else {
            encResult := encResult.(result := UNKNOWN_ERROR);
          }
        } else if enc.lenOut <= 0 || Abs(enc.lenOut - enc.lenIn) > 1 {
          encResult := encResult.(result := UNKNOWN_ERROR);
        } else {
          OpenOutput(enc.output);
        }
      } else {
        encResult := encResult.(result := UNKNOWN_ERROR);
      }
      if changeState {
        main := SendResult;
      }
    }

    /** open(), is_open(), ignore() and gcount() on the encoder's output. */
    method OpenOutput(output: Option<Bytes>)
      modifies this`dstFile, this`encResult
      ensures Contents() == if output.None? && !old(dstFile).isOpen then Failed(old(Contents()))
                            else Announced(old(Contents()), if output.Some? then output.value else [])
    {
      if dstFile.isOpen {
        dstFile := dstFile.(fail := true);
      } else if output.Some? {
        dstFile := InStream(true, output.value, 0, false, false);
      }
      if !dstFile.isOpen {
        encResult := encResult.(result := UNKNOWN_ERROR);
        return;
      }
      var counted := 0;
      if !dstFile.fail {
        counted := |dstFile.content|;
        dstFile := dstFile.(pos := counted, eof := true);
      }
      encResult := ResultInfo(OK, counted, "");
    }

    method DoSendResult(env: Env)
      modifies this
      ensures Contents() == AfterSendResult(old(Contents()), env)
    {
      var thrown := CheckCreateRpc(env);
      if thrown {
        prev := main;
        main := WaitForReconnect;
      } else if !authenticated {
        prev := main;
        main := Authenticateing;
      } else if !env.post.Value? {
        prev := main;
        main := WaitForReconnect;
      } else if encResult.result == OK && encResult.fileLength > 0 {
        SeekToBeginning();
        main := Transmitting;
      } else {
        CleanUp();
        main := Idle;
      }
    }

    method SeekToBeginning()
      modifies this`dstFile
      ensures dstFile == SoughtThenCleared(old(dstFile))
    {
      dstFile := dstFile.(eof := false);
      if !dstFile.fail {
        dstFile := dstFile.(pos := 0);
      }
      dstFile := dstFile.(eof := false, fail := false);
    }

    method DoTransmit(env: Env) returns (thrown: bool)
      modifies this
      ensures (Contents(), thrown) == AfterTransmit(chunkSize, old(Contents()), env)
    {
      thrown := false;
      var (chunk, f) := NextChunk(chunkSize, dstFile);
      dstFile := f;
      var fault := false;
      match env.write {
        case Value(more) =>
          if dstFile.eof {
            if more {
              fault := true;
            } else {
              CleanUp();
              main := Idle;
            }
          }
        case _ => fault := true;
      }
      if fault {
        if env.reset.Value? {
          SeekToBeginning();
        } else {
          thrown := true;
        }
      }
    }

    method DoWait(elapsed: bool)
      modifies this
      ensures Contents() == AfterWait(old(Contents()), elapsed)
    {
      if stopRequested && prev == Idle {
        shutdown := true;
        return;
      }
      if elapsed {
        main := prev;
      }
    }

    method Poll(env: Env) returns (thrown: bool)
      modifies this
      ensures (Contents(), thrown) == Polled(chunkSize, old(Contents()), env)
    {
      thrown := false;
      match main {
        case Idle => DoIdle(env);
        case Authenticateing => DoAuth(env);
        case Receiving => thrown := DoReceive(env);
        case WaitForConnect | WaitForFileCheck | WaitForReconnect => DoWait(env.elapsed);
        case WaitForEncodingFinished => DoConvert(env.encoder);
        case SendResult => DoSendResult(env);
        case Transmitting => thrown := DoTransmit(env);
      }
      if !thrown && shutdown {
        Disconnect();
        CleanUp();
        finished := true;
      }
    }
  }
}
