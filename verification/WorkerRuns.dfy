/** What holds of the worker in every run, whatever the server, the network and the encoder answer. */
module WorkerRuns {

  import opened Wrappers
  import opened Database
  import opened Daemon
  import opened Client

  datatype WorkerEvent = Poll(env: Env) | Stop(forced: bool)

  function Next(chunkSize: nat, w: Worker, e: WorkerEvent): Worker
  {
    match e
    case Poll(env) => Polled(chunkSize, w, env).0
    case Stop(forced) => w.(stopRequested := true, shutdown := w.shutdown || forced)
  }

  function After(chunkSize: nat, w: Worker, run: seq<WorkerEvent>): Worker
    decreases |run|
  {
    if run == [] then w else After(chunkSize, Next(chunkSize, w, run[0]), run[1..])
  }

  /** A worker is polled until poll returns 1. */
  ghost predicate IsRun(chunkSize: nat, w: Worker, run: seq<WorkerEvent>)
    decreases |run|
  {
    run == [] || ((run[0].Poll? ==> !w.finished) && IsRun(chunkSize, Next(chunkSize, w, run[0]), run[1..]))
  }

  /* ---- the state machine ---- */

  ghost predicate MachineInv(w: Worker)
  {
    && w.prev in {Idle, SendResult}
    && w.main != WaitForConnect
    && (w.main in {Receiving, Transmitting} && !w.finished ==> w.conn.Some? && w.authenticated)
    && (w.main == WaitForFileCheck ==> w.prev == Idle)
    && (w.shutdown ==> w.stopRequested)
  }

  /** A result is due: on its way to SendResult again, or there. */
  predicate ResultDue(w: Worker)
  {
    w.main == SendResult || (w.main in {Authenticateing, WaitForReconnect} && w.prev == SendResult)
  }

  /** The worker was given a file and has not announced a result for it. */
  predicate Owes(w: Worker)
  {
    w.main in {Receiving, WaitForEncodingFinished} || ResultDue(w)
  }

  predicate TakesFile(w: Worker, e: WorkerEvent)
  {
    e.Poll? && RequestsFile(w, e.env) && e.env.next.Value? && e.env.next.value.fileLength > 0
  }

  predicate Posts(w: Worker, e: WorkerEvent)
  {
    e.Poll? && PostsResult(w, e.env) && e.env.post.Value?
  }

  /** A broken connection while authenticating: the worker goes back to Idle, also with a result due. */
  predicate DropsResult(w: Worker, e: WorkerEvent)
  {
    && e.Poll? && w.main == Authenticateing && w.prev == SendResult && !w.stopRequested
    && (if ConnectFails(w, e.env) then !e.env.connect.Refused? else e.env.auth.Broken?)
  }

  /** The output stream is open exactly while there is an upload to announce or to send, and the length
      announced is its length. */
  predicate OutputInv(w: Worker)
  {
    !w.finished ==>
      && (w.dstFile.isOpen ==> (ResultDue(w) || w.main == Transmitting) && w.encResult.result == OK)
      && (ResultDue(w) && w.encResult.result == OK ==>
            w.dstFile.isOpen && |w.dstFile.content| == w.encResult.fileLength && !w.dstFile.fail)
      && (w.main == Transmitting ==>
            w.dstFile.isOpen && |w.dstFile.content| == w.encResult.fileLength && Uploads(w.encResult))
  }

  /** An upload, announced or under way, is of the open output file and of all of it: in every run. */
  predicate UploadInv(w: Worker)
  {
    !w.finished ==>
      && (w.main == Transmitting ==> Uploads(w.encResult))
      && (Uploads(w.encResult) && (ResultDue(w) || w.main == Transmitting) ==>
            w.dstFile.isOpen && |w.dstFile.content| == w.encResult.fileLength)
      && (Uploads(w.encResult) && ResultDue(w) ==> !w.dstFile.fail)
  }

  /* ---- one event ---- */

  /** The machine stays in shape; a file taken is owed, a result posted or dropped no more; and while none
      is dropped, the output announced is the output there. */
  ghost predicate StepOk(w: Worker, e: WorkerEvent, v: Worker)
  {
    && MachineInv(v)
    && One(Owes(w)) + One(TakesFile(w, e)) == One(Owes(v)) + One(Posts(w, e)) + One(DropsResult(w, e))
    && (OutputInv(w) && !DropsResult(w, e) ==> OutputInv(v))
    && (UploadInv(w) ==> UploadInv(v))
    && StreamOk(w, e, v)
  }

  /** The output stream is opened with a result of OK and closed by cleaning up; a dropped result leaves it. */
  predicate StreamOk(w: Worker, e: WorkerEvent, v: Worker)
  {
    forall stale | StreamInv(w, stale) :: StreamInv(v, StaleAfter(w, e, v, stale))
  }

  /** A worker that goes to Idle from either of these states has cleaned up. */
  predicate CleansUp(w: Worker, v: Worker) { w.main in {SendResult, Transmitting} && v.main == Idle }

  predicate StaleAfter(w: Worker, e: WorkerEvent, v: Worker, stale: bool)
  {
    !CleansUp(w, v) && (stale || (DropsResult(w, e) && w.encResult.result == OK))
  }

  /** The stream is open for the result that is due, or `stale`: left open by one that was dropped. */
  predicate StreamInv(w: Worker, stale: bool)
  {
    !w.finished ==>
      (w.dstFile.isOpen <==> stale || ((ResultDue(w) || w.main == Transmitting) && w.encResult.result == OK))
  }

  lemma IdleOk(w: Worker, env: Env)
    requires MachineInv(w) && !w.finished && w.main == Idle
    ensures StepOk(w, Poll(env), AfterIdle(w, env))
  {
  }

  lemma AuthOk(w: Worker, env: Env)
    requires MachineInv(w) && !w.finished && w.main == Authenticateing
    ensures StepOk(w, Poll(env), AfterAuth(w, env))
  {
  }

  lemma ReceiveOk(w: Worker, env: Env)
    requires MachineInv(w) && !w.finished && w.main == Receiving
    ensures StepOk(w, Poll(env), AfterReceive(w, env).0)
  {
  }

  lemma ConvertOk(w: Worker, env: Env)
    requires MachineInv(w) && !w.finished && w.main == WaitForEncodingFinished
    ensures StepOk(w, Poll(env), AfterConvert(w, env.encoder))
  {
  }

  lemma SendResultOk(w: Worker, env: Env)
    requires MachineInv(w) && !w.finished && w.main == SendResult
    ensures StepOk(w, Poll(env), AfterSendResult(w, env))
  {
  }

  lemma TransmitOk(chunkSize: nat, w: Worker, env: Env)
    requires MachineInv(w) && !w.finished && w.main == Transmitting
    ensures StepOk(w, Poll(env), AfterTransmit(chunkSize, w, env).0)
  {
  }

  lemma WaitOk(w: Worker, env: Env)
    requires MachineInv(w) && !w.finished && w.main in {WaitForReconnect, WaitForFileCheck}
    ensures StepOk(w, Poll(env), AfterWait(w, env.elapsed))
  {
  }

  lemma ShutDownOk(w: Worker, e: WorkerEvent, v: Worker)
    requires StepOk(w, e, v)
    ensures StepOk(w, e, CleanedUp(Disconnected(v)).(finished := true))
  {
  }

  lemma NextOk(chunkSize: nat, w: Worker, e: WorkerEvent)
    requires MachineInv(w) && (e.Poll? ==> !w.finished)
    ensures StepOk(w, e, Next(chunkSize, w, e))
  {
    if e.Poll? {
      DispatchedOk(chunkSize, w, e.env);
      ShutDownOk(w, e, Dispatched(chunkSize, w, e.env).0);
    }
  }

  lemma DispatchedOk(chunkSize: nat, w: Worker, env: Env)
    requires MachineInv(w) && !w.finished
    ensures StepOk(w, Poll(env), Dispatched(chunkSize, w, env).0)
  {
    match w.main
    case Idle => IdleOk(w, env);
    case Authenticateing => AuthOk(w, env);
    case Receiving => ReceiveOk(w, env);
    case WaitForEncodingFinished => ConvertOk(w, env);
    case SendResult => SendResultOk(w, env);
    case Transmitting => TransmitOk(chunkSize, w, env);
    case _ => WaitOk(w, env);
  }

  /* ---- runs ---- */

  /** The worker always falls back to Idle or SendResult, and talks about a file only over a connection it
      has authenticated. */
  lemma {:induction false} MachineInvAlways(chunkSize: nat, w: Worker, run: seq<WorkerEvent>)
    requires MachineInv(w) && IsRun(chunkSize, w, run)
    ensures MachineInv(After(chunkSize, w, run))
    decreases |run|
  {
    if run != [] {
      NextOk(chunkSize, w, run[0]);
      MachineInvAlways(chunkSize, Next(chunkSize, w, run[0]), run[1..]);
    }
  }

  function WorkerCount(chunkSize: nat, w: Worker, run: seq<WorkerEvent>, kind: (Worker, WorkerEvent) -> bool): nat
    decreases |run|
  {
    if run == [] then 0
    else (if kind(w, run[0]) then 1 else 0) + WorkerCount(chunkSize, Next(chunkSize, w, run[0]), run[1..], kind)
  }

  /** Every file taken has had its one result posted, is the one now owed, or was dropped when the
      connection broke during authentication. A worker that takes a file owes none before. */
  lemma {:induction false} OneResultPerFile(chunkSize: nat, w: Worker, run: seq<WorkerEvent>)
    requires MachineInv(w) && IsRun(chunkSize, w, run)
    ensures One(Owes(w)) + WorkerCount(chunkSize, w, run, TakesFile)
         == One(Owes(After(chunkSize, w, run))) + WorkerCount(chunkSize, w, run, Posts)
            + WorkerCount(chunkSize, w, run, DropsResult)
    decreases |run|
  {
    if run != [] {
      NextOk(chunkSize, w, run[0]);
      OneResultPerFile(chunkSize, Next(chunkSize, w, run[0]), run[1..]);
    }
  }

  /** So a new file is requested with every earlier result posted exactly while none has been dropped. */
  lemma PostedBeforeNextRequest(chunkSize: nat, run: seq<WorkerEvent>, env: Env)
    requires IsRun(chunkSize, NEW_WORKER, run) && RequestsFile(After(chunkSize, NEW_WORKER, run), env)
    ensures WorkerCount(chunkSize, NEW_WORKER, run, TakesFile) == WorkerCount(chunkSize, NEW_WORKER, run, Posts)
       <==> WorkerCount(chunkSize, NEW_WORKER, run, DropsResult) == 0
  {
    OneResultPerFile(chunkSize, NEW_WORKER, run);
  }

  /** A result posted as OK announces the length of the open output file, in every run that drops none. */
  lemma {:induction false} OutputInvAlways(chunkSize: nat, w: Worker, run: seq<WorkerEvent>)
    requires MachineInv(w) && OutputInv(w) && IsRun(chunkSize, w, run)
             && WorkerCount(chunkSize, w, run, DropsResult) == 0
    ensures OutputInv(After(chunkSize, w, run))
    decreases |run|
  {
    if run != [] {
      NextOk(chunkSize, w, run[0]);
      OutputInvAlways(chunkSize, Next(chunkSize, w, run[0]), run[1..]);
    }
  }

  /** Whether a result of OK has been dropped since the worker last cleaned up. */
  function Stale(chunkSize: nat, w: Worker, run: seq<WorkerEvent>, stale: bool): bool
    decreases |run|
  {
    if run == [] then stale
    else
      var v := Next(chunkSize, w, run[0]);
      Stale(chunkSize, v, run[1..], StaleAfter(w, run[0], v, stale))
  }

  lemma {:induction false} StreamInvAlways(chunkSize: nat, w: Worker, run: seq<WorkerEvent>, stale: bool)
    requires MachineInv(w) && StreamInv(w, stale) && IsRun(chunkSize, w, run)
    ensures StreamInv(After(chunkSize, w, run), Stale(chunkSize, w, run, stale))
    decreases |run|
  {
    if run != [] {
      var v := Next(chunkSize, w, run[0]);
      NextOk(chunkSize, w, run[0]);
      StreamInvAlways(chunkSize, v, run[1..], StaleAfter(w, run[0], v, stale));
    }
  }

  /** The last pass is through: the encoder exits with 0 and the durations agree. */
  predicate EncodedWell(w: Worker, enc: Encoder)
  {
    && w.main == WaitForEncodingFinished && w.passNo != 1 && !w.shutdown && !w.finished
    && enc.ended && enc.retcode == 0 && enc.lenOut > 0 && Abs(enc.lenOut - enc.lenIn) <= 1
  }

  /** OK with the length of the output, or an error when there is none. */
  predicate AnnouncedRightly(r: ResultInfo, output: Option<Bytes>)
  {
    if output.Some? then r.result == OK && r.fileLength == |output.value| else r.result != OK
  }

  /** The result of an encoding is announced as it is exactly if no result of OK has been dropped since the
      worker last cleaned up, or the output is empty: otherwise the old stream is still open, and opening it
      again goes wrong unnoticed. */
  lemma AnnouncedLength(chunkSize: nat, run: seq<WorkerEvent>, env: Env)
    requires IsRun(chunkSize, NEW_WORKER, run) && EncodedWell(After(chunkSize, NEW_WORKER, run), env.encoder)
    ensures var v := After(chunkSize, NEW_WORKER, run + [Poll(env)]);
            && v.main == SendResult
            && (AnnouncedRightly(v.encResult, env.encoder.output)
                <==> !Stale(chunkSize, NEW_WORKER, run, false) || env.encoder.output == Some([]))
  {
    StreamInvAlways(chunkSize, NEW_WORKER, run, false);
    Extended(chunkSize, NEW_WORKER, run, Poll(env));
  }

  /* ---- which encodings are announced as OK ---- */

  /** A pass of the encoder is over, and well. */
  predicate EndsPass(w: Worker, e: WorkerEvent)
  {
    e.Poll? && w.main == WaitForEncodingFinished && !w.shutdown && e.env.encoder.ended && e.env.encoder.retcode == 0
  }

  function PassesAfter(w: Worker, e: WorkerEvent, passes: nat): nat
  {
    if w.main != WaitForEncodingFinished then 0 else if EndsPass(w, e) then passes + 1 else passes
  }

  /** How many passes over the file it is encoding are over. */
  function Passes(chunkSize: nat, w: Worker, run: seq<WorkerEvent>, passes: nat): nat
    decreases |run|
  {
    if run == [] then passes
    else
      Passes(chunkSize, Next(chunkSize, w, run[0]), run[1..], PassesAfter(w, run[0], passes))
  }

  /** With a -crf in its settings a file is encoded in one pass, otherwise in two. */
  function Needed(settings: Settings): nat { if settings.hasCrf then 1 else 2 }

  predicate PassInv(w: Worker, passes: nat)
  {
    w.main == WaitForEncodingFinished && !w.finished ==>
      w.passNo in {1, 2} && passes + 1 + (2 - w.passNo) == Needed(w.settings)
  }

  lemma PassStep(chunkSize: nat, w: Worker, e: WorkerEvent, passes: nat)
    requires MachineInv(w) && PassInv(w, passes) && (e.Poll? ==> !w.finished)
    ensures PassInv(Next(chunkSize, w, e), PassesAfter(w, e, passes))
  {
  }

  lemma {:induction false} PassInvAlways(chunkSize: nat, w: Worker, run: seq<WorkerEvent>, passes: nat)
    requires MachineInv(w) && PassInv(w, passes) && IsRun(chunkSize, w, run)
    ensures PassInv(After(chunkSize, w, run), Passes(chunkSize, w, run, passes))
    decreases |run|
  {
    if run != [] {
      NextOk(chunkSize, w, run[0]);
      PassStep(chunkSize, w, run[0], passes);
      PassInvAlways(chunkSize, Next(chunkSize, w, run[0]), run[1..], PassesAfter(w, run[0], passes));
    }
  }

  /** When the poll of an encoder is the last, and when it makes a result of OK. */
  predicate Concludes(w: Worker, enc: Encoder, last: bool)
  {
    w.shutdown || (enc.ended && (enc.retcode != 0 || last || !enc.logFound))
  }

  predicate ComesOutWell(w: Worker, enc: Encoder, last: bool, stale: bool)
  {
    && !w.shutdown && enc.retcode == 0 && last && enc.lenOut > 0 && -1 <= enc.lenOut - enc.lenIn <= 1
    && (enc.output.Some? || stale)
  }

  lemma ConvertedOkIff(w: Worker, enc: Encoder, passes: nat, stale: bool)
    requires w.main == WaitForEncodingFinished && !w.finished && PassInv(w, passes) && StreamInv(w, stale)
    ensures var v, last := AfterConvert(w, enc), passes + 1 == Needed(w.settings);
            && v.main in {SendResult, WaitForEncodingFinished} && (v.main == SendResult <==> Concludes(w, enc, last))
            && (v.main == SendResult ==>
                  v.encResult.result == if ComesOutWell(w, enc, last, stale) then 5 else -50)
  {
  }

  /** In every run: a worker is done encoding when the last pass is over, or a pass fails or leaves no log, or
      it is shut down; and it announces OK exactly when the last pass is over well, the output has a
      duration, within a second of the source's, and it can be opened, or an old one is still open. All
      else is announced as error -50. */
  lemma OkIff(chunkSize: nat, run: seq<WorkerEvent>, env: Env)
    requires IsRun(chunkSize, NEW_WORKER, run)
    requires var w := After(chunkSize, NEW_WORKER, run); w.main == WaitForEncodingFinished && !w.finished
    ensures var w, v := After(chunkSize, NEW_WORKER, run), After(chunkSize, NEW_WORKER, run + [Poll(env)]);
            var last := Passes(chunkSize, NEW_WORKER, run, 0) + 1 == Needed(w.settings);
            && v.main in {SendResult, WaitForEncodingFinished}
            && (v.main == SendResult <==> Concludes(w, env.encoder, last))
            && (v.main == SendResult ==>
                  v.encResult.result
                  == if ComesOutWell(w, env.encoder, last, Stale(chunkSize, NEW_WORKER, run, false)) then 5 else -50)
  {
    var w := After(chunkSize, NEW_WORKER, run);
    StreamInvAlways(chunkSize, NEW_WORKER, run, false);
    PassInvAlways(chunkSize, NEW_WORKER, run, 0);
    Extended(chunkSize, NEW_WORKER, run, Poll(env));
    ConvertedOkIff(w, env.encoder, Passes(chunkSize, NEW_WORKER, run, 0), Stale(chunkSize, NEW_WORKER, run, false));
    assert Next(chunkSize, w, Poll(env)).main == AfterConvert(w, env.encoder).main;
  }

  lemma {:induction false} Extended(chunkSize: nat, w: Worker, run: seq<WorkerEvent>, e: WorkerEvent)
    requires IsRun(chunkSize, w, run) && (e.Poll? ==> !After(chunkSize, w, run).finished)
    ensures IsRun(chunkSize, w, run + [e])
            && After(chunkSize, w, run + [e]) == Next(chunkSize, After(chunkSize, w, run), e)
    decreases |run|
  {
    if run == [] {
      assert run + [e] == [e] && [e][1..] == [];
    } else {
      assert (run + [e])[0] == run[0] && (run + [e])[1..] == run[1..] + [e];
      Extended(chunkSize, Next(chunkSize, w, run[0]), run[1..], e);
    }
  }
}
