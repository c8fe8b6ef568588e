/** When a worker waits, and what becomes of it when it is told to stop. */
module WorkerPace {

  import opened Wrappers
  import opened Client
  import opened WorkerRuns

  /* ---- waiting ---- */

  predicate IsWaiting(w: Worker) { w.main in {WaitForReconnect, WaitForFileCheck} }

  /** A worker that has a file to ask for, or a result to announce, does not get through with it. */
  predicate Fruitless(w: Worker, e: WorkerEvent)
  {
    && e.Poll? && (w.main == SendResult || (w.main == Idle && !w.stopRequested))
    && (ConnectFails(w, e.env)
        || (RequestsFile(w, e.env) && !TakesFile(w, e))
        || (PostsResult(w, e.env) && !Posts(w, e)))
  }

  /** The connection breaks while it authenticates. */
  predicate AuthBreaks(w: Worker, e: WorkerEvent)
  {
    && e.Poll? && w.main == Authenticateing && !w.stopRequested
    && (if ConnectFails(w, e.env) then !e.env.connect.Refused? else e.env.auth.Broken?)
  }

  /** A wait is over. */
  predicate TimeIsUp(w: Worker, e: WorkerEvent)
  {
    e.Poll? && IsWaiting(w) && e.env.elapsed && !(w.stopRequested && w.prev == Idle)
  }

  lemma PaceStep(chunkSize: nat, w: Worker, e: WorkerEvent)
    requires MachineInv(w) && (e.Poll? ==> !w.finished)
    ensures One(IsWaiting(w)) + One(Fruitless(w, e)) + One(AuthBreaks(w, e))
         == One(TimeIsUp(w, e)) + One(IsWaiting(Next(chunkSize, w, e)))
  {
  }

  /** In every run, every attempt that fails is followed by a wait that has to be over before the next one:
      as many waits are over, or under way, as attempts have failed. */
  lemma {:induction false} Paced(chunkSize: nat, w: Worker, run: seq<WorkerEvent>)
    requires MachineInv(w) && IsRun(chunkSize, w, run)
    ensures One(IsWaiting(w)) + WorkerCount(chunkSize, w, run, Fruitless) + WorkerCount(chunkSize, w, run, AuthBreaks)
         == WorkerCount(chunkSize, w, run, TimeIsUp) + One(IsWaiting(After(chunkSize, w, run)))
    decreases |run|
  {
    if run != [] {
      NextOk(chunkSize, w, run[0]);
      PaceStep(chunkSize, w, run[0]);
      Paced(chunkSize, Next(chunkSize, w, run[0]), run[1..]);
    }
  }

  /** Whether the last thing the worker heard, apart from waiting, was that there is no file for it. */
  function NoFileAfter(w: Worker, e: WorkerEvent, noFile: bool): bool
  {
    if e.Poll? && !IsWaiting(w) then RequestsFile(w, e.env) && e.env.next.Value? && e.env.next.value.fileLength == 0
    else noFile
  }

  function NoFile(chunkSize: nat, w: Worker, run: seq<WorkerEvent>, noFile: bool): bool
    decreases |run|
  {
    if run == [] then noFile
    else NoFile(chunkSize, Next(chunkSize, w, run[0]), run[1..], NoFileAfter(w, run[0], noFile))
  }

  predicate WaitInv(w: Worker, noFile: bool)
  {
    IsWaiting(w) && !w.finished ==>
      && (w.main == WaitForFileCheck <==> noFile)
      && (w.main == WaitForFileCheck ==> w.conn.None? && !w.authenticated)
  }

  lemma WaitStep(chunkSize: nat, w: Worker, e: WorkerEvent, noFile: bool)
    requires MachineInv(w) && (e.Poll? ==> !w.finished) && WaitInv(w, noFile)
    ensures WaitInv(Next(chunkSize, w, e), NoFileAfter(w, e, noFile))
  {
  }

  /** In every run, a waiting worker waits for files, and has hung up, exactly if it was told that there is
      none; otherwise it waits to reconnect. */
  lemma {:induction false} WaitInvAlways(chunkSize: nat, w: Worker, run: seq<WorkerEvent>, noFile: bool)
    requires MachineInv(w) && WaitInv(w, noFile) && IsRun(chunkSize, w, run)
    ensures WaitInv(After(chunkSize, w, run), NoFile(chunkSize, w, run, noFile))
    decreases |run|
  {
    if run != [] {
      NextOk(chunkSize, w, run[0]);
      WaitStep(chunkSize, w, run[0], noFile);
      WaitInvAlways(chunkSize, Next(chunkSize, w, run[0]), run[1..], NoFileAfter(w, run[0], noFile));
    }
  }

  /* ---- stopping ---- */

  /** Between files, or with one it has not fetched yet; also on its way to announce a result. */
  predicate MayStop(w: Worker)
  {
    w.main in {Idle, Authenticateing, Receiving} || (IsWaiting(w) && w.prev == Idle)
  }

  /** A worker finishes when it is shut down, or told to stop where it may, and not otherwise; it has then
      hung up and closed its files. A poll that throws finishes nothing. */
  lemma FinishesIff(chunkSize: nat, w: Worker, env: Env)
    requires MachineInv(w) && !w.finished
    ensures var (v, thrown) := Polled(chunkSize, w, env);
            && (v.finished <==> !thrown && (w.shutdown || (w.stopRequested && MayStop(w))))
            && (v.finished ==> v.conn.None? && !v.authenticated && v.srcFile.None? && !v.dstFile.isOpen)
  {
  }

  predicate HungUp(w: Worker) { w.main == WaitForEncodingFinished && !w.finished ==> w.conn.None? && !w.authenticated }

  lemma {:induction false} HungUpAlways(chunkSize: nat, w: Worker, run: seq<WorkerEvent>)
    requires MachineInv(w) && HungUp(w) && IsRun(chunkSize, w, run)
    ensures HungUp(After(chunkSize, w, run))
    decreases |run|
  {
    if run != [] {
      NextOk(chunkSize, w, run[0]);
      HungUpAlways(chunkSize, Next(chunkSize, w, run[0]), run[1..]);
    }
  }

  /** Told to stop without being authenticated, a worker never announces a result any more. */
  lemma {:induction false} NothingAnnounced(chunkSize: nat, w: Worker, run: seq<WorkerEvent>)
    requires MachineInv(w) && IsRun(chunkSize, w, run) && w.stopRequested && !w.authenticated
    ensures WorkerCount(chunkSize, w, run, Posts) == 0 && WorkerCount(chunkSize, w, run, TakesFile) == 0
    decreases |run|
  {
    if run != [] {
      NextOk(chunkSize, w, run[0]);
      NothingAnnounced(chunkSize, Next(chunkSize, w, run[0]), run[1..]);
    }
  }

  /** So a worker that is told to stop while it is encoding encodes to the end for nothing: it has hung up
      after fetching, and will not authenticate again to announce the result. */
  lemma StopLosesResult(chunkSize: nat, run: seq<WorkerEvent>, forced: bool, later: seq<WorkerEvent>)
    requires IsRun(chunkSize, NEW_WORKER, run)
    requires var w := After(chunkSize, NEW_WORKER, run); w.main == WaitForEncodingFinished && !w.finished
    requires IsRun(chunkSize, Next(chunkSize, After(chunkSize, NEW_WORKER, run), Stop(forced)), later)
    ensures var w := Next(chunkSize, After(chunkSize, NEW_WORKER, run), Stop(forced));
            Owes(w) && WorkerCount(chunkSize, w, later, Posts) == 0
  {
    MachineInvAlways(chunkSize, NEW_WORKER, run);
    HungUpAlways(chunkSize, NEW_WORKER, run);
    NextOk(chunkSize, After(chunkSize, NEW_WORKER, run), Stop(forced));
    NothingAnnounced(chunkSize, Next(chunkSize, After(chunkSize, NEW_WORKER, run), Stop(forced)), later);
  }
}
