/** Runs of worker and daemon together that go wrong, poll by poll. */
module Runs {

  import opened Wrappers
  import opened Naming
  import opened Database
  import opened JobTable
  import opened Discovery
  import opened Daemon
  import opened Lease
  import opened Losses
  import opened Client
  import opened Transfer
  import opened Progress

  const CFG := Config("-enc", ".mkv", "", 4)
  const TOKEN := "worker"

  const FIRST := FileInfo("a.avi", 1)
  const SECOND := FileInfo("b.avi", 1)

  /** A network that works; the worker is given file `pick`, `source` is what is in it, and encodes it to
      `output`. */
  function Good(pick: nat, key: nat, source: Bytes, output: Bytes): Net
  {
    Net(true, Value(key), Answered, Answered, Answered, pick, Some(source), true, 1, true, true, true,
        Encoder(true, 0, true, 1, 1, Some(output)), None)
  }

  /* ---- single polls ---- */

  /** Up, running, and nobody told it to stop. */
  predicate Awake(s: System, main: MainState)
  {
    s.worker.main == main && !s.worker.stopRequested && !s.worker.shutdown && !s.worker.finished
  }

  lemma Connects(chunkSize: nat, s: System, net: Net)
    requires Awake(s, Idle) && s.worker.conn.None? && !s.worker.authenticated && net.key.Value?
    ensures PolledWith(CFG, chunkSize, TOKEN, s, net)
         == s.(worker := s.worker.(conn := Some(net.key.value), prev := Idle, main := Authenticateing))
  {
  }

  lemma Authenticates(chunkSize: nat, s: System, net: Net)
    requires Awake(s, Authenticateing) && s.worker.conn.Some? && net.connected && net.call.Answered?
    ensures PolledWith(CFG, chunkSize, TOKEN, s, net)
         == s.(daemon := Authenticated(s.daemon, s.worker.conn.value, TOKEN),
               worker := s.worker.(authenticated := true, main := s.worker.prev))
  {
  }

  /** The connection breaks while authenticating. */
  lemma Breaks(chunkSize: nat, s: System, net: Net)
    requires Awake(s, Authenticateing) && s.worker.conn.Some? && net.connected && net.call == RequestLost(true)
    ensures PolledWith(CFG, chunkSize, TOKEN, s, net)
         == s.(worker := s.worker.(authenticated := false, prev := Idle, main := WaitForReconnect))
  {
  }

  lemma WaitsOut(chunkSize: nat, s: System, net: Net)
    requires Awake(s, WaitForReconnect) && net.elapsed
    ensures PolledWith(CFG, chunkSize, TOKEN, s, net) == s.(worker := s.worker.(main := s.worker.prev))
  {
  }

  /** A connection is there, of a worker that is not authenticated any more. */
  lemma StartsOver(chunkSize: nat, s: System, net: Net)
    requires Awake(s, Idle) && s.worker.conn.Some? && !s.worker.authenticated && net.connected
    ensures PolledWith(CFG, chunkSize, TOKEN, s, net) == s.(worker := s.worker.(prev := Idle, main := Authenticateing))
  {
  }

  /** The worker's session has no stream open, and there is such a file. */
  predicate MayTake(s: System, pick: nat)
  {
    && s.worker.conn.Some? && s.worker.conn.value in s.daemon.connections
    && s.daemon.connections[s.worker.conn.value].inFile.None? && s.daemon.connections[s.worker.conn.value].outFile.None?
    && pick in s.daemon.db.sources && s.daemon.db.sources[pick].size == 1 && !s.daemon.stopRequested
  }

  lemma Takes(chunkSize: nat, s: System, pick: nat, key: nat, source: Bytes, output: Bytes)
    requires Awake(s, Idle) && s.worker.authenticated && MayTake(s, pick)
    ensures var k := s.worker.conn.value;
            var cli := s.daemon.connections[k].(id := pick, fileLength := 1,
                                                originalFileName := s.daemon.db.sources[pick].path,
                                                inFile := Some(InFile(source, 0)));
            PolledWith(CFG, chunkSize, TOKEN, s, Good(pick, key, source, output))
            == System(With(s.daemon, k, cli).(db := HandedOut(s.daemon.db, pick)),
                      s.worker.(srcFile := Some(LocalCopy([], 0)), settings := Settings(1, true), prev := Idle,
                                main := Receiving),
                      source, s.threw)
  {
  }

  /** The server stands at `sent`, the worker at the end of its copy. */
  predicate Reading(s: System, sent: nat)
  {
    && Awake(s, Receiving) && s.worker.conn.Some? && s.worker.conn.value in s.daemon.connections
    && s.daemon.connections[s.worker.conn.value].inFile == Some(InFile(s.source, sent)) && sent <= |s.source|
    && s.worker.srcFile.Some? && s.worker.srcFile.value.pos == |s.worker.srcFile.value.content|
  }

  lemma ReadsByte(chunkSize: nat, s: System, sent: nat, net: Net)
    requires Reading(s, sent) && sent < |s.source| && net.call.Answered? && net.available == 1
    ensures var k, copy := s.worker.conn.value, s.worker.srcFile.value;
            PolledWith(CFG, chunkSize, TOKEN, s, net)
            == s.(daemon := With(s.daemon, k, s.daemon.connections[k].(inFile := Some(InFile(s.source, sent + 1)))),
                  worker := s.worker.(srcFile := Some(LocalCopy(copy.content + [s.source[sent]], copy.pos + 1))))
  {
    var copy := s.worker.srcFile.value;
    FetchExchangeShape(CFG, s.daemon, s.worker, net);
    assert s.source[sent..sent + 1] == [s.source[sent]];
    assert Overwrite(copy.content, copy.pos, [s.source[sent]]) == copy.content + [s.source[sent]];
  }

  /** A byte is read, and the answer lost; the call to rewind is lost as well, and the poll throws. */
  lemma LosesByte(chunkSize: nat, s: System, sent: nat, net: Net)
    requires Reading(s, sent) && s.worker.srcFile.value.pos == 0 && sent < |s.source| && net.available == 1
    requires net.call == ReplyLost(false) && net.reset == RequestLost(false)
    ensures var k := s.worker.conn.value;
            PolledWith(CFG, chunkSize, TOKEN, s, net)
            == s.(daemon := With(s.daemon, k, s.daemon.connections[k].(inFile := Some(InFile(s.source, sent + 1)))),
                  threw := true)
  {
    FetchExchangeShape(CFG, s.daemon, s.worker, net);
  }

  lemma ReadsEnd(chunkSize: nat, s: System, net: Net)
    requires Reading(s, |s.source|) && s.worker.srcFile.value.pos == s.worker.settings.fileLength && net.call.Answered?
    ensures PolledWith(CFG, chunkSize, TOKEN, s, net) == s.(worker := Fetched(s.worker))
  {
    var k := s.worker.conn.value;
    FetchExchangeShape(CFG, s.daemon, s.worker, net);
    assert With(s.daemon, k, s.daemon.connections[k]) == s.daemon;
  }

  lemma Encodes(chunkSize: nat, s: System, pick: nat, key: nat, source: Bytes, output: Bytes)
    requires Awake(s, WaitForEncodingFinished) && s.worker.passNo == 2
    ensures PolledWith(CFG, chunkSize, TOKEN, s, Good(pick, key, source, output))
         == s.(worker := Announced(s.worker, output).(main := SendResult))
  {
  }

  lemma ComesBack(chunkSize: nat, s: System, net: Net)
    requires Awake(s, SendResult) && s.worker.conn.None? && !s.worker.authenticated && net.key.Value?
    ensures PolledWith(CFG, chunkSize, TOKEN, s, net)
         == s.(worker := s.worker.(conn := Some(net.key.value), prev := SendResult, main := Authenticateing))
  {
  }

  /** The result is taken. */
  lemma Announces(chunkSize: nat, s: System, net: Net)
    requires Awake(s, SendResult) && s.worker.conn.Some? && s.worker.authenticated && net.connected
             && net.call.Answered?
    requires FilePosted(CFG, s.daemon, s.worker.conn.value, s.worker.encResult, net.tempOpens).1.Done?
    ensures PolledWith(CFG, chunkSize, TOKEN, s, net)
         == s.(daemon := FilePosted(CFG, s.daemon, s.worker.conn.value, s.worker.encResult, net.tempOpens).0,
               worker := if Uploads(s.worker.encResult)
                         then s.worker.(dstFile := SoughtThenCleared(s.worker.dstFile), main := Transmitting)
                         else CleanedUp(s.worker).(main := Idle))
  {
  }

  /* ---- runs ---- */

  ghost predicate LeadsTo(chunkSize: nat, run: seq<SystemEvent>, s: System)
  {
    && IsSystemRun(CFG, chunkSize, TOKEN, NewSystem(EMPTY_TABLES), run)
    && SystemAfter(CFG, chunkSize, TOKEN, NewSystem(EMPTY_TABLES), run) == s
  }

  lemma {:induction false} Extended(chunkSize: nat, s: System, run: seq<SystemEvent>, e: SystemEvent)
    requires IsSystemRun(CFG, chunkSize, TOKEN, s, run)
    requires SystemEnabled(chunkSize, TOKEN, SystemAfter(CFG, chunkSize, TOKEN, s, run), e)
    ensures IsSystemRun(CFG, chunkSize, TOKEN, s, run + [e])
    ensures SystemAfter(CFG, chunkSize, TOKEN, s, run + [e])
         == SystemStep(CFG, chunkSize, TOKEN, SystemAfter(CFG, chunkSize, TOKEN, s, run), e)
    decreases |run|
  {
    if run == [] {
      assert run + [e] == [e] && [e][1..] == [];
    } else {
      assert (run + [e])[0] == run[0] && (run + [e])[1..] == run[1..] + [e];
      Extended(chunkSize, SystemStep(CFG, chunkSize, TOKEN, s, run[0]), run[1..], e);
    }
  }

  /** One more event. */
  lemma Then(chunkSize: nat, run: seq<SystemEvent>, s: System, e: SystemEvent)
    returns (longer: seq<SystemEvent>, t: System)
    requires LeadsTo(chunkSize, run, s) && SystemEnabled(chunkSize, TOKEN, s, e)
    ensures t == SystemStep(CFG, chunkSize, TOKEN, s, e) && LeadsTo(chunkSize, longer, t)
  {
    longer, t := run + [e], SystemStep(CFG, chunkSize, TOKEN, s, e);
    Extended(chunkSize, NewSystem(EMPTY_TABLES), run, e);
  }

  const TWO_FILES := Tables(map[1 := FIRST, 2 := SECOND], map[],
                            [Row(1, NOT_STARTED, 0, None), Row(2, NOT_STARTED, 0, None)], 2)

  const ONE_FILE := Tables(map[1 := FIRST], map[], [Row(1, NOT_STARTED, 0, None)], 1)

  lemma FirstAdded()
    ensures FileAdded(EMPTY_TABLES, Some(FIRST), None, true).0 == ONE_FILE
  {
    assert SourceId(EMPTY_TABLES, FIRST.path) == 0;
    var d := WithSource(EMPTY_TABLES, FIRST);
    assert d == ONE_FILE.(queue := []) && SourceId(d, FIRST.path) == 1 && Lookup(d.queue, 1).None?;
    assert d.queue + [Row(1, NOT_STARTED, 0, None)] == ONE_FILE.queue;
    assert SourceAdded(EMPTY_TABLES, FIRST, false, true) == (ONE_FILE, 1);
  }

  lemma SecondAdded()
    ensures FileAdded(ONE_FILE, Some(SECOND), None, true).0 == TWO_FILES
  {
    assert SourceId(ONE_FILE, SECOND.path) == 0 by { assert FIRST.path[0] != SECOND.path[0]; }
    var d := WithSource(ONE_FILE, SECOND);
    assert d == TWO_FILES.(queue := ONE_FILE.queue) && SourceId(d, SECOND.path) == 2;
    assert Lookup(d.queue, 2).None? by { LookupFinds(d.queue, 2); }
    assert d.queue + [Row(2, NOT_STARTED, 0, None)] == TWO_FILES.queue;
    assert SourceAdded(ONE_FILE, SECOND, false, true) == (TWO_FILES, 2);
  }

  /** Two files are discovered. */
  lemma Discovered(chunkSize: nat) returns (run: seq<SystemEvent>, s: System)
    ensures LeadsTo(chunkSize, run, s) && s == NewSystem(TWO_FILES)
  {
    run, s := [], NewSystem(EMPTY_TABLES);
    FirstAdded();
    SecondAdded();
    run, s := Then(chunkSize, run, s, Other(FileChange(Call(Some(FIRST), None, true))));
    run, s := Then(chunkSize, run, s, Other(FileChange(Call(Some(SECOND), None, true))));
  }

  /** A session that has been read to the end of the one byte its file was recorded with. */
  function FetchedSession(pick: nat, path: string, source: Bytes, sent: nat): ConnectedClient
  {
    FreshClient(TOKEN).(id := pick, fileLength := 1, originalFileName := path, inFile := Some(InFile(source, sent)))
  }

  /** The worker connects and is handed the first file. */
  lemma FirstTaken(chunkSize: nat, source: Bytes, output: Bytes) returns (run: seq<SystemEvent>, s: System)
    ensures LeadsTo(chunkSize, run, s)
    ensures s == System(NewSystem(TWO_FILES).daemon.(connections := map[7 := FetchedSession(1, FIRST.path, source, 0)],
                                                     db := HandedOut(TWO_FILES, 1)),
                        NEW_WORKER.(conn := Some(7), authenticated := true, srcFile := Some(LocalCopy([], 0)),
                                    settings := Settings(1, true), main := Receiving),
                        source, false)
  {
    var net := Good(1, 7, source, output);
    run, s := Discovered(chunkSize);
    assert Eligible(TWO_FILES, SizeLimit(MAX_FILE_SIZE), 1);
    Connects(chunkSize, s, net);
    run, s := Then(chunkSize, run, s, Poll(net));
    Authenticates(chunkSize, s, net);
    run, s := Then(chunkSize, run, s, Poll(net));
    assert s.daemon.connections == map[7 := FreshClient(TOKEN)];
    Takes(chunkSize, s, 1, 7, source, output);
    run, s := Then(chunkSize, run, s, Poll(net));
  }

  /** A source of one byte is fetched. */
  lemma Fetches(chunkSize: nat, before: seq<SystemEvent>, was: System, net: Net)
    returns (run: seq<SystemEvent>, s: System)
    requires LeadsTo(chunkSize, before, was) && Reading(was, 0) && |was.source| == 1
    requires was.worker.srcFile.value.content == [] && was.worker.settings.fileLength == 1
    requires net.call.Answered? && net.available == 1
    ensures LeadsTo(chunkSize, run, s)
    ensures var k := was.worker.conn.value;
            s == was.(daemon := With(was.daemon, k, was.daemon.connections[k].(inFile := Some(InFile(was.source, 1)))),
                      worker := Fetched(was.worker))
  {
    ReadsByte(chunkSize, was, 0, net);
    run, s := Then(chunkSize, before, was, Poll(net));
    ReadsEnd(chunkSize, s, net);
    run, s := Then(chunkSize, run, s, Poll(net));
  }

  /** The first file is fetched; the session stays open at the server. */
  lemma FirstFetched(chunkSize: nat, b: byte, output: Bytes) returns (run: seq<SystemEvent>, s: System)
    ensures LeadsTo(chunkSize, run, s)
    ensures s == System(NewSystem(TWO_FILES).daemon.(connections := map[7 := FetchedSession(1, FIRST.path, [b], 1)],
                                                     db := HandedOut(TWO_FILES, 1)),
                        NEW_WORKER.(settings := Settings(1, true), main := WaitForEncodingFinished, passNo := 2,
                                    encResult := ResultInfo(UNKNOWN_ERROR, 0, "")),
                        [b], false)
  {
    run, s := FirstTaken(chunkSize, [b], output);
    run, s := Fetches(chunkSize, run, s, Good(1, 7, [b], output));
  }

  /** A wrong copy: of two bytes, in a file recorded with one, the first is lost and the rest passes. */
  lemma WrongCopyRun() returns (run: seq<SystemEvent>, net: Net)
    ensures IsSystemRun(CFG, 4, TOKEN, NewSystem(EMPTY_TABLES), run)
    ensures var s := SystemAfter(CFG, 4, TOKEN, NewSystem(EMPTY_TABLES), run);
            && SystemEnabled(4, TOKEN, s, Poll(net)) && s.worker.main == Receiving
            && PolledWith(CFG, 4, TOKEN, s, net).worker.main == WaitForEncodingFinished
            && s.source == [1, 2] && s.worker.srcFile.Some? && s.worker.srcFile.value.content == [2]
  {
    var s;
    net := TAKE;
    run, s := FirstTaken(4, [1, 2], []);
    LosesByte(4, s, 0, LOSE);
    run, s := Then(4, run, s, Poll(LOSE));
    ReadsByte(4, s, 1, TAKE);
    run, s := Then(4, run, s, Poll(TAKE));
    ReadsEnd(4, s, TAKE);
  }

  /** What was fetched is encoded, and the worker comes back to announce it. */
  lemma ComesToAnnounce(chunkSize: nat, before: seq<SystemEvent>, was: System, pick: nat, key: nat, b: byte,
                        output: Bytes)
    returns (run: seq<SystemEvent>, s: System)
    requires LeadsTo(chunkSize, before, was) && Awake(was, WaitForEncodingFinished) && was.worker.passNo == 2
    requires was.worker.conn.None? && !was.worker.authenticated
    ensures LeadsTo(chunkSize, run, s)
    ensures s == was.(daemon := Authenticated(was.daemon, key, TOKEN),
                      worker := Announced(was.worker, output).(conn := Some(key), authenticated := true,
                                                               prev := SendResult, main := SendResult))
  {
    var net := Good(pick, key, [b], output);
    Encodes(chunkSize, was, pick, key, [b], output);
    run, s := Then(chunkSize, before, was, Poll(net));
    ComesBack(chunkSize, s, net);
    run, s := Then(chunkSize, run, s, Poll(net));
    Authenticates(chunkSize, s, net);
    run, s := Then(chunkSize, run, s, Poll(net));
  }

  /** The upload that a poll starts is not over, however often a worker polls that nothing goes wrong with. */
  ghost predicate NeverOver(chunkSize: nat, s: System)
  {
    forall nets: seq<Net> | |nets| > |s.worker.dstFile.content| && (forall n | n in nets :: Smooth(n)) ::
      UploadPolls(CFG, chunkSize, TOKEN, s, nets).worker.main == Transmitting
  }

  /** An upload of as many bytes as a chunk has never ends, though nothing fails. */
  lemma WholeChunkRun() returns (run: seq<SystemEvent>, net: Net)
    ensures IsSystemRun(CFG, 2, TOKEN, NewSystem(EMPTY_TABLES), run)
    ensures var s := SystemAfter(CFG, 2, TOKEN, NewSystem(EMPTY_TABLES), run);
            var t := PolledWith(CFG, 2, TOKEN, s, net);
            && SystemEnabled(2, TOKEN, s, Poll(net)) && s.worker.main == SendResult
            && Polling(t, Transmitting) && Session(t).id == 1 && t.worker.dstFile.content == [5, 6]
            && NeverOver(2, t)
  {
    var s;
    net := Good(1, 7, [7], [5, 6]);
    run, s := FirstFetched(2, 7, [5, 6]);
    run, s := ComesToAnnounce(2, run, s, 1, 7, 7, [5, 6]);
    assert s.daemon.connections == map[7 := FetchedSession(1, FIRST.path, [7], 1)];
    Announces(2, s, net);
    var t := PolledWith(CFG, 2, TOKEN, s, net);
    forall nets: seq<Net> | |nets| > |t.worker.dstFile.content| && forall n | n in nets :: Smooth(n)
      ensures UploadPolls(CFG, 2, TOKEN, t, nets).worker.main == Transmitting {
      UploadEndsIff(CFG, 2, TOKEN, EMPTY_TABLES, run, net, nets);
    }
  }

  /** Another client authenticates under the key the worker's session was left at. */
  const INTRUDER := Other(Authenticate(7, "intruder"))

  /** Nor does one in a session without a file: the worker's own was overwritten while it was encoding. */
  lemma NoFileRun() returns (run: seq<SystemEvent>, net: Net)
    ensures IsSystemRun(CFG, 4, TOKEN, NewSystem(EMPTY_TABLES), run)
    ensures var s := SystemAfter(CFG, 4, TOKEN, NewSystem(EMPTY_TABLES), run);
            var t := PolledWith(CFG, 4, TOKEN, s, net);
            && SystemEnabled(4, TOKEN, s, Poll(net)) && s.worker.main == SendResult
            && Polling(t, Transmitting) && Session(t).id == 0 && t.worker.dstFile.content == [5, 6]
            && NeverOver(4, t)
  {
    var s;
    net := Good(1, 8, [7], [5, 6]);
    run, s := FirstFetched(4, 7, [5, 6]);
    run, s := Then(4, run, s, INTRUDER);
    assert s.daemon.connections == map[7 := FreshClient("intruder")];
    run, s := ComesToAnnounce(4, run, s, 1, 8, 7, [5, 6]);
    assert s.daemon.connections == map[7 := FreshClient("intruder"), 8 := FreshClient(TOKEN)];
    Announces(4, s, net);
    var t := PolledWith(CFG, 4, TOKEN, s, net);
    forall nets: seq<Net> | |nets| > |t.worker.dstFile.content| && forall n | n in nets :: Smooth(n)
      ensures UploadPolls(CFG, 4, TOKEN, t, nets).worker.main == Transmitting {
      UploadEndsIff(CFG, 4, TOKEN, EMPTY_TABLES, run, net, nets);
    }
  }

  /* ---- a dropped result ---- */

  /** The connection breaks while the worker authenticates to announce its result. */
  lemma ResultDropped() returns (run: seq<SystemEvent>, s: System)
    ensures LeadsTo(4, run, s)
    ensures s == System(NewSystem(TWO_FILES).daemon.(connections := map[7 := FetchedSession(1, FIRST.path, [7], 1)],
                                                     db := HandedOut(TWO_FILES, 1)),
                        NEW_WORKER.(conn := Some(8), settings := Settings(1, true), passNo := 2,
                                    dstFile := InStream(true, [5], 1, true, false),
                                    encResult := ResultInfo(OK, 1, ""), main := WaitForReconnect),
                        [7], false)
  {
    var net := Good(1, 8, [7], [5]);
    run, s := FirstFetched(4, 7, [5]);
    Encodes(4, s, 1, 8, [7], [5]);
    run, s := Then(4, run, s, Poll(net));
    ComesBack(4, s, net);
    run, s := Then(4, run, s, Poll(net));
    Breaks(4, s, net.(call := RequestLost(true)));
    run, s := Then(4, run, s, Poll(net.(call := RequestLost(true))));
  }

  /** The result is dropped and its output stays open; the worker's old session is gone as well. */
  lemma OutputStaysOpen() returns (run: seq<SystemEvent>, s: System)
    ensures LeadsTo(4, run, s)
    ensures s == System(NewSystem(TWO_FILES).daemon.(connections := map[7 := FreshClient("intruder")],
                                                     db := HandedOut(TWO_FILES, 1)),
                        NEW_WORKER.(conn := Some(8), settings := Settings(1, true), passNo := 2,
                                    dstFile := InStream(true, [5], 1, true, false),
                                    encResult := ResultInfo(OK, 1, "")),
                        [7], false)
  {
    var net := Good(1, 8, [7], [5]);
    run, s := ResultDropped();
    run, s := Then(4, run, s, INTRUDER);
    assert s.daemon.connections == map[7 := FreshClient("intruder")];
    WaitsOut(4, s, net);
    run, s := Then(4, run, s, Poll(net));
  }

  lemma HasToken(connections: map<nat, ConnectedClient>, key: nat)
    requires key in connections && forall k | k in connections :: connections[k].token == TOKEN <==> k == key
    ensures TokenHolder(connections, TOKEN) == Some(key)
  {
    var _ := TokenHolder(connections, TOKEN);
  }

  lemma SecondEligible()
    ensures Eligible(HandedOut(TWO_FILES, 1), SizeLimit(MAX_FILE_SIZE), 2)
    ensures HandedOut(TWO_FILES, 1).sources[2] == SECOND && HandedOut(TWO_FILES, 1).archives == map[]
  {
    HandedOutRow(TWO_FILES, 1, 2);
  }

  /** It authenticates again, to begin anew. */
  lemma BeginsAnew() returns (run: seq<SystemEvent>, s: System)
    ensures LeadsTo(4, run, s) && Awake(s, Idle) && s.worker.authenticated && s.worker.conn == Some(8)
    ensures s.worker.dstFile.isOpen
    ensures s.daemon == NewSystem(TWO_FILES).daemon.(
                          connections := map[7 := FreshClient("intruder"), 8 := FreshClient(TOKEN)],
                          db := HandedOut(TWO_FILES, 1))
  {
    var net := Good(2, 8, [8], [5, 6]);
    run, s := OutputStaysOpen();
    SecondEligible();
    StartsOver(4, s, net);
    run, s := Then(4, run, s, Poll(net));
    Authenticates(4, s, net);
    run, s := Then(4, run, s, Poll(net));
    assert s.daemon.connections == map[7 := FreshClient("intruder"), 8 := FreshClient(TOKEN)];
  }

  /** It is handed the second file. */
  lemma SecondTaken() returns (run: seq<SystemEvent>, s: System)
    ensures LeadsTo(4, run, s) && Reading(s, 0) && s.source == [8] && s.worker.conn == Some(8)
    ensures s.worker.srcFile == Some(LocalCopy([], 0)) && s.worker.settings == Settings(1, true)
    ensures s.worker.dstFile.isOpen
    ensures s.daemon.connections == map[7 := FreshClient("intruder"), 8 := FetchedSession(2, SECOND.path, [8], 0)]
    ensures s.daemon.filesToMove == [] && s.daemon.moving.None? && s.daemon.db.archives == map[]
  {
    run, s := BeginsAnew();
    SecondEligible();
    Takes(4, s, 2, 8, [8], [5, 6]);
    run, s := Then(4, run, s, Poll(Good(2, 8, [8], [5, 6])));
  }

  /** Of the second file two bytes are encoded, and none are announced. */
  lemma NextAnnouncedWrong() returns (run: seq<SystemEvent>, s: System)
    ensures LeadsTo(4, run, s) && Awake(s, SendResult) && s.worker.authenticated && s.worker.conn == Some(9)
    ensures s.worker.encResult == ResultInfo(OK, 0, "")
    ensures 9 in s.daemon.connections && s.daemon.connections[9] == FetchedSession(2, SECOND.path, [8], 1)
    ensures s.daemon.filesToMove == [] && s.daemon.moving.None? && s.daemon.db.archives == map[]
  {
    run, s := SecondTaken();
    run, s := Fetches(4, run, s, Good(2, 8, [8], [5, 6]));
    assert s.daemon.connections == map[7 := FreshClient("intruder"), 8 := FetchedSession(2, SECOND.path, [8], 1)];
    assert |"intruder"| != |TOKEN|;
    HasToken(s.daemon.connections, 8);
    run, s := ComesToAnnounce(4, run, s, 2, 9, 8, [5, 6]);
  }

  /** The daemon takes the result in. */
  lemma ResultPosted() returns (run: seq<SystemEvent>, s: System)
    ensures LeadsTo(4, run, s) && s.daemon.moving.None? && s.daemon.db.archives == map[]
    ensures s.daemon.filesToMove
         == [EntryFor(CFG, FetchedSession(2, SECOND.path, [8], 1).(encResult := ResultInfo(OK, 0, "")))]
  {
    var net := Good(2, 9, [8], [5, 6]);
    run, s := NextAnnouncedWrong();
    Announces(4, s, net);
    run, s := Then(4, run, s, Poll(net));
  }

  lemma ResultTaken() returns (run: seq<SystemEvent>, s: System)
    ensures LeadsTo(4, run, s) && s.daemon.moving.Some? && s.daemon.db.archives == map[]
    ensures var r := s.daemon.moving.value.result; r.id == 2 && r.result == OK && r.fileLength == 0
  {
    run, s := ResultPosted();
    run, s := Then(4, run, s, Other(Take));
  }

  /** So the second file counts as done, has no archive, and is handed out no more. */
  lemma DroppedResultSpoilsTheNext() returns (run: seq<SystemEvent>)
    ensures IsSystemRun(CFG, 4, TOKEN, NewSystem(EMPTY_TABLES), run)
    ensures var d := SystemAfter(CFG, 4, TOKEN, NewSystem(EMPTY_TABLES), run).daemon;
            Unfiled(d.db, 2) && Stranded(d, 2)
  {
    var s;
    run, s := ResultTaken();
    NewSystemInv(CFG, EMPTY_TABLES);
    SystemInvAlways(CFG, 4, TOKEN, NewSystem(EMPTY_TABLES), run);
    UnfiledAfterStep(CFG, s.daemon, Report(Moved), 2);
    StrandedWhenReported(CFG, s.daemon, Report(Moved), 2);
    run, s := Then(4, run, s, Other(Report(Moved)));
  }
}
