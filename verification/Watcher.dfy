/** The file system watcher: the walk with an explicit stack, and the handling of what inotify sends. */
module Watcher {

  import opened Wrappers
  import opened Text
  import opened Listener
  import opened Walk
  import opened Moves

  /** A directory on the stack; its handle stands at `cursor`. */
  datatype Frame = Frame(dir: Dir, name: string, isOpen: bool, cursor: nat)

  predicate FrameOk(f: Frame) { f.cursor <= |f.dir.entries| }

  /** What is left to do for a directory on the stack. */
  function FrameRest(f: Frame): (seq<Act>, bool)
    requires FrameOk(f)
  {
    if !f.isOpen then Walked(f.name, f.dir)
    else
      var (acts, ok) := WalkedEntries(f.name, f.dir.entries[f.cursor..]);
      (acts + (if ok then [Closed(f.name)] else []), ok)
  }

  /** What is left to do for the whole stack, from its top. */
  function Rest(stack: seq<Frame>): (seq<Act>, bool)
    requires forall f | f in stack :: FrameOk(f)
  {
    if stack == [] then ([], true)
    else
      var (acts, ok) := FrameRest(stack[|stack| - 1]);
      if ok then Before(acts, Rest(stack[..|stack| - 1])) else (acts, false)
  }

  function DirSize(dir: Dir): nat
    decreases dir, 1
  {
    2 + EntriesSize(dir.entries)
  }

  function EntriesSize(entries: seq<DirEntry>): nat
    decreases entries, 0
  {
    if entries == [] then 0
    else
      (if entries[0].Directory? then assert entries[0].dir < entries[0]; 1 + DirSize(entries[0].dir) else 1)
      + EntriesSize(entries[1..])
  }

  function FrameSize(f: Frame): nat
    requires FrameOk(f)
  {
    if f.isOpen then 1 + EntriesSize(f.dir.entries[f.cursor..]) else DirSize(f.dir)
  }

  function StackSize(stack: seq<Frame>): nat
    requires forall f | f in stack :: FrameOk(f)
  {
    if stack == [] then 0 else FrameSize(stack[|stack| - 1]) + StackSize(stack[..|stack| - 1])
  }

  lemma RestTop(below: seq<Frame>, f: Frame)
    requires (forall g | g in below :: FrameOk(g)) && FrameOk(f)
    ensures Rest(below + [f])
         == (var (acts, ok) := FrameRest(f); if ok then Before(acts, Rest(below)) else (acts, false))
    ensures StackSize(below + [f]) == FrameSize(f) + StackSize(below)
  {
    assert (below + [f])[..|below|] == below;
  }

  lemma StartRest(f: Frame)
    requires !f.isOpen && f.cursor == 0
    ensures Before([], Rest([f])) == Walked(f.name, f.dir)
  {
    RestTop([], f);
    assert [] + [f] == [f];
    var (acts, ok) := Walked(f.name, f.dir);
    assert acts + [] == acts && [] + acts == acts;
  }

  /** Reading one entry that is no directory. */
  lemma ReadEntry(f: Frame)
    requires f.isOpen && f.cursor < |f.dir.entries| && !f.dir.entries[f.cursor].Directory?
    ensures var e, g := f.dir.entries[f.cursor], f.(cursor := f.cursor + 1);
            && FrameRest(f) == Before(if e.RegularFile? then [Found(Sub(f.name, e.name))] else [], FrameRest(g))
            && FrameSize(f) == FrameSize(g) + 1
  {
    var es := f.dir.entries[f.cursor..];
    assert es[0] == f.dir.entries[f.cursor] && es[1..] == f.dir.entries[f.cursor + 1..];
    var (acts, ok) := WalkedEntries(f.name, es[1..]);
    var end := if ok then [Closed(f.name)] else [];
    if es[0].RegularFile? {
      assert ([Found(Sub(f.name, es[0].name))] + acts) + end == [Found(Sub(f.name, es[0].name))] + (acts + end);
    } else {
      assert [] + (acts + end) == acts + end;
    }
  }

  /** Reading a directory: it goes on top, to be walked before the rest of this one. */
  lemma EnterDirectory(below: seq<Frame>, f: Frame)
    requires forall g | g in below :: FrameOk(g)
    requires f.isOpen && f.cursor < |f.dir.entries| && f.dir.entries[f.cursor].Directory?
    ensures var sub, g := f.dir.entries[f.cursor].dir, f.(cursor := f.cursor + 1);
            var top := Frame(sub, Sub(f.name, sub.name), false, 0);
            && (forall h | h in below + [g] + [top] :: FrameOk(h))
            && Rest(below + [g] + [top]) == Rest(below + [f])
            && StackSize(below + [g] + [top]) < StackSize(below + [f])
  {
    var es := f.dir.entries[f.cursor..];
    assert es[0] == f.dir.entries[f.cursor] && es[1..] == f.dir.entries[f.cursor + 1..];
    var sub, g := f.dir.entries[f.cursor].dir, f.(cursor := f.cursor + 1);
    var top := Frame(sub, Sub(f.name, sub.name), false, 0);
    RestTop(below, f);
    RestTop(below, g);
    RestTop(below + [g], top);
    var (acts, ok) := Walked(top.name, sub);
    var (more, through) := WalkedEntries(f.name, es[1..]);
    var end := if through then [Closed(f.name)] else [];
    assert (acts + more) + end == acts + (more + end);
    assert acts + [] == acts;
    if ok && through {
      assert acts + ((more + end) + Rest(below).0) == (acts + (more + end)) + Rest(below).0;
    }
  }

  function Registered(dirs: map<nat, string>, next: nat, acts: seq<Act>): (map<nat, string>, nat)
  {
    if acts == [] then (dirs, next)
    else
      var (d, n) := Registered(dirs, next, acts[..|acts| - 1]);
      var act := acts[|acts| - 1];
      if act.Watched? then (d[n := act.path], n + 1) else (d, n)
  }

  /** The watch descriptors of a path. */
  function Descriptors(dirs: map<nat, string>, path: string): set<nat>
  {
    set wd | wd in dirs && dirs[wd] == path
  }

  lemma {:induction false} RegisteredOnce(next: nat, acts: seq<Act>, p: string)
    ensures var (dirs, n) := Registered(map[], next, acts);
            && n >= next && (forall wd | wd in dirs :: next <= wd < n)
            && |Descriptors(dirs, p)| == multiset(acts)[Watched(p)]
  {
    if acts != [] {
      var before, act := acts[..|acts| - 1], acts[|acts| - 1];
      RegisteredOnce(next, before, p);
      assert acts == before + [act];
      var (d, n) := Registered(map[], next, before);
      var was, now := Descriptors(d, p), Descriptors(Registered(map[], next, acts).0, p);
      assert now == if act == Watched(p) then was + {n} else was;
      assert n !in was;
    }
  }

  /** After a walk that gets through, every directory of the tree has one watch descriptor, by which its path
      is found, and nothing else has. */
  lemma EveryDirectoryRegistered(path: string, dir: Dir, next: nat, p: string)
    requires Named(dir.entries) && Walked(path, dir).1
    ensures |Descriptors(Registered(map[], next, Walked(path, dir).0).0, p)|
         == if p == path || Has(path, dir.entries, Watched(p)) then 1 else 0
  {
    RegisteredOnce(next, Walked(path, dir).0, p);
    DirOnce(path, dir, Watched(p));
  }

  lemma RegisteredMore(dirs: map<nat, string>, next: nat, acts: seq<Act>, act: Act)
    ensures Registered(dirs, next, acts + [act])
         == (var (d, n) := Registered(dirs, next, acts); if act.Watched? then (d[n := act.path], n + 1) else (d, n))
  {
    assert (acts + [act])[..|acts|] == acts;
  }

  /** FileSystemWatcherLinux. `acts` and `notices` are what it did to directories and told its listener. */
  class FileSystemWatcherLinux {
    var watchedDirs: map<nat, string>
    var nextWd: nat
    var cookie: nat
    var moveName: string
    var moveFrom: bool
    var moveStart: int
    var acts: seq<Act>
    var notices: seq<Notice>

    constructor ()
      ensures PendingMove() == NO_MOVE && acts == [] && notices == [] && watchedDirs == map[]
    {
      watchedDirs, nextWd, cookie, moveName, moveFrom, moveStart := map[], 0, 0, "", false, 0;
      acts, notices := [], [];
    }

    function PendingMove(): Move
      reads this
    {
      Move(cookie, moveName, moveFrom, moveStart)
    }

    method Do(act: Act, ghost base: seq<Act>, ghost done: seq<Act>, ghost dirs: map<nat, string>, ghost next: nat)
      requires acts == base + done && (watchedDirs, nextWd) == Registered(dirs, next, done)
      modifies this`acts, this`watchedDirs, this`nextWd
      ensures acts == base + (done + [act]) && (watchedDirs, nextWd) == Registered(dirs, next, done + [act])
    {
      RegisteredMore(dirs, next, done, act);
      acts := acts + [act];
      if act.Watched? {
        watchedDirs := watchedDirs[nextWd := act.path];
        nextWd := nextWd + 1;
      }
      assert base + done + [act] == base + (done + [act]);
    }

    /** The stack loop does what the recursive walk does, in the same order, and ends. */
    method WatchDir(dir: Dir, dirName: string) returns (thrown: bool)
      modifies this`acts, this`watchedDirs, this`nextWd
      ensures (acts, !thrown) == (old(acts) + Walked(dirName, dir).0, Walked(dirName, dir).1)
      ensures (watchedDirs, nextWd) == Registered(old(watchedDirs), old(nextWd), Walked(dirName, dir).0)
    {
      ghost var dirs, next := watchedDirs, nextWd;
      ghost var done: seq<Act> := [];
      var stack := [Frame(dir, dirName, false, 0)];
      StartRest(stack[0]);
      while stack != []
        invariant forall f | f in stack :: FrameOk(f)
        invariant Before(done, Rest(stack)) == Walked(dirName, dir)
        invariant acts == old(acts) + done && (watchedDirs, nextWd) == Registered(dirs, next, done)
        decreases StackSize(stack)
      {
        stack, done, thrown := Turn(stack, old(acts), done, dirs, next);
        if thrown {
          return;
        }
      }
      assert done + [] == done;
      thrown := false;
    }

    /** One round of the loop: open the directory on top if need be, read on in it, and enter a directory
        or close this one. */
    method Turn(stack: seq<Frame>, ghost base: seq<Act>, ghost was: seq<Act>, ghost dirs: map<nat, string>,
                ghost next: nat)
      returns (now: seq<Frame>, ghost done: seq<Act>, thrown: bool)
      requires stack != [] && forall f | f in stack :: FrameOk(f)
      requires acts == base + was && (watchedDirs, nextWd) == Registered(dirs, next, was)
      modifies this`acts, this`watchedDirs, this`nextWd
      ensures acts == base + done && (watchedDirs, nextWd) == Registered(dirs, next, done)
      ensures forall f | f in now :: FrameOk(f)
      ensures thrown ==> (done, false) == Before(was, Rest(stack))
      ensures !thrown ==> Before(done, Rest(now)) == Before(was, Rest(stack)) && StackSize(now) < StackSize(stack)
    {
      var below, cd := stack[..|stack| - 1], stack[|stack| - 1];
      assert stack == below + [cd];
      done, now, thrown := was, stack, false;
      if !cd.isOpen {
        done, thrown := OpenDirectory(cd, below, base, done, dirs, next);
        if thrown {
          return;
        }
        cd := cd.(isOpen := true, cursor := 0);
      }
      var entered;
      cd, entered, done := ReadEntries(cd, below, base, done, dirs, next);
      if entered {
        var sub := cd.dir.entries[cd.cursor - 1].dir;
        EnterDirectory(below, cd.(cursor := cd.cursor - 1));
        now := below + [cd] + [Frame(sub, Sub(cd.name, sub.name), false, 0)];
      } else {
        done := CloseDirectory(cd, below, base, done, dirs, next);
        now := below;
      }
    }

    /** opendir and inotify_add_watch. */
    method OpenDirectory(cd: Frame, ghost below: seq<Frame>, ghost base: seq<Act>, ghost was: seq<Act>,
                         ghost dirs: map<nat, string>, ghost next: nat) returns (ghost done: seq<Act>, thrown: bool)
      requires !cd.isOpen && FrameOk(cd) && forall f | f in below :: FrameOk(f)
      requires acts == base + was && (watchedDirs, nextWd) == Registered(dirs, next, was)
      modifies this`acts, this`watchedDirs, this`nextWd
      ensures acts == base + done && (watchedDirs, nextWd) == Registered(dirs, next, done)
      ensures thrown ==> (done, false) == Before(was, Rest(below + [cd]))
      ensures var f := cd.(isOpen := true, cursor := 0);
              !thrown ==> Before(done, Rest(below + [f])) == Before(was, Rest(below + [cd]))
                          && StackSize(below + [f]) < StackSize(below + [cd])
    {
      RestTop(below, cd);
      done := was;
      if !cd.dir.opens {
        assert was + [] == was;
        return done, true;
      }
      Do(Opened(cd.name), base, done, dirs, next);
      done := done + [Opened(cd.name)];
      if !cd.dir.watches {
        return done, true;
      }
      Do(Watched(cd.name), base, done, dirs, next);
      done := done + [Watched(cd.name)];
      assert done == was + [Opened(cd.name), Watched(cd.name)];
      OpeningKeepsRest(below, cd, cd.(isOpen := true, cursor := 0), was);
      thrown := false;
    }

    /** The readdir loop, up to a directory or the end. */
    method ReadEntries(frame: Frame, ghost below: seq<Frame>, ghost base: seq<Act>, ghost was: seq<Act>,
                       ghost dirs: map<nat, string>, ghost next: nat)
      returns (cd: Frame, entered: bool, ghost done: seq<Act>)
      requires frame.isOpen && FrameOk(frame) && forall f | f in below :: FrameOk(f)
      requires acts == base + was && (watchedDirs, nextWd) == Registered(dirs, next, was)
      modifies this`acts, this`watchedDirs, this`nextWd
      ensures acts == base + done && (watchedDirs, nextWd) == Registered(dirs, next, done)
      ensures FrameOk(cd) && cd.isOpen
      ensures entered <==> cd.cursor > 0 && Left(cd, entered).cursor < |cd.dir.entries| && entered
      ensures entered ==> Left(cd, entered).dir.entries[Left(cd, entered).cursor].Directory?
      ensures !entered ==> cd.cursor == |cd.dir.entries|
      ensures Before(done, Rest(below + [Left(cd, entered)])) == Before(was, Rest(below + [frame]))
      ensures StackSize(below + [Left(cd, entered)]) <= StackSize(below + [frame])
    {
      cd, entered, done := frame, false, was;
      while cd.cursor < |cd.dir.entries| && !entered
        invariant cd.isOpen && FrameOk(cd)
        invariant entered ==> cd.cursor > 0 && cd.dir.entries[cd.cursor - 1].Directory?
        invariant Before(done, Rest(below + [Left(cd, entered)])) == Before(was, Rest(below + [frame]))
        invariant StackSize(below + [Left(cd, entered)]) <= StackSize(below + [frame])
        invariant acts == base + done && (watchedDirs, nextWd) == Registered(dirs, next, done)
        decreases |cd.dir.entries| - cd.cursor
      {
        var entry := cd.dir.entries[cd.cursor];
        if entry.Directory? {
          entered := true;
        } else {
          ReadingKeepsRest(below, cd, done);
          if entry.RegularFile? {
            Do(Found(Sub(cd.name, entry.name)), base, done, dirs, next);
            done := done + [Found(Sub(cd.name, entry.name))];
          }
        }
        cd := cd.(cursor := cd.cursor + 1);
      }
    }

    method CloseDirectory(cd: Frame, ghost below: seq<Frame>, ghost base: seq<Act>, ghost was: seq<Act>,
                          ghost dirs: map<nat, string>, ghost next: nat) returns (ghost done: seq<Act>)
      requires cd.isOpen && cd.cursor == |cd.dir.entries| && forall f | f in below :: FrameOk(f)
      requires acts == base + was && (watchedDirs, nextWd) == Registered(dirs, next, was)
      modifies this`acts, this`watchedDirs, this`nextWd
      ensures acts == base + done && (watchedDirs, nextWd) == Registered(dirs, next, done)
      ensures Before(done, Rest(below)) == Before(was, Rest(below + [cd])) && StackSize(below) < StackSize(below + [cd])
    {
      RestTop(below, cd);
      assert cd.dir.entries[cd.cursor..] == [];
      assert [] + [Closed(cd.name)] == [Closed(cd.name)];
      assert was + ([Closed(cd.name)] + Rest(below).0) == (was + [Closed(cd.name)]) + Rest(below).0;
      Do(Closed(cd.name), base, was, dirs, next);
      done := was + [Closed(cd.name)];
    }

    /** handleInotifyEvent for files. */
    method HandleInotifyEvent(e: Inotify, now: int)
      modifies this`cookie, this`moveName, this`moveFrom, this`moveStart, this`notices
      ensures PendingMove() == MoveAfter(watchedDirs, old(PendingMove()), Timed(e, now))
      ensures notices == old(notices) + Notices(watchedDirs, old(PendingMove()), Timed(e, now))
    {
      if Bit(e.mask, IN_ISDIR) {
        return;
      }
      var fileName := (if e.wd in watchedDirs then watchedDirs[e.wd] else "") + "/" + e.name;
      if cookie > 0 && now - moveStart > MOVE_TIMEOUT {
        cookie := 0;
        var n := "";
        notices := notices + [Notice(FileMoved, if moveFrom then moveName else n, if moveFrom then n else moveName)];
      }
      if Bit(e.mask, IN_CLOSE_WRITE) {
        notices := notices + [Notice(FileCreated, "", fileName)];
      } else if Bit(e.mask, IN_DELETE) {
        notices := notices + [Notice(FileDeleted, "", fileName)];
      } else if (Bit(e.mask, IN_MOVED_FROM) || Bit(e.mask, IN_MOVED_TO)) && e.cookie != 0 {
        if cookie == 0 {
          cookie := e.cookie;
          moveName := fileName;
          moveFrom := Bit(e.mask, IN_MOVED_FROM);
          moveStart := now;
        } else if e.cookie == cookie {
          cookie := 0;
          var from := Bit(e.mask, IN_MOVED_FROM);
          var src := if from then fileName else moveName;
          var dst := if from then moveName else fileName;
          notices := notices + [Notice(FileMoved, src, dst)];
        }
      }
    }

    /** The record loop over one read: it handles every event the kernel put there, in order, and nothing
        else. `clock` gives the time at which the i-th is handled. */
    method HandleRead(buffer: string, clock: nat -> int, ghost records: seq<Record>)
      requires buffer == EncodedAll(records) && forall r | r in records :: Recordable(r.e, r.pad)
      modifies this`cookie, this`moveName, this`moveFrom, this`moveStart, this`notices
      ensures var (after, told) := HandledAll(watchedDirs, old(PendingMove()), Stamped(records, clock, 0));
              PendingMove() == after && notices == old(notices) + told
    {
      var u, count := 0, 0;
      ghost var left := records;
      ghost var (after, told) := HandledAll(watchedDirs, PendingMove(), Stamped(records, clock, 0));
      assert buffer[0..] == buffer;
      while u < |buffer|
        invariant u <= |buffer| && buffer[u..] == EncodedAll(left)
        invariant forall r | r in left :: Recordable(r.e, r.pad)
        invariant Reaches(watchedDirs, PendingMove(), notices, Stamped(left, clock, count), after, old(notices) + told)
        decreases |buffer| - u
      {
        label Here:
        u := HandleNext(buffer, u, clock(count), left);
        StampedRest(left, clock, count);
        ReachesNext(watchedDirs, old@Here(PendingMove()), old@Here(notices), Stamped(left, clock, count), after,
                    old(notices) + told);
        count, left := count + 1, left[1..];
      }
      NothingLeft(left);
      assert notices + [] == notices;
    }

    /** The event at `u`, and where the next one is. */
    method HandleNext(buffer: string, u: nat, now: int, ghost left: seq<Record>) returns (next: nat)
      requires u < |buffer| && buffer[u..] == EncodedAll(left) && forall r | r in left :: Recordable(r.e, r.pad)
      modifies this`cookie, this`moveName, this`moveFrom, this`moveStart, this`notices
      ensures left != [] && u < next <= |buffer| && buffer[next..] == EncodedAll(left[1..])
      ensures PendingMove() == MoveAfter(watchedDirs, old(PendingMove()), Timed(left[0].e, now))
      ensures notices == old(notices) + Notices(watchedDirs, old(PendingMove()), Timed(left[0].e, now))
    {
      NextRecord(buffer, u, left);
      var e := EventAt(buffer, u);
      HandleInotifyEvent(e, now);
      next := u + HEADER + LengthAt(buffer, u);
    }
  }

  /** From here the run leads to `after`, and to `all` having been told. */
  ghost predicate Reaches(dirs: map<nat, string>, m: Move, told: seq<Notice>, run: seq<Timed>, after: Move,
                          all: seq<Notice>)
  {
    HandledAll(dirs, m, run).0 == after && told + HandledAll(dirs, m, run).1 == all
  }

  lemma ReachesNext(dirs: map<nat, string>, m: Move, told: seq<Notice>, run: seq<Timed>, after: Move, all: seq<Notice>)
    requires run != [] && Reaches(dirs, m, told, run, after, all)
    ensures Reaches(dirs, MoveAfter(dirs, m, run[0]), told + Notices(dirs, m, run[0]), run[1..], after, all)
  {
    var rest := HandledAll(dirs, MoveAfter(dirs, m, run[0]), run[1..]).1;
    assert told + (Notices(dirs, m, run[0]) + rest) == (told + Notices(dirs, m, run[0])) + rest;
  }

  lemma StampedRest(records: seq<Record>, clock: nat -> int, from: nat)
    requires records != []
    ensures var run := Stamped(records, clock, from);
            && run != [] && run[0] == Timed(records[0].e, clock(from))
            && run[1..] == Stamped(records[1..], clock, from + 1)
  {
  }

  /** The frame as it was before it read the directory it enters. */
  function Left(cd: Frame, entered: bool): Frame
  {
    if entered && cd.cursor > 0 then cd.(cursor := cd.cursor - 1) else cd
  }

  lemma OpeningKeepsRest(below: seq<Frame>, closed: Frame, f: Frame, done: seq<Act>)
    requires (forall g | g in below :: FrameOk(g)) && FrameOk(closed)
    requires !closed.isOpen && closed.dir.opens && closed.dir.watches && f == closed.(isOpen := true, cursor := 0)
    ensures Before(done, Rest(below + [closed])) == Before(done + [Opened(f.name), Watched(f.name)], Rest(below + [f]))
    ensures StackSize(below + [f]) < StackSize(below + [closed])
  {
    RestTop(below, closed);
    RestTop(below, f);
    assert f.dir.entries[0..] == f.dir.entries;
    var (acts, ok) := WalkedEntries(f.name, f.dir.entries);
    var start, end := [Opened(f.name), Watched(f.name)], if ok then [Closed(f.name)] else [];
    assert start + acts + end == start + (acts + end);
    assert done + (start + (acts + end)) == (done + start) + (acts + end);
    if ok {
      assert done + ((start + (acts + end)) + Rest(below).0) == (done + start) + ((acts + end) + Rest(below).0);
    }
  }

  lemma ReadingKeepsRest(below: seq<Frame>, f: Frame, done: seq<Act>)
    requires forall g | g in below :: FrameOk(g)
    requires f.isOpen && f.cursor < |f.dir.entries| && !f.dir.entries[f.cursor].Directory?
    ensures var e, g := f.dir.entries[f.cursor], f.(cursor := f.cursor + 1);
            && Before(done, Rest(below + [f]))
               == Before(if e.RegularFile? then done + [Found(Sub(f.name, e.name))] else done, Rest(below + [g]))
            && StackSize(below + [g]) < StackSize(below + [f])
  {
    var e, g := f.dir.entries[f.cursor], f.(cursor := f.cursor + 1);
    RestTop(below, f);
    RestTop(below, g);
    ReadEntry(f);
    ToldBefore(done, if e.RegularFile? then [Found(Sub(f.name, e.name))] else [], FrameRest(g), Rest(below));
    assert done + [] == done;
  }

  lemma ToldBefore(done: seq<Act>, told: seq<Act>, top: (seq<Act>, bool), below: (seq<Act>, bool))
    ensures Before(done, Before(told, top)) == Before(done + told, top)
    ensures Before(done, Before(told + top.0, below)) == Before(done + told, Before(top.0, below))
  {
    assert done + (told + top.0) == (done + told) + top.0;
    assert done + ((told + top.0) + below.0) == (done + told) + (top.0 + below.0);
  }
}
