/** Directory trees and the recursive walk over them: what watchDir is to do. */
module Walk {

  import opened Wrappers

  /** A directory, its entries in the order readdir gives them, and whether it can be opened and watched.
      `Skipped` stands for "." and "..", and for what is neither a file nor a directory. */
  datatype Dir = Dir(name: string, opens: bool, watches: bool, entries: seq<DirEntry>)
  datatype DirEntry = RegularFile(name: string) | Directory(dir: Dir) | Skipped(name: string)

  datatype Act = Opened(path: string) | Watched(path: string) | Found(path: string) | Closed(path: string)

  function Sub(path: string, name: string): string { path + "/" + name }

  /** What a recursive walk does, and whether it gets through. */
  function Walked(path: string, dir: Dir): (seq<Act>, bool)
    decreases dir, 1
  {
    if !dir.opens then ([], false)
    else if !dir.watches then ([Opened(path)], false)
    else
      var (acts, ok) := WalkedEntries(path, dir.entries);
      ([Opened(path), Watched(path)] + acts + (if ok then [Closed(path)] else []), ok)
  }

  function WalkedEntries(path: string, entries: seq<DirEntry>): (seq<Act>, bool)
    decreases entries, 0
  {
    if entries == [] then ([], true)
    else
      match entries[0]
      case RegularFile(name) => Before([Found(Sub(path, name))], WalkedEntries(path, entries[1..]))
      case Skipped(_) => WalkedEntries(path, entries[1..])
      case Directory(dir) =>
        assert dir < entries[0];
        var (acts, ok) := Walked(Sub(path, dir.name), dir);
        if ok then Before(acts, WalkedEntries(path, entries[1..])) else (acts, false)
  }

  function Before(acts: seq<Act>, rest: (seq<Act>, bool)): (seq<Act>, bool) { (acts + rest.0, rest.1) }

  /* ---- handles ---- */

  function OpenHandles(acts: seq<Act>): int
  {
    if acts == [] then 0
    else OpenHandles(acts[1..]) + (if acts[0].Opened? then 1 else if acts[0].Closed? then -1 else 0)
  }

  lemma {:induction false} OpenHandlesAdd(a: seq<Act>, b: seq<Act>)
    ensures OpenHandles(a + b) == OpenHandles(a) + OpenHandles(b)
  {
    if a == [] {
      assert a + b == b;
    } else {
      assert (a + b)[1..] == a[1..] + b;
      OpenHandlesAdd(a[1..], b);
    }
  }

  /** A walk closes every directory it opened exactly if it gets through, or opened none. */
  lemma {:induction false} WalkCloses(path: string, dir: Dir)
    ensures var (acts, ok) := Walked(path, dir);
            && OpenHandles(acts) >= 0
            && (OpenHandles(acts) == 0 <==> ok || !dir.opens)
    decreases dir, 1
  {
    if dir.opens && dir.watches {
      var (acts, ok) := WalkedEntries(path, dir.entries);
      WalkClosesEntries(path, dir.entries);
      var start := [Opened(path), Watched(path)];
      var end := if ok then [Closed(path)] else [];
      OpenHandlesAdd(start + acts, end);
      OpenHandlesAdd(start, acts);
      assert start[1..] == [Watched(path)] && start[1..][1..] == [];
      assert OpenHandles(end) == if ok then -1 else 0;
    } else if dir.opens {
      assert [Opened(path)][1..] == [];
    }
  }

  lemma {:induction false} WalkClosesEntries(path: string, entries: seq<DirEntry>)
    ensures var (acts, ok) := WalkedEntries(path, entries);
            OpenHandles(acts) >= 0 && (ok ==> OpenHandles(acts) == 0)
    decreases entries, 0
  {
    if entries != [] {
      WalkClosesEntries(path, entries[1..]);
      var rest := WalkedEntries(path, entries[1..]).0;
      match entries[0]
      case RegularFile(name) =>
        OpenHandlesAdd([Found(Sub(path, name))], rest);
        assert [Found(Sub(path, name))][1..] == [];
      case Skipped(_) =>
      case Directory(dir) =>
        assert dir < entries[0];
        WalkCloses(Sub(path, dir.name), dir);
        OpenHandlesAdd(Walked(Sub(path, dir.name), dir).0, rest);
    }
  }

  /* ---- everything once ---- */

  function NameOf(e: DirEntry): string { if e.Directory? then e.dir.name else e.name }

  /** A tree as a file system has it: no name twice in a directory, and no slash in a name. */
  ghost predicate Named(entries: seq<DirEntry>)
    decreases entries
  {
    && (forall i, j | 0 <= i < j < |entries| :: NameOf(entries[i]) != NameOf(entries[j]))
    && (forall e | e in entries :: '/' !in NameOf(e))
    && (forall e | e in entries :: e.Directory? ==> assert e.dir < e; Named(e.dir.entries))
  }

  /** The tree has this file to be found, or this directory to be watched. */
  ghost predicate Has(path: string, entries: seq<DirEntry>, act: Act)
    decreases entries, 0
  {
    exists e :: e in entries && HasEntry(path, e, act)
  }

  ghost predicate HasEntry(path: string, e: DirEntry, act: Act)
    decreases e, 1
  {
    match e
    case RegularFile(name) => act == Found(Sub(path, name))
    case Skipped(_) => false
    case Directory(dir) => act == Watched(Sub(path, dir.name)) || Has(Sub(path, dir.name), dir.entries, act)
  }

  /** The part of a path before the next slash. */
  function FirstName(t: string): string
  {
    if t == "" || t[0] == '/' then "" else [t[0]] + FirstName(t[1..])
  }

  lemma {:induction false} FirstNameOf(name: string, rest: string)
    requires '/' !in name && (rest == "" || rest[0] == '/')
    ensures FirstName(name + rest) == name
  {
    if name == "" {
      assert name + rest == rest;
    } else {
      assert (name + rest)[0] == name[0] && (name + rest)[1..] == name[1..] + rest;
      FirstNameOf(name[1..], rest);
    }
  }

  /** What an entry has lies under the entry's own name. */
  lemma {:induction false} HasUnderName(path: string, e: DirEntry, act: Act)
    requires HasEntry(path, e, act) && '/' !in NameOf(e) && (e.Directory? ==> Named(e.dir.entries))
    ensures |act.path| > |path| && act.path[..|path| + 1] == path + "/"
    ensures FirstName(act.path[|path| + 1..]) == NameOf(e)
    decreases e
  {
    var name := NameOf(e);
    var sub := Sub(path, name);
    if act == Found(sub) || act == Watched(sub) {
      PathUnder(path, name, "");
      assert sub + "" == sub;
    } else {
      var inner :| inner in e.dir.entries && HasEntry(sub, inner, act);
      assert inner in e.dir.entries && e.dir < e;
      assert '/' !in NameOf(inner) && (inner.Directory? ==> Named(inner.dir.entries));
      HasUnderName(sub, inner, act);
      var rest := SplitUnder(act.path, sub);
      PathUnder(path, name, rest);
    }
  }

  lemma SplitUnder(p: string, sub: string) returns (rest: string)
    requires |p| > |sub| && p[..|sub| + 1] == sub + "/"
    ensures p == sub + rest && rest != "" && rest[0] == '/'
  {
    rest := p[|sub|..];
    assert rest[0] == p[..|sub| + 1][|sub|];
    assert p[..|sub|] == p[..|sub| + 1][..|sub|];
  }

  lemma PathUnder(path: string, name: string, rest: string)
    requires '/' !in name && (rest == "" || rest[0] == '/')
    ensures var p := Sub(path, name) + rest;
            && |p| > |path| && p[..|path| + 1] == path + "/"
            && p[|path| + 1..] == name + rest && FirstName(p[|path| + 1..]) == name
  {
    FirstNameOf(name, rest);
    assert Sub(path, name) + rest == path + "/" + (name + rest);
  }

  /** Two entries of a directory have nothing in common. */
  lemma HasOnce(path: string, entries: seq<DirEntry>, act: Act, i: nat, j: nat)
    requires Named(entries) && i < j < |entries| && HasEntry(path, entries[i], act)
    ensures !HasEntry(path, entries[j], act)
  {
    assert entries[i] in entries && entries[j] in entries;
    if HasEntry(path, entries[j], act) {
      HasUnderName(path, entries[i], act);
      HasUnderName(path, entries[j], act);
    }
  }

  lemma NamedRest(entries: seq<DirEntry>)
    requires Named(entries) && entries != []
    ensures Named(entries[1..])
  {
    forall i, j | 0 <= i < j < |entries[1..]| ensures NameOf(entries[1..][i]) != NameOf(entries[1..][j]) {
      assert entries[1..][i] == entries[i + 1] && entries[1..][j] == entries[j + 1];
    }
  }

  predicate IsReport(act: Act) { act.Found? || act.Watched? }

  lemma HasFirstOrRest(path: string, entries: seq<DirEntry>, act: Act)
    requires Named(entries) && entries != []
    ensures Has(path, entries, act) <==> HasEntry(path, entries[0], act) || Has(path, entries[1..], act)
    ensures !(HasEntry(path, entries[0], act) && Has(path, entries[1..], act))
  {
    if Has(path, entries[1..], act) {
      var e :| e in entries[1..] && HasEntry(path, e, act);
      var j :| 0 <= j < |entries[1..]| && entries[1..][j] == e;
      assert entries[j + 1] == e;
      if HasEntry(path, entries[0], act) {
        HasOnce(path, entries, act, 0, j + 1);
      }
    }
    if Has(path, entries, act) {
      var e :| e in entries && HasEntry(path, e, act);
      assert e == entries[0] || e in entries[1..];
    }
  }

  lemma {:induction false} EntriesOnce(path: string, entries: seq<DirEntry>, act: Act)
    requires Named(entries) && WalkedEntries(path, entries).1 && IsReport(act)
    ensures multiset(WalkedEntries(path, entries).0)[act] == if Has(path, entries, act) then 1 else 0
    decreases entries, 0
  {
    if entries != [] {
      NamedRest(entries);
      EntriesOnce(path, entries[1..], act);
      HasFirstOrRest(path, entries, act);
      assert entries[0] in entries;
      if entries[0].Directory? {
        assert entries[0].dir < entries[0];
        DirOnce(Sub(path, entries[0].dir.name), entries[0].dir, act);
      }
    }
  }

  /** A walk that gets through reports every regular file once and watches every directory once, and
      reports and watches nothing else. */
  lemma {:induction false} DirOnce(path: string, dir: Dir, act: Act)
    requires Named(dir.entries) && Walked(path, dir).1 && IsReport(act)
    ensures multiset(Walked(path, dir).0)[act] == if act == Watched(path) || Has(path, dir.entries, act) then 1 else 0
    decreases dir, 1
  {
    EntriesOnce(path, dir.entries, act);
    if Has(path, dir.entries, act) {
      var e :| e in dir.entries && HasEntry(path, e, act);
      HasUnderName(path, e, act);
    }
  }

  /* ---- getting through ---- */

  predicate AllOpen(dir: Dir)
    decreases dir, 1
  {
    dir.opens && dir.watches && AllOpenEntries(dir.entries)
  }

  predicate AllOpenEntries(entries: seq<DirEntry>)
    decreases entries, 0
  {
    forall e | e in entries :: e.Directory? ==> assert e.dir < e; AllOpen(e.dir)
  }

  /** A walk gets through exactly when every directory of the tree can be opened and watched. */
  lemma {:induction false} WalkGetsThrough(path: string, dir: Dir)
    ensures Walked(path, dir).1 <==> AllOpen(dir)
    decreases dir, 1
  {
    EntriesGetThrough(path, dir.entries);
  }

  lemma {:induction false} EntriesGetThrough(path: string, entries: seq<DirEntry>)
    ensures WalkedEntries(path, entries).1 <==> AllOpenEntries(entries)
    decreases entries, 0
  {
    if entries != [] {
      EntriesGetThrough(path, entries[1..]);
      assert forall e | e in entries :: e == entries[0] || e in entries[1..];
      if entries[0].Directory? {
        assert entries[0].dir < entries[0];
        WalkGetsThrough(Sub(path, entries[0].dir.name), entries[0].dir);
      }
    }
  }

  /** So handles stay open exactly when the top directory opens and some directory in the tree cannot be
      opened or watched. */
  lemma HandlesClosedIff(path: string, dir: Dir)
    ensures OpenHandles(Walked(path, dir).0) == 0 <==> AllOpen(dir) || !dir.opens
  {
    WalkCloses(path, dir);
    WalkGetsThrough(path, dir);
  }

  /* ---- what a failure leaves out ---- */

  /** The same tree with every directory as it should be. */
  function Mended(dir: Dir): Dir
    decreases dir, 1
  {
    Dir(dir.name, true, true, MendedEntries(dir.entries))
  }

  function MendedEntries(entries: seq<DirEntry>): seq<DirEntry>
    decreases entries, 0
  {
    if entries == [] then []
    else
      var first := entries[0];
      [if first.Directory? then assert first.dir < first; Directory(Mended(first.dir)) else first]
      + MendedEntries(entries[1..])
  }

  /** A walk stops at the first failure: up to there it does what it would do without, and nothing after. */
  lemma {:induction false} StopsAtFailure(path: string, dir: Dir)
    ensures Walked(path, Mended(dir)).1
    ensures Walked(path, dir).0 <= Walked(path, Mended(dir)).0
    ensures Walked(path, dir).1 ==> Walked(path, dir) == Walked(path, Mended(dir))
    decreases dir, 1
  {
    var start := [Opened(path), Watched(path)];
    var mended := WalkedEntries(path, MendedEntries(dir.entries)).0;
    EntriesStop(path, dir.entries);
    assert Walked(path, Mended(dir)).0 == start + mended + [Closed(path)];
    if dir.opens && dir.watches {
      var (acts, ok) := WalkedEntries(path, dir.entries);
      if !ok {
        assert start + acts + [] == start + acts <= start + mended;
      }
    }
  }

  lemma {:induction false} EntriesStop(path: string, entries: seq<DirEntry>)
    ensures WalkedEntries(path, MendedEntries(entries)).1
    ensures WalkedEntries(path, entries).0 <= WalkedEntries(path, MendedEntries(entries)).0
    ensures WalkedEntries(path, entries).1
        ==> WalkedEntries(path, entries) == WalkedEntries(path, MendedEntries(entries))
    decreases entries, 0
  {
    if entries != [] {
      EntriesStop(path, entries[1..]);
      assert MendedEntries(entries)[1..] == MendedEntries(entries[1..]);
      if entries[0].Directory? {
        var dir := entries[0].dir;
        assert dir < entries[0];
        StopsAtFailure(Sub(path, dir.name), dir);
        assert Mended(dir).name == dir.name;
      }
    }
  }

  /* ---- order ---- */

  ghost predicate LiesIn(path: string, dir: string)
  {
    exists name :: '/' !in name && path == Sub(dir, name)
  }

  /** The directory is watched already, or is the one the walk is in. */
  ghost predicate ParentWatched(top: string, acts: seq<Act>, i: nat)
    requires i < |acts|
  {
    LiesIn(acts[i].path, top) || exists j :: 0 <= j < i && acts[j].Watched? && LiesIn(acts[i].path, acts[j].path)
  }

  ghost predicate InPlace(top: string, acts: seq<Act>, i: nat)
    requires i < |acts|
  {
    && (IsReport(acts[i]) ==> ParentWatched(top, acts, i))
    && (acts[i].Watched? ==> i > 0 && acts[i - 1] == Opened(acts[i].path))
  }

  /** Nothing is reported before the directory it is in is watched, and none is watched before it is open. */
  ghost predicate Ordered(top: string, acts: seq<Act>)
  {
    forall i | 0 <= i < |acts| :: InPlace(top, acts, i)
  }

  lemma OrderedBoth(top: string, a: seq<Act>, b: seq<Act>)
    requires Ordered(top, a) && Ordered(top, b)
    ensures Ordered(top, a + b)
  {
    forall i | 0 <= i < |a + b| ensures InPlace(top, a + b, i) {
      if i < |a| {
        assert InPlace(top, a, i);
        if IsReport(a[i]) && !LiesIn(a[i].path, top) {
          var j :| 0 <= j < i && a[j].Watched? && LiesIn(a[i].path, a[j].path);
          assert (a + b)[j] == a[j];
        }
      } else {
        var k := i - |a|;
        assert InPlace(top, b, k);
        assert (a + b)[i] == b[k] && (k > 0 ==> (a + b)[i - 1] == b[k - 1]);
        if IsReport(b[k]) && !LiesIn(b[k].path, top) {
          var j :| 0 <= j < k && b[j].Watched? && LiesIn(b[k].path, b[j].path);
          assert (a + b)[j + |a|] == b[j];
        }
      }
    }
  }

  /** What is done in a directory below, seen from above it. */
  lemma OrderedBelow(top: string, path: string, acts: seq<Act>)
    requires LiesIn(path, top) && Ordered(path, acts)
    ensures Ordered(top, [Opened(path), Watched(path)] + acts)
  {
    var all := [Opened(path), Watched(path)] + acts;
    forall i | 0 <= i < |all| ensures InPlace(top, all, i) {
      if i >= 2 {
        var k := i - 2;
        assert InPlace(path, acts, k);
        assert all[i] == acts[k] && (k > 0 ==> all[i - 1] == acts[k - 1]);
        if IsReport(acts[k]) {
          if LiesIn(acts[k].path, path) {
            assert all[1] == Watched(path);
          } else {
            var j :| 0 <= j < k && acts[j].Watched? && LiesIn(acts[k].path, acts[j].path);
            assert all[j + 2] == acts[j];
          }
        }
      }
    }
  }

  lemma {:induction false} WalkIsOrdered(top: string, name: string, dir: Dir)
    requires '/' !in name && Named(dir.entries)
    ensures Ordered(top, Walked(Sub(top, name), dir).0)
    decreases dir, 1
  {
    var path := Sub(top, name);
    assert LiesIn(path, top);
    if dir.opens && dir.watches {
      var (acts, ok) := WalkedEntries(path, dir.entries);
      EntriesOrdered(path, dir.entries);
      OrderedBelow(top, path, acts);
      OrderedBoth(top, [Opened(path), Watched(path)] + acts, if ok then [Closed(path)] else []);
    }
  }

  /** Below the directory the walk starts in, nothing is reported before the directory it lies in is watched. */
  lemma {:induction false} EntriesOrdered(path: string, entries: seq<DirEntry>)
    requires Named(entries)
    ensures Ordered(path, WalkedEntries(path, entries).0)
    decreases entries, 0
  {
    if entries != [] {
      NamedRest(entries);
      EntriesOrdered(path, entries[1..]);
      assert entries[0] in entries && '/' !in NameOf(entries[0]);
      var rest := WalkedEntries(path, entries[1..]).0;
      match entries[0]
      case RegularFile(name) =>
        assert LiesIn(Sub(path, name), path);
        OrderedBoth(path, [Found(Sub(path, name))], rest);
      case Skipped(_) =>
      case Directory(dir) =>
        assert dir < entries[0];
        WalkIsOrdered(path, dir.name, dir);
        OrderedBoth(path, Walked(Sub(path, dir.name), dir).0, rest);
    }
  }
}
