/** Inotify events of files, and how the two halves of a move are put together. */
module Moves {

  import opened Wrappers
  import opened Text
  import opened Listener

  /** struct inotify_event with its name. */
  datatype Inotify = Inotify(wd: nat, mask: nat, cookie: nat, name: string)

  /** The flags, by the number of their bit: IN_CLOSE_WRITE is 0x8, IN_ISDIR 0x40000000. */
  const IN_CLOSE_WRITE := 3
  const IN_MOVED_FROM := 6
  const IN_MOVED_TO := 7
  const IN_DELETE := 9
  const IN_ISDIR := 30

  predicate Bit(mask: nat, bit: nat)
  {
    if bit == 0 then mask % 2 == 1 else Bit(mask / 2, bit - 1)
  }

  predicate IsMove(e: Inotify) { Bit(e.mask, IN_MOVED_FROM) || Bit(e.mask, IN_MOVED_TO) }

  /** MoveTimeout, in milliseconds. */
  const MOVE_TIMEOUT := 5000

  /** m_cookie, m_moveName, m_moveFrom and m_moveStart. */
  datatype Move = Move(cookie: nat, name: string, from: bool, start: int)

  /** What the listener is told. */
  datatype Notice = Notice(kind: EventType, src: string, dst: string)

  /** An event with the time it is handled at. */
  datatype Timed = Timed(e: Inotify, now: int)

  function FullName(dirs: map<nat, string>, e: Inotify): string
  {
    (if e.wd in dirs then dirs[e.wd] else "") + "/" + e.name
  }

  predicate TimedOut(m: Move, now: int) { m.cookie > 0 && now - m.start > MOVE_TIMEOUT }

  /** A move of which only one half was seen. */
  function HalfMoved(m: Move): Notice
  {
    Notice(FileMoved, if m.from then m.name else "", if m.from then "" else m.name)
  }

  function Flushed(m: Move, now: int): Move { if TimedOut(m, now) then m.(cookie := 0) else m }

  /** A file event that is neither a creation nor a deletion, and has a cookie: half of a move. */
  predicate IsHalf(e: Inotify)
  {
    !Bit(e.mask, IN_ISDIR) && !Bit(e.mask, IN_CLOSE_WRITE) && !Bit(e.mask, IN_DELETE) && IsMove(e) && e.cookie != 0
  }

  predicate BringsHalf(m: Move, t: Timed) { IsHalf(t.e) }
  predicate Starts(m: Move, t: Timed) { IsHalf(t.e) && Flushed(m, t.now).cookie == 0 }
  predicate Ends(m: Move, t: Timed) { IsHalf(t.e) && Flushed(m, t.now).cookie == t.e.cookie }
  predicate Drops(m: Move, t: Timed) { IsHalf(t.e) && Flushed(m, t.now).cookie !in {0, t.e.cookie} }
  predicate Flushes(m: Move, t: Timed) { !Bit(t.e.mask, IN_ISDIR) && TimedOut(m, t.now) }

  /** The two halves in one, from the name it had to the name it has. */
  function BothHalves(dirs: map<nat, string>, m: Move, e: Inotify): Notice
  {
    var name := FullName(dirs, e);
    if Bit(e.mask, IN_MOVED_FROM) then Notice(FileMoved, name, m.name) else Notice(FileMoved, m.name, name)
  }

  function MoveAfter(dirs: map<nat, string>, m: Move, t: Timed): Move
  {
    if Bit(t.e.mask, IN_ISDIR) then m
    else if Starts(m, t) then Move(t.e.cookie, FullName(dirs, t.e), Bit(t.e.mask, IN_MOVED_FROM), t.now)
    else if Ends(m, t) then Flushed(m, t.now).(cookie := 0)
    else Flushed(m, t.now)
  }

  function Notices(dirs: map<nat, string>, m: Move, t: Timed): seq<Notice>
  {
    if Bit(t.e.mask, IN_ISDIR) then []
    else
      (if TimedOut(m, t.now) then [HalfMoved(m)] else [])
      + (if Bit(t.e.mask, IN_CLOSE_WRITE) then [Notice(FileCreated, "", FullName(dirs, t.e))]
         else if Bit(t.e.mask, IN_DELETE) then [Notice(FileDeleted, "", FullName(dirs, t.e))]
         else if Ends(m, t) then [BothHalves(dirs, Flushed(m, t.now), t.e)]
         else [])
  }

  /* ---- runs ---- */

  const NO_MOVE := Move(0, "", false, 0)

  /** What a run of events leaves pending and tells the listener. */
  function HandledAll(dirs: map<nat, string>, m: Move, run: seq<Timed>): (Move, seq<Notice>)
    decreases |run|
  {
    if run == [] then (m, [])
    else
      var (after, told) := HandledAll(dirs, MoveAfter(dirs, m, run[0]), run[1..]);
      (after, Notices(dirs, m, run[0]) + told)
  }

  function MoveCount(dirs: map<nat, string>, m: Move, run: seq<Timed>, kind: (Move, Timed) -> bool): nat
    decreases |run|
  {
    if run == [] then 0
    else (if kind(m, run[0]) then 1 else 0) + MoveCount(dirs, MoveAfter(dirs, m, run[0]), run[1..], kind)
  }

  function Pending(m: Move): nat { if m.cookie != 0 then 1 else 0 }

  /** Whatever comes and when: every move that is pending or starts is ended by its other half, or given up
      after the time-out, or is the one pending then; and every half of a move is a start, an end or
      dropped. */
  lemma {:induction false} MovesBalance(dirs: map<nat, string>, m: Move, run: seq<Timed>)
    ensures Pending(m) + MoveCount(dirs, m, run, Starts)
         == MoveCount(dirs, m, run, Ends) + MoveCount(dirs, m, run, Flushes) + Pending(HandledAll(dirs, m, run).0)
    ensures MoveCount(dirs, m, run, BringsHalf)
         == MoveCount(dirs, m, run, Starts) + MoveCount(dirs, m, run, Ends) + MoveCount(dirs, m, run, Drops)
    decreases |run|
  {
    if run != [] {
      MovesBalance(dirs, MoveAfter(dirs, m, run[0]), run[1..]);
    }
  }

  /** The move that this half started. */
  predicate IsStartOf(dirs: map<nat, string>, t: Timed, m: Move)
  {
    && IsHalf(t.e) && t.e.cookie == m.cookie && t.now == m.start
    && FullName(dirs, t.e) == m.name && m.from == Bit(t.e.mask, IN_MOVED_FROM)
  }

  /** A move pending after a run was pending before it, or is started by a half in it. */
  lemma {:induction false} PendingWasStarted(dirs: map<nat, string>, m: Move, run: seq<Timed>)
    ensures var after := HandledAll(dirs, m, run).0;
            after.cookie != 0 ==> after == m || exists t :: t in run && IsStartOf(dirs, t, after)
    decreases |run|
  {
    if run != [] {
      var next := MoveAfter(dirs, m, run[0]);
      PendingWasStarted(dirs, next, run[1..]);
      assert next.cookie != 0 && next != m ==> IsStartOf(dirs, run[0], next);
      assert run[0] in run;
    }
  }

  /** The kernel gives the halves of one move opposite directions. */
  predicate Opposite(a: Inotify, b: Inotify)
  {
    Bit(a.mask, IN_MOVED_FROM) != Bit(b.mask, IN_MOVED_FROM)
  }

  /** A move told with both names joins two halves of one cookie, and runs from the one moved from to the
      one moved to, whichever came first. */
  lemma MoveJoinsHalves(dirs: map<nat, string>, run: seq<Timed>, t: Timed) returns (other: Timed)
    requires Ends(HandledAll(dirs, NO_MOVE, run).0, t)
    ensures other in run && IsHalf(other.e) && other.e.cookie == t.e.cookie
    ensures Opposite(other.e, t.e) ==>
              var (from, to) := if Bit(t.e.mask, IN_MOVED_FROM) then (t.e, other.e) else (other.e, t.e);
              Notice(FileMoved, FullName(dirs, from), FullName(dirs, to))
              in Notices(dirs, HandledAll(dirs, NO_MOVE, run).0, t)
  {
    var m := HandledAll(dirs, NO_MOVE, run).0;
    PendingWasStarted(dirs, NO_MOVE, run);
    other :| other in run && IsStartOf(dirs, other, m);
    var told := Notices(dirs, m, t);
    assert told[|told| - 1] == BothHalves(dirs, Flushed(m, t.now), t.e);
  }

  /* ---- what is told, in the kernel's terms ---- */

  function Power(n: nat): (p: nat)
    ensures p > 0
  {
    if n == 0 then 1 else 2 * Power(n - 1)
  }

  lemma {:induction false} PowerOfSum(a: nat, b: nat)
    ensures Power(a + b) == Power(a) * Power(b)
  {
    if a > 0 {
      PowerOfSum(a - 1, b);
    }
  }

  lemma HalvedThenDivided(m: nat, p: nat)
    requires p > 0
    ensures m / 2 / p == m / (2 * p)
  {
    var q, rest := m / 2 / p, m / 2 % p;
    assert m / 2 == q * p + rest;
    assert m == q * (2 * p) + (2 * rest + m % 2);
    QuotientIs(m, 2 * p, q, 2 * rest + m % 2);
  }

  lemma {:induction false} BitIs(mask: nat, bit: nat)
    ensures Bit(mask, bit) <==> mask / Power(bit) % 2 == 1
  {
    if bit > 0 {
      BitIs(mask / 2, bit - 1);
      HalvedThenDivided(mask, Power(bit - 1));
    }
  }

  /** A flag of <sys/inotify.h>. */
  predicate HasFlag(e: Inotify, flag: nat)
    requires flag > 0
  {
    e.mask / flag % 2 == 1
  }

  /** The bits are the kernel's flags: IN_CLOSE_WRITE, IN_MOVED_FROM, IN_MOVED_TO, IN_DELETE, IN_ISDIR. */
  lemma Flags(e: Inotify)
    ensures Bit(e.mask, IN_CLOSE_WRITE) <==> HasFlag(e, 0x8)
    ensures Bit(e.mask, IN_MOVED_FROM) <==> HasFlag(e, 0x40)
    ensures Bit(e.mask, IN_MOVED_TO) <==> HasFlag(e, 0x80)
    ensures Bit(e.mask, IN_DELETE) <==> HasFlag(e, 0x200)
    ensures Bit(e.mask, IN_ISDIR) <==> HasFlag(e, 0x4000_0000)
  {
    assert Power(3) == 0x8 && Power(6) == 0x40 && Power(7) == 0x80 && Power(9) == 0x200 && Power(10) == 0x400;
    PowerOfSum(10, 10);
    PowerOfSum(10, 20);
    BitIs(e.mask, IN_CLOSE_WRITE);
    BitIs(e.mask, IN_MOVED_FROM);
    BitIs(e.mask, IN_MOVED_TO);
    BitIs(e.mask, IN_DELETE);
    BitIs(e.mask, IN_ISDIR);
  }

  predicate OfFile(e: Inotify) { !HasFlag(e, 0x4000_0000) }

  /** Half of a move of a file. */
  predicate HalfMove(e: Inotify)
  {
    OfFile(e) && !HasFlag(e, 0x8) && !HasFlag(e, 0x200) && (HasFlag(e, 0x40) || HasFlag(e, 0x80)) && e.cookie != 0
  }

  function PathOf(dirs: map<nat, string>, e: Inotify): string
  {
    if e.wd in dirs then dirs[e.wd] + "/" + e.name else "/" + e.name
  }

  function Only(told: seq<Notice>, which: Notice -> bool): seq<Notice>
  {
    if told == [] then [] else (if which(told[0]) then [told[0]] else []) + Only(told[1..], which)
  }

  lemma {:induction false} OnlyOfBoth(a: seq<Notice>, b: seq<Notice>, which: Notice -> bool)
    ensures Only(a + b, which) == Only(a, which) + Only(b, which)
  {
    if a == [] {
      assert a + b == b;
    } else {
      assert (a + b)[1..] == a[1..] + b;
      OnlyOfBoth(a[1..], b, which);
    }
  }

  predicate OfCreation(n: Notice) { n.kind == FileCreated }
  predicate OfDeletion(n: Notice) { n.kind == FileDeleted }
  predicate OfHalf(n: Notice) { n.kind == FileMoved && (n.src == "" || n.dst == "") }
  predicate OfMove(n: Notice) { n.kind == FileMoved && n.src != "" && n.dst != "" }

  function WrittenBy(dirs: map<nat, string>, e: Inotify): seq<Notice>
  {
    if OfFile(e) && HasFlag(e, 0x8) then [Notice(FileCreated, "", PathOf(dirs, e))] else []
  }

  function RemovedBy(dirs: map<nat, string>, e: Inotify): seq<Notice>
  {
    if OfFile(e) && !HasFlag(e, 0x8) && HasFlag(e, 0x200) then [Notice(FileDeleted, "", PathOf(dirs, e))] else []
  }

  /** A file moved out has only the name it had, a file moved in only the name it has. */
  function HalfTold(from: bool, name: string): Notice
  {
    if from then Notice(FileMoved, name, "") else Notice(FileMoved, "", name)
  }

  /** An event of a file finds a half that has been pending for more than five seconds. */
  function GivenUpAt(m: Move, t: Timed): seq<Notice>
  {
    if OfFile(t.e) && m.cookie != 0 && t.now - m.start > 5000 then [HalfTold(m.from, m.name)] else []
  }

  /** The other half of the pending move comes within five seconds. */
  function CompletedBy(dirs: map<nat, string>, m: Move, t: Timed): seq<Notice>
  {
    if HalfMove(t.e) && m.cookie == t.e.cookie && t.now - m.start <= 5000
    then [if HasFlag(t.e, 0x40) then Notice(FileMoved, PathOf(dirs, t.e), m.name)
          else Notice(FileMoved, m.name, PathOf(dirs, t.e))]
    else []
  }

  /* The same over a run, in order. */

  function Written(dirs: map<nat, string>, run: seq<Timed>): seq<Notice>
  {
    if run == [] then [] else WrittenBy(dirs, run[0].e) + Written(dirs, run[1..])
  }

  function Removed(dirs: map<nat, string>, run: seq<Timed>): seq<Notice>
  {
    if run == [] then [] else RemovedBy(dirs, run[0].e) + Removed(dirs, run[1..])
  }

  function HalvesGivenUp(dirs: map<nat, string>, m: Move, run: seq<Timed>): seq<Notice>
    decreases |run|
  {
    if run == [] then [] else GivenUpAt(m, run[0]) + HalvesGivenUp(dirs, MoveAfter(dirs, m, run[0]), run[1..])
  }

  function Completed(dirs: map<nat, string>, m: Move, run: seq<Timed>): seq<Notice>
    decreases |run|
  {
    if run == [] then [] else CompletedBy(dirs, m, run[0]) + Completed(dirs, MoveAfter(dirs, m, run[0]), run[1..])
  }

  predicate PendingNamed(m: Move) { m.cookie != 0 ==> m.name != "" }

  lemma ToldOfOne(dirs: map<nat, string>, m: Move, t: Timed)
    requires PendingNamed(m)
    ensures PendingNamed(MoveAfter(dirs, m, t))
    ensures var told := Notices(dirs, m, t);
            && Only(told, OfCreation) == WrittenBy(dirs, t.e) && Only(told, OfDeletion) == RemovedBy(dirs, t.e)
            && Only(told, OfHalf) == GivenUpAt(m, t) && Only(told, OfMove) == CompletedBy(dirs, m, t)
  {
    var first := GivenUpAt(m, t);
    var rest := WrittenBy(dirs, t.e) + RemovedBy(dirs, t.e) + CompletedBy(dirs, m, t);
    NoticesAre(dirs, m, t);
    OnlyOfTwo(first, rest, OfCreation);
    OnlyOfTwo(first, rest, OfDeletion);
    OnlyOfTwo(first, rest, OfHalf);
    OnlyOfTwo(first, rest, OfMove);
  }

  lemma NoticesAre(dirs: map<nat, string>, m: Move, t: Timed)
    requires PendingNamed(m)
    ensures PendingNamed(MoveAfter(dirs, m, t))
    ensures Notices(dirs, m, t)
         == GivenUpAt(m, t) + (WrittenBy(dirs, t.e) + RemovedBy(dirs, t.e) + CompletedBy(dirs, m, t))
    ensures |GivenUpAt(m, t)| <= 1 && |WrittenBy(dirs, t.e) + RemovedBy(dirs, t.e) + CompletedBy(dirs, m, t)| <= 1
  {
    Flags(t.e);
    assert PathOf(dirs, t.e) == FullName(dirs, t.e);
  }

  lemma OnlyOfTwo(a: seq<Notice>, b: seq<Notice>, which: Notice -> bool)
    requires |a| <= 1 && |b| <= 1
    ensures Only(a + b, which)
         == (if a != [] && which(a[0]) then a else []) + (if b != [] && which(b[0]) then b else [])
  {
    OnlyOfBoth(a, b, which);
    assert a != [] ==> a == [a[0]] && a[1..] == [];
    assert b != [] ==> b == [b[0]] && b[1..] == [];
  }

  /** In any run the listener is told of every file written, of every file deleted, of every half given up
      and of every move completed, in order, and of nothing else of these kinds. */
  lemma {:induction false} ToldExactly(dirs: map<nat, string>, m: Move, run: seq<Timed>)
    requires PendingNamed(m)
    ensures var told := HandledAll(dirs, m, run).1;
            && Only(told, OfCreation) == Written(dirs, run) && Only(told, OfDeletion) == Removed(dirs, run)
            && Only(told, OfHalf) == HalvesGivenUp(dirs, m, run) && Only(told, OfMove) == Completed(dirs, m, run)
    decreases |run|
  {
    if run != [] {
      var first, rest := Notices(dirs, m, run[0]), HandledAll(dirs, MoveAfter(dirs, m, run[0]), run[1..]).1;
      ToldOfOne(dirs, m, run[0]);
      ToldExactly(dirs, MoveAfter(dirs, m, run[0]), run[1..]);
      OnlyOfBoth(first, rest, OfCreation);
      OnlyOfBoth(first, rest, OfDeletion);
      OnlyOfBoth(first, rest, OfHalf);
      OnlyOfBoth(first, rest, OfMove);
    }
  }

  /** The half that started this pending move. */
  predicate CameAs(dirs: map<nat, string>, t: Timed, m: Move)
  {
    && HalfMove(t.e) && t.now == m.start && m.cookie == t.e.cookie
    && m.name == PathOf(dirs, t.e) && m.from == HasFlag(t.e, 0x40)
  }

  lemma PendingAfter(dirs: map<nat, string>, m: Move, t: Timed)
    ensures var after := MoveAfter(dirs, m, t); after.cookie != 0 ==> after == m || CameAs(dirs, t, after)
  {
    Flags(t.e);
  }

  /** Of what is told of halves: each came in the run, more than five seconds before it was given up, or was
      pending at the start; the name is on the side it was moved from or to. */
  lemma {:induction false} GivenUpCame(dirs: map<nat, string>, m: Move, run: seq<Timed>, n: Notice)
    returns (half: Move, end: Timed)
    requires n in HalvesGivenUp(dirs, m, run)
    ensures n == HalfTold(half.from, half.name) && end in run && end.now - half.start > 5000
    ensures half == m || exists t :: t in run && CameAs(dirs, t, half)
    ensures half.cookie != 0
    decreases |run|
  {
    var after := MoveAfter(dirs, m, run[0]);
    if n in GivenUpAt(m, run[0]) {
      half, end := m, run[0];
    } else {
      half, end := GivenUpCame(dirs, after, run[1..], n);
      PendingAfter(dirs, m, run[0]);
      assert run[0] in run;
    }
  }

  /* ---- the records of one read ---- */

  /** A 32-bit field, lowest byte first. */
  function Field(n: nat): string
  {
    [(n % 0x100) as char, (n / 0x100 % 0x100) as char, (n / 0x1_0000 % 0x100) as char, (n / 0x100_0000 % 0x100) as char]
  }

  function ReadField(b: string, at: nat): nat
    requires at + 4 <= |b|
  {
    b[at] as nat + 0x100 * b[at + 1] as nat + 0x1_0000 * b[at + 2] as nat + 0x100_0000 * b[at + 3] as nat
  }

  function Nuls(n: nat): string { seq(n, _ => NUL) }

  function UpToNul(s: string): string
  {
    if s == "" || s[0] == NUL then "" else [s[0]] + UpToNul(s[1..])
  }

  const HEADER := 16

  /** An event with `pad` NULs behind its name. */
  function Encoded(e: Inotify, pad: nat): string
  {
    Field(e.wd) + Field(e.mask) + Field(e.cookie) + Field(|e.name| + pad) + e.name + Nuls(pad)
  }

  /** As the kernel makes them: 32-bit fields, and a name that ends within its record. */
  predicate Recordable(e: Inotify, pad: nat)
  {
    && e.wd < 0x1_0000_0000 && e.mask < 0x1_0000_0000 && e.cookie < 0x1_0000_0000 && |e.name| + pad < 0x1_0000_0000
    && NUL !in e.name && pad > 0
  }

  /** A record that is there in full. */
  predicate RecordAt(b: string, u: nat)
  {
    u + HEADER <= |b| && u + HEADER + ReadField(b, u + 12) <= |b|
  }

  function LengthAt(b: string, u: nat): nat
    requires RecordAt(b, u)
  {
    ReadField(b, u + 12)
  }

  function EventAt(b: string, u: nat): Inotify
    requires RecordAt(b, u)
  {
    Inotify(ReadField(b, u), ReadField(b, u + 4), ReadField(b, u + 8),
            UpToNul(b[u + HEADER..u + HEADER + LengthAt(b, u)]))
  }

  lemma FieldSum(n: nat)
    requires n < 0x1_0000_0000
    ensures n == n % 0x100 + 0x100 * (n / 0x100 % 0x100) + 0x1_0000 * (n / 0x1_0000 % 0x100)
                 + 0x100_0000 * (n / 0x100_0000 % 0x100)
  {
  }

  lemma FieldReadBack(n: nat, b: string, at: nat)
    requires n < 0x1_0000_0000 && at + 4 <= |b| && b[at..at + 4] == Field(n)
    ensures ReadField(b, at) == n
  {
    var f := Field(n);
    assert b[at] == f[0] && b[at + 1] == f[1] && b[at + 2] == f[2] && b[at + 3] == f[3] by {
      assert b[at..at + 4][0] == f[0] && b[at..at + 4][1] == f[1] && b[at..at + 4][2] == f[2]
             && b[at..at + 4][3] == f[3];
    }
    FieldSum(n);
  }

  /** Where the pieces of a record stand. */
  lemma Pieces(before: string, f1: string, f2: string, f3: string, f4: string, tail: string, after: string)
    requires |f1| == |f2| == |f3| == |f4| == 4
    ensures var b, u := before + (f1 + f2 + f3 + f4 + tail) + after, |before|;
            && b[u..u + 4] == f1 && b[u + 4..u + 8] == f2 && b[u + 8..u + 12] == f3 && b[u + 12..u + 16] == f4
            && b[u + 16..u + 16 + |tail|] == tail
  {
    var r := f1 + f2 + f3 + f4 + tail;
    var b, u := before + r + after, |before|;
    assert b[u..u + |r|] == r;
    assert r[..4] == f1 && r[4..8] == f2 && r[8..12] == f3 && r[12..16] == f4 && r[16..] == tail;
    assert b[u..u + 4] == r[..4] && b[u + 4..u + 8] == r[4..8] && b[u + 8..u + 12] == r[8..12];
    assert b[u + 12..u + 16] == r[12..16] && b[u + 16..u + |r|] == r[16..];
  }

  lemma {:induction false} UpToNulBack(name: string, pad: nat)
    requires NUL !in name
    ensures UpToNul(name + Nuls(pad)) == name
  {
    if name == "" {
      assert name + Nuls(pad) == Nuls(pad);
    } else {
      assert (name + Nuls(pad))[1..] == name[1..] + Nuls(pad);
      UpToNulBack(name[1..], pad);
    }
  }

  /** A record is read as the event it was made of, wherever it stands. */
  lemma RecordReadBack(e: Inotify, pad: nat, before: string, after: string)
    requires Recordable(e, pad)
    ensures var b, u := before + Encoded(e, pad) + after, |before|;
            && RecordAt(b, u) && EventAt(b, u) == e
            && u + HEADER + LengthAt(b, u) == |before + Encoded(e, pad)|
  {
    var b, u, tail := before + Encoded(e, pad) + after, |before|, e.name + Nuls(pad);
    assert Encoded(e, pad) == Field(e.wd) + Field(e.mask) + Field(e.cookie) + Field(|tail|) + tail;
    Pieces(before, Field(e.wd), Field(e.mask), Field(e.cookie), Field(|tail|), tail, after);
    FieldReadBack(e.wd, b, u);
    FieldReadBack(e.mask, b, u + 4);
    FieldReadBack(e.cookie, b, u + 8);
    FieldReadBack(|tail|, b, u + 12);
    UpToNulBack(e.name, pad);
  }

  /** An event and how its record is padded. */
  datatype Record = Record(e: Inotify, pad: nat)

  function EncodedAll(records: seq<Record>): string
  {
    if records == [] then "" else Encoded(records[0].e, records[0].pad) + EncodedAll(records[1..])
  }

  /** A record at the head of what is left is read as its event. */
  lemma AtRecord(b: string, u: nat, e: Inotify, pad: nat, rest: string)
    requires u <= |b| && b[u..] == Encoded(e, pad) + rest && Recordable(e, pad)
    ensures RecordAt(b, u) && EventAt(b, u) == e
    ensures var next := u + HEADER + LengthAt(b, u); next <= |b| && b[next..] == rest
  {
    var r := Encoded(e, pad);
    assert b == b[..u] + r + rest;
    RecordReadBack(e, pad, b[..u], rest);
    assert b[u..][|r|..] == rest;
  }

  lemma NothingLeft(records: seq<Record>)
    ensures records != [] ==> EncodedAll(records) != ""
  {
    if records != [] {
      assert |Encoded(records[0].e, records[0].pad)| >= HEADER;
    }
  }

  /** While there is something left in the buffer, the next record is the next event. */
  lemma NextRecord(b: string, u: nat, records: seq<Record>)
    requires u < |b| && b[u..] == EncodedAll(records)
    requires forall r | r in records :: Recordable(r.e, r.pad)
    ensures records != [] && RecordAt(b, u) && EventAt(b, u) == records[0].e
    ensures var next := u + HEADER + LengthAt(b, u); next <= |b| && b[next..] == EncodedAll(records[1..])
  {
    AtRecord(b, u, records[0].e, records[0].pad, EncodedAll(records[1..]));
  }

  function Stamped(records: seq<Record>, clock: nat -> int, from: nat): seq<Timed>
  {
    if records == [] then [] else [Timed(records[0].e, clock(from))] + Stamped(records[1..], clock, from + 1)
  }
}
