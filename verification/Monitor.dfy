/** The monitor of a node: a bounded window of events, counters, and the transfers it shows as live. */
module Monitor {
  import opened Bytes
  import Names

  const MAX_RECENT_EVENTS := 40

  datatype Direction = Upload | Download

  datatype Kind =
    | Connected
    | Refused
    | Started(dir: Direction)
    | Progress(dir: Direction)
    | Completed(dir: Direction)
    | Aborted(dir: Direction)
    | Other(name: string)

  datatype Event = Event(ts: int, kind: Kind, user: string, file: string,
                         offset: nat, total: nat, done: nat, size: nat)

  datatype Item = Item(ts: int, kind: Kind, user: string, file: string)

  datatype Transfer = Transfer(dir: Direction, user: string, file: string, done: nat, total: nat)

  datatype Tally = Tally(started: nat, completed: nat, aborted: nat, bytes: nat)

  datatype Counters = Counters(uploads: Tally, downloads: Tally, denied: nat, connections: nat)

  datatype Board = Board(recent: seq<Item>, transfers: map<string, Transfer>, counters: Counters)

  function Prefix(dir: Direction): (r: string) {
    if dir.Upload? then "upload" else "download"
  }

  /** Under which key a transfer is kept. */
  function Key(user: string, file: string, dir: Direction): (r: string) {
    user + ":" + file + ":" + Prefix(dir)
  }

  function KeyOf(e: Event): (r: Option<string>) {
    if e.kind.Started? || e.kind.Progress? || e.kind.Completed? || e.kind.Aborted?
    then Some(Key(e.user, e.file, e.kind.dir)) else None
  }

  predicate Starts(e: Event, key: string) {
    e.kind.Started? && KeyOf(e) == Some(key)
  }

  predicate Ends(e: Event, key: string) {
    (e.kind.Completed? || e.kind.Aborted?) && KeyOf(e) == Some(key)
  }

  function ItemOf(e: Event): (r: Item) {
    Item(e.ts, e.kind, e.user, e.file)
  }

  function Last<T>(s: seq<T>, n: nat): (r: seq<T>)
    ensures |r| == Min(n, |s|) && r <= s[|s| - |r|..]
  {
    if |s| <= n then s else s[|s| - n..]
  }

  function Pushed(recent: seq<Item>, item: Item): (r: seq<Item>) {
    var grown := recent + [item];
    if |grown| > MAX_RECENT_EVENTS then grown[1..] else grown
  }

  function Tallied(t: Tally, e: Event): (r: Tally) {
    match e.kind
    case Started(_) => t.(started := t.started + 1)
    case Completed(_) => t.(completed := t.completed + 1, bytes := t.bytes + e.size)
    case Aborted(_) => t.(aborted := t.aborted + 1)
    case _ => t
  }

  function Counted(c: Counters, e: Event): (r: Counters) {
    match e.kind
    case Connected => c.(connections := c.connections + 1)
    case Refused => c.(denied := c.denied + 1)
    case Other(_) => c
    case _ =>
      if e.kind.dir.Upload? then c.(uploads := Tallied(c.uploads, e))
      else c.(downloads := Tallied(c.downloads, e))
  }

  function Tracked(transfers: map<string, Transfer>, e: Event): (r: map<string, Transfer>) {
    match KeyOf(e)
    case None => transfers
    case Some(key) =>
      if e.kind.Started? then transfers[key := Transfer(e.kind.dir, e.user, e.file, e.offset, e.total)]
      else if e.kind.Progress? then
        if key in transfers then transfers[key := transfers[key].(done := e.done)] else transfers
      else transfers - {key}
  }

  function Seen(b: Board, e: Event): (r: Board) {
    Board(Pushed(b.recent, ItemOf(e)), Tracked(b.transfers, e), Counted(b.counters, e))
  }

  const BLANK := Board([], map[], Counters(Tally(0, 0, 0, 0), Tally(0, 0, 0, 0), 0, 0))

  /** What a node publishes once a second; `active` is what its connection counter says. */
  datatype NodeStatus = NodeStatus(node: string, address: string, alive: bool, uptime: int, updated: int, active: nat,
                                   counters: Counters, transfers: map<string, Transfer>, recent: seq<Item>)

  class NodeMonitor {
    const nodeId: string
    const address: string
    const startedAt: int
    var recent: seq<Item>
    var transfers: map<string, Transfer>
    var counters: Counters

    constructor (nodeId: string, address: string, now: int)
      ensures View() == BLANK && this.nodeId == nodeId && this.address == address && startedAt == now
    {
      this.nodeId, this.address, startedAt := nodeId, address, now;
      recent, transfers, counters := [], map[], BLANK.counters;
    }

    function View(): (b: Board)
      reads this
    {
      Board(recent, transfers, counters)
    }

    method OnEvent(e: Event)
      modifies this
      ensures View() == Seen(old(View()), e)
    {
      recent := recent + [ItemOf(e)];
      if |recent| > MAX_RECENT_EVENTS {
        recent := recent[1..];
      }
      match e.kind {
        case Connected => counters := counters.(connections := counters.connections + 1);
        case Refused => counters := counters.(denied := counters.denied + 1);
        case Started(dir) =>
          Bump(dir, Tally(1, 0, 0, 0));
          transfers := transfers[Key(e.user, e.file, dir) := Transfer(dir, e.user, e.file, e.offset, e.total)];
        case Progress(dir) =>
          var key := Key(e.user, e.file, dir);
          if key in transfers {
            transfers := transfers[key := transfers[key].(done := e.done)];
          }
        case Completed(dir) =>
          Bump(dir, Tally(0, 1, 0, e.size));
          transfers := transfers - {Key(e.user, e.file, dir)};
        case Aborted(dir) =>
          Bump(dir, Tally(0, 0, 1, 0));
          transfers := transfers - {Key(e.user, e.file, dir)};
        case Other(_) =>
      }
    }

    method Bump(dir: Direction, delta: Tally)
      modifies this`counters
      ensures var t := if dir.Upload? then old(counters).uploads else old(counters).downloads;
              var more := Tally(t.started + delta.started, t.completed + delta.completed, t.aborted + delta.aborted,
                                t.bytes + delta.bytes);
              counters == if dir.Upload? then old(counters).(uploads := more) else old(counters).(downloads := more)
    {
      var t := if dir.Upload? then counters.uploads else counters.downloads;
      t := Tally(t.started + delta.started, t.completed + delta.completed, t.aborted + delta.aborted,
                 t.bytes + delta.bytes);
      counters := if dir.Upload? then counters.(uploads := t) else counters.(downloads := t);
    }

    method Snapshot(now: int, active: nat) returns (r: NodeStatus)
      ensures r == NodeStatus(nodeId, address, true, now - startedAt, now, active, View().counters, View().transfers,
                              Last(View().recent, MAX_RECENT_EVENTS))
    {
      var window := if |recent| <= MAX_RECENT_EVENTS then recent else recent[|recent| - MAX_RECENT_EVENTS..];
      r := NodeStatus(nodeId, address, true, now - startedAt, now, active, counters, transfers, window);
    }
  }

  /** The board after a whole history of events. */
  function Watch(events: seq<Event>): (b: Board) {
    if events == [] then BLANK else Seen(Watch(events[..|events| - 1]), events[|events| - 1])
  }

  function Items(events: seq<Event>): (r: seq<Item>)
    ensures |r| == |events|
  {
    seq(|events|, i requires 0 <= i < |events| => ItemOf(events[i]))
  }

  /** The window is the end of the history: nothing else is dropped, nothing reordered. */
  lemma {:induction false} WindowIsEndOfHistory(events: seq<Event>)
    ensures Watch(events).recent == Last(Items(events), MAX_RECENT_EVENTS)
  {
    if events != [] {
      var n := |events| - 1;
      WindowIsEndOfHistory(events[..n]);
      assert Items(events) == Items(events[..n]) + [ItemOf(events[n])];
    }
  }

  // ------------------------------------------------------------------------- live transfers

  function CountStarts(events: seq<Event>, key: string): (r: nat) {
    if events == [] then 0
    else CountStarts(events[..|events| - 1], key) + if Starts(events[|events| - 1], key) then 1 else 0
  }

  function CountEnds(events: seq<Event>, key: string): (r: nat) {
    if events == [] then 0
    else CountEnds(events[..|events| - 1], key) + if Ends(events[|events| - 1], key) then 1 else 0
  }

  /** The transfers that are open, one entry for each start not yet matched by an end. */
  function Open(events: seq<Event>): (r: multiset<string>) {
    if events == [] then multiset{}
    else
      var before, e := Open(events[..|events| - 1]), events[|events| - 1];
      if e.kind.Started? then before + multiset{Key(e.user, e.file, e.kind.dir)}
      else if e.kind.Completed? || e.kind.Aborted? then before - multiset{Key(e.user, e.file, e.kind.dir)}
      else before
  }

  /** Every completed or aborted event has an open start to match. */
  predicate Matched(events: seq<Event>) {
    events == [] ||
    (var front, e := events[..|events| - 1], events[|events| - 1];
     Matched(front) && (e.kind.Completed? || e.kind.Aborted? ==> Key(e.user, e.file, e.kind.dir) in Open(front)))
  }

  /** At no point are two transfers open under one key. */
  ghost predicate NeverShared(events: seq<Event>) {
    events == [] ||
    (NeverShared(events[..|events| - 1]) && forall k | k in Open(events) :: Open(events)[k] == 1)
  }

  lemma {:induction false} OpenIsStartsMinusEnds(events: seq<Event>, key: string)
    requires Matched(events)
    ensures Open(events)[key] == CountStarts(events, key) - CountEnds(events, key)
  {
    if events != [] {
      OpenIsStartsMinusEnds(events[..|events| - 1], key);
    }
  }

  function Outstanding(c: Counters): (r: int) {
    c.uploads.started - c.uploads.completed - c.uploads.aborted
    + c.downloads.started - c.downloads.completed - c.downloads.aborted
  }

  lemma {:induction false} OpenIsOutstanding(events: seq<Event>)
    requires Matched(events)
    ensures |Open(events)| == Outstanding(Watch(events).counters)
  {
    if events != [] {
      OpenIsOutstanding(events[..|events| - 1]);
    }
  }

  lemma {:induction false} ShownAreOpen(events: seq<Event>, key: string)
    ensures key in Watch(events).transfers ==> key in Open(events)
    ensures NeverShared(events) && key in Open(events) ==> key in Watch(events).transfers
  {
    if events != [] {
      var front, e := events[..|events| - 1], events[|events| - 1];
      ShownAreOpen(front, key);
      assert Watch(events).transfers == Tracked(Watch(front).transfers, e);
      if NeverShared(events) {
        SharedByNone(front);
      }
    }
  }

  lemma {:induction false} SetInMultiset(s: set<string>, m: multiset<string>)
    requires forall k | k in s :: k in m
    ensures |s| <= |m|
    decreases |s|
  {
    if s != {} {
      var k :| k in s;
      SetInMultiset(s - {k}, m[k := 0]);
      assert |m[k := 0]| + m[k] == |m|;
    }
  }

  lemma {:induction false} SetIsMultiset(s: set<string>, m: multiset<string>)
    requires forall k | k in s :: k in m
    requires forall k | k in m :: m[k] == 1 && k in s
    ensures |s| == |m|
    decreases |s|
  {
    if s == {} {
      assert forall k :: m[k] == 0;
      assert m == multiset{};
    } else {
      var k :| k in s;
      SetIsMultiset(s - {k}, m[k := 0]);
      assert |m[k := 0]| + m[k] == |m|;
    }
  }

  lemma {:induction false} SharedByNone(events: seq<Event>)
    requires NeverShared(events)
    ensures forall k | k in Open(events) :: Open(events)[k] == 1
  {
  }

  function Shown(b: Board): (r: set<string>) {
    b.transfers.Keys
  }

  lemma {:induction false} ShownWithinOpen(events: seq<Event>)
    ensures forall k | k in Shown(Watch(events)) :: k in Open(events)
    ensures NeverShared(events) ==> forall k | k in Open(events) :: Open(events)[k] == 1 && k in Shown(Watch(events))
  {
    forall k | k in Shown(Watch(events)) ensures k in Open(events) {
      ShownAreOpen(events, k);
    }
    if NeverShared(events) {
      SharedByNone(events);
      forall k | k in Open(events) ensures k in Shown(Watch(events)) {
        ShownAreOpen(events, k);
      }
    }
  }

  /** On any trace in which every end matches an open start, what is shown live has more starts than ends. */
  lemma {:induction false} ShownHaveMoreStarts(events: seq<Event>, key: string)
    requires Matched(events) && key in Shown(Watch(events))
    ensures CountStarts(events, key) > CountEnds(events, key)
  {
    ShownAreOpen(events, key);
    OpenIsStartsMinusEnds(events, key);
  }

  lemma {:induction false} SizesAgree(shown: set<string>, open: multiset<string>, left: int, alone: bool)
    requires |open| == left && forall k | k in shown :: k in open
    requires alone ==> forall k | k in open :: open[k] == 1 && k in shown
    ensures |shown| <= left && (alone ==> |shown| == left)
  {
    SetInMultiset(shown, open);
    if alone {
      SetIsMultiset(shown, open);
    }
  }

  /** And no more are shown than the counters leave open: exactly as many if no key was ever shared. */
  lemma {:induction false} LiveTransfersBounded(events: seq<Event>)
    requires Matched(events)
    ensures |Shown(Watch(events))| <= Outstanding(Watch(events).counters)
    ensures NeverShared(events) ==> |Shown(Watch(events))| == Outstanding(Watch(events).counters)
  {
    ShownWithinOpen(events);
    OpenIsOutstanding(events);
    SizesAgree(Shown(Watch(events)), Open(events), Outstanding(Watch(events).counters), NeverShared(events));
  }

  /** Event `i` starts a transfer under this key and nothing after it ends one. */
  ghost predicate Unended(events: seq<Event>, key: string, i: nat) {
    && i < |events| && Starts(events[i], key)
    && forall j | i < j < |events| :: !Ends(events[j], key)
  }

  lemma {:induction false} UnendedSnoc(front: seq<Event>, e: Event, key: string)
    ensures (exists i: nat :: Unended(front + [e], key, i))
            <==> Starts(e, key) || (!Ends(e, key) && exists i: nat :: Unended(front, key, i))
  {
    var events := front + [e];
    if Starts(e, key) {
      assert Unended(events, key, |front|);
    } else if exists i: nat :: Unended(events, key, i) {
      var i: nat :| Unended(events, key, i);
      assert events[|front|] == e;
      assert forall j | 0 <= j < |front| :: events[j] == front[j];
      assert Unended(front, key, i);
    } else if !Ends(e, key) && exists i: nat :: Unended(front, key, i) {
      var i: nat :| Unended(front, key, i);
      assert Unended(events, key, i);
    }
  }

  /** Whatever the trace, a transfer is shown exactly if some start of its key has no end of it after it. */
  lemma {:induction false} ShownIffUnended(events: seq<Event>, key: string)
    ensures key in Watch(events).transfers <==> exists i: nat :: Unended(events, key, i)
  {
    if events != [] {
      var n := |events| - 1;
      var front, e := events[..n], events[n];
      assert events == front + [e];
      ShownIffUnended(front, key);
      UnendedSnoc(front, e, key);
      assert key in Tracked(Watch(front).transfers, e)
             <==> Starts(e, key) || (key in Watch(front).transfers && !Ends(e, key));
    }
  }

  /** The last progress reported under this key since event `i`, which started the transfer. */
  function LatestDone(events: seq<Event>, key: string, i: nat): (r: nat)
    requires i < |events|
  {
    var n := |events| - 1;
    if n == i then events[i].offset
    else if events[n].kind.Progress? && KeyOf(events[n]) == Some(key) then events[n].done
    else LatestDone(events[..n], key, i)
  }

  /** And it is shown as its latest start described it, at the progress reported since. */
  lemma {:induction false} ShownAsReported(events: seq<Event>, key: string, i: nat)
    requires Unended(events, key, i)
    requires forall j | i < j < |events| :: !Starts(events[j], key)
    ensures key in Watch(events).transfers
    ensures var start := events[i];
            Watch(events).transfers[key]
            == Transfer(start.kind.dir, start.user, start.file, LatestDone(events, key, i), start.total)
    decreases |events|
  {
    var n := |events| - 1;
    var front, e := events[..n], events[n];
    if i < n {
      assert Unended(front, key, i);
      ShownAsReported(front, key, i);
    }
  }

  lemma {:induction false} SplitAtColon(a: string, x: string, b: string, y: string)
    requires a + ":" + x == b + ":" + y
    ensures |a| == |b| ==> a == b && x == y
    ensures |a| < |b| ==> a + ":" <= b
  {
    var whole := a + ":" + x;
    assert a + ":" == whole[..|a| + 1];
    assert a == whole[..|a|] && b == whole[..|b|];
    assert x == whole[|a| + 1..] && y == whole[|b| + 1..];
  }

  /** One name, up to a colon, begins the other. */
  predicate Clash(u1: string, u2: string) {
    u1 + ":" <= u2 || u2 + ":" <= u1
  }

  lemma {:induction false} SameUser(u1: string, t1: string, u2: string, t2: string)
    requires !Clash(u1, u2) && u1 + ":" + t1 == u2 + ":" + t2
    ensures u1 == u2 && t1 == t2
  {
    SplitAtColon(u1, t1, u2, t2);
    SplitAtColon(u2, t2, u1, t1);
  }

  lemma {:induction false} KeyTail(u: string, f: string, d: Direction)
    ensures Key(u, f, d) == u + ":" + (f + ":" + Prefix(d))
  {
  }

  /** Keys separate the transfers of users whose names do not clash, of one user always. */
  lemma {:induction false} KeysSeparate(u1: string, f1: string, d1: Direction, u2: string, f2: string, d2: Direction)
    requires !Clash(u1, u2)
    ensures Key(u1, f1, d1) == Key(u2, f2, d2) <==> u1 == u2 && f1 == f2 && d1 == d2
  {
    if Key(u1, f1, d1) == Key(u2, f2, d2) {
      KeyTail(u1, f1, d1);
      KeyTail(u2, f2, d2);
      SameUser(u1, f1 + ":" + Prefix(d1), u2, f2 + ":" + Prefix(d2));
      SameDirection(f1, d1, f2, d2);
    }
  }

  /** `longer` is `shorter`, a colon, and what could be a file name or its beginning. */
  predicate Reaches(shorter: string, longer: string) {
    shorter + ":" <= longer && Names.Plain(longer[|shorter| + 1..])
  }

  lemma {:induction false} ReachingKeys(u1: string, u2: string, dir: Direction) returns (f: string)
    requires Reaches(u1, u2)
    ensures Names.Plain(f) && Key(u1, f, dir) == Key(u2, "f", dir)
  {
    var rest := u2[|u1| + 1..];
    assert u2 == u1 + ":" + rest;
    f := rest + ":f";
    assert Key(u1, f, dir) == u1 + ":" + rest + ":f" + ":" + Prefix(dir);
  }

  /** A shorter name before a colon leaves the rest of the longer one to what follows. */
  lemma {:induction false} LeavesRest(u1: string, t1: string, u2: string, t2: string)
    requires |u1| < |u2| && u1 + ":" + t1 == u2 + ":" + t2
    ensures u1 + ":" <= u2
    ensures t1 == u2[|u1| + 1..] + ":" + t2
  {
    SplitAtColon(u1, t1, u2, t2);
    var rest := u2[|u1| + 1..];
    assert u2 == u1 + ":" + rest;
    assert u2 + ":" + t2 == u1 + ":" + (rest + ":" + t2);
    assert t1 == (u1 + ":" + t1)[|u1| + 1..];
    assert rest + ":" + t2 == (u1 + ":" + (rest + ":" + t2))[|u1| + 1..];
  }

  lemma {:induction false} CollidingReaches(u1: string, f1: string, d1: Direction,
                                            u2: string, f2: string, d2: Direction)
    requires |u1| < |u2| && Names.Plain(f1) && Key(u1, f1, d1) == Key(u2, f2, d2)
    ensures Reaches(u1, u2)
  {
    KeyTail(u1, f1, d1);
    KeyTail(u2, f2, d2);
    LeavesRest(u1, f1 + ":" + Prefix(d1), u2, f2 + ":" + Prefix(d2));
    var rest := u2[|u1| + 1..];
    PlainRest(f1, d1, rest, f2, d2);
  }

  lemma {:induction false} PlainRest(f1: string, d1: Direction, rest: string, f2: string, d2: Direction)
    requires Names.Plain(f1) && f1 + ":" + Prefix(d1) == rest + ":" + (f2 + ":" + Prefix(d2))
    ensures Names.Plain(rest)
  {
    assert rest + ":" + (f2 + ":" + Prefix(d2)) == (rest + ":" + f2) + ":" + Prefix(d2);
    SameDirection(f1, d1, rest + ":" + f2, d2);
    assert forall c | c in rest :: c in rest + ":" + f2;
  }

  /** Exactly which users can have two different transfers under one key; published file names hold no separator. */
  lemma {:induction false} KeysCollideIff(u1: string, u2: string)
    requires u1 != u2
    ensures (exists f1, f2, d1, d2 :: Names.Plain(f1) && Names.Plain(f2) && Key(u1, f1, d1) == Key(u2, f2, d2))
            <==> Reaches(u1, u2) || Reaches(u2, u1)
  {
    if Reaches(u1, u2) {
      var f := ReachingKeys(u1, u2, Upload);
      assert Names.Plain("f");
    } else if Reaches(u2, u1) {
      var f := ReachingKeys(u2, u1, Upload);
      assert Names.Plain("f") && Key(u1, "f", Upload) == Key(u2, f, Upload);
    } else {
      forall f1, f2, d1, d2 | Names.Plain(f1) && Names.Plain(f2) ensures Key(u1, f1, d1) != Key(u2, f2, d2) {
        if Key(u1, f1, d1) == Key(u2, f2, d2) {
          NoCollision(u1, f1, d1, u2, f2, d2);
        }
      }
    }
  }

  lemma {:induction false} NoCollision(u1: string, f1: string, d1: Direction, u2: string, f2: string, d2: Direction)
    requires u1 != u2 && Names.Plain(f1) && Names.Plain(f2) && Key(u1, f1, d1) == Key(u2, f2, d2)
    ensures Reaches(u1, u2) || Reaches(u2, u1)
  {
    if |u1| < |u2| {
      CollidingReaches(u1, f1, d1, u2, f2, d2);
    } else if |u2| < |u1| {
      CollidingReaches(u2, f2, d2, u1, f1, d1);
    } else {
      KeyTail(u1, f1, d1);
      KeyTail(u2, f2, d2);
      SplitAtColon(u1, f1 + ":" + Prefix(d1), u2, f2 + ":" + Prefix(d2));
    }
  }

  lemma {:induction false} SameDirection(f1: string, d1: Direction, f2: string, d2: Direction)
    requires f1 + ":" + Prefix(d1) == f2 + ":" + Prefix(d2)
    ensures f1 == f2 && d1 == d2
  {
    var t1, t2 := f1 + ":" + Prefix(d1), f2 + ":" + Prefix(d2);
    assert t1[|t1| - 7] == (if d1.Upload? then ':' else 'o');
    assert t2[|t2| - 7] == (if d2.Upload? then ':' else 'o');
    assert d1 == d2;
    assert |f1| == |f2|;
    assert f1 == t1[..|f1|] && f2 == t2[..|f2|];
  }

  // --------------------------------------------------------------------------------- counters

  /** How many events of this kind, and direction, there are. */
  function CountOf(events: seq<Event>, kind: Kind): (r: nat) {
    if events == [] then 0
    else CountOf(events[..|events| - 1], kind) + if events[|events| - 1].kind == kind then 1 else 0
  }

  /** The sizes of the transfers completed in this direction, added up. */
  function SizesOf(events: seq<Event>, dir: Direction): (r: nat) {
    if events == [] then 0
    else
      var e := events[|events| - 1];
      SizesOf(events[..|events| - 1], dir) + if e.kind == Completed(dir) then e.size else 0
  }

  function TallyOf(events: seq<Event>, dir: Direction): (r: Tally) {
    Tally(CountOf(events, Started(dir)), CountOf(events, Completed(dir)), CountOf(events, Aborted(dir)),
          SizesOf(events, dir))
  }

  /** On any trace each counter is the number of events of its own kind and direction. */
  lemma {:induction false} CountersCount(events: seq<Event>)
    ensures Watch(events).counters
            == Counters(TallyOf(events, Upload), TallyOf(events, Download), CountOf(events, Refused),
                        CountOf(events, Connected))
  {
    if events != [] {
      CountersCount(events[..|events| - 1]);
    }
  }

  /** The window shows of each of its events when it was, what it was, and whom and what it concerned. */
  lemma {:induction false} WindowShowsEvents(events: seq<Event>, k: nat)
    requires k < |Watch(events).recent|
    ensures |Watch(events).recent| == Min(MAX_RECENT_EVENTS, |events|)
    ensures var e := events[|events| - |Watch(events).recent| + k];
            Watch(events).recent[k] == Item(e.ts, e.kind, e.user, e.file)
  {
    WindowIsEndOfHistory(events);
    assert Watch(events).recent[k] == Items(events)[|events| - |Watch(events).recent| + k];
  }
}
