/** The merged event feed: windows of 40 from every node, sorted newest first, cut to 30. */
module Dashboard {
  import opened Bytes
  import opened Monitor

  const SHOWN_EVENTS := 30

  datatype Status = Status(node: string, recent: seq<Item>)

  datatype Row = Row(item: Item, node: string)

  function Rows(s: Status): (r: seq<Row>)
    ensures |r| == |s.recent|
  {
    seq(|s.recent|, i requires 0 <= i < |s.recent| => Row(s.recent[i], s.node))
  }

  function Merged(nodes: seq<Status>): (r: seq<Row>) {
    if nodes == [] then [] else Merged(nodes[..|nodes| - 1]) + Rows(nodes[|nodes| - 1])
  }

  /** `x` goes behind everything that is at least as new. */
  function Insert(rows: seq<Row>, x: Row): (r: seq<Row>) {
    if rows != [] && rows[0].item.ts >= x.item.ts then [rows[0]] + Insert(rows[1..], x) else [x] + rows
  }

  /** `events.sort((a, b) => b.ts - a.ts)`, stable. */
  function NewestFirst(rows: seq<Row>): (r: seq<Row>) {
    if rows == [] then [] else Insert(NewestFirst(rows[..|rows| - 1]), rows[|rows| - 1])
  }

  function Feed(nodes: seq<Status>): (r: seq<Row>) {
    var sorted := NewestFirst(Merged(nodes));
    sorted[..Min(SHOWN_EVENTS, |sorted|)]
  }

  /** The part of `collectStatus` that builds `events`. */
  method CollectEvents(nodes: seq<Status>) returns (events: seq<Row>)
    ensures events == Feed(nodes)
  {
    events := [];
    var i := 0;
    while i < |nodes|
      invariant 0 <= i <= |nodes|
      invariant events == Merged(nodes[..i])
    {
      var tagged: seq<Row> := [];
      var k := 0;
      while k < |nodes[i].recent|
        invariant 0 <= k <= |nodes[i].recent|
        invariant tagged == Rows(nodes[i])[..k]
      {
        tagged := tagged + [Row(nodes[i].recent[k], nodes[i].node)];
        k := k + 1;
      }
      events := events + tagged;
      assert nodes[..i + 1][..i] == nodes[..i];
      i := i + 1;
    }
    assert nodes[..|nodes|] == nodes;
    events := NewestFirst(events);
    events := if |events| > SHOWN_EVENTS then events[..SHOWN_EVENTS] else events;
  }

  // ---------------------------------------------------------------------- what the feed shows

  function Times(rows: seq<Row>): (r: seq<int>)
    ensures |r| == |rows|
  {
    seq(|rows|, i requires 0 <= i < |rows| => rows[i].item.ts)
  }

  ghost predicate Descending(s: seq<int>) {
    forall i, j | 0 <= i < j < |s| :: s[i] >= s[j]
  }

  /** `shown` is the `k` largest of `all`, largest first. */
  ghost predicate IsTop(shown: seq<int>, all: multiset<int>, k: nat) {
    && Descending(shown) && |shown| == Min(k, |all|)
    && multiset(shown) <= all
    && forall x, i | x in all - multiset(shown) && 0 <= i < |shown| :: x <= shown[i]
  }

  /** `Insert` as it acts on timestamps alone. */
  function InsertTime(s: seq<int>, t: int): (r: seq<int>) {
    if s != [] && s[0] >= t then [s[0]] + InsertTime(s[1..], t) else [t] + s
  }

  lemma {:induction false} TimesInsert(rows: seq<Row>, x: Row)
    ensures Times(Insert(rows, x)) == InsertTime(Times(rows), x.item.ts)
  {
    if rows != [] && rows[0].item.ts >= x.item.ts {
      assert Times(rows)[1..] == Times(rows[1..]);
      TimesInsert(rows[1..], x);
      assert Times(Insert(rows, x)) == [rows[0].item.ts] + Times(Insert(rows[1..], x));
    } else {
      assert Times(Insert(rows, x)) == [x.item.ts] + Times(rows);
    }
  }

  lemma {:induction false} InsertTimeAdds(s: seq<int>, t: int)
    ensures multiset(InsertTime(s, t)) == multiset(s) + multiset{t}
  {
    if s != [] && s[0] >= t {
      InsertTimeAdds(s[1..], t);
      assert s == [s[0]] + s[1..];
    }
  }

  lemma {:induction false} InsertTimeAtMost(s: seq<int>, t: int, bound: int)
    requires t <= bound && forall i | 0 <= i < |s| :: s[i] <= bound
    ensures forall i | 0 <= i < |InsertTime(s, t)| :: InsertTime(s, t)[i] <= bound
  {
    if s != [] && s[0] >= t {
      InsertTimeAtMost(s[1..], t, bound);
    }
  }

  lemma {:induction false} InsertTimeSorts(s: seq<int>, t: int)
    requires Descending(s)
    ensures Descending(InsertTime(s, t))
  {
    if s != [] && s[0] >= t {
      InsertTimeSorts(s[1..], t);
      InsertTimeAtMost(s[1..], t, s[0]);
    }
  }

  /** The feed's sort is a permutation, newest first. */
  lemma {:induction false} SortSorts(rows: seq<Row>)
    ensures Descending(Times(NewestFirst(rows)))
    ensures multiset(Times(NewestFirst(rows))) == multiset(Times(rows))
  {
    if rows != [] {
      var n := |rows| - 1;
      var front, t := NewestFirst(rows[..n]), rows[n].item.ts;
      SortSorts(rows[..n]);
      TimesInsert(front, rows[n]);
      InsertTimeAdds(Times(front), t);
      InsertTimeSorts(Times(front), t);
      assert Times(rows) == Times(rows[..n]) + [t];
    }
  }

  lemma {:induction false} SortPermutes(rows: seq<Row>)
    ensures multiset(NewestFirst(rows)) == multiset(rows)
  {
    if rows != [] {
      var n := |rows| - 1;
      var front := rows[..n];
      SortPermutes(front);
      InsertPermutes(NewestFirst(front), rows[n]);
      assert rows == front + [rows[n]];
      assert multiset(rows) == multiset(front) + multiset{rows[n]};
    }
  }

  lemma {:induction false} InsertPermutes(rows: seq<Row>, x: Row)
    ensures multiset(Insert(rows, x)) == multiset(rows) + multiset{x}
  {
    if rows != [] && rows[0].item.ts >= x.item.ts {
      InsertPermutes(rows[1..], x);
      assert rows == [rows[0]] + rows[1..];
    }
  }

  // ------------------------------------------------------------- windows against histories

  function EventTimes(events: seq<Event>): (r: seq<int>)
    ensures |r| == |events|
  {
    seq(|events|, i requires 0 <= i < |events| => events[i].ts)
  }

  /** Every timestamp published on any node before its snapshot. */
  function AllTimes(histories: seq<seq<Event>>): (r: multiset<int>) {
    if histories == [] then multiset{}
    else AllTimes(histories[..|histories| - 1]) + multiset(EventTimes(histories[|histories| - 1]))
  }

  ghost predicate ClockRuns(events: seq<Event>) {
    forall i, j | 0 <= i < j < |events| :: events[i].ts <= events[j].ts
  }

  /** The statuses are snapshots of monitors with these histories. */
  ghost predicate Snapshots(nodes: seq<Status>, histories: seq<seq<Event>>) {
    |nodes| == |histories| && forall i | 0 <= i < |nodes| :: nodes[i].recent == Watch(histories[i]).recent
  }

  /** As many merged timestamps as are shown are no older than `x`. */
  ghost predicate Backed(merged: multiset<int>, x: int) {
    exists w: seq<int> :: |w| == SHOWN_EVENTS && multiset(w) <= merged && forall k | 0 <= k < |w| :: w[k] >= x
  }

  /** What the windows no longer hold of everything published. */
  function Dropped(nodes: seq<Status>, histories: seq<seq<Event>>): (r: multiset<int>) {
    AllTimes(histories) - multiset(Times(Merged(nodes)))
  }

  lemma {:induction false} TailBacks(t: seq<int>, cut: nat)
    requires cut <= |t| && (cut > 0 ==> |t| - cut == MAX_RECENT_EVENTS)
    requires forall i, j | 0 <= i < j < |t| :: t[i] <= t[j]
    ensures forall x | x in multiset(t[..cut]) :: Backed(multiset(t[cut..]), x)
  {
    forall x | x in multiset(t[..cut]) ensures Backed(multiset(t[cut..]), x) {
      assert x in t[..cut];
      var i :| 0 <= i < cut && t[i] == x;
      var w, rest := t[cut..cut + SHOWN_EVENTS], t[cut + SHOWN_EVENTS..];
      assert t[cut..] == w + rest;
      assert forall k | 0 <= k < |w| :: w[k] == t[cut + k] >= x;
    }
  }

  lemma {:induction false} WindowTimes(events: seq<Event>, s: Status)
    requires s.recent == Watch(events).recent
    ensures |s.recent| == Min(MAX_RECENT_EVENTS, |events|)
    ensures Times(Rows(s)) == EventTimes(events)[|events| - |s.recent|..]
  {
    WindowIsEndOfHistory(events);
    var w, t := Times(Rows(s)), EventTimes(events);
    var cut := |t| - |w|;
    forall k | 0 <= k < |w| ensures w[k] == t[cut + k] {
      assert s.recent[k] == Items(events)[cut + k];
    }
  }

  lemma {:induction false} SplitAt(t: seq<int>, cut: nat)
    requires cut <= |t|
    ensures multiset(t) == multiset(t[cut..]) + multiset(t[..cut])
    ensures multiset(t[..cut]) != multiset{} ==> cut > 0
  {
    assert t == t[..cut] + t[cut..];
  }

  /** A window and what it dropped; it drops only when it is full. */
  lemma {:induction false} WindowSplits(events: seq<Event>, s: Status) returns (dropped: multiset<int>)
    requires s.recent == Watch(events).recent
    ensures multiset(EventTimes(events)) == multiset(Times(Rows(s))) + dropped
    ensures dropped != multiset{} ==> |s.recent| == MAX_RECENT_EVENTS
    ensures ClockRuns(events) ==> forall x | x in dropped :: Backed(multiset(Times(Rows(s))), x)
  {
    WindowTimes(events, s);
    var t, cut := EventTimes(events), |events| - |s.recent|;
    SplitAt(t, cut);
    dropped := multiset(t[..cut]);
    if ClockRuns(events) {
      TailBacks(t, cut);
    }
  }

  lemma {:induction false} TimesConcat(a: seq<Row>, b: seq<Row>)
    ensures Times(a + b) == Times(a) + Times(b)
  {
  }

  ghost predicate ClocksRun(histories: seq<seq<Event>>) {
    forall i | 0 <= i < |histories| :: ClockRuns(histories[i])
  }

  lemma {:induction false} BackedByMore(a: multiset<int>, b: multiset<int>, x: int)
    requires Backed(a, x) && a <= b
    ensures Backed(b, x)
  {
    var w: seq<int> :| |w| == SHOWN_EVENTS && multiset(w) <= a && forall k | 0 <= k < |w| :: w[k] >= x;
    assert multiset(w) <= b;
  }

  lemma {:induction false} WindowsSplit(nodes: seq<Status>, histories: seq<seq<Event>>) returns (dropped: multiset<int>)
    requires Snapshots(nodes, histories)
    ensures AllTimes(histories) == multiset(Times(Merged(nodes))) + dropped
    ensures dropped != multiset{} ==> |Merged(nodes)| >= MAX_RECENT_EVENTS
    ensures ClocksRun(histories) ==> forall x | x in dropped :: Backed(multiset(Times(Merged(nodes))), x)
  {
    if nodes == [] {
      dropped := multiset{};
    } else {
      var n := |nodes| - 1;
      var before := WindowsSplit(nodes[..n], histories[..n]);
      var here := WindowSplits(histories[n], nodes[n]);
      TimesConcat(Merged(nodes[..n]), Rows(nodes[n]));
      var a, b := multiset(Times(Merged(nodes[..n]))), multiset(Times(Rows(nodes[n])));
      assert multiset(Times(Merged(nodes))) == a + b;
      dropped := before + here;
      if ClocksRun(histories) {
        forall x | x in dropped ensures Backed(a + b, x) {
          BackedByMore(if x in before then a else b, a + b, x);
        }
      }
    }
  }

  lemma {:induction false} SubsetSize(a: multiset<int>, b: multiset<int>)
    requires a <= b
    ensures |a| <= |b|
  {
    assert b == a + (b - a);
  }

  /** If as many as are shown are no older than `x`, neither is anything that is shown. */
  lemma {:induction false} BackedHead(sorted: seq<int>, x: int, j: nat)
    requires Descending(sorted) && Backed(multiset(sorted), x)
    requires j < |sorted| && j < SHOWN_EVENTS
    ensures sorted[j] >= x
  {
    var w: seq<int> :| |w| == SHOWN_EVENTS && multiset(w) <= multiset(sorted)
                       && forall k | 0 <= k < |w| :: w[k] >= x;
    if sorted[j] < x {
      var head, tail := sorted[..j], sorted[j..];
      assert sorted == head + tail;
      assert forall k | 0 <= k < |tail| :: tail[k] <= sorted[j] < x;
      forall v | v in multiset(w) ensures multiset(w)[v] <= multiset(head)[v] {
        assert v in w;
        assert v !in tail;
      }
      assert multiset(w) <= multiset(head);
      SubsetSize(multiset(w), multiset(head));
    }
  }

  lemma {:induction false} BackedBelowShown(sorted: seq<int>, dropped: multiset<int>, k: nat, x: int, i: nat)
    requires Descending(sorted) && i < k <= |sorted| && k <= SHOWN_EVENTS
    requires forall y | y in dropped :: Backed(multiset(sorted), y)
    requires x in multiset(sorted[k..]) + dropped
    ensures x <= sorted[i]
  {
    if x in dropped {
      BackedHead(sorted, x, i);
    } else {
      assert x in sorted[k..];
    }
  }

  /** Adding backed timestamps does not change which are the largest. */
  lemma {:induction false} TopIgnoresBacked(sorted: seq<int>, dropped: multiset<int>)
    requires Descending(sorted) && (dropped != multiset{} ==> |sorted| >= SHOWN_EVENTS)
    requires forall x | x in dropped :: Backed(multiset(sorted), x)
    ensures IsTop(sorted[..Min(SHOWN_EVENTS, |sorted|)], multiset(sorted) + dropped, SHOWN_EVENTS)
  {
    var k := Min(SHOWN_EVENTS, |sorted|);
    var all, left := multiset(sorted) + dropped, multiset(sorted[k..]) + dropped;
    SplitAt(sorted, k);
    assert all - multiset(sorted[..k]) == left;
    forall x, i | x in left && 0 <= i < k ensures x <= sorted[i] {
      BackedBelowShown(sorted, dropped, k, x, i);
    }
    assert Descending(sorted[..k]);
    assert |all| == |sorted| + |dropped|;
  }

  /** And whatever was added is backed, if it does not change them. */
  lemma {:induction false} TopBacksRest(sorted: seq<int>, dropped: multiset<int>, x: int)
    requires |sorted| >= SHOWN_EVENTS && x in dropped
    requires IsTop(sorted[..SHOWN_EVENTS], multiset(sorted) + dropped, SHOWN_EVENTS)
    ensures Backed(multiset(sorted), x)
  {
    var shown, rest := sorted[..SHOWN_EVENTS], sorted[SHOWN_EVENTS..];
    assert sorted == shown + rest;
    assert multiset(sorted) + dropped == multiset(shown) + (multiset(rest) + dropped);
    assert x in multiset(sorted) + dropped - multiset(shown);
    assert |shown| == SHOWN_EVENTS && multiset(shown) <= multiset(sorted);
    assert forall k | 0 <= k < |shown| :: shown[k] >= x;
  }

  lemma {:induction false} FeedTimes(nodes: seq<Status>) returns (sorted: seq<int>)
    ensures Descending(sorted) && multiset(sorted) == multiset(Times(Merged(nodes))) && |sorted| == |Merged(nodes)|
    ensures Times(Feed(nodes)) == sorted[..Min(SHOWN_EVENTS, |sorted|)]
  {
    SortSorts(Merged(nodes));
    sorted := Times(NewestFirst(Merged(nodes)));
    assert |multiset(sorted)| == |multiset(Times(Merged(nodes)))|;
  }

  /**
   Exactly when the truncations lose nothing, whatever the clocks do: the feed shows the SHOWN_EVENTS newest timestamps
   of everything published on all nodes if and only if each timestamp that a window has dropped is no newer than
   SHOWN_EVENTS of those that are still there.
   */
  lemma {:induction false} FeedIsNewestIff(nodes: seq<Status>, histories: seq<seq<Event>>)
    requires Snapshots(nodes, histories)
    ensures IsTop(Times(Feed(nodes)), AllTimes(histories), SHOWN_EVENTS)
            <==> forall x | x in Dropped(nodes, histories) :: Backed(multiset(Times(Merged(nodes))), x)
  {
    var dropped := WindowsSplit(nodes, histories);
    var sorted := FeedTimes(nodes);
    assert Dropped(nodes, histories) == dropped;
    if forall x | x in dropped :: Backed(multiset(sorted), x) {
      TopIgnoresBacked(sorted, dropped);
    }
    if IsTop(Times(Feed(nodes)), AllTimes(histories), SHOWN_EVENTS) {
      forall x | x in dropped ensures Backed(multiset(sorted), x) {
        TopBacksRest(sorted, dropped, x);
      }
    }
  }

  /** As long as no node's clock runs backwards, that is so. */
  lemma {:induction false} FeedIsNewestOfAll(nodes: seq<Status>, histories: seq<seq<Event>>)
    requires Snapshots(nodes, histories) && ClocksRun(histories)
    ensures IsTop(Times(Feed(nodes)), AllTimes(histories), SHOWN_EVENTS)
  {
    var dropped := WindowsSplit(nodes, histories);
    assert Dropped(nodes, histories) == dropped;
    FeedIsNewestIff(nodes, histories);
  }

  lemma {:induction false} WindowWithoutFirst(history: seq<Event>, s: Status)
    requires |history| == MAX_RECENT_EVENTS + 1 && s.recent == Watch(history).recent
    ensures Times(Rows(s)) == EventTimes(history)[1..]
  {
    WindowIsEndOfHistory(history);
    assert s.recent == Items(history)[1..];
    forall k | 0 <= k < |s.recent| ensures Times(Rows(s))[k] == EventTimes(history)[1..][k] {
      assert s.recent[k] == ItemOf(history[k + 1]);
    }
  }

  lemma {:induction false} FeedOfOne(s: Status)
    ensures Feed([s]) == NewestFirst(Rows(s))[..Min(SHOWN_EVENTS, |NewestFirst(Rows(s))|)]
  {
    var nodes := [s];
    assert nodes[..0] == [] && Merged([]) == [];
    assert Merged(nodes) == [] + Rows(s) == Rows(s);
  }

  /** The clock matters: a newest event pushed out by forty older ones is missing from the feed. */
  lemma {:induction false} BackwardClockHidesNewest(history: seq<Event>, s: Status)
    requires |history| == MAX_RECENT_EVENTS + 1 && s.recent == Watch(history).recent
    requires forall i | 0 < i < |history| :: history[i].ts < history[0].ts
    ensures history[0].ts in EventTimes(history) && history[0].ts !in Times(Feed([s]))
  {
    WindowWithoutFirst(history, s);
    FeedOfOne(s);
    SortSorts(Rows(s));
    var sorted, newest := Times(NewestFirst(Rows(s))), history[0].ts;
    assert EventTimes(history)[0] == newest;
    assert newest !in multiset(EventTimes(history)[1..]);
    assert newest !in multiset(sorted) && newest !in sorted;
    assert Times(Feed([s])) == sorted[..Min(SHOWN_EVENTS, |sorted|)];
  }

  // ------------------------------------------------------------------------- rows and their order

  lemma {:induction false} MergedRowsAreReal(nodes: seq<Status>, row: Row)
    ensures row in Merged(nodes)
            <==> exists i, k :: 0 <= i < |nodes| && 0 <= k < |nodes[i].recent|
                                && row == Row(nodes[i].recent[k], nodes[i].node)
  {
    if nodes != [] {
      var n := |nodes| - 1;
      MergedRowsAreReal(nodes[..n], row);
      if row in Rows(nodes[n]) {
        var k :| 0 <= k < |Rows(nodes[n])| && Rows(nodes[n])[k] == row;
        assert row == Row(nodes[n].recent[k], nodes[n].node);
      }
      if i, k :| 0 <= i < |nodes| && 0 <= k < |nodes[i].recent| && row == Row(nodes[i].recent[k], nodes[i].node) {
        if i == n {
          assert Rows(nodes[n])[k] == row;
        } else {
          assert nodes[..n][i] == nodes[i];
        }
      }
    }
  }

  /** Whatever is shown is in the window of the node it is shown for. */
  lemma {:induction false} FeedRowsAreReal(nodes: seq<Status>, row: Row)
    requires row in Feed(nodes)
    ensures exists i, k :: 0 <= i < |nodes| && 0 <= k < |nodes[i].recent|
                           && row == Row(nodes[i].recent[k], nodes[i].node)
  {
    SortPermutes(Merged(nodes));
    assert row in multiset(NewestFirst(Merged(nodes)));
    MergedRowsAreReal(nodes, row);
  }

  /** The rows of one instant. */
  function At(rows: seq<Row>, t: int): (r: seq<Row>) {
    if rows == [] then [] else (if rows[0].item.ts == t then [rows[0]] else []) + At(rows[1..], t)
  }

  lemma {:induction false} AtConcat(a: seq<Row>, b: seq<Row>, t: int)
    ensures At(a + b, t) == At(a, t) + At(b, t)
  {
    if a == [] {
      assert a + b == b;
    } else {
      assert (a + b)[0] == a[0] && (a + b)[1..] == a[1..] + b;
      AtConcat(a[1..], b, t);
      var head := if a[0].item.ts == t then [a[0]] else [];
      assert At(a + b, t) == head + At(a[1..] + b, t);
      assert head + (At(a[1..], t) + At(b, t)) == (head + At(a[1..], t)) + At(b, t);
    }
  }

  lemma {:induction false} NothingAt(rows: seq<Row>, t: int)
    requires forall i | 0 <= i < |rows| :: rows[i].item.ts != t
    ensures At(rows, t) == []
  {
    if rows != [] {
      NothingAt(rows[1..], t);
    }
  }

  lemma {:induction false} InsertBehind(rows: seq<Row>, x: Row, t: int)
    requires Descending(Times(rows))
    ensures At(Insert(rows, x), t) == At(rows, t) + At([x], t)
  {
    if rows != [] && rows[0].item.ts >= x.item.ts {
      assert Times(rows[1..]) == Times(rows)[1..];
      InsertBehind(rows[1..], x, t);
      assert ([rows[0]] + Insert(rows[1..], x))[1..] == Insert(rows[1..], x);
    } else {
      if t == x.item.ts {
        assert forall i | 0 <= i < |rows| :: Times(rows)[i] == rows[i].item.ts;
        NothingAt(rows, t);
      }
      AtConcat([x], rows, t);
      assert [x][1..] == [];
    }
  }

  /** Events of one instant stay in the order in which they were merged. */
  lemma {:induction false} SortIsStable(rows: seq<Row>, t: int)
    ensures At(NewestFirst(rows), t) == At(rows, t)
  {
    if rows != [] {
      var n := |rows| - 1;
      SortIsStable(rows[..n], t);
      SortSorts(rows[..n]);
      InsertBehind(NewestFirst(rows[..n]), rows[n], t);
      assert rows == rows[..n] + [rows[n]];
      AtConcat(rows[..n], [rows[n]], t);
    }
  }
}
