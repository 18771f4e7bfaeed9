/** The progress reports of an actual receive run: the throttle applied to the pieces the run keeps. */
module ReceiveReports {
  import opened Bytes
  import opened Sockets
  import opened Streams
  import opened Throttle
  import opened Receive
  import opened ReceiveProgress

  /** The sizes of the pieces a run writes, one for each call of the data listener. */
  function Pieces(s: Recv, events: seq<Event>): (r: seq<nat>)
    decreases |events|
  {
    if events == [] then []
    else (if Receives(s, events[0]) then [Kept(s, s.sock.queue[0])] else []) + Pieces(Step(s, events[0]), events[1..])
  }

  lemma {:induction false} SumAppend(a: seq<nat>, b: seq<nat>)
    ensures Sum(a + b) == Sum(a) + Sum(b)
  {
    if a == [] {
      assert a + b == b;
    } else {
      SumAppend(a[1..], b);
      assert (a + b)[1..] == a[1..] + b;
    }
  }

  lemma {:induction false} PiecesSum(s: Recv, events: seq<Event>)
    ensures Sum(Pieces(s, events)) == Run(s, events).received - s.received
    decreases |events|
  {
    if events != [] {
      var here: seq<nat> := if Receives(s, events[0]) then [Kept(s, s.sock.queue[0])] else [];
      PiecesSum(Step(s, events[0]), events[1..]);
      SumAppend(here, Pieces(Step(s, events[0]), events[1..]));
      assert here != [] ==> here[1..] == [];
    }
  }

  ghost predicate QueueWithin(s: Recv, m: nat) {
    forall c | c in s.sock.queue :: |c| <= m
  }

  lemma {:induction false} StepQueueWithin(s: Recv, e: Event, m: nat)
    requires QueueWithin(s, m) && (e.Arrive? ==> e.n <= m)
    ensures QueueWithin(Step(s, e), m)
  {
  }

  lemma {:induction false} PiecesWithin(s: Recv, events: seq<Event>, m: nat)
    requires QueueWithin(s, m) && ArrivesWithin(events, m)
    ensures forall n | n in Pieces(s, events) :: n <= m
    decreases |events|
  {
    if events != [] {
      StepQueueWithin(s, events[0], m);
      PiecesWithin(Step(s, events[0]), events[1..], m);
    }
  }

  lemma {:induction false} ReportedFirst(g: Gauge, done: int, sizes: seq<nat>)
    requires sizes != []
    ensures var g1 := Reported(g, done + sizes[0]);
            g.reports + Reports(g.next, done, sizes) == g1.reports + Reports(g1.next, done + sizes[0], sizes[1..])
  {
    var now := done + sizes[0];
    var later := Reports(now + PROGRESS_EVERY, now, sizes[1..]);
    assert now >= g.next ==> g.reports + ([now] + later) == (g.reports + [now]) + later;
  }

  lemma {:induction false} PiecesFirst(s: Recv, events: seq<Event>)
    requires events != []
    ensures var later := Pieces(Step(s, events[0]), events[1..]);
            Pieces(s, events) == if Receives(s, events[0]) then [Kept(s, s.sock.queue[0])] + later else later
  {
  }

  lemma {:induction false} ReceivedGrows(s: Recv, e: Event)
    ensures Step(s, e).received == s.received + if Receives(s, e) then Kept(s, s.sock.queue[0]) else 0
  {
  }

  /** The callback sees the pieces one by one, whatever the schedule. */
  lemma {:induction false} GaugeFollowsPieces(s: Recv, g: Gauge, start: int, events: seq<Event>)
    ensures RunGauge(s, g, start, events).reports
            == g.reports + Reports(g.next, start + s.received, Pieces(s, events))
    decreases |events|
  {
    if events != [] {
      var next := Step(s, events[0]);
      PiecesFirst(s, events);
      ReceivedGrows(s, events[0]);
      if Receives(s, events[0]) {
        GaugeFollowsPieces(next, Reported(g, start + next.received), start, events[1..]);
        var sizes := Pieces(s, events);
        assert sizes[1..] == Pieces(next, events[1..]);
        ReportedFirst(g, start + s.received, sizes);
      } else {
        GaugeFollowsPieces(next, g, start, events[1..]);
      }
    }
  }

  /**
   The reports of an upload, under every schedule, however it ends: at least PROGRESS_EVERY apart, less than that
   plus one chunk, between the offset and what was received, and at most one for each PROGRESS_EVERY received.
   */
  lemma {:induction false} UploadReports(sock: Sock, base: bytes, hwm: nat, total: int, offset: int,
                                         events: seq<Event>, m: nat)
    requires ArrivesWithin(events, m) && forall c | c in sock.queue :: |c| <= m
    ensures var s := Start(sock, Open(base, hwm), total);
            var received := Run(s, events).received;
            var reports := RunGauge(s, StartGauge(offset), offset, events).reports;
            && |reports| <= received / PROGRESS_EVERY
            && Spaced(reports, m)
            && forall i | 0 <= i < |reports| :: offset + PROGRESS_EVERY <= reports[i] <= offset + received
  {
    var s := Start(sock, Open(base, hwm), total);
    var sizes := Pieces(s, events);
    GaugeFollowsPieces(s, StartGauge(offset), offset, events);
    PiecesSum(s, events);
    PiecesWithin(s, events, m);
    assert [] + Reports(offset + PROGRESS_EVERY, offset, sizes) == Reports(offset + PROGRESS_EVERY, offset, sizes);
    TransferReports(offset, offset + Run(s, events).received, sizes, m);
  }
}
