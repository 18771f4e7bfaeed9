/** Backpressure, wakeups and termination of `receiveBytes`, over every schedule. */
module ReceiveProgress {
  import opened Bytes
  import opened Sockets
  import opened Streams
  import opened Receive
  import opened ReceiveSafety

  // ------------------------------------------------------------------ bounded memory

  ghost predicate ChunksWithin(s: Recv, m: nat) {
    && (forall c | c in s.sock.queue :: |c| <= m)
    && Backlog(s.sink) < s.sink.hwm + m
  }

  predicate ArrivesWithin(events: seq<Event>, m: nat) {
    forall i | 0 <= i < |events| && events[i].Arrive? :: events[i].n <= m
  }

  lemma {:induction false} TakenBacklog(s: Recv, chunk: bytes, m: nat)
    requires s.sock.flowing && Backlog(s.sink) < s.sink.hwm && |chunk| <= m
    requires forall c | c in s.sock.queue :: |c| <= m
    ensures ChunksWithin(Taken(s, chunk), m)
  {
    TakenMovesBytes(s, chunk);
  }

  lemma {:induction false} StepBacklog(s: Recv, e: Event, m: nat)
    requires ControlInv(s) && ChunksWithin(s, m)
    requires e.Arrive? ==> e.n <= m
    ensures ChunksWithin(Step(s, e), m)
  {
    if Receives(s, e) {
      TakenBacklog(s.(sock := s.sock.(queue := s.sock.queue[1..])), s.sock.queue[0], m);
    }
  }

  lemma {:induction false} StepControl(s: Recv, e: Event)
    requires ControlInv(s)
    ensures ControlInv(Step(s, e)) && Step(s, e).sink.hwm == s.sink.hwm
  {
    if e.Deliver? && s.outcome.Pending? && s.sock.flowing && s.sock.queue != [] {
      TakenControl(s.(sock := s.sock.(queue := s.sock.queue[1..])), s.sock.queue[0]);
    }
  }

  /** With chunks of at most `m` bytes the backlog stays below the high-water mark plus one chunk. */
  lemma {:induction false} BacklogBounded(s: Recv, events: seq<Event>, m: nat)
    requires ControlInv(s) && ChunksWithin(s, m) && ArrivesWithin(events, m)
    ensures ChunksWithin(Run(s, events), m) && Run(s, events).sink.hwm == s.sink.hwm
    decreases |events|
  {
    if events != [] {
      StepBacklog(s, events[0], m);
      StepControl(s, events[0]);
      BacklogBounded(Step(s, events[0]), events[1..], m);
    }
  }

  /** For a transfer as `receiveBytes` starts it. */
  lemma {:induction false} TransferBacklogBounded(sock: Sock, base: bytes, hwm: nat, total: int,
                                                  events: seq<Event>, m: nat)
    requires hwm > 0 && ArrivesWithin(events, m) && forall c | c in sock.queue :: |c| <= m
    ensures Backlog(After(sock, base, hwm, total, events).sink) < hwm + m
  {
    BacklogBounded(Start(sock, Open(base, hwm), total), events, m);
  }

  // --------------------------------------------------------------- progress and settling

  predicate Internal(e: Event) {
    e.Deliver? || e.Finish? || e.Flush? || e.Drain?
  }

  /** Nothing is left for the event loop to do. */
  ghost predicate Stuck(s: Recv) {
    forall e | Internal(e) :: Step(s, e) == s
  }

  function Rank(s: Recv): (r: nat) {
    4 * |s.sock.queue| + 2 * |s.sink.buffered|
    + (if s.sink.needDrain then 1 else 0) + (if s.outcome.Pending? then 4 else 0)
  }

  /** Every turn that does anything brings the run nearer its end. */
  lemma {:induction false} TurnsDescend(s: Recv, e: Event)
    requires Internal(e) && Step(s, e) != s
    ensures Rank(Step(s, e)) < Rank(s)
  {
  }

  ghost predicate Effective(s: Recv, events: seq<Event>)
    decreases |events|
  {
    events == [] || (Internal(events[0]) && Step(s, events[0]) != s && Effective(Step(s, events[0]), events[1..]))
  }

  /** So the event loop cannot turn forever without news from the network. */
  lemma {:induction false} TurnsAreBounded(s: Recv, events: seq<Event>)
    requires Effective(s, events)
    ensures |events| <= Rank(s)
    decreases |events|
  {
    if events != [] {
      TurnsDescend(s, events[0]);
      TurnsAreBounded(Step(s, events[0]), events[1..]);
    }
  }

  /** No lost wakeup: a paused socket that is still wanted has a flush or a drain coming. */
  lemma {:induction false} PausedMeansDrainOwed(s: Recv)
    requires ControlInv(s) && s.outcome.Pending? && !s.sock.flowing
    ensures s.sink.needDrain
    ensures if s.sink.buffered != [] then Rank(Step(s, Flush)) < Rank(s)
            else Step(s, Drain).sock.flowing && Rank(Step(s, Drain)) < Rank(s)
  {
  }

  /** While the promise is open, the loop stops only to wait for the network. */
  lemma {:induction false} StuckWhilePending(s: Recv)
    requires ControlInv(s) && Stuck(s) && s.outcome.Pending?
    ensures s.sock.flowing && s.sock.queue == [] && !s.sock.ended
  {
    assert Step(s, Flush) == s && Step(s, Drain) == s && Step(s, Deliver) == s && Step(s, Finish) == s;
    assert s.sink.buffered != [] ==> Rank(Step(s, Flush)) != Rank(s);
    assert s.sock.flowing && s.sock.queue != [] ==> Rank(Step(s, Deliver)) < Rank(s);
  }

  /** An interrupted transfer without a socket error has read all there was to read. */
  ghost predicate EndedDry(s: Recv, stream: bytes) {
    && !s.outcome.Failed?
    && (s.outcome.Interrupted? ==> s.sock.ended && s.received + |s.sock.inflight| == |stream|)
  }

  lemma {:induction false} StepEndedDry(s: Recv, e: Event, base: bytes, stream: bytes)
    requires BytesInv(s, base, stream) && EndedDry(s, stream) && !e.Reset?
    ensures EndedDry(Step(s, e), stream)
  {
    if e.Finish? && s.outcome.Pending? && s.sock.queue == [] {
      assert Unread(s.sock) == s.sock.inflight;
    }
  }

  lemma {:induction false} RunEndedDry(s: Recv, events: seq<Event>, base: bytes, stream: bytes)
    requires Inv(s, base, stream) && EndedDry(s, stream)
    requires forall e | e in events :: !e.Reset?
    ensures EndedDry(Run(s, events), stream)
    decreases |events|
  {
    if events != [] {
      StepInv(s, events[0], base, stream);
      StepEndedDry(s, events[0], base, stream);
      RunEndedDry(Step(s, events[0]), events[1..], base, stream);
    }
  }

  /**
   Whatever the schedule, when the loop has nothing left to do the promise has settled, unless the
   network still owes bytes: resolved if the whole remainder was delivered, and otherwise rejected with
   the exact number of bytes that were.
   */
  lemma {:induction false} SettlesByWhatWasDelivered(sock: Sock, base: bytes, hwm: nat, total: int, events: seq<Event>)
    requires hwm > 0 && total > 0
    requires forall e | e in events :: !e.Reset?
    requires Stuck(After(sock, base, hwm, total, events))
    ensures var s := After(sock, base, hwm, total, events);
            var delivered := |Unread(sock)| - |s.sock.inflight|;
            s.outcome == (if delivered >= total then Resolved(total)
                          else if s.sock.ended then Interrupted(delivered)
                          else Pending)
  {
    var s0, stream := Start(sock, Open(base, hwm), total), Unread(sock);
    StartInv(sock, base, hwm, total);
    RunInv(s0, events, base, stream);
    RunTotal(s0, events);
    RunEndedDry(s0, events, base, stream);
    var s := Run(s0, events);
    if s.outcome.Pending? {
      StuckWhilePending(s);
      assert Unread(s.sock) == s.sock.inflight;
    }
  }

  /**
   With nothing promised there is nothing to wait for, yet the promise stays open as long as no byte comes: it is
   settled only from inside the data listener. A peer that sends exactly what it announced therefore never completes
   an upload of an empty file, or a resume at offset == total.
   */
  lemma {:induction false} EmptyRemainderNeverResolves(s: Recv, events: seq<Event>)
    requires Unread(s.sock) == [] && s.sock.queue == [] && !s.outcome.Resolved?
    ensures !Run(s, events).outcome.Resolved?
    decreases |events|
  {
    if events != [] {
      EmptyRemainderNeverResolves(Step(s, events[0]), events[1..]);
    }
  }

  /** One delivery of the whole remainder completes it: a non-empty remainder can always be finished. */
  lemma {:induction false} OneDeliveryCompletes(base: bytes, stream: bytes, hwm: nat)
    requires hwm > 0 && stream != []
    ensures var s := After(Sock(stream, [], false, false), base, hwm, |stream|, [Arrive(|stream|), Deliver]);
            s.outcome == Resolved(|stream|) && Ended(s.sink).file == base + stream
  {
    var sock, events := Sock(stream, [], false, false), [Arrive(|stream|), Deliver];
    var s0 := Start(sock, Open(base, hwm), |stream|);
    var s1 := Step(s0, Arrive(|stream|));
    assert stream[..|stream|] == stream;
    assert s1.sock.queue == [stream];
    assert events[1..] == [Deliver] && events[1..][1..] == [];
    assert Run(s0, events) == Run(s1, [Deliver]) == Run(Step(s1, Deliver), []);
    assert Unread(sock) == stream;
    AttemptAppendsPrefix(sock, base, hwm, |stream|, events, 0);
  }

  lemma {:induction false} WholeChunkResolves(sock: Sock, base: bytes, hwm: nat, total: int)
    requires sock.queue == [] && !sock.ended && |sock.inflight| >= Max(total, 1)
    ensures After(sock, base, hwm, total, [Arrive(|sock.inflight|), Deliver]).outcome.Resolved?
  {
    var events := [Arrive(|sock.inflight|), Deliver];
    var s0 := Start(sock, Open(base, hwm), total);
    var s1 := Step(s0, events[0]);
    assert sock.inflight[..|sock.inflight|] == sock.inflight && s1.sock.queue == [sock.inflight];
    assert events[1..] == [Deliver] && events[1..][1..] == [];
    assert Run(s0, events) == Run(s1, [Deliver]) == Run(Step(s1, Deliver), []);
    assert Kept(s1, sock.inflight) >= total;
  }

  /**
   Exactly when a transfer can complete: the peer sends all that is promised, and at least one byte, even if none is
   promised.
   */
  lemma {:induction false} CanResolveIff(sock: Sock, base: bytes, hwm: nat, total: int)
    requires sock.queue == [] && !sock.ended && hwm > 0
    ensures (exists events :: After(sock, base, hwm, total, events).outcome.Resolved?)
            <==> |sock.inflight| >= Max(total, 1)
  {
    assert Unread(sock) == sock.inflight;
    if |sock.inflight| >= Max(total, 1) {
      WholeChunkResolves(sock, base, hwm, total);
    } else {
      forall events ensures !After(sock, base, hwm, total, events).outcome.Resolved? {
        if sock.inflight == [] {
          EmptyRemainderNeverResolves(Start(sock, Open(base, hwm), total), events);
        } else {
          AttemptAppendsPrefix(sock, base, hwm, total, events, 0);
        }
      }
    }
  }

  // ------------------------------------------------------------------ the bytes after the body

  lemma {:induction false} FlowsOnIffExact(s: Recv, chunk: bytes)
    requires s.total > 0 && 0 <= s.received < s.total && s.sock.flowing
    requires Taken(s, chunk).outcome.Resolved?
    ensures var t := Taken(s, chunk);
            t.sock.flowing <==> s.received + |chunk| == s.total && Backlog(t.sink) < t.sink.hwm
  {
  }

  lemma {:induction false} DeliverUnread(s: Recv, base: bytes, stream: bytes)
    requires BytesInv(s, base, stream) && Receives(s, Deliver)
    ensures Unread(Step(s, Deliver).sock) == stream[Step(s, Deliver).received..]
  {
    var chunk := s.sock.queue[0];
    var rest := s.(sock := s.sock.(queue := s.sock.queue[1..]));
    assert Unread(s.sock) == chunk + Unread(rest.sock);
    TakenBytes(rest, chunk, base, stream);
  }

  lemma {:induction false} ResolvedHasAll(s: Recv)
    requires ControlInv(s) && s.total > 0 && s.outcome.Resolved?
    ensures s.received == s.total
  {
  }

  lemma {:induction false} RestIsUnread(s: Recv, base: bytes, stream: bytes)
    requires Inv(s, base, stream) && s.total > 0 && Receives(s, Deliver)
    requires Step(s, Deliver).outcome.Resolved?
    ensures Unread(Step(s, Deliver).sock) == stream[s.total..]
  {
    DeliverUnread(s, base, stream);
    StepControl(s, Deliver);
    ResolvedHasAll(Step(s, Deliver));
  }

  /**
   At the moment of completion everything after the body is still unread. The socket stays paused unless
   the body ended exactly at a chunk boundary and the sink had room; only then can later chunks be lost.
   */
  lemma {:induction false} RestIsPutBack(s: Recv, base: bytes, stream: bytes)
    requires Inv(s, base, stream) && s.total > 0 && Receives(s, Deliver)
    requires Step(s, Deliver).outcome.Resolved?
    ensures var t := Step(s, Deliver);
            && Unread(t.sock) == stream[s.total..]
            && (t.sock.flowing <==> s.received + |s.sock.queue[0]| == s.total && Backlog(t.sink) < t.sink.hwm)
  {
    RestIsUnread(s, base, stream);
    FlowsOnIffExact(s.(sock := s.sock.(queue := s.sock.queue[1..])), s.sock.queue[0]);
  }

  /** Whoever reads next from a socket left paused starts exactly after the body. */
  lemma {:induction false} PausedSocketKeepsRest(s: Recv, events: seq<Event>, base: bytes, stream: bytes)
    requires Inv(s, base, stream) && s.total > 0
    ensures var t := Run(s, events);
            t.outcome.Resolved? && !t.sock.flowing ==> s.total <= |stream| && Unread(t.sock) == stream[s.total..]
  {
    RunInv(s, events, base, stream);
    RunTotal(s, events);
  }

  /** The events that deliver everything that is queued. */
  function Deliveries(n: nat): (r: seq<Event>)
    ensures |r| == n
  {
    if n == 0 then [] else [Deliver] + Deliveries(n - 1)
  }

  lemma {:induction false} DeliveriesDrain(t: Recv)
    requires !t.outcome.Pending? && t.sock.flowing
    ensures Run(t, Deliveries(|t.sock.queue|)).sock == t.sock.(queue := [])
    decreases |t.sock.queue|
  {
    if t.sock.queue != [] {
      var events := Deliveries(|t.sock.queue|);
      assert events[0] == Deliver && events[1..] == Deliveries(|t.sock.queue| - 1);
      DeliveriesDrain(Step(t, Deliver));
    }
  }

  /** Bytes that can still reach a settled transfer's socket. */
  function AtRisk(sock: Sock): (r: bytes) {
    if sock.ended then Flatten(sock.queue) else Unread(sock)
  }

  lemma {:induction false} SettledKeepsUnread(t: Recv, events: seq<Event>)
    requires !t.outcome.Pending? && (!t.sock.flowing || AtRisk(t.sock) == [])
    ensures Unread(Run(t, events).sock) == Unread(t.sock)
    decreases |events|
  {
    if events != [] {
      var next := Step(t, events[0]);
      if events[0].Arrive? {
        ArrivedKeepsUnread(t.sock, events[0].n);
      }
      SettledKeepsUnread(next, events[1..]);
    }
  }

  lemma {:induction false} FlowingLoses(t: Recv) returns (events: seq<Event>)
    requires !t.outcome.Pending? && t.sock.flowing && AtRisk(t.sock) != []
    ensures Unread(Run(t, events).sock) != Unread(t.sock)
  {
    var arrived := Step(t, Arrive(|t.sock.inflight|));
    ArrivedKeepsUnread(t.sock, |t.sock.inflight|);
    var deliveries := Deliveries(|arrived.sock.queue|);
    events := [Arrive(|t.sock.inflight|)] + deliveries;
    assert events[1..] == deliveries;
    DeliveriesDrain(arrived);
    assert Run(t, events) == Run(arrived, deliveries);
    assert Unread(Run(t, events).sock) == arrived.sock.inflight;
    assert t.sock.ended ==> |Unread(t.sock)| > |arrived.sock.inflight|;
  }

  /** Once a transfer has settled, the rest is safe under every schedule exactly if the socket was left paused. */
  lemma {:induction false} RestSurvivesIff(t: Recv)
    requires !t.outcome.Pending?
    ensures (forall events :: Unread(Run(t, events).sock) == Unread(t.sock))
            <==> !t.sock.flowing || AtRisk(t.sock) == []
  {
    if !t.sock.flowing || AtRisk(t.sock) == [] {
      forall events ensures Unread(Run(t, events).sock) == Unread(t.sock) {
        SettledKeepsUnread(t, events);
      }
    } else {
      var events := FlowingLoses(t);
    }
  }

  /**
   Exactly when what follows the body is safe, said of the delivery that completes it: the chunk went past the
   body, or the sink had no room, or nothing that follows can still be delivered.
   */
  lemma {:induction false} RestKeptIff(s: Recv, base: bytes, stream: bytes)
    requires Inv(s, base, stream) && s.total > 0 && Receives(s, Deliver)
    requires Step(s, Deliver).outcome.Resolved?
    ensures var t := Step(s, Deliver);
            (forall events :: Unread(Run(t, events).sock) == stream[s.total..])
            <==> s.received + |s.sock.queue[0]| > s.total || Backlog(t.sink) >= t.sink.hwm || AtRisk(t.sock) == []
  {
    var t := Step(s, Deliver);
    RestIsPutBack(s, base, stream);
    RestSurvivesIff(t);
    StepInv(s, Deliver, base, stream);
    assert Unread(t.sock) == stream[s.total..];
    assert s.received + |s.sock.queue[0]| >= s.total;
  }

  /** A concrete loss: the second message of `body + rest`, cut exactly at the body's end. */
  lemma {:induction false} FlowingSocketLosesRest()
    ensures var s := After(Sock([], [[1], [2]], false, false), [], 16, 1, [Deliver, Deliver]);
            s.outcome == Resolved(1) && Unread(s.sock) == []
  {
    var s0 := Start(Sock([], [[1], [2]], false, false), Open([], 16), 1);
    var s1 := Step(s0, Deliver);
    assert s0.sock.queue[1..] == [[2]];
    assert [1][..1] == [1];
    FlattenSingle([1]);
    assert s1.sink.buffered == [[1]];
    assert s1.sock == Sock([], [[2]], true, false);
    var s2 := Step(s1, Deliver);
    assert [Deliver, Deliver][1..] == [Deliver] && [Deliver][1..] == [];
    assert Run(s0, [Deliver, Deliver]) == Run(s1, [Deliver]) == Run(s2, []);
  }

  // ------------------------------------------------------------------------ errors on the socket

  /** An error settles an open transfer: a disconnect as interrupted, any other error as failed. */
  lemma {:induction false} ErrorSettles(s: Recv, disconnect: bool)
    requires s.outcome.Pending?
    ensures Step(s, Reset(disconnect)).outcome == (if disconnect then Interrupted(s.received) else Failed)
    ensures Step(s, Reset(disconnect)).sock == s.sock && Step(s, Reset(disconnect)).sink == s.sink
  {
  }

  /** And nothing else fails a transfer, nor interrupts it before the peer has closed. */
  lemma {:induction false} SettledByError(s: Recv, events: seq<Event>)
    requires s.outcome.Pending?
    ensures Run(s, events).outcome.Failed? ==> Reset(false) in events
    ensures Run(s, events).outcome.Interrupted? ==>
              Reset(true) in events || (Finish in events && (s.sock.ended || Close in events))
    decreases |events|
  {
    if events != [] {
      var e, next := events[0], Step(s, events[0]);
      assert e in events && forall f | f in events[1..] :: f in events;
      if next.outcome.Pending? {
        SettledByError(next, events[1..]);
      } else {
        SettledStays(next, events[1..]);
      }
    }
  }

  lemma {:induction false} SettledStays(s: Recv, events: seq<Event>)
    requires !s.outcome.Pending?
    ensures Run(s, events).outcome == s.outcome
    decreases |events|
  {
    if events != [] {
      SettledStays(Step(s, events[0]), events[1..]);
    }
  }
}
