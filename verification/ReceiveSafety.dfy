/**
 What every schedule of `receiveBytes` keeps: the bytes taken are a prefix of the peer's stream and sit,
 in order, on disk or in the stream's backlog; the backlog is bounded; no wakeup is lost; and the
 promise settles, in a bounded number of turns, the way the delivered bytes say it must.
 */
module ReceiveSafety {
  import opened Bytes
  import opened Sockets
  import opened Streams
  import opened Receive

  /** `base` is the file when the stream was opened, `stream` everything the peer will have sent. */
  ghost predicate BytesInv(s: Recv, base: bytes, stream: bytes) {
    && |base| <= s.sink.pos == |s.sink.file|
    && 0 <= s.received
    && s.received + |s.sock.inflight| <= |stream|
    && s.sink.file + Flatten(s.sink.buffered) == base + stream[..s.received]
    && (s.outcome.Pending? || !s.sock.flowing ==> Unread(s.sock) == stream[s.received..])
  }

  /** The socket flows exactly while no drain is owed, and the promise is open exactly while bytes are. */
  ghost predicate ControlInv(s: Recv) {
    && s.sink.hwm > 0
    && (s.outcome.Pending? ==> s.sock.flowing == !s.sink.needDrain)
    && (s.outcome.Pending? && s.sock.flowing ==> Backlog(s.sink) < s.sink.hwm)
    && (s.outcome.Pending? && s.total <= 0 ==> s.received == 0)
    && (s.total > 0 && !s.outcome.Resolved? ==> s.received < s.total)
    && (s.total > 0 && s.outcome.Resolved? ==> s.received == s.total)
    && (s.outcome.Resolved? || s.outcome.Interrupted? ==> s.outcome.received == s.received)
  }

  ghost predicate Inv(s: Recv, base: bytes, stream: bytes) {
    BytesInv(s, base, stream) && ControlInv(s)
  }

  lemma {:induction false} StartInv(sock: Sock, base: bytes, hwm: nat, total: int)
    requires hwm > 0
    ensures Inv(Start(sock, Open(base, hwm), total), base, Unread(sock))
  {
    assert base + [] == base;
  }

  /** Taking a chunk moves bytes from the socket to the sink and loses none. */
  lemma {:induction false} TakenMovesBytes(s: Recv, chunk: bytes)
    ensures var t, keep := Taken(s, chunk), Kept(s, chunk);
            && Unread(t.sock) == chunk[keep..] + Unread(s.sock)
            && Flatten(t.sink.buffered) == Flatten(s.sink.buffered) + chunk[..keep]
            && t.received == s.received + keep
  {
    var keep, q := Kept(s, chunk), s.sock.queue;
    FlattenSnoc(s.sink.buffered, chunk[..keep]);
    FlattenConcat([chunk[keep..]], q);
    FlattenSingle(chunk[keep..]);
    assert keep == |chunk| ==> chunk[keep..] + Flatten(q) == Flatten(q);
    assert (chunk[keep..] + Flatten(q)) + s.sock.inflight == chunk[keep..] + Unread(s.sock);
  }

  lemma {:induction false} FileGrows(file: bytes, backlog: bytes, base: bytes, stream: bytes, at: nat, piece: bytes)
    requires at + |piece| <= |stream| && file + backlog == base + stream[..at]
    requires stream[..at + |piece|] == stream[..at] + piece
    ensures file + (backlog + piece) == base + stream[..at + |piece|]
  {
    assert file + (backlog + piece) == (file + backlog) + piece;
    assert (base + stream[..at]) + piece == base + (stream[..at] + piece);
  }

  lemma {:induction false} TakenBytes(s: Recv, chunk: bytes, base: bytes, stream: bytes)
    requires |base| <= s.sink.pos == |s.sink.file| && 0 <= s.received <= |stream|
    requires s.sink.file + Flatten(s.sink.buffered) == base + stream[..s.received]
    requires chunk + Unread(s.sock) == stream[s.received..]
    ensures BytesInv(Taken(s, chunk), base, stream)
    ensures Unread(Taken(s, chunk).sock) == stream[Taken(s, chunk).received..]
  {
    var keep, t := Kept(s, chunk), Taken(s, chunk);
    TakenMovesBytes(s, chunk);
    SplitStream(stream, s.received, chunk, keep, Unread(s.sock));
    FileGrows(s.sink.file, Flatten(s.sink.buffered), base, stream, s.received, chunk[..keep]);
    assert |Unread(t.sock)| == |Flatten(t.sock.queue)| + |t.sock.inflight|;
  }

  lemma {:induction false} TakenControl(s: Recv, chunk: bytes)
    requires ControlInv(s) && s.outcome.Pending? && s.sock.flowing
    ensures ControlInv(Taken(s, chunk))
  {
  }

  lemma {:induction false} SplitStream(stream: bytes, at: nat, chunk: bytes, keep: nat, tail: bytes)
    requires at <= |stream| && keep <= |chunk| && stream[at..] == chunk + tail
    ensures at + keep <= |stream|
    ensures stream[..at + keep] == stream[..at] + chunk[..keep]
    ensures stream[at + keep..] == chunk[keep..] + tail
  {
    assert stream == stream[..at] + (chunk + tail);
    assert chunk == chunk[..keep] + chunk[keep..];
  }

  lemma {:induction false} DeliverInv(s: Recv, base: bytes, stream: bytes)
    requires Inv(s, base, stream) && Receives(s, Deliver)
    ensures Inv(Step(s, Deliver), base, stream)
  {
    var chunk := s.sock.queue[0];
    var rest := s.(sock := s.sock.(queue := s.sock.queue[1..]));
    assert Unread(s.sock) == chunk + Unread(rest.sock);
    TakenBytes(rest, chunk, base, stream);
    TakenControl(rest, chunk);
  }

  lemma {:induction false} FlushInv(s: Recv, base: bytes, stream: bytes)
    requires Inv(s, base, stream) && s.sink.buffered != []
    ensures Inv(Step(s, Flush), base, stream)
  {
    assert Flushed(s.sink).file + Flatten(s.sink.buffered[1..]) == s.sink.file + Flatten(s.sink.buffered);
  }

  lemma {:induction false} ArriveInv(s: Recv, n: nat, base: bytes, stream: bytes)
    requires Inv(s, base, stream)
    ensures Inv(Step(s, Arrive(n)), base, stream)
  {
    ArrivedKeepsUnread(s.sock, n);
  }

  /** The events that move no bytes. */
  lemma {:induction false} ControlStepInv(s: Recv, e: Event, base: bytes, stream: bytes)
    requires Inv(s, base, stream) && (e.Close? || e.Reset? || e.Finish? || e.Drain?)
    ensures Inv(Step(s, e), base, stream)
  {
  }

  lemma {:induction false} StepInv(s: Recv, e: Event, base: bytes, stream: bytes)
    requires Inv(s, base, stream)
    ensures Inv(Step(s, e), base, stream)
  {
    if e.Arrive? {
      ArriveInv(s, e.n, base, stream);
    } else if e.Deliver? {
      if Receives(s, e) {
        DeliverInv(s, base, stream);
      }
    } else if e.Flush? {
      if s.sink.buffered != [] {
        FlushInv(s, base, stream);
      }
    } else {
      ControlStepInv(s, e, base, stream);
    }
  }

  lemma {:induction false} RunInv(s: Recv, events: seq<Event>, base: bytes, stream: bytes)
    requires Inv(s, base, stream)
    ensures Inv(Run(s, events), base, stream)
    decreases |events|
  {
    if events != [] {
      StepInv(s, events[0], base, stream);
      RunInv(Step(s, events[0]), events[1..], base, stream);
    }
  }

  /** The state after any run, started the way `receiveBytes` starts. */
  function After(sock: Sock, base: bytes, hwm: nat, total: int, events: seq<Event>): (s: Recv) {
    Run(Start(sock, Open(base, hwm), total), events)
  }

  /** How much of the stream a killed process leaves in the file. */
  function Reached(s: Recv, reached: nat): (r: int) {
    s.received - Backlog(s.sink) + Min(reached, Backlog(s.sink))
  }

  /**
   Refinement. Whatever the schedule, one attempt is a single abstract step: append a prefix of the
   peer's stream to the opened file. Closing the stream appends what was received, killing the process
   appends no more than that, and completion is reported only for the whole promised remainder.
   */
  lemma {:induction false} AttemptAppendsPrefix(sock: Sock, base: bytes, hwm: nat, total: int,
                                                events: seq<Event>, reached: nat)
    requires hwm > 0
    ensures var s, stream := After(sock, base, hwm, total, events), Unread(sock);
            && 0 <= s.received <= |stream|
            && Ended(s.sink).file == base + stream[..s.received]
            && 0 <= Reached(s, reached) <= s.received
            && Torn(s.sink, reached) == base + stream[..Reached(s, reached)]
            && (total > 0 ==> s.received <= total)
            && (total > 0 ==> (s.outcome.Resolved? <==> s.received == total))
            && (s.outcome.Interrupted? ==> s.outcome.received == s.received)
  {
    var s0, stream := Start(sock, Open(base, hwm), total), Unread(sock);
    StartInv(sock, base, hwm, total);
    RunInv(s0, events, base, stream);
    var s := Run(s0, events);
    RunTotal(s0, events);
    EndedAppends(s.sink);
    var k := Min(reached, Backlog(s.sink));
    var whole := s.sink.file + Flatten(s.sink.buffered);
    BacklogIsTail(s, base, stream);
    assert Torn(s.sink, reached) == whole[..|s.sink.file| + k];
    assert whole == base + stream[..s.received];
  }

  lemma {:induction false} RunTotal(s: Recv, events: seq<Event>)
    ensures Run(s, events).total == s.total && Run(s, events).sink.hwm == s.sink.hwm
    decreases |events|
  {
    if events != [] {
      RunTotal(Step(s, events[0]), events[1..]);
    }
  }

  lemma {:induction false} BacklogIsTail(s: Recv, base: bytes, stream: bytes)
    requires Inv(s, base, stream)
    ensures Backlog(s.sink) <= s.received
  {
    assert |s.sink.file| + Backlog(s.sink) == |base| + s.received;
  }
}
