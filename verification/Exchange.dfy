/** A header line and then a body on one connection: `readJsonLine` followed by `receiveBytes`. */
module Exchange {
  import opened Bytes
  import opened Sockets
  import opened Streams
  import opened Framing
  import opened Receive
  import opened ReceiveSafety
  import opened ReceiveProgress

  /**
   Framing does not depend on chunking. However `line + newline + body + rest` is cut, the reader of the
   header gets exactly `line`; and whatever then happens on the socket, the reader of a non-empty body
   never writes anything but a prefix of it, finishes exactly when all of it was delivered, has then written
   exactly `body`, and a socket it leaves paused still holds exactly `rest`.
   `chunks` had been delivered when the header was read (the newline is among them); `late` comes after.
   */
  lemma {:induction false} HeaderThenBody(chunks: seq<bytes>, late: bytes, ended: bool, line: bytes, body: bytes,
                                          rest: bytes, hwm: nat, events: seq<Event>)
    requires NEWLINE !in line && |line| <= MAX_HEADER && body != [] && hwm > 0
    requires Flatten(chunks) + late == line + [NEWLINE] + (body + rest)
    requires |Flatten(chunks)| > |line|
    ensures var found := Scan([], chunks);
            && found.Found? && found.line == line
            && var s := After(Sock(late, found.queue, false, ended), [], hwm, |body|, events);
            && Ended(s.sink).file <= body
            && (s.outcome.Resolved? <==> Ended(s.sink).file == body)
            && (s.outcome.Resolved? && !s.sock.flowing ==> Unread(s.sock) == rest)
            && ((forall e | e in events :: !e.Reset?) && Stuck(s) && |body + rest| - |s.sock.inflight| >= |body|
                ==> s.outcome.Resolved?)
  {
    var delivered := Flatten(chunks);
    var early := delivered[|line| + 1..];
    SplitHeader(delivered, late, line, body + rest);
    assert [] + delivered == delivered;
    HeaderFoundHoweverCut([], chunks, line, early);
    var sock := Sock(late, Scan([], chunks).queue, false, ended);
    BodyRead(sock, body, rest, hwm, events);
  }

  lemma {:induction false} SplitHeader(delivered: bytes, late: bytes, line: bytes, tail: bytes)
    requires delivered + late == line + [NEWLINE] + tail && |delivered| > |line|
    ensures delivered == line + [NEWLINE] + delivered[|line| + 1..]
    ensures delivered[|line| + 1..] + late == tail
  {
    var whole := line + [NEWLINE] + tail;
    assert delivered == whole[..|delivered|];
    assert whole[|line| + 1..] == tail;
    assert (delivered + late)[|line| + 1..] == delivered[|line| + 1..] + late;
  }

  lemma {:induction false} BodyRead(sock: Sock, body: bytes, rest: bytes, hwm: nat, events: seq<Event>)
    requires hwm > 0 && body != [] && Unread(sock) == body + rest
    ensures var s := After(sock, [], hwm, |body|, events);
            && Ended(s.sink).file <= body
            && (s.outcome.Resolved? <==> Ended(s.sink).file == body)
            && (s.outcome.Resolved? && !s.sock.flowing ==> Unread(s.sock) == rest)
            && ((forall e | e in events :: !e.Reset?) && Stuck(s) && |body + rest| - |s.sock.inflight| >= |body|
                ==> s.outcome.Resolved?)
  {
    var s := After(sock, [], hwm, |body|, events);
    AttemptAppendsPrefix(sock, [], hwm, |body|, events, 0);
    assert (body + rest)[..s.received] == body[..s.received];
    assert [] + body[..s.received] == body[..s.received];
    assert body[..|body|] == body;
    StartInv(sock, [], hwm, |body|);
    PausedSocketKeepsRest(Start(sock, Open([], hwm), |body|), events, [], Unread(sock));
    assert (body + rest)[|body|..] == rest;
    if (forall e | e in events :: !e.Reset?) && Stuck(s) {
      SettlesByWhatWasDelivered(sock, [], hwm, |body|, events);
    }
  }
}
