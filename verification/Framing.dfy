/** `readJsonLine`: one newline-terminated header taken off a stream that is cut into arbitrary chunks. */
module Framing {
  import opened Bytes
  import opened Sockets

  const MAX_HEADER := 64 * 1024

  /** What one wait for a header line ends in; `queue` is what the next reader will see. */
  datatype Scanned =
    | NoLine
    | Found(line: bytes, queue: seq<bytes>)
    | Overlong(queue: seq<bytes>)

  /** How the promise is settled. */
  datatype LineOutcome<+T> = Waiting | Message(msg: T) | BadJson | TooLong | Closed | Broken

  function IndexOf(b: bytes, x: byte): (at: int)
    ensures -1 <= at < |b|
    ensures 0 <= at ==> b[at] == x && forall i | 0 <= i < at :: b[i] != x
    ensures at == -1 ==> forall i | 0 <= i < |b| :: b[i] != x
  {
    if b == [] then -1
    else if b[0] == x then 0
    else
      var rest := IndexOf(b[1..], x);
      assert forall i | 0 < i < |b| :: b[i] == b[1..][i - 1];
      if rest == -1 then -1 else rest + 1
  }

  /** Collect chunks until the buffer holds a newline or has outgrown MAX_HEADER. */
  function Scan(buffer: bytes, chunks: seq<bytes>): Scanned
    decreases |chunks|
  {
    if chunks == [] then NoLine
    else
      var grown := buffer + chunks[0];
      var at := IndexOf(grown, NEWLINE);
      if at != -1 then
        var rest := grown[at + 1..];
        Found(grown[..at], if rest == [] then chunks[1..] else [rest] + chunks[1..])
      else if |grown| > MAX_HEADER then Overlong(chunks[1..])
      else Scan(grown, chunks[1..])
  }

  /**
   The listener loop. Every chunk already delivered is offered to `onData`; the promise stays open
   when they run out, unless the socket then raises an error (`broken`) or the peer has closed.
   */
  method ReadJsonLine<T>(socket: Socket, parse: bytes -> Option<T>, broken: bool) returns (r: LineOutcome<T>)
    modifies socket
    ensures var before := old(socket.View());
            match Scan([], before.queue)
            case NoLine =>
              r == (if broken then Broken else if before.ended then Closed else Waiting) &&
              socket.View() == before.(queue := [], flowing := true)
            case Overlong(queue) =>
              r == TooLong && socket.View() == before.(queue := queue, flowing := true)
            case Found(line, queue) =>
              r == (match parse(line) case Some(m) => Message(m) case None => BadJson) &&
              socket.View() == before.(queue := queue, flowing := false)
  {
    var buffer: bytes := [];
    socket.Resume();
    while socket.queue != []
      invariant Scan([], old(socket.queue)) == Scan(buffer, socket.queue)
      invariant socket.View() == old(socket.View()).(queue := socket.queue, flowing := true)
      decreases |socket.queue|
    {
      var chunk := socket.Take();
      buffer := buffer + chunk;
      var at := IndexOf(buffer, NEWLINE);
      if at == -1 {
        if |buffer| > MAX_HEADER {
          return TooLong;
        }
      } else {
        socket.Pause();
        var line, rest := buffer[..at], buffer[at + 1..];
        if |rest| > 0 {
          socket.Unshift(rest);
        }
        match parse(line) {
          case Some(m) => return Message(m);
          case None => return BadJson;
        }
      }
    }
    return if broken then Broken else if socket.ended then Closed else Waiting;
  }

  lemma {:induction false} FirstNewline(b: bytes, line: bytes, rest: bytes)
    requires NEWLINE !in line
    requires b == line + [NEWLINE] + rest
    ensures IndexOf(b, NEWLINE) == |line|
  {
    var at := IndexOf(b, NEWLINE);
    assert b[|line|] == NEWLINE;
    assert forall i | 0 <= i < |line| :: b[i] == line[i];
  }

  /** A header of at most MAX_HEADER bytes is found whole, and all the bytes after it are left to read. */
  lemma {:induction false} HeaderFoundHoweverCut(buffer: bytes, chunks: seq<bytes>, line: bytes, rest: bytes)
    requires NEWLINE !in line && |line| <= MAX_HEADER
    requires NEWLINE !in buffer
    requires buffer + Flatten(chunks) == line + [NEWLINE] + rest
    ensures Scan(buffer, chunks).Found?
    ensures Scan(buffer, chunks).line == line
    ensures Flatten(Scan(buffer, chunks).queue) == rest
    decreases |chunks|
  {
    var whole := line + [NEWLINE] + rest;
    assert whole[|line|] == NEWLINE;
    assert chunks == [] ==> buffer == whole;
    if chunks != [] {
      var grown, tail := buffer + chunks[0], Flatten(chunks[1..]);
      assert grown + tail == whole;
      var at := IndexOf(grown, NEWLINE);
      if at == -1 {
        assert forall i | 0 <= i < |grown| :: grown[i] == whole[i];
        HeaderFoundHoweverCut(grown, chunks[1..], line, rest);
      } else {
        assert grown == grown[..at] + [NEWLINE] + grown[at + 1..];
        assert whole == grown[..at] + [NEWLINE] + (grown[at + 1..] + tail);
        FirstNewline(whole, line, rest);
        FirstNewline(whole, grown[..at], grown[at + 1..] + tail);
        assert rest == whole[|line| + 1..] == grown[at + 1..] + tail;
        if grown[at + 1..] != [] {
          assert ([grown[at + 1..]] + chunks[1..])[1..] == chunks[1..];
        }
      }
    }
  }

  lemma {:induction false} WholeLineFound(line: bytes)
    requires NEWLINE !in line
    ensures Flatten([line + [NEWLINE]]) == line + [NEWLINE]
    ensures Scan([], [line + [NEWLINE]]) == Found(line, [])
  {
    var whole := line + [NEWLINE];
    FlattenSingle(whole);
    assert [] + whole == whole;
    assert whole == line + [NEWLINE] + [];
    FirstNewline(whole, line, []);
    assert whole[..|line|] == line;
    assert whole[|line| + 1..] == [];
  }

  lemma {:induction false} LateNewlineRefused(line: bytes)
    requires NEWLINE !in line && |line| > MAX_HEADER
    ensures Flatten([line, [NEWLINE]]) == line + [NEWLINE]
    ensures Scan([], [line, [NEWLINE]]) == Overlong([[NEWLINE]])
  {
    var late := [line, [NEWLINE]];
    assert late[1..] == [[NEWLINE]];
    FlattenSingle([NEWLINE]);
    assert [] + line == line;
    assert IndexOf(line, NEWLINE) == -1;
  }

  /**
   The limit itself is not independent of chunking: a header is accepted under every way of cutting
   the stream exactly when it fits in MAX_HEADER. A longer one still passes if its newline arrives in
   the chunk that crosses the limit, and is refused if the chunk ends just before the newline.
   */
  lemma {:induction false} AcceptedUnderEveryCutIff(line: bytes)
    requires NEWLINE !in line
    ensures (forall chunks :: Flatten(chunks) == line + [NEWLINE] ==> Scan([], chunks).Found?)
            <==> |line| <= MAX_HEADER
    ensures exists chunks :: Flatten(chunks) == line + [NEWLINE] && Scan([], chunks).Found?
  {
    WholeLineFound(line);
    if |line| <= MAX_HEADER {
      forall chunks | Flatten(chunks) == line + [NEWLINE]
        ensures Scan([], chunks).Found?
      {
        assert [] + Flatten(chunks) == line + [NEWLINE] + [];
        HeaderFoundHoweverCut([], chunks, line, []);
      }
    } else {
      LateNewlineRefused(line);
    }
  }

  /** The wait goes on exactly as long as no newline has come and the limit is not passed. */
  lemma {:induction false} WaitsIff(buffer: bytes, chunks: seq<bytes>)
    requires NEWLINE !in buffer && |buffer| <= MAX_HEADER
    ensures Scan(buffer, chunks).NoLine? <==> NEWLINE !in Flatten(chunks) && |buffer| + |Flatten(chunks)| <= MAX_HEADER
    decreases |chunks|
  {
    if chunks != [] {
      var grown := buffer + chunks[0];
      var at := IndexOf(grown, NEWLINE);
      if at == -1 {
        assert forall i | 0 <= i < |chunks[0]| :: grown[|buffer| + i] == chunks[0][i];
        if |grown| <= MAX_HEADER {
          WaitsIff(grown, chunks[1..]);
        }
      } else {
        assert grown[at] in chunks[0];
        assert NEWLINE in Flatten(chunks);
      }
    }
  }

  /** A refusal comes after chunks without a newline that pass the limit, and leaves the later ones unread. */
  lemma {:induction false} RefusalLeavesRest(buffer: bytes, chunks: seq<bytes>) returns (k: nat)
    requires Scan(buffer, chunks).Overlong?
    ensures 0 < k <= |chunks| && Scan(buffer, chunks).queue == chunks[k..]
    ensures NEWLINE !in Flatten(chunks[..k]) && |buffer| + |Flatten(chunks[..k])| > MAX_HEADER
    decreases |chunks|
  {
    var grown := buffer + chunks[0];
    assert forall i | 0 <= i < |chunks[0]| :: grown[|buffer| + i] == chunks[0][i];
    if |grown| > MAX_HEADER {
      k := 1;
      assert chunks[..1] == [chunks[0]];
      FlattenSingle(chunks[0]);
    } else {
      var j := RefusalLeavesRest(grown, chunks[1..]);
      k := j + 1;
      assert chunks[1..][j..] == chunks[k..];
      assert chunks[..k][0] == chunks[0] && chunks[..k][1..] == chunks[1..][..j];
    }
  }
}
