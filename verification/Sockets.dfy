/**
 The readable side of a connection as `protocol.js` uses it: bytes still travelling, chunks already
 delivered to the process but not yet handed to a listener, and the pause/resume flag.
 */
module Sockets {
  import opened Bytes

  datatype Sock = Sock(inflight: bytes, queue: seq<bytes>, flowing: bool, ended: bool)

  /** Everything the process can still read from the socket. */
  function Unread(s: Sock): (r: bytes) {
    Flatten(s.queue) + s.inflight
  }

  /** The network hands the next `n` bytes (or what is left of them) to the process as one chunk. */
  function Arrived(s: Sock, n: nat): (r: Sock) {
    var k := Min(n, |s.inflight|);
    if s.ended || k == 0 then s
    else s.(inflight := s.inflight[k..], queue := s.queue + [s.inflight[..k]])
  }

  lemma {:induction false} ArrivedKeepsUnread(s: Sock, n: nat)
    ensures Unread(Arrived(s, n)) == Unread(s)
  {
    var k := Min(n, |s.inflight|);
    if !s.ended && k != 0 {
      FlattenSnoc(s.queue, s.inflight[..k]);
      assert s.inflight == s.inflight[..k] + s.inflight[k..];
    }
  }

  class Socket {
    var inflight: bytes
    var queue: seq<bytes>
    var flowing: bool
    var ended: bool

    constructor (stream: bytes)
      ensures View() == Sock(stream, [], false, false)
    {
      inflight, queue, flowing, ended := stream, [], false, false;
    }

    function View(): (s: Sock)
      reads this
    {
      Sock(inflight, queue, flowing, ended)
    }

    method Pause()
      modifies this
      ensures View() == old(View()).(flowing := false)
    {
      flowing := false;
    }

    method Resume()
      modifies this
      ensures View() == old(View()).(flowing := true)
    {
      flowing := true;
    }

    /** `socket.unshift(chunk)`: the chunk becomes the next one to be delivered. */
    method Unshift(chunk: bytes)
      modifies this
      ensures View() == old(View()).(queue := [chunk] + old(queue))
    {
      queue := [chunk] + queue;
    }

    method Take() returns (chunk: bytes)
      requires queue != []
      modifies this
      ensures chunk == old(queue)[0]
      ensures View() == old(View()).(queue := old(queue)[1..])
    {
      chunk, queue := queue[0], queue[1..];
    }

    method Arrive(n: nat)
      modifies this
      ensures View() == Arrived(old(View()), n)
    {
      var k := Min(n, |inflight|);
      if !ended && k != 0 {
        queue := queue + [inflight[..k]];
        inflight := inflight[k..];
      }
    }

    method Close()
      modifies this
      ensures View() == old(View()).(ended := true)
    {
      ended := true;
    }
  }
}
