/**
 `receiveBytes`: exactly `total` bytes from a socket into a write stream, with hand-made backpressure.
 Everything that can happen to it is an `Event`; a run is any finite sequence of events, and an event
 that is not possible in a state leaves the state alone, so quantifying over event sequences quantifies
 over every chunking, every pause/resume/drain schedule and every point of interruption.
 */
module Receive {
  import opened Bytes
  import opened Sockets
  import opened Streams
  import opened Throttle

  datatype Outcome = Pending | Resolved(received: int) | Interrupted(received: int) | Failed

  datatype Recv = Recv(sock: Sock, sink: Sink, total: int, received: int, outcome: Outcome)

  datatype Event =
    | Arrive(n: nat)              // the network delivers up to n more bytes as one chunk
    | Close                       // the peer closes its end
    | Reset(disconnect: bool)     // the socket reports an error
    | Deliver                     // the socket hands its next chunk to the listener
    | Finish                      // the socket has been read to its end and says so
    | Flush                       // one accepted piece reaches the disk
    | Drain                       // the emptied stream asks for more

  /** `subarray(0, index)` and `subarray(index)` of a buffer: a negative index counts from the end. */
  function SubarrayIndex(index: int, length: nat): (r: nat)
    ensures r <= length
    ensures 0 <= index <= length ==> r == index
    ensures index < 0 <= length + index ==> r == length + index
    ensures length + index < 0 ==> r == 0
    ensures index > length ==> r == length
  {
    if index < 0 then Max(0, length + index) else Min(index, length)
  }

  function Start(sock: Sock, sink: Sink, total: int): (s: Recv) {
    Recv(sock.(flowing := true), sink, total, 0, Pending)
  }

  /** How much of a chunk is kept when `received` bytes have already been taken. */
  function Kept(s: Recv, chunk: bytes): (r: nat)
    ensures r <= |chunk|
  {
    if s.received + |chunk| > s.total then SubarrayIndex(s.total - s.received, |chunk|) else |chunk|
  }

  function Taken(s: Recv, chunk: bytes): (r: Recv) {
    var keep := Kept(s, chunk);
    var over := s.received + |chunk| > s.total;
    var sink := Accepted(s.sink, chunk[..keep]);
    var received := s.received + keep;
    Recv(s.sock.(queue := if over then [chunk[keep..]] + s.sock.queue else s.sock.queue,
                 flowing := s.sock.flowing && !over && Backlog(sink) < sink.hwm),
         sink, s.total, received, if received >= s.total then Resolved(received) else Pending)
  }

  function Step(s: Recv, e: Event): (r: Recv) {
    match e
    case Arrive(n) => s.(sock := Arrived(s.sock, n))
    case Close => s.(sock := s.sock.(ended := true))
    case Reset(disconnect) =>
      if !s.outcome.Pending? then s
      else s.(outcome := if disconnect then Interrupted(s.received) else Failed)
    case Deliver =>
      if !s.sock.flowing || s.sock.queue == [] then s
      else
        var rest := s.(sock := s.sock.(queue := s.sock.queue[1..]));
        // a flowing socket nobody listens to loses what it delivers
        if s.outcome.Pending? then Taken(rest, s.sock.queue[0]) else rest
    case Finish =>
      if s.sock.flowing && s.sock.queue == [] && s.sock.ended && s.outcome.Pending?
      then s.(outcome := Interrupted(s.received)) else s
    case Flush => if s.sink.buffered == [] then s else s.(sink := Flushed(s.sink))
    case Drain =>
      if s.sink.buffered != [] || !s.sink.needDrain then s
      else s.(sink := s.sink.(needDrain := false),
              sock := s.sock.(flowing := s.sock.flowing || s.outcome.Pending?))
  }

  function Run(s: Recv, events: seq<Event>): (r: Recv)
    decreases |events|
  {
    if events == [] then s else Run(Step(s, events[0]), events[1..])
  }

  /** The step hands a chunk to the data listener. */
  predicate Receives(s: Recv, e: Event) {
    e.Deliver? && s.sock.flowing && s.sock.queue != [] && s.outcome.Pending?
  }

  /** What the progress callback of a transfer that started at `start` makes of a run. */
  function RunGauge(s: Recv, g: Gauge, start: int, events: seq<Event>): (r: Gauge)
    decreases |events|
  {
    if events == [] then g
    else
      var next := Step(s, events[0]);
      RunGauge(next, if Receives(s, events[0]) then Reported(g, start + next.received) else g, start, events[1..])
  }

  /** The listeners of one `receiveBytes` call. They are attached exactly while the outcome is open. */
  class Receiver {
    const socket: Socket
    const stream: WriteStream
    const total: int
    const start: int
    const meter: Meter?
    var received: int
    var outcome: Outcome

    constructor (socket: Socket, stream: WriteStream, total: int, start: int, meter: Meter?)
      modifies socket
      ensures this.socket == socket && this.stream == stream && this.start == start && this.meter == meter
      ensures View() == Start(old(socket.View()), old(stream.View()), total)
    {
      this.socket, this.stream, this.total, this.start, this.meter := socket, stream, total, start, meter;
      received, outcome := 0, Pending;
      new;
      socket.Resume();
    }

    function View(): (s: Recv)
      reads this, socket, stream, stream.disk
    {
      Recv(socket.View(), stream.View(), total, received, outcome)
    }

    /** The first half of `onData`: hand back what goes beyond the promise. */
    method Trim(chunk: bytes) returns (piece: bytes)
      modifies socket
      ensures piece == chunk[..Kept(old(View()), chunk)]
      ensures socket.View() == Taken(old(View()), chunk).sock.(flowing := socket.flowing)
      ensures socket.flowing == (old(socket.flowing) && received + |chunk| <= total)
    {
      piece := chunk;
      assert chunk[..|chunk|] == chunk;
      if received + |piece| > total {
        var keep := SubarrayIndex(total - received, |chunk|);
        socket.Pause();
        socket.Unshift(piece[keep..]);
        piece := piece[..keep];
      }
    }

    method OnData(chunk: bytes)
      requires outcome.Pending?
      modifies this, socket, stream, meter
      ensures View() == Taken(old(View()), chunk)
      ensures meter != null ==> meter.View() == Reported(old(meter.View()), start + received)
    {
      var piece := Trim(chunk);
      received := received + |piece|;
      var roomLeft := stream.Write(piece);
      if !roomLeft {
        socket.Pause();
      }
      if meter != null {
        meter.OnProgress(start + received);
      }
      if received >= total {
        outcome := Resolved(received);
      }
    }

    method OnDrain()
      modifies socket
      ensures View() == (var s := old(View()); s.(sock := s.sock.(flowing := true)))
    {
      socket.Resume();
    }

    method OnEnd()
      modifies this
      ensures View() == (var s := old(View()); s.(outcome := Interrupted(s.received)))
    {
      outcome := Interrupted(received);
    }

    method OnError(disconnect: bool)
      modifies this
      ensures View() == (var s := old(View());
                         s.(outcome := if disconnect then Interrupted(s.received) else Failed))
    {
      outcome := if disconnect then Interrupted(received) else Failed;
    }

    /** One turn of the event loop. */
    method Handle(e: Event)
      requires stream.path in stream.disk.files
      modifies this, socket, stream, stream.disk, meter
      ensures View() == Step(old(View()), e)
      ensures meter != null ==>
                (meter.View()
                 == if Receives(old(View()), e) then Reported(old(meter.View()), start + received)
                    else old(meter.View()))
      ensures stream.disk.files == old(stream.disk.files)[stream.path := View().sink.file]
    {
      match e {
        case Arrive(n) => socket.Arrive(n);
        case Close => socket.Close();
        case Reset(disconnect) => if outcome.Pending? { OnError(disconnect); }
        case Deliver =>
          if socket.flowing && socket.queue != [] {
            var chunk := socket.Take();
            if outcome.Pending? { OnData(chunk); }
          }
        case Finish =>
          if socket.flowing && socket.queue == [] && socket.ended && outcome.Pending? { OnEnd(); }
        case Flush => if stream.buffered != [] { stream.Flush(); }
        case Drain =>
          if stream.buffered == [] && stream.needDrain {
            stream.needDrain := false;
            if outcome.Pending? { OnDrain(); }
          }
      }
    }

    /** Drives the listeners through a schedule of events. */
    method Process(events: seq<Event>)
      requires stream.path in stream.disk.files
      modifies this, socket, stream, stream.disk, meter
      ensures View() == Run(old(View()), events)
      ensures meter != null ==> meter.View() == RunGauge(old(View()), old(meter.View()), start, events)
      ensures stream.disk.files == old(stream.disk.files)[stream.path := View().sink.file]
    {
      var i := 0;
      while i < |events|
        invariant 0 <= i <= |events|
        invariant stream.path in stream.disk.files
        invariant Run(old(View()), events) == Run(View(), events[i..])
        invariant meter != null ==> RunGauge(old(View()), old(meter.View()), start, events)
                                    == RunGauge(View(), meter.View(), start, events[i..])
        invariant stream.disk.files == old(stream.disk.files)[stream.path := View().sink.file]
      {
        Handle(events[i]);
        i := i + 1;
      }
    }
  }
}
