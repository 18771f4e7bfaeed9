/** The shared disk, and a write stream that buffers what it has accepted but not yet put on disk. */
module Streams {
  import opened Bytes

  class Disk {
    var files: map<string, bytes>

    constructor (files: map<string, bytes>)
      ensures this.files == files
    {
      this.files := files;
    }
  }

  function Content(files: map<string, bytes>, path: string): (r: bytes) {
    if path in files then files[path] else []
  }

  datatype Sink = Sink(file: bytes, pos: nat, buffered: seq<bytes>, needDrain: bool, hwm: nat)

  function Zeros(n: nat): (r: bytes)
    ensures |r| == n
  {
    seq(n, _ => 0)
  }

  /** A positioned write: overwrites, extends, and zero-fills a gap. */
  function WriteAt(file: bytes, pos: nat, piece: bytes): (r: bytes)
    ensures pos == |file| ==> r == file + piece
  {
    var end := pos + |piece|;
    (if pos <= |file| then file[..pos] else file + Zeros(pos - |file|))
    + piece
    + (if end < |file| then file[end..] else [])
  }

  /** `fsp.truncate`: shortens, or extends with zeros. */
  function Truncated(file: bytes, length: nat): (r: bytes) {
    if length <= |file| then file[..length] else file + Zeros(length - |file|)
  }

  function Open(file: bytes, hwm: nat): (s: Sink) {
    Sink(file, |file|, [], false, hwm)
  }

  function Backlog(s: Sink): (r: nat) {
    |Flatten(s.buffered)|
  }

  /** `write(piece)`; the stream reports room while its backlog is below the high-water mark. */
  function Accepted(s: Sink, piece: bytes): (r: Sink) {
    var grown := s.(buffered := s.buffered + [piece]);
    grown.(needDrain := s.needDrain || Backlog(grown) >= s.hwm)
  }

  /** The oldest accepted piece reaches the disk. */
  function Flushed(s: Sink): (r: Sink)
    requires s.buffered != []
  {
    var piece := s.buffered[0];
    s.(file := WriteAt(s.file, s.pos, piece), pos := s.pos + |piece|, buffered := s.buffered[1..])
  }

  /** `stream.end(cb)`: the file once every accepted byte is on disk. */
  function Ended(s: Sink): (r: Sink)
    decreases |s.buffered|
  {
    if s.buffered == [] then s else Ended(Flushed(s))
  }

  /** The file a killed process leaves: any part of the backlog may have reached the disk. */
  function Torn(s: Sink, reached: nat): (r: bytes) {
    WriteAt(s.file, s.pos, Flatten(s.buffered)[..Min(reached, Backlog(s))])
  }

  class WriteStream {
    const disk: Disk
    const path: string
    const hwm: nat
    var pos: nat
    var buffered: seq<bytes>
    var needDrain: bool

    constructor (disk: Disk, path: string, pos: nat, hwm: nat)
      ensures this.disk == disk && this.path == path && this.hwm == hwm
      ensures View() == Sink(Content(disk.files, path), pos, [], false, hwm)
    {
      this.disk, this.path, this.hwm := disk, path, hwm;
      this.pos, buffered, needDrain := pos, [], false;
    }

    function View(): (s: Sink)
      reads this, disk
    {
      Sink(Content(disk.files, path), pos, buffered, needDrain, hwm)
    }

    method Write(piece: bytes) returns (roomLeft: bool)
      modifies this
      ensures View() == Accepted(old(View()), piece)
      ensures roomLeft == (Backlog(View()) < hwm)
    {
      buffered := buffered + [piece];
      roomLeft := |Flatten(buffered)| < hwm;
      if !roomLeft {
        needDrain := true;
      }
    }

    method Flush()
      requires buffered != []
      modifies this, disk
      ensures View() == Flushed(old(View()))
      ensures disk.files == old(disk.files)[path := View().file]
    {
      var piece := buffered[0];
      disk.files := disk.files[path := WriteAt(Content(disk.files, path), pos, piece)];
      pos, buffered := pos + |piece|, buffered[1..];
    }

    method End()
      requires path in disk.files
      modifies this, disk
      ensures View() == Ended(old(View()))
      ensures disk.files == old(disk.files)[path := View().file]
    {
      while buffered != []
        invariant Ended(View()) == Ended(old(View()))
        invariant path in disk.files
        invariant disk.files == old(disk.files)[path := View().file]
        decreases |buffered|
      {
        Flush();
      }
    }

    /** The process dies: the backlog is lost except for its first `reached` bytes. */
    method Kill(reached: nat)
      requires path in disk.files
      modifies this, disk
      ensures disk.files == old(disk.files)[path := Torn(old(View()), reached)]
    {
      var lost := Flatten(buffered);
      disk.files := disk.files[path := WriteAt(Content(disk.files, path), pos, lost[..Min(reached, |lost|)])];
      buffered := [];
    }
  }

  /** What a stream opened at the end of its file will have written once it is closed. */
  lemma {:induction false} EndedAppends(s: Sink)
    requires s.pos == |s.file|
    ensures Ended(s) == s.(file := s.file + Flatten(s.buffered), pos := |s.file| + Backlog(s), buffered := [])
    decreases |s.buffered|
  {
    if s.buffered == [] {
      assert s.file + Flatten(s.buffered) == s.file;
    } else {
      EndedAppends(Flushed(s));
      assert Flushed(s).file + Flatten(s.buffered[1..]) == s.file + Flatten(s.buffered);
    }
  }

  /** What a positioned write leaves, byte by byte. */
  lemma {:induction false} WrittenBytes(file: bytes, pos: nat, piece: bytes)
    ensures var r := WriteAt(file, pos, piece);
            && |r| == Max(|file|, pos + |piece|)
            && forall i | 0 <= i < |r| ::
                 r[i] == if pos <= i < pos + |piece| then piece[i - pos] else if i < |file| then file[i] else 0
  {
  }

  lemma {:induction false} TruncatedBytes(file: bytes, length: nat)
    ensures var r := Truncated(file, length);
            |r| == length && forall i | 0 <= i < |r| :: r[i] == if i < |file| then file[i] else 0
  {
  }
}
