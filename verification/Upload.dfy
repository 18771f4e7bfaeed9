/**
 The storage folder and the upload handler: what one upload request does to the part file and the
 complete file of its name, whatever happens to the connection and whenever the node dies.
 */
module Upload {
  import opened Bytes
  import opened Sockets
  import opened Streams
  import opened Names
  import opened Throttle
  import opened Receive
  import opened ReceiveSafety
  import Policy

  /** The two files of one name. */
  datatype Slot = Slot(part: Option<bytes>, final: Option<bytes>)

  function Find(files: map<string, bytes>, path: string): (r: Option<bytes>) {
    if path in files then Some(files[path]) else None
  }

  /** `stat(...).size`, or 0 when there is no such file. */
  function SizeOf(file: Option<bytes>): (r: nat) {
    match file
    case Some(content) => |content|
    case None => 0
  }

  /** The bytes of a file, and none if there is no such file. */
  function Found(file: Option<bytes>): (r: bytes)
    ensures |r| == SizeOf(file)
  {
    match file
    case Some(content) => content
    case None => []
  }

  function Put(files: map<string, bytes>, path: string, file: Option<bytes>): (r: map<string, bytes>) {
    match file
    case Some(content) => files[path := content]
    case None => map p | p in files && p != path :: files[p]
  }

  ghost predicate OthersKept(part: string, final: string, before: map<string, bytes>, after: map<string, bytes>) {
    forall p | p != part && p != final :: Find(after, p) == Find(before, p)
  }

  lemma {:induction false} PutBoth(files: map<string, bytes>, part: string, final: string, slot: Slot)
    requires part != final
    ensures var after := Put(Put(files, part, slot.part), final, slot.final);
            && Slot(Find(after, part), Find(after, final)) == slot
            && OthersKept(part, final, files, after)
  {
  }

  lemma {:induction false} PutPart(files: map<string, bytes>, part: string, final: string, written: bytes)
    requires part != final
    ensures files[part := written] == Put(Put(files, part, Some(written)), final, Find(files, final))
    ensures forall slot: Slot :: Put(Put(files[part := written], part, slot.part), final, slot.final)
                                 == Put(Put(files, part, slot.part), final, slot.final)
  {
  }

  class Storage {
    const base: string
    const disk: Disk

    constructor (base: string, disk: Disk)
      ensures this.base == base && this.disk == disk
    {
      this.base, this.disk := base, disk;
    }

    function SlotOf(name: string): (s: Slot)
      reads disk
    {
      Slot(Find(disk.files, PartPath(base, name)), Find(disk.files, FinalPath(base, name)))
    }

    method UploadedBytes(name: string) returns (n: nat)
      ensures n == SizeOf(SlotOf(name).part)
    {
      var path := PartPath(base, name);
      n := if path in disk.files then |disk.files[path]| else 0;
    }

    method Exists(name: string) returns (found: bool)
      ensures found == SlotOf(name).final.Some?
    {
      found := FinalPath(base, name) in disk.files;
    }

    method Size(name: string) returns (n: nat)
      ensures n == SizeOf(SlotOf(name).final)
    {
      var path := FinalPath(base, name);
      n := if path in disk.files then |disk.files[path]| else 0;
    }

    /** Truncating needs an existing part file; opening at offset 0 creates or empties it. */
    method OpenForAppend(name: string, offset: int, hwm: nat) returns (stream: WriteStream)
      requires offset > 0 ==> SlotOf(name).part.Some?
      modifies disk
      ensures fresh(stream) && stream.disk == disk && stream.path == PartPath(base, name)
      ensures stream.View() == Sink(Opened(old(SlotOf(name).part), offset), Max(offset, 0), [], false, hwm)
      ensures disk.files == old(disk.files)[PartPath(base, name) := stream.View().file]
    {
      var target := PartPath(base, name);
      if offset > 0 {
        disk.files := disk.files[target := Truncated(disk.files[target], offset)];
        stream := new WriteStream(disk, target, offset, hwm);
      } else {
        disk.files := disk.files[target := []];
        stream := new WriteStream(disk, target, 0, hwm);
      }
    }

    /** Promotes the part file; a node that dies in between has removed the old version already. */
    method Finalize(name: string, interrupted: bool) returns (size: nat)
      requires SlotOf(name).part.Some? && PartPath(base, name) != FinalPath(base, name)
      modifies disk
      ensures var part, final := PartPath(base, name), FinalPath(base, name);
              var gone := Put(old(disk.files), final, None);
              disk.files == if interrupted then gone else Put(gone, part, None)[final := old(disk.files)[part]]
      ensures size == SizeOf(old(SlotOf(name).part))
    {
      var part, final := PartPath(base, name), FinalPath(base, name);
      size := |disk.files[part]|;
      disk.files := map p | p in disk.files && p != final :: disk.files[p];
      if !interrupted {
        var whole := disk.files[part];
        disk.files := (map p | p in disk.files && p != part :: disk.files[p])[final := whole];
      }
    }
  }

  /** The part file as `openForAppend` leaves it. */
  function Opened(part: Option<bytes>, offset: int): (r: bytes) {
    if offset > 0 && part.Some? then Truncated(part.value, offset) else []
  }

  /** An offset that has been checked is where the opened part file ends. */
  lemma {:induction false} OpenedAtEnd(part: Option<bytes>, offset: int, hwm: nat)
    requires offset <= SizeOf(part)
    ensures Sink(Opened(part, offset), Max(offset, 0), [], false, hwm) == Open(Opened(part, offset), hwm)
  {
  }

  /**
   Where an accepted request stops short, if it does: the node dies (waiting for the lock or before the part file is
   touched; with the stream open, when `reached` bytes of its backlog make it to the disk; or later), or, before the
   remove and before the rename, that call fails.
   */
  datatype Fate = Survives | DiesBeforeOpen | DiesWriting(reached: nat) | DiesBeforeRemove | DiesBeforeRename
                | DiesBeforeClaim | DiesBeforeReply

  /** How the request ends for the peer: refused, cut off without a final answer, or confirmed. */
  datatype Report = Refused(resumeAt: Option<nat>) | Stopped | Confirmed(size: nat)

  /** What the part file holds when the receive loop is over, and whether that is the whole upload. */
  function Closed(s: Recv, fate: Fate): (r: (bytes, bool)) {
    if fate.DiesWriting? then (Torn(s.sink, fate.reached), false)
    else if s.outcome.Pending? then (s.sink.file, false)
    else (Ended(s.sink).file, s.outcome.Resolved?)
  }

  /** A transfer as `openForAppend` and `receiveBytes` begin it. */
  function Begin(part: Option<bytes>, offset: int, total: int, sock: Sock, hwm: nat): (s: Recv) {
    Start(sock, Open(Opened(part, offset), hwm), total - offset)
  }

  function Received(part: Option<bytes>, offset: int, total: int, sock: Sock, hwm: nat, events: seq<Event>, fate: Fate):
    (r: (bytes, bool))
  {
    Closed(Run(Begin(part, offset, total, sock, hwm), events), fate)
  }

  /** A whole part file takes the complete name; the flag says whether the uploader's claim is made. */
  function Promoted(slot: Slot, fate: Fate): (r: (Slot, Report, bool))
    requires slot.part.Some?
  {
    var written := slot.part.value;
    if fate.DiesBeforeOpen? || fate.DiesWriting? || fate.DiesBeforeRemove? then (slot, Stopped, false)
    else if fate.DiesBeforeRename? then (slot.(final := None), Stopped, false)
    else if fate.DiesBeforeClaim? then (Slot(None, Some(written)), Stopped, false)
    else (Slot(None, Some(written)), if fate.DiesBeforeReply? then Stopped else Confirmed(|written|), true)
  }

  /** One accepted upload on the two files. */
  function Serve(slot: Slot, offset: int, total: int, sock: Sock, hwm: nat, events: seq<Event>, fate: Fate):
    (r: (Slot, Report, bool))
  {
    var (written, whole) := Received(slot.part, offset, total, sock, hwm, events, fate);
    var closed := slot.(part := Some(written));
    if fate.DiesBeforeOpen? then (slot, Stopped, false)
    else if whole then Promoted(closed, fate) else (closed, Stopped, false)
  }

  /** What a handler publishes about a transfer. */
  datatype Published =
    | Forbidden
    | Begun
    | Progressed(done: int)
    | CutOff(resumeAt: int)
    | Finished(size: nat)

  function AllProgressed(reports: seq<int>): (r: seq<Published>)
    ensures |r| == |reports| && forall i | 0 <= i < |r| :: r[i] == Progressed(reports[i])
  {
    seq(|reports|, i requires 0 <= i < |reports| => Progressed(reports[i]))
  }

  /** What is published until the stream is closed: the reports due, and the resume point if the client vanished. */
  function Told(s: Recv, offset: int, events: seq<Event>, fate: Fate): (r: seq<Published>) {
    var ended := Run(s, events).outcome;
    AllProgressed(RunGauge(s, StartGauge(offset), offset, events).reports)
    + (if ended.Interrupted? && !fate.DiesWriting? then [CutOff(offset + ended.received)] else [])
  }

  /** Everything published from inside the file lock. */
  function Story(slot: Slot, offset: int, total: int, sock: Sock, hwm: nat, events: seq<Event>, fate: Fate):
    (r: seq<Published>)
  {
    var (after, answer, claimed) := Serve(slot, offset, total, sock, hwm, events, fate);
    (if fate.DiesBeforeOpen? then [] else Told(Begin(slot.part, offset, total, sock, hwm), offset, events, fate))
    + (if claimed then [Finished(SizeOf(after.final))] else [])
  }

  function OrAnonymous(user: string): (r: string)
    ensures user != "" ==> r == user
    ensures user == "" ==> r == "anonymous"
  {
    if user == "" then "anonymous" else user
  }

  /** Closing the stream on either path, or dying with it open. */
  method CloseStream(receiver: Receiver, fate: Fate) returns (whole: bool)
    requires receiver.stream.path in receiver.stream.disk.files
    modifies receiver.stream, receiver.stream.disk
    ensures var (written, done) := Closed(old(receiver.View()), fate);
            && whole == done
            && receiver.stream.disk.files == old(receiver.stream.disk.files)[receiver.stream.path := written]
  {
    if fate.DiesWriting? {
      receiver.stream.Kill(fate.reached);
      whole := false;
    } else if receiver.outcome.Pending? {
      whole := false;
    } else {
      whole := receiver.outcome.Resolved?;
      receiver.stream.End();
    }
  }

  /** `receiveBytes` into an open stream, and `endStream` whichever way it went. */
  method ReceiveInto(socket: Socket, stream: WriteStream, total: int, start: int, meter: Meter?,
                     events: seq<Event>, fate: Fate)
    returns (whole: bool, outcome: Outcome)
    requires stream.path in stream.disk.files
    modifies socket, stream, stream.disk, meter
    ensures var s := Start(old(socket.View()), old(stream.View()), total);
            var (written, done) := Closed(Run(s, events), fate);
            && whole == done && outcome == Run(s, events).outcome
            && stream.disk.files == old(stream.disk.files)[stream.path := written]
            && (meter != null ==> meter.View() == RunGauge(s, old(meter.View()), start, events))
  {
    var receiver := new Receiver(socket, stream, total, start, meter);
    receiver.Process(events);
    outcome := receiver.outcome;
    whole := CloseStream(receiver, fate);
  }

  /** The receive loop of an upload, with its progress callback. */
  method ReceiveMetered(socket: Socket, stream: WriteStream, total: int, offset: int, events: seq<Event>, fate: Fate)
    returns (whole: bool, published: seq<Published>)
    requires stream.path in stream.disk.files
    modifies socket, stream, stream.disk
    ensures var s := Start(old(socket.View()), old(stream.View()), total);
            var (written, done) := Closed(Run(s, events), fate);
            && whole == done
            && stream.disk.files == old(stream.disk.files)[stream.path := written]
            && published == Told(s, offset, events, fate)
  {
    var meter := new Meter(offset);
    var outcome;
    whole, outcome := ReceiveInto(socket, stream, total, offset, meter, events, fate);
    published := AllProgressed(meter.View().reports);
    if outcome.Interrupted? && !fate.DiesWriting? {
      published := published + [CutOff(offset + outcome.received)];
    }
  }

  /**
   Open the part file, receive, close it. The receive loop is driven by `events`; if they run out while
   the promise is open, the transfer is observed half way, with what has been flushed.
   */
  method ReceivePart(storage: Storage, name: string, offset: int, total: int, socket: Socket, hwm: nat,
                     events: seq<Event>, fate: Fate) returns (whole: bool, published: seq<Published>)
    requires hwm > 0 && offset <= SizeOf(storage.SlotOf(name).part)
    modifies storage.disk, socket
    ensures var part := old(storage.SlotOf(name).part);
            var (written, done) := Received(part, offset, total, old(socket.View()), hwm, events, fate);
            && whole == done
            && storage.disk.files == old(storage.disk.files)[PartPath(storage.base, name) := written]
            && published == Told(Begin(part, offset, total, old(socket.View()), hwm), offset, events, fate)
  {
    ghost var part, before := storage.SlotOf(name).part, socket.View();
    OpenedAtEnd(part, offset, hwm);
    var stream := storage.OpenForAppend(name, offset, hwm);
    assert Start(before, stream.View(), total - offset) == Begin(part, offset, total, before, hwm);
    whole, published := ReceiveMetered(socket, stream, total - offset, offset, events, fate);
  }

  /** What follows the receive loop: promote what is whole, and say so. */
  method Promote(storage: Storage, name: string, fate: Fate) returns (report: Report, completed: bool)
    requires storage.SlotOf(name).part.Some? && !fate.DiesWriting? && !fate.DiesBeforeOpen?
    modifies storage.disk
    ensures var part, final := PartPath(storage.base, name), FinalPath(storage.base, name);
            var (after, answer, claimed) := Promoted(old(storage.SlotOf(name)), fate);
            && report == answer && completed == claimed
            && storage.disk.files == Put(Put(old(storage.disk.files), part, after.part), final, after.final)
  {
    ghost var files := storage.disk.files;
    ghost var part, final := PartPath(storage.base, name), FinalPath(storage.base, name);
    assert part != final;
    if fate.DiesBeforeRemove? {
      assert Put(Put(files, part, Find(files, part)), final, Find(files, final)) == files;
      return Stopped, false;
    }
    var size := storage.Finalize(name, fate.DiesBeforeRename?);
    if fate.DiesBeforeRename? {
      assert Put(files, part, Find(files, part)) == files;
      return Stopped, false;
    }
    return if fate.DiesBeforeClaim? || fate.DiesBeforeReply? then Stopped else Confirmed(size), !fate.DiesBeforeClaim?;
  }

  /** Receive, and promote what is whole. */
  method ReceiveAndPromote(storage: Storage, name: string, offset: int, total: int, socket: Socket, hwm: nat,
                           events: seq<Event>, fate: Fate)
    returns (report: Report, completed: bool, published: seq<Published>)
    requires hwm > 0 && offset <= SizeOf(storage.SlotOf(name).part) && !fate.DiesBeforeOpen?
    modifies storage.disk, socket
    ensures var part, final := PartPath(storage.base, name), FinalPath(storage.base, name);
            var slot := old(storage.SlotOf(name));
            var (after, answer, claimed) := Serve(slot, offset, total, old(socket.View()), hwm, events, fate);
            && report == answer && completed == claimed
            && storage.disk.files == Put(Put(old(storage.disk.files), part, after.part), final, after.final)
            && published == Story(slot, offset, total, old(socket.View()), hwm, events, fate)
  {
    ghost var files := storage.disk.files;
    ghost var part, final := PartPath(storage.base, name), FinalPath(storage.base, name);
    assert part != final;
    var whole;
    whole, published := ReceivePart(storage, name, offset, total, socket, hwm, events, fate);
    PutPart(files, part, final, storage.disk.files[part]);
    if !whole {
      return Stopped, false, published;
    }
    report, completed := Promote(storage, name, fate);
    if completed {
      var size := storage.Size(name);
      published := published + [Finished(size)];
    }
  }

  /** The body of the file lock. */
  method Transfer(storage: Storage, name: string, offset: int, total: int, socket: Socket, hwm: nat,
                  events: seq<Event>, fate: Fate) returns (report: Report, completed: bool, published: seq<Published>)
    requires hwm > 0 && offset <= SizeOf(storage.SlotOf(name).part)
    modifies storage.disk, socket
    ensures var part, final := PartPath(storage.base, name), FinalPath(storage.base, name);
            var slot := old(storage.SlotOf(name));
            var (after, answer, claimed) := Serve(slot, offset, total, old(socket.View()), hwm, events, fate);
            && report == answer && completed == claimed
            && storage.disk.files == Put(Put(old(storage.disk.files), part, after.part), final, after.final)
            && published == Story(slot, offset, total, old(socket.View()), hwm, events, fate)
  {
    if fate.DiesBeforeOpen? {
      ghost var files := storage.disk.files;
      ghost var part, final := PartPath(storage.base, name), FinalPath(storage.base, name);
      assert Put(Put(files, part, Find(files, part)), final, Find(files, final)) == files;
      return Stopped, false, [];
    }
    report, completed, published := ReceiveAndPromote(storage, name, offset, total, socket, hwm, events, fate);
  }

  /** `handleUpload`: permission and offset first, the transfer, and the claim after it. */
  method HandleUpload(storage: Storage, policy: Policy.PolicyStore, user: string, file: string,
                      offset: int, total: int, socket: Socket, hwm: nat, events: seq<Event>, fate: Fate)
    returns (report: Report, published: seq<Published>)
    requires hwm > 0
    modifies storage.disk, policy, policy.file, socket
    ensures var who, name := OrAnonymous(user), SafeName(file);
            var slot := old(storage.SlotOf(file));
            var rules := Policy.Loaded(old(policy.file.content));
            var part, final := PartPath(storage.base, file), FinalPath(storage.base, file);
            if !Policy.CanWrite(rules, who, name) then
              report == Refused(None) && published == [Forbidden] && storage.disk.files == old(storage.disk.files)
              && policy.file.content == old(policy.file.content)
            else if offset > SizeOf(slot.part) then
              report == Refused(Some(SizeOf(slot.part))) && published == []
              && storage.disk.files == old(storage.disk.files) && policy.file.content == old(policy.file.content)
            else
              var (after, answer, claimed) := Serve(slot, offset, total, old(socket.View()), hwm, events, fate);
              && report == answer
              && published == [Begun] + Story(slot, offset, total, old(socket.View()), hwm, events, fate)
              && storage.disk.files == Put(Put(old(storage.disk.files), part, after.part), final, after.final)
              && policy.file.content == (if claimed then Some(Policy.Apply(rules, Policy.Claim(who, name)).0)
                                         else old(policy.file.content))
              && var claim := Policy.Claim(who, name);
              (claimed ==> policy.published
                           == old(policy.published) + Policy.Noticed(claim, Policy.Apply(rules, claim).1))
  {
    var who, name := OrAnonymous(user), SafeName(file);
    SafeNameIdempotent(file);
    policy.Reload();
    if !Policy.CanWrite(policy.rules, who, name) {
      return Refused(None), [Forbidden];
    }
    var onDisk := storage.UploadedBytes(name);
    if offset > onDisk {
      return Refused(Some(onDisk)), [];
    }
    var completed, told;
    report, completed, told := Transfer(storage, name, offset, total, socket, hwm, events, fate);
    published := [Begun] + told;
    if completed {
      var _ := policy.ClaimFile(who, name);
    }
  }
}
