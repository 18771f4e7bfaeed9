/** The download handler, and the client's retry-and-resume loop into a local part file. */
module Download {
  import opened Bytes
  import opened Sockets
  import opened Streams
  import opened Names
  import opened Receive
  import opened ReceiveSafety
  import opened Upload
  import opened UploadRuns
  import opened Throttle
  import Client
  import Policy

  // ------------------------------------------------------------------------------ server side

  /** `size` is what the header of the answer announces, `body` what follows it. */
  datatype Reply = NotFound | Denied | Serving(size: nat, body: bytes)

  /** The chunks in which a read stream delivers a file. */
  function Cut(content: bytes): (r: seq<bytes>)
    ensures Flatten(r) == content
    ensures forall c | c in r :: |c| <= CHUNK_SIZE
    decreases |content|
  {
    if content == [] then []
    else
      var n := Min(CHUNK_SIZE, |content|);
      assert content == content[..n] + content[n..];
      var rest := Cut(content[n..]);
      assert ([content[..n]] + rest)[1..] == rest;
      [content[..n]] + rest
  }

  /** The chunks that pass when the file opened is `there`; one that is gone when it is opened sends nothing. */
  function Sent(there: Option<bytes>, offset: nat, lost: Option<nat>): (r: seq<bytes>) {
    Passed(Cut(Tail(Found(there), offset)), lost)
  }

  /** Everything published about a download: its start, the reports due, and how it ended. */
  function DownloadStory(there: Option<bytes>, size: nat, offset: nat, lost: Option<nat>): (r: seq<Published>) {
    var chunks := Sent(there, offset, lost);
    [Begun] + AllProgressed(Reports(offset + PROGRESS_EVERY, offset, Sizes(chunks)))
    + (if there.None? then [] else if lost.Some? then [CutOff(offset + |Flatten(chunks)|)] else [Finished(size)])
  }

  /** The pipeline and what follows it. */
  method SendFile(there: Option<bytes>, size: nat, offset: nat, lost: Option<nat>)
    returns (body: bytes, published: seq<Published>)
    ensures body == Flatten(Sent(there, offset, lost))
    ensures published == DownloadStory(there, size, offset, lost)
  {
    var reports, count;
    body, reports, count := Pipe(offset, Cut(Tail(Found(there), offset)), lost);
    published := [Begun] + AllProgressed(reports);
    if there.Some? {
      published := published + (if lost.Some? then [CutOff(count)] else [Finished(size)]);
    }
  }

  /** Other requests change the folder while a handler waits. */
  method OthersChange(storage: Storage, files: map<string, bytes>)
    modifies storage.disk
    ensures storage.disk.files == files
  {
    storage.disk.files := files;
  }

  /**
   `handleDownload`. The file is looked at three times, to see whether it exists, to measure it and to open it, and
   other requests change the folder in between: to `atSize`, then to `atOpen`. The handler changes nothing itself. A
   file that is gone when it is measured counts as empty. `lost` is where the receiver disappears.
   */
  method HandleDownload(storage: Storage, policy: Policy.PolicyStore, user: string, file: string, offset: nat,
                        atSize: map<string, bytes>, atOpen: map<string, bytes>, lost: Option<nat>)
    returns (reply: Reply, published: seq<Published>)
    modifies policy, storage.disk
    ensures var rules := Policy.Loaded(policy.file.content);
            var path := FinalPath(storage.base, file);
            if old(storage.SlotOf(file)).final.None? then
              reply == NotFound && published == [] && storage.disk.files == old(storage.disk.files)
            else if !Policy.CanRead(rules, OrAnonymous(user), SafeName(file)) then
              reply == Denied && published == [Forbidden] && storage.disk.files == old(storage.disk.files)
            else
              var size, there := SizeOf(Find(atSize, path)), Find(atOpen, path);
              && reply == Serving(size, Flatten(Sent(there, offset, lost)))
              && published == DownloadStory(there, size, offset, lost)
              && storage.disk.files == atOpen
  {
    SafeNameIdempotent(file);
    var name := SafeName(file);
    policy.Reload();
    published := [];
    var found := storage.Exists(name);
    if !found {
      return NotFound, published;
    }
    if !Policy.CanRead(policy.rules, OrAnonymous(user), name) {
      return Denied, [Forbidden];
    }
    OthersChange(storage, atSize);
    var size := storage.Size(name);
    OthersChange(storage, atOpen);
    var body;
    body, published := SendFile(Find(storage.disk.files, FinalPath(storage.base, name)), size, offset, lost);
    reply := Serving(size, body);
  }

  /** Undisturbed, the header announces the file and the body is the file from the offset on. */
  lemma {:induction false} UndisturbedReply(content: bytes, offset: nat)
    ensures Flatten(Sent(Some(content), offset, None)) == Tail(content, offset)
    ensures SizeOf(Some(content)) == |content|
  {
  }

  // ------------------------------------------------------------------------------ client side

  /** What a node that does not refuse offers: the size it announces, and the file it then sends from. */
  datatype Offer = Offer(size: nat, content: bytes)

  /** Everything outside the client's control during one attempt; `killed` ends the client itself. */
  datatype Try = Try(nodeFound: bool, connects: bool, firstReply: Client.FirstReply, offer: Option<Offer>,
                     hwm: nat, events: seq<Event>, killed: Option<nat>)

  datatype Seen = Done | TurnedDown | Interrupted | Killed

  /** The local part file while an offer is fetched; a connection that falls silent is reset in the end. */
  function Fetching(slot: Slot, offer: Offer, t: Try): (s: Recv) {
    var offset := SizeOf(slot.part);
    var events := if t.killed.Some? then t.events else t.events + [Reset(true)];
    After(Wire(Tail(offer.content, offset)), Opened(slot.part, offset), t.hwm, offer.size - offset, events)
  }

  function FateOf(t: Try): (r: Fate) {
    if t.killed.Some? then DiesWriting(t.killed.value) else Survives
  }

  /** One `_pull`; there is no offer when the node refuses. */
  function Pull(slot: Slot, t: Try): (r: (Slot, Seen)) {
    if !t.connects || t.firstReply.Breaks? then (slot, Seen.Interrupted)
    else if t.firstReply.PeerEnds? || t.offer.None? then (slot, TurnedDown)
    else if t.offer.value.size <= SizeOf(slot.part) then (slot, Done)
    else
      var (written, whole) := Closed(Fetching(slot, t.offer.value, t), FateOf(t));
      (slot.(part := Some(written)), if t.killed.Some? then Killed else if whole then Done else Seen.Interrupted)
  }

  /** Where the last step stops, if it does: the client dies or a call fails, before the remove or before the rename. */
  datatype Placing = Completes | StopsBefore | StopsBetween

  /** Replace the target by the part file. Without a part file the old target is gone all the same. */
  function Placed(slot: Slot, placing: Placing): (r: (Slot, Client.Result)) {
    if placing.StopsBefore? then (slot, Client.Escaped)
    else if placing.StopsBetween? || slot.part.None? then (slot.(final := None), Client.Escaped)
    else (Slot(None, slot.part), Client.Succeeded)
  }

  function DownloadRun(slot: Slot, tries: seq<Try>, placing: Placing): (r: (Slot, Client.Result))
    decreases |tries|
  {
    if tries == [] then (slot, Client.GaveUp)
    else if !tries[0].nodeFound then (slot, Client.Escaped)
    else
      var (after, seen) := Pull(slot, tries[0]);
      match seen
      case Done => Placed(after, placing)
      case TurnedDown => (after, Client.RefusedByPeer)
      case Killed => (after, Client.Escaped)
      case Interrupted => DownloadRun(after, tries[1..], placing)
  }

  /** The two local files of a download. */
  class Target {
    const disk: Disk
    const path: string

    constructor (disk: Disk, path: string)
      ensures this.disk == disk && this.path == path
    {
      this.disk, this.path := disk, path;
    }

    function Files(): (s: Slot)
      reads disk
    {
      Slot(Find(disk.files, path + PART), Find(disk.files, path))
    }

    method OpenPart(offset: nat, hwm: nat) returns (stream: WriteStream)
      requires offset > 0 ==> Files().part.Some?
      modifies disk
      ensures fresh(stream) && stream.disk == disk && stream.path == path + PART
      ensures stream.View() == Sink(Opened(old(Files()).part, offset), offset, [], false, hwm)
      ensures disk.files == old(disk.files)[path + PART := stream.View().file]
    {
      var part := path + PART;
      disk.files := disk.files[part := if offset > 0 then Truncated(disk.files[part], offset) else []];
      stream := new WriteStream(disk, part, offset, hwm);
    }

    /** `rm(target)` and then `rename(part, target)`. */
    method Place(placing: Placing) returns (placed: bool)
      modifies disk
      ensures var (after, result) := Placed(old(Files()), placing);
              && placed == result.Succeeded?
              && disk.files == Put(Put(old(disk.files), path + PART, after.part), path, after.final)
              && Files() == after && OthersKept(path + PART, path, old(disk.files), disk.files)
    {
      ghost var before := disk.files;
      var part := path + PART;
      assert part != path;
      PutBoth(before, part, path, Placed(Files(), placing).0);
      assert Put(before, part, Find(before, part)) == before;
      assert Put(before, path, Find(before, path)) == before;
      if placing.StopsBefore? {
        return false;
      }
      disk.files := map p | p in disk.files && p != path :: disk.files[p];
      if placing.StopsBetween? || part !in disk.files {
        return false;
      }
      var content := disk.files[part];
      disk.files := (map p | p in disk.files && p != part :: disk.files[p])[path := content];
      return true;
    }

    method PullOnce(t: Try) returns (seen: Seen)
      requires t.hwm > 0
      modifies disk
      ensures var (after, saw) := Pull(old(Files()), t);
              && seen == saw && disk.files == Put(old(disk.files), path + PART, after.part)
              && Files() == after && OthersKept(path + PART, path, old(disk.files), disk.files)
    {
      assert path + PART != path;
      assert Put(disk.files, path + PART, Files().part) == disk.files;
      if !t.connects || t.firstReply.Breaks? {
        return Seen.Interrupted;
      }
      if t.firstReply.PeerEnds? || t.offer.None? {
        return TurnedDown;
      }
      var offset := if path + PART in disk.files then |disk.files[path + PART]| else 0;
      if t.offer.value.size <= offset {
        return Done;
      }
      seen := Fetch(t.offer.value, t, offset);
    }

    method Fetch(offer: Offer, t: Try, offset: nat) returns (seen: Seen)
      requires t.hwm > 0 && offset == SizeOf(Files().part) < offer.size
      modifies disk
      ensures var (written, whole) := Closed(Fetching(old(Files()), offer, t), FateOf(t));
              && disk.files == old(disk.files)[path + PART := written]
              && seen == if t.killed.Some? then Killed else if whole then Done else Seen.Interrupted
    {
      var socket := new Socket(Tail(offer.content, offset));
      var stream := OpenPart(offset, t.hwm);
      assert stream.View() == Open(Opened(old(Files()).part, offset), t.hwm);
      var events := if t.killed.Some? then t.events else t.events + [Reset(true)];
      var whole, _ := ReceiveInto(socket, stream, offer.size - offset, offset, null, events, FateOf(t));
      seen := if t.killed.Some? then Killed else if whole then Done else Seen.Interrupted;
    }

    /** `download`: at most RETRIES + 1 attempts, then the part file takes the target's place. */
    method DownloadFile(tries: seq<Try>, placing: Placing) returns (result: Client.Result)
      requires |tries| == Client.RETRIES + 1 && forall t | t in tries :: t.hwm > 0
      modifies disk
      ensures (Files(), result) == DownloadRun(old(Files()), tries, placing)
      ensures OthersKept(path + PART, path, old(disk.files), disk.files)
    {
      var attempt := 1;
      while true
        invariant 1 <= attempt <= Client.RETRIES + 1
        invariant DownloadRun(old(Files()), tries, placing) == DownloadRun(Files(), tries[attempt - 1..], placing)
        invariant OthersKept(path + PART, path, old(disk.files), disk.files)
        decreases Client.RETRIES + 1 - attempt
      {
        var t := tries[attempt - 1];
        if !t.nodeFound {
          return Client.Escaped;
        }
        var seen := PullOnce(t);
        assert tries[attempt - 1..][1..] == tries[attempt..];
        match seen {
          case Done =>
            var placed := Place(placing);
            return if placed then Client.Succeeded else Client.Escaped;
          case TurnedDown => return Client.RefusedByPeer;
          case Killed => return Client.Escaped;
          case Interrupted =>
            if attempt > Client.RETRIES {
              return Client.GaveUp;
            }
        }
        attempt := attempt + 1;
      }
    }
  }

  // ----------------------------------------------------------- what a download says of itself

  lemma {:induction false} CutOfNothing()
    ensures Cut([]) == []
  {
  }

  /** What is sent is the file from the offset on, or a beginning of it if the receiver disappears. */
  lemma {:induction false} SentIsTail(there: Option<bytes>, offset: nat, lost: Option<nat>)
    ensures Flatten(Sent(there, offset, lost)) <= Tail(Found(there), offset)
    ensures lost.None? ==> Flatten(Sent(there, offset, lost)) == Tail(Found(there), offset)
    ensures there.None? ==> Sent(there, offset, lost) == []
  {
    var chunks, passed := Cut(Tail(Found(there), offset)), Sent(there, offset, lost);
    assert chunks == passed + chunks[|passed|..];
    FlattenConcat(passed, chunks[|passed|..]);
    CutOfNothing();
  }

  lemma {:induction false} LastOf(reports: seq<Published>, end: seq<Published>)
    ensures var told := [Begun] + reports + end;
            && told != [] && told[0] == Begun
            && (|end| == 1 ==> told[|told| - 1] == end[0])
            && (reports == [] && end == [] ==> told == [Begun])
  {
  }

  lemma {:induction false} NoReports(offset: nat)
    ensures AllProgressed(Reports(offset + PROGRESS_EVERY, offset, Sizes([]))) == []
  {
    assert Sizes([]) == [];
  }

  /**
   How a download ends, for everybody who listens: as completed, with the size announced, if the receiver stayed; as
   cut off, at the byte it got to, if it disappeared; and not at all if the file was gone when it was opened.
   */
  lemma {:induction false} StoryEnds(there: Option<bytes>, size: nat, offset: nat, lost: Option<nat>)
    ensures var (told, sent) := (DownloadStory(there, size, offset, lost), Flatten(Sent(there, offset, lost)));
            && told != [] && told[0] == Begun
            && (there.None? ==> told == [Begun])
            && (there.Some? && lost.None? ==> told[|told| - 1] == Finished(size))
            && (there.Some? && lost.Some? ==> told[|told| - 1] == CutOff(offset + |sent|))
  {
    var chunks := Sent(there, offset, lost);
    SentIsTail(there, offset, lost);
    NoReports(offset);
    LastOf(AllProgressed(Reports(offset + PROGRESS_EVERY, offset, Sizes(chunks))),
           if there.None? then [] else if lost.Some? then [CutOff(offset + |Flatten(chunks)|)] else [Finished(size)]);
  }
}
