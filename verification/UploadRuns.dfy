/** What every run of upload attempts keeps, over any connections, schedules, deaths and nodes. */
module UploadRuns {
  import opened Bytes
  import opened Sockets
  import opened Streams
  import opened Receive
  import opened ReceiveSafety
  import opened ReceiveProgress
  import opened Upload

  /** What a client with this source sends after an accepted offset. */
  function Tail(source: bytes, offset: nat): (r: bytes) {
    if offset < |source| then source[offset..] else []
  }

  /** A fresh connection carrying these bytes. */
  function Wire(sent: bytes): (s: Sock) {
    Sock(sent, [], false, false)
  }

  lemma {:induction false} RunIntoNothing(sock: Sock, base: bytes, hwm: nat, total: int, events: seq<Event>)
    requires sock.queue == [] && sock.inflight == []
    ensures !After(sock, base, hwm, total, events).outcome.Resolved?
  {
    EmptyRemainderNeverResolves(Start(sock, Open(base, hwm), total), events);
  }

  /** The bytes an attempt would leave if it went through. */
  function Goal(part: Option<bytes>, offset: nat, source: bytes): (r: bytes) {
    Opened(part, offset) + Tail(source, offset)
  }

  /** Closed on either path, or torn by a death: the opened file plus a prefix of what was sent. */
  lemma {:induction false} ClosedExtends(base: bytes, sent: bytes, total: int, hwm: nat, events: seq<Event>, fate: Fate)
    requires hwm > 0
    ensures var (written, whole) := Closed(After(Wire(sent), base, hwm, total, events), fate);
            && base <= written <= base + sent
            && (whole && total > 0 ==> total <= |sent| && written == base + sent[..total])
            && (whole ==> sent != [])
  {
    var s := After(Wire(sent), base, hwm, total, events);
    var reached := if fate.DiesWriting? then fate.reached else 0;
    assert Unread(Wire(sent)) == sent;
    AttemptAppendsPrefix(Wire(sent), base, hwm, total, events, reached);
    PrefixOf(base, sent, s.received);
    PrefixOf(base, sent, Reached(s, reached));
    StartInv(Wire(sent), base, hwm, total);
    RunInv(Start(Wire(sent), Open(base, hwm), total), events, base, sent);
    RunTotal(Start(Wire(sent), Open(base, hwm), total), events);
    assert s.sink.file <= base + sent[..s.received];
    if sent == [] {
      RunIntoNothing(Wire(sent), base, hwm, total, events);
    }
  }

  /** And no more of it than was promised. */
  lemma {:induction false} ClosedWithin(base: bytes, sent: bytes, total: int, hwm: nat, events: seq<Event>, fate: Fate)
    requires hwm > 0 && total > 0
    ensures |Closed(After(Wire(sent), base, hwm, total, events), fate).0| <= |base| + total
  {
    var s := After(Wire(sent), base, hwm, total, events);
    var reached := if fate.DiesWriting? then fate.reached else 0;
    AttemptAppendsPrefix(Wire(sent), base, hwm, total, events, reached);
    StartInv(Wire(sent), base, hwm, total);
    RunInv(Start(Wire(sent), Open(base, hwm), total), events, base, sent);
  }

  lemma {:induction false} PrefixOf(base: bytes, sent: bytes, n: nat)
    requires n <= |sent|
    ensures base <= base + sent[..n] <= base + sent
  {
    assert base + sent == (base + sent[..n]) + sent[n..];
  }

  /**
   The part file after an attempt is what it was opened with plus a prefix of what was sent; it counts as
   whole only if there was something to send and all of it is there.
   */
  lemma {:induction false} ReceivedExtends(part: Option<bytes>, offset: nat, source: bytes, sent: bytes, hwm: nat,
                        events: seq<Event>, fate: Fate)
    requires hwm > 0 && offset <= SizeOf(part)
    requires sent == Tail(source, offset) || sent == []
    ensures var (written, whole) := Received(part, offset, |source|, Wire(sent), hwm, events, fate);
            && Opened(part, offset) <= written <= Goal(part, offset, source)
            && (whole ==> offset < |source| && written == Goal(part, offset, source))
  {
    ClosedExtends(Opened(part, offset), sent, |source| - offset, hwm, events, fate);
    assert sent[..|sent|] == sent;
    PrefixOf(Opened(part, offset), Tail(source, offset), |sent|);
  }

  /** The resume point an aborted upload publishes is the size of the part file it leaves. */
  lemma {:induction false} ResumePointIsPartSize(part: Option<bytes>, offset: nat, total: int, sent: bytes,
                                                 hwm: nat, events: seq<Event>)
    requires hwm > 0 && offset <= SizeOf(part)
    ensures var s := After(Wire(sent), Opened(part, offset), hwm, total - offset, events);
            s.outcome.Interrupted? ==>
              Closed(s, Survives) == (Ended(s.sink).file, false)
              && offset + s.outcome.received == |Closed(s, Survives).0|
  {
    AttemptAppendsPrefix(Wire(sent), Opened(part, offset), hwm, total - offset, events, 0);
  }

  /** While a transfer is open, its file holds what was received except for what is still in the backlog. */
  lemma {:induction false} HalfWayFile(base: bytes, sent: bytes, total: int, hwm: nat, events: seq<Event>)
    requires hwm > 0 && After(Wire(sent), base, hwm, total, events).outcome.Pending?
    ensures var s := After(Wire(sent), base, hwm, total, events);
            && 0 <= s.received <= |sent|
            && Closed(s, Survives).0 + Flatten(s.sink.buffered) == base + sent[..s.received]
            && !Closed(s, Survives).1
  {
    assert Unread(Wire(sent)) == sent;
    StartInv(Wire(sent), base, hwm, total);
    RunInv(Start(Wire(sent), Open(base, hwm), total), events, base, sent);
  }

  /** An upload publishes a resume point exactly if the client vanished while the node was receiving. */
  lemma {:induction false} CutOffPublishedIff(s: Recv, offset: int, events: seq<Event>, fate: Fate)
    ensures (exists k :: CutOff(k) in Told(s, offset, events, fate))
            <==> Run(s, events).outcome.Interrupted? && !fate.DiesWriting?
  {
    var told := Told(s, offset, events, fate);
    var ended := Run(s, events).outcome;
    if ended.Interrupted? && !fate.DiesWriting? {
      assert told[|told| - 1] == CutOff(offset + ended.received);
    }
  }

  /** And then it publishes the size of the part file that it leaves. */
  lemma {:induction false} PublishedResumePoint(part: Option<bytes>, offset: nat, total: int, sent: bytes, hwm: nat,
                                                events: seq<Event>, k: int)
    requires hwm > 0 && offset <= SizeOf(part)
    requires CutOff(k) in Told(Begin(part, offset, total, Wire(sent), hwm), offset, events, Survives)
    ensures k == |Received(part, offset, total, Wire(sent), hwm, events, Survives).0|
    ensures !Received(part, offset, total, Wire(sent), hwm, events, Survives).1
  {
    CutOffPublishedIff(Begin(part, offset, total, Wire(sent), hwm), offset, events, Survives);
    ResumePointIsPartSize(part, offset, total, sent, hwm, events);
    assert After(Wire(sent), Opened(part, offset), hwm, total - offset, events)
           == Run(Begin(part, offset, total, Wire(sent), hwm), events);
  }

  /** A completion is published exactly when the claim is made, with the size of the file then under the name. */
  lemma {:induction false} FinishedPublishedIff(slot: Slot, offset: int, total: int, sock: Sock, hwm: nat,
                                                events: seq<Event>, fate: Fate, n: nat)
    ensures var (after, report, claimed) := Serve(slot, offset, total, sock, hwm, events, fate);
            Finished(n) in Story(slot, offset, total, sock, hwm, events, fate)
            <==> claimed && after.final.Some? && n == |after.final.value|
  {
    var story := Story(slot, offset, total, sock, hwm, events, fate);
    var (after, report, claimed) := Serve(slot, offset, total, sock, hwm, events, fate);
    if claimed {
      assert story[|story| - 1] == Finished(SizeOf(after.final));
    }
  }

  /** What becomes of an upload, by what was received and where the section stops. */
  lemma {:induction false} ServeOutcomes(slot: Slot, offset: int, total: int, sock: Sock, hwm: nat,
                                         events: seq<Event>, fate: Fate)
    ensures var (written, whole) := Received(slot.part, offset, total, sock, hwm, events, fate);
            var (after, report, claimed) := Serve(slot, offset, total, sock, hwm, events, fate);
            && (fate.DiesBeforeOpen? ==> after == slot)
            && (!fate.DiesBeforeOpen? ==>
                  (after == Slot(None, Some(written))
                   <==> whole && fate in {Survives, DiesBeforeClaim, DiesBeforeReply}))
            && (claimed <==> whole && fate in {Survives, DiesBeforeReply})
            && (report.Confirmed? <==> whole && fate == Survives)
            && (report.Confirmed? ==> report == Confirmed(|written|))
  {
  }

  /**
   One accepted attempt: unless the node dies before it opens the part file, that stays a prefix of the goal; the
   complete file is untouched, gone (a death between remove and rename), or exactly the goal, and only the latter is
   ever confirmed.
   */
  lemma {:induction false} ServeExtends(slot: Slot, offset: nat, source: bytes, sent: bytes, hwm: nat,
                                        events: seq<Event>, fate: Fate)
    requires hwm > 0 && offset <= SizeOf(slot.part)
    requires sent == Tail(source, offset) || sent == []
    ensures var (after, report, claimed) := Serve(slot, offset, |source|, Wire(sent), hwm, events, fate);
            var goal := Goal(slot.part, offset, source);
            && (report == Stopped || (report == Confirmed(|goal|) && claimed))
            && (claimed ==> after.part.None?)
            && if fate.DiesBeforeOpen? then after == slot && !claimed
               else
                 && (after.part.Some? ==> Opened(slot.part, offset) <= after.part.value <= goal)
                 && (after.part.Some? ==> after.final == slot.final || (fate.DiesBeforeRename? && after.final == None))
                 && (after.part.None? ==> offset < |source| && after.final == Some(goal))
  {
    ReceivedExtends(slot.part, offset, source, sent, hwm, events, fate);
  }

  /** A goal is the source exactly when what was kept of the part file agrees with it. */
  lemma {:induction false} GoalIsSourceIff(part: Option<bytes>, offset: nat, source: bytes)
    requires offset < |source| && offset <= SizeOf(part)
    ensures Goal(part, offset, source) == source <==> Opened(part, offset) == source[..offset]
  {
    var base := Opened(part, offset);
    assert |base| == offset;
    assert source == source[..offset] + source[offset..];
    assert Goal(part, offset, source)[..offset] == base;
  }

  /** And the goal is reached: a live connection and node complete an attempt that has bytes to send. */
  lemma {:induction false} CleanAttemptCompletes(slot: Slot, offset: nat, source: bytes, hwm: nat)
    requires hwm > 0 && offset <= SizeOf(slot.part) && offset < |source|
    ensures var events := [Arrive(|source| - offset), Deliver];
            var goal := Goal(slot.part, offset, source);
            Serve(slot, offset, |source|, Wire(source[offset..]), hwm, events, Survives)
            == (Slot(None, Some(goal)), Confirmed(|goal|), true)
  {
    OneDeliveryCompletes(Opened(slot.part, offset), source[offset..], hwm);
  }

  /**
   Exactly when a request can be confirmed at all, whatever the peer sends: it sends all that it has announced, and at
   least one byte. A peer that sends a byte too many can so complete an empty file, or a part file that was whole.
   */
  lemma {:induction false} ConfirmedPossibleIff(slot: Slot, offset: int, total: int, sent: bytes, hwm: nat)
    requires hwm > 0
    ensures (exists events, fate :: Serve(slot, offset, total, Wire(sent), hwm, events, fate).1.Confirmed?)
            <==> |sent| >= Max(total - offset, 1)
  {
    var base, left := Opened(slot.part, offset), total - offset;
    CanResolveIff(Wire(sent), base, hwm, left);
    if |sent| >= Max(left, 1) {
      var events :| After(Wire(sent), base, hwm, left, events).outcome.Resolved?;
      assert Serve(slot, offset, total, Wire(sent), hwm, events, Survives).1.Confirmed?;
    } else {
      forall events, fate ensures !Serve(slot, offset, total, Wire(sent), hwm, events, fate).1.Confirmed? {
        assert !After(Wire(sent), base, hwm, left, events).outcome.Resolved?;
      }
    }
  }

  /** For instance: an upload announced as empty, followed by anything. */
  lemma {:induction false} ExtraBytesCompleteEmpty(slot: Slot, extra: bytes, hwm: nat)
    requires extra != [] && hwm > 0
    ensures Serve(slot, 0, 0, Wire(extra), hwm, [Arrive(|extra|), Deliver], Survives)
            == (Slot(None, Some([])), Confirmed(0), true)
  {
    var events := [Arrive(|extra|), Deliver];
    var s0 := Start(Wire(extra), Open([], hwm), 0);
    var s1 := Step(s0, events[0]);
    var s2 := Step(s1, Deliver);
    assert extra[..|extra|] == extra && s1.sock.queue == [extra];
    assert events[1..] == [Deliver] && events[1..][1..] == [];
    assert Run(s0, events) == Run(s1, [Deliver]) == Run(s2, []);
    assert s2.sink.buffered == [[]] && s2.outcome == Resolved(0);
    FlattenSingle([]);
    EndedAppends(s2.sink);
  }

  /** Exactly when a request takes the old version away and puts nothing in its place. */
  lemma {:induction false} RemovedIff(slot: Slot, offset: int, total: int, sock: Sock, hwm: nat,
                                      events: seq<Event>, fate: Fate)
    requires slot.final.Some?
    ensures Serve(slot, offset, total, sock, hwm, events, fate).0.final == None
            <==> fate.DiesBeforeRename? && Received(slot.part, offset, total, sock, hwm, events, fate).1
  {
  }

  /** And it happens: a clean transfer that stops there leaves a full part file and no complete file. */
  lemma {:induction false} RemovedByCleanTransfer(slot: Slot, offset: nat, source: bytes, hwm: nat)
    requires hwm > 0 && offset <= SizeOf(slot.part) && offset < |source|
    ensures Serve(slot, offset, |source|, Wire(source[offset..]), hwm, [Arrive(|source| - offset), Deliver],
                  DiesBeforeRename)
            == (Slot(Some(Goal(slot.part, offset, source)), None), Stopped, false)
    ensures |Goal(slot.part, offset, source)| == |source|
  {
    OneDeliveryCompletes(Opened(slot.part, offset), source[offset..], hwm);
  }

  // -------------------------------------------------------------------------- runs of attempts

  /** One request of one client on one name, on whichever node. */
  datatype Attempt = Attempt(source: bytes, offset: nat, hears: bool, hwm: nat, events: seq<Event>, fate: Fate)

  /** What a request that has passed its checks does to the files; resuming a part file that is gone fails. */
  function EnteredSlot(slot: Slot, a: Attempt): (r: (Slot, Report, bool)) {
    if a.offset > 0 && slot.part.None? then (slot, Stopped, false)
    else
      var sent := if a.hears then Tail(a.source, a.offset) else [];
      Serve(slot, a.offset, |a.source|, Wire(sent), a.hwm, a.events, a.fate)
  }

  /** A whole request with nothing else going on: the offset check, then the section. */
  function NextSlot(slot: Slot, a: Attempt): (r: Slot) {
    if a.offset > SizeOf(slot.part) then slot else EnteredSlot(slot, a).0
  }

  function SlotAfterAll(slot: Slot, attempts: seq<Attempt>): (r: Slot)
    decreases |attempts|
  {
    if attempts == [] then slot else SlotAfterAll(NextSlot(slot, attempts[0]), attempts[1..])
  }

  /** The files, the source the part file is being built from, and the last version to be promoted. */
  datatype Ledger = Ledger(slot: Slot, source: bytes, complete: Option<bytes>)

  /** The section an accepted request runs under the file lock. */
  function Entered(l: Ledger, a: Attempt): (r: Ledger) {
    if a.fate.DiesBeforeOpen? || (a.offset > 0 && l.slot.part.None?) then l
    else
      var after := EnteredSlot(l.slot, a).0;
      Ledger(after, a.source, if after.part.None? then Some(a.source) else l.complete)
  }

  function Next(l: Ledger, a: Attempt): (r: Ledger) {
    if a.offset > SizeOf(l.slot.part) then l else Entered(l, a)
  }

  function AfterAll(l: Ledger, attempts: seq<Attempt>): (r: Ledger)
    decreases |attempts|
  {
    if attempts == [] then l else AfterAll(Next(l, attempts[0]), attempts[1..])
  }

  lemma {:induction false} AfterAllSlot(l: Ledger, attempts: seq<Attempt>)
    ensures AfterAll(l, attempts).slot == SlotAfterAll(l.slot, attempts)
    decreases |attempts|
  {
    if attempts != [] {
      assert Next(l, attempts[0]).slot == NextSlot(l.slot, attempts[0]);
      AfterAllSlot(Next(l, attempts[0]), attempts[1..]);
    }
  }

  /** The attempt is refused, or starts afresh, or resumes with the source the part file was started with. */
  predicate Resumes(l: Ledger, a: Attempt) {
    a.offset > SizeOf(l.slot.part) || a.offset == 0 || a.source == l.source
  }

  /** The one hypothesis on a run of attempts. */
  predicate SameSource(l: Ledger, attempts: seq<Attempt>)
    decreases |attempts|
  {
    attempts == [] ||
    (attempts[0].hwm > 0 && Resumes(l, attempts[0])
     && SameSource(Next(l, attempts[0]), attempts[1..]))
  }

  ghost predicate Intact(l: Ledger) {
    && (l.slot.part.Some? ==> l.slot.part.value <= l.source)
    && (l.slot.final == l.complete || l.slot.final == None)
  }

  lemma {:induction false} GoalIsSource(l: Ledger, a: Attempt)
    requires Intact(l) && Resumes(l, a) && a.offset <= SizeOf(l.slot.part)
    ensures Goal(l.slot.part, a.offset, a.source) == a.source
  {
    assert a.offset <= |a.source| ==> a.source == a.source[..a.offset] + a.source[a.offset..];
  }

  /** One attempt among any others; what it is told is true, and it never completes an empty file. */
  lemma {:induction false} NextIntact(l: Ledger, a: Attempt)
    requires Intact(l) && a.hwm > 0 && Resumes(l, a)
    ensures Intact(Next(l, a))
    ensures !a.fate.DiesBeforeRename? && l.slot.final == l.complete ==> Next(l, a).slot.final == Next(l, a).complete
    ensures Next(l, a).complete != l.complete ==> Next(l, a).complete == Some(a.source) && a.source != []
    ensures a.offset <= SizeOf(l.slot.part) && EnteredSlot(l.slot, a).1.Confirmed? ==>
              Next(l, a).slot == Slot(None, Some(a.source)) && a.source != []
  {
    if a.offset <= SizeOf(l.slot.part) {
      var sent := if a.hears then Tail(a.source, a.offset) else [];
      ServeExtends(l.slot, a.offset, a.source, sent, a.hwm, a.events, a.fate);
      GoalIsSource(l, a);
    }
  }

  /**
   Over every run of attempts, by any number of clients that send what they announce or less, on any nodes: the part
   file is a prefix of the source it was started with, and the complete name holds the last version promoted, byte for
   byte, never an empty one. It holds nothing instead only if some node stopped between removing the old version and
   renaming the new one.
   */
  lemma {:induction false} UploadsStayIntact(l: Ledger, attempts: seq<Attempt>)
    requires Intact(l) && SameSource(l, attempts)
    ensures Intact(AfterAll(l, attempts))
    ensures var complete := AfterAll(l, attempts).complete;
            complete == l.complete || exists a :: a in attempts && complete == Some(a.source) && a.source != []
    ensures l.slot.final == l.complete && (forall a | a in attempts :: !a.fate.DiesBeforeRename?) ==>
              AfterAll(l, attempts).slot.final == AfterAll(l, attempts).complete
    decreases |attempts|
  {
    if attempts != [] {
      NextIntact(l, attempts[0]);
      UploadsStayIntact(Next(l, attempts[0]), attempts[1..]);
    }
  }

  /** And whenever an attempt is confirmed, its whole source is under the complete name at that moment. */
  lemma {:induction false} ConfirmedIsComplete(l: Ledger, attempts: seq<Attempt>, i: nat)
    requires Intact(l) && SameSource(l, attempts) && i < |attempts|
    requires attempts[i].offset <= SizeOf(AfterAll(l, attempts[..i]).slot.part)
    requires EnteredSlot(AfterAll(l, attempts[..i]).slot, attempts[i]).1.Confirmed?
    ensures AfterAll(l, attempts[..i + 1]).slot == Slot(None, Some(attempts[i].source))
    decreases |attempts|
  {
    NextIntact(l, attempts[0]);
    if i == 0 {
      assert attempts[..1][1..] == [] && attempts[..0] == [];
    } else {
      assert attempts[..i][1..] == attempts[1..][..i - 1];
      assert attempts[..i + 1][1..] == attempts[1..][..i];
      ConfirmedIsComplete(Next(l, attempts[0]), attempts[1..], i - 1);
    }
  }

  /**
   The hypothesis is needed: resuming another source's part file completes with a file that is neither.
   Only lengths are compared, so the result is the new source exactly if the kept prefixes agree.
   */
  lemma {:induction false} MixedSourcesIff(slot: Slot, source: bytes, offset: nat, hwm: nat)
    requires hwm > 0 && offset <= SizeOf(slot.part) && offset < |source|
    ensures var after := Serve(slot, offset, |source|, Wire(source[offset..]), hwm,
                               [Arrive(|source| - offset), Deliver], Survives).0;
            after.final == Some(source) <==> Opened(slot.part, offset) == source[..offset]
  {
    CleanAttemptCompletes(slot, offset, source, hwm);
    GoalIsSourceIff(slot.part, offset, source);
  }

  /**
   A part file that already has the full length is never promoted by resuming it, as long as the peer sends no more
   than it announced.
   */
  lemma {:induction false} FullPartIsStuck(slot: Slot, source: bytes, hears: bool, hwm: nat,
                                           events: seq<Event>, fate: Fate)
    requires hwm > 0 && SizeOf(slot.part) >= |source|
    ensures var sent := if hears then Tail(source, SizeOf(slot.part)) else [];
            var (after, report, claimed) :=
              Serve(slot, SizeOf(slot.part), |source|, Wire(sent), hwm, events, fate);
            && report == Stopped && !claimed
            && after == if fate.DiesBeforeOpen? then slot
                        else Slot(Some(Opened(slot.part, SizeOf(slot.part))), slot.final)
  {
    var offset := SizeOf(slot.part);
    RunIntoNothing(Wire([]), Opened(slot.part, offset), hwm, |source| - offset, events);
    ReceivedExtends(slot.part, offset, source, [], hwm, events, fate);
    var base := Opened(slot.part, offset);
    var written := Received(slot.part, offset, |source|, Wire([]), hwm, events, fate).0;
    assert Goal(slot.part, offset, source) == base;
    assert |written| == |base| && written == base;
  }
}
