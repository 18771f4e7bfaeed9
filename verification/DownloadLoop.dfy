/** What `download` promises its caller, over everything that can happen to its attempts. */
module DownloadLoop {
  import opened Bytes
  import opened Streams
  import opened Receive
  import opened ReceiveSafety
  import opened Upload
  import opened UploadRuns
  import opened UploadLoop
  import opened Download
  import Client

  // ------------------------------------------------------------------------------- any offers

  /** What fetching an offer makes of the bytes found: cut off at the announced size, unless that is reached. */
  function Fetched(found: bytes, offer: Offer): (r: bytes) {
    var joined := Joined(found, offer.content);
    joined[..Max(|found|, Min(offer.size, |joined|))]
  }

  lemma {:induction false} FetchedNothing(found: bytes, offer: Offer)
    requires offer.size <= |found|
    ensures Fetched(found, offer) == found && found <= Joined(found, offer.content)
  {
    assert Joined(found, offer.content)[..|found|] == found;
  }

  lemma {:induction false} FetchedSome(found: bytes, offer: Offer)
    requires |found| < offer.size <= |found| + |Tail(offer.content, |found|)|
    ensures Fetched(found, offer) == found + Tail(offer.content, |found|)[..offer.size - |found|]
    ensures |Fetched(found, offer)| == offer.size
  {
    var sent := Tail(offer.content, |found|);
    assert (found + sent)[..offer.size] == found + sent[..offer.size - |found|];
  }

  /** What a receive run makes of an offer that is larger than what was found. */
  lemma {:induction false} RunFollowsOffer(found: bytes, offer: Offer, hwm: nat, events: seq<Event>, fate: Fate)
    requires hwm > 0 && |found| < offer.size
    ensures var (written, whole) :=
              Closed(After(Wire(Tail(offer.content, |found|)), found, hwm, offer.size - |found|, events), fate);
            && found <= written <= Joined(found, offer.content)
            && (whole ==> written == Fetched(found, offer) && |written| == offer.size)
  {
    var sent := Tail(offer.content, |found|);
    ClosedExtends(found, sent, offer.size - |found|, hwm, events, fate);
    if offer.size - |found| <= |sent| {
      FetchedSome(found, offer);
    }
  }

  lemma {:induction false} OpenedIsFound(slot: Slot)
    ensures Opened(slot.part, SizeOf(slot.part)) == Found(slot.part) && |Found(slot.part)| == SizeOf(slot.part)
  {
  }

  /** One attempt extends the part file towards its offer, and is done only at the announced size. */
  lemma {:induction false} PullFollowsOffer(slot: Slot, t: Try)
    requires t.hwm > 0 && t.offer.Some?
    ensures var (after, seen) := Pull(slot, t);
            && after.final == slot.final
            && (after.part.Some? ==>
                  Found(slot.part) <= after.part.value <= Joined(Found(slot.part), t.offer.value.content))
            && (after.part.None? ==> slot.part.None?)
            && (seen.Done? ==> Found(after.part) == Fetched(Found(slot.part), t.offer.value))
            && (seen.Done? ==> |Found(after.part)| >= t.offer.value.size)
  {
    var found, offer := Found(slot.part), t.offer.value;
    OpenedIsFound(slot);
    if offer.size <= |found| {
      FetchedNothing(found, offer);
    } else {
      var events := if t.killed.Some? then t.events else t.events + [Reset(true)];
      RunFollowsOffer(found, offer, t.hwm, events, FateOf(t));
      assert found <= Joined(found, offer.content);
    }
  }

  // -------------------------------------------------------------- one file, served as it is

  /** Every node either refuses or makes this offer. */
  predicate Offering(tries: seq<Try>, offer: Offer) {
    forall t | t in tries :: t.hwm > 0 && (t.offer.Some? ==> t.offer == Some(offer))
  }

  /** Every node that does not refuse sends this file, and announces its size. */
  predicate Honest(tries: seq<Try>, served: bytes) {
    Offering(tries, Offer(|served|, served))
  }

  lemma {:induction false} FetchedWhole(found: bytes, served: bytes)
    ensures Fetched(found, Offer(|served|, served)) == Joined(found, served)
  {
    var joined := Joined(found, served);
    assert |joined| == Max(|found|, |served|);
    assert joined[..|joined|] == joined;
  }

  lemma {:induction false} PullExtends(slot: Slot, served: bytes, t: Try)
    requires t.hwm > 0 && t.offer == Some(Offer(|served|, served))
    ensures var (after, seen) := Pull(slot, t);
            && after.final == slot.final
            && (after.part.Some? ==> Found(slot.part) <= after.part.value <= Joined(Found(slot.part), served))
            && (after.part.None? ==> slot.part.None?)
            && (seen.Done? ==> Found(after.part) == Joined(Found(slot.part), served))
  {
    PullFollowsOffer(slot, t);
    FetchedWhole(Found(slot.part), served);
  }

  lemma {:induction false} JoinedOnwards(found: bytes, part: bytes, served: bytes)
    requires found <= part <= Joined(found, served)
    ensures Joined(part, served) == Joined(found, served)
  {
    if |found| < |served| {
      assert Joined(found, served)[|part|..] == served[|part|..];
    }
  }

  ghost predicate EndsWell(end: (Slot, Client.Result), slot: Slot, found: bytes, served: bytes, placing: Placing) {
    if end.1.Succeeded? then end.0 == Slot(None, Some(Joined(found, served))) && placing.Completes?
    else
      && found <= Found(end.0.part) <= Joined(found, served)
      && (|| end.0.final == slot.final
          || (served == [] && slot.part.None? && end.0 == Slot(None, None))
          || (placing.StopsBetween? && end.0.final == None && Found(end.0.part) == Joined(found, served)))
  }

  /** One attempt against the one file, refused or not. */
  lemma {:induction false} OnePull(slot: Slot, found: bytes, served: bytes, t: Try)
    requires t.hwm > 0 && (t.offer.Some? ==> t.offer == Some(Offer(|served|, served)))
    requires found <= Found(slot.part) <= Joined(found, served)
    ensures var (after, seen) := Pull(slot, t);
            && after.final == slot.final && (after.part.None? ==> slot.part.None?)
            && found <= Found(after.part) <= Joined(found, served)
            && (seen.Done? ==> Found(after.part) == Joined(found, served))
  {
    JoinedOnwards(found, Found(slot.part), served);
    if t.offer.Some? {
      PullExtends(slot, served, t);
    }
  }

  lemma {:induction false} PlacedEndsWell(after: Slot, slot: Slot, found: bytes, served: bytes, placing: Placing)
    requires Found(after.part) == Joined(found, served) && after.final == slot.final
    requires after.part.None? ==> slot.part.None?
    ensures EndsWell(Placed(after, placing), slot, found, served, placing)
  {
    assert found <= Joined(found, served);
    assert |Joined(found, served)| >= |served|;
  }

  lemma {:induction false} EndsWellFrom(end: (Slot, Client.Result), after: Slot, slot: Slot, found: bytes,
                                        served: bytes, placing: Placing)
    requires EndsWell(end, after, found, served, placing) && after.final == slot.final
    requires after.part.None? ==> slot.part.None?
    ensures EndsWell(end, slot, found, served, placing)
  {
  }

  /**
   Over every run of attempts, whatever interrupts them: the part file is what was found there extended
   from the served file; the target is not touched before the part file is complete, and on success it is
   exactly the completed part file. It ends worse in two ways: a download of an empty file with no part file removes
   the old target before the rename fails; and one that stops between the two leaves the complete part file alone.
   */
  lemma {:induction false} DownloadEnds(slot: Slot, found: bytes, served: bytes, tries: seq<Try>, placing: Placing)
    requires Honest(tries, served)
    requires found <= Found(slot.part) <= Joined(found, served)
    ensures EndsWell(DownloadRun(slot, tries, placing), slot, found, served, placing)
    decreases |tries|
  {
    if tries != [] && tries[0].nodeFound {
      var (after, seen) := Pull(slot, tries[0]);
      assert tries[0] in tries && forall t | t in tries[1..] :: t in tries;
      OnePull(slot, found, served, tries[0]);
      if seen.Interrupted? {
        DownloadEnds(after, found, served, tries[1..], placing);
        EndsWellFrom(DownloadRun(after, tries[1..], placing), after, slot, found, served, placing);
      } else if seen.Done? {
        PlacedEndsWell(after, slot, found, served, placing);
      }
    }
  }

  lemma {:induction false} RefusedDownload(slot: Slot, tries: seq<Try>, placing: Placing)
    requires forall t | t in tries :: t.offer.None?
    ensures var (last, result) := DownloadRun(slot, tries, placing);
            last == slot && !result.Succeeded?
    decreases |tries|
  {
    if tries != [] && tries[0].nodeFound && Pull(slot, tries[0]).1.Interrupted? {
      assert tries[0] in tries && forall t | t in tries[1..] :: t in tries;
      RefusedDownload(slot, tries[1..], placing);
    }
  }

  ghost predicate GoodTries(tries: seq<Try>, served: bytes) {
    |tries| == Client.RETRIES + 1 && Honest(tries, served)
  }

  /** Nothing goes wrong with this offer. */
  function CleanTry(offer: Offer, n: nat): (t: Try) {
    Try(true, true, Client.Heard, Some(offer), 1, [Arrive(n), Deliver], None)
  }

  /** Such an attempt fetches everything that the offer's size allows. */
  lemma {:induction false} CleanPull(slot: Slot, offer: Offer)
    requires offer.size <= Max(|offer.content|, SizeOf(slot.part))
    ensures Pull(slot, CleanTry(offer, Max(0, offer.size - SizeOf(slot.part))))
            == (if offer.size > SizeOf(slot.part) then slot.(part := Some(Fetched(Found(slot.part), offer))) else slot,
                Done)
    ensures offer.size <= SizeOf(slot.part) ==> Fetched(Found(slot.part), offer) == Found(slot.part)
  {
    var offset, found := SizeOf(slot.part), Found(slot.part);
    var t := CleanTry(offer, Max(0, offer.size - offset));
    if offer.size > offset {
      var base, sent, n := Opened(slot.part, offset), Tail(offer.content, offset), offer.size - offset;
      assert base == found;
      DeliveryCompletes(base, sent, n);
      ResetAfterwards(Start(Wire(sent), Open(base, 1), n), t.events);
      FetchedSome(found, offer);
    } else {
      FetchedNothing(found, offer);
    }
  }

  /** So the first of four places it, unless there is nothing to place or the placing stops. */
  lemma {:induction false} CleanTryPlaces(slot: Slot, offer: Offer, placing: Placing)
    requires offer.size <= Max(|offer.content|, SizeOf(slot.part))
    ensures var (last, result) := DownloadRun(slot, FourClean(slot, offer), placing);
            && (placing.StopsBetween? ==> !result.Succeeded? && last.final == None)
            && (placing.Completes? && (offer.size > 0 || slot.part.Some?) ==>
                  result.Succeeded? && last == Slot(None, Some(Fetched(Found(slot.part), offer))))
            && (placing.Completes? && offer.size == 0 && slot.part.None? ==>
                  !result.Succeeded? && last == Slot(None, None))
  {
    CleanPull(slot, offer);
    var tries := FourClean(slot, offer);
    assert tries[0] in tries;
    assert DownloadRun(slot, tries, placing) == Placed(Pull(slot, tries[0]).0, placing);
  }

  /** Delivering the promised remainder in one chunk completes it, whatever else the peer would still send. */
  lemma {:induction false} DeliveryCompletes(base: bytes, sent: bytes, n: nat)
    requires 0 < n <= |sent|
    ensures var s := After(Wire(sent), base, 1, n, [Arrive(n), Deliver]);
            s.outcome == Resolved(n) && Ended(s.sink).file == base + sent[..n]
  {
    var events := [Arrive(n), Deliver];
    var s0 := Start(Wire(sent), Open(base, 1), n);
    var s1 := Step(s0, Arrive(n));
    var chunk := sent[..n];
    assert s1.sock.queue == [chunk] && chunk[..n] == chunk;
    assert events[1..] == [Deliver] && events[1..][1..] == [];
    assert Run(s0, events) == Run(s1, [Deliver]) == Run(Step(s1, Deliver), []);
    FlattenSingle(chunk);
    EndedAppends(Step(s1, Deliver).sink);
    assert [] + [chunk] == [chunk];
  }

  /** An error on a settled transfer changes nothing. */
  lemma {:induction false} ResetAfterwards(s: Recv, events: seq<Event>)
    requires Run(s, events).outcome.Resolved?
    ensures Run(s, events + [Reset(true)]) == Run(s, events)
    decreases |events|
  {
    if events == [] {
      assert events + [Reset(true)] == [Reset(true)] && [Reset(true)][1..] == [];
    } else {
      assert (events + [Reset(true)])[1..] == events[1..] + [Reset(true)];
      ResetAfterwards(Step(s, events[0]), events[1..]);
    }
  }

  /** Four attempts with which nothing goes wrong. */
  function FourClean(slot: Slot, offer: Offer): (r: seq<Try>)
    ensures |r| == Client.RETRIES + 1
    ensures Offering(r, offer)
    ensures r[0] == CleanTry(offer, Max(0, offer.size - SizeOf(slot.part)))
  {
    var t := CleanTry(offer, Max(0, offer.size - SizeOf(slot.part)));
    [t, t, t, t]
  }

  /** Exactly when a readable file can be downloaded at all: it has bytes, or a part file is there to place. */
  lemma {:induction false} SuccessPossibleIff(slot: Slot, served: bytes)
    ensures (exists tries, placing :: GoodTries(tries, served) && DownloadRun(slot, tries, placing).1.Succeeded?)
            <==> served != [] || slot.part.Some?
  {
    var offer := Offer(|served|, served);
    if served != [] || slot.part.Some? {
      CleanTryPlaces(slot, offer, Completes);
      assert GoodTries(FourClean(slot, offer), served);
      assert DownloadRun(slot, FourClean(slot, offer), Completes).1.Succeeded?;
    } else {
      forall tries, placing | GoodTries(tries, served) ensures !DownloadRun(slot, tries, placing).1.Succeeded? {
        EmptyNeverPlaced(slot, tries, placing);
      }
    }
  }

  lemma {:induction false} EmptyNeverPlaced(slot: Slot, tries: seq<Try>, placing: Placing)
    requires slot.part.None? && Honest(tries, [])
    ensures !DownloadRun(slot, tries, placing).1.Succeeded?
    decreases |tries|
  {
    if tries != [] && tries[0].nodeFound {
      assert tries[0] in tries && forall t | t in tries[1..] :: t in tries;
      if Pull(slot, tries[0]).1.Interrupted? {
        EmptyNeverPlaced(slot, tries[1..], placing);
      }
    }
  }

  /**
   Exactly when success means the right file: every successful download leaves the served file in place if
   and only if the part file found before it is a prefix of the served file, the empty one included.
   */
  lemma {:induction false} IntegrityIff(slot: Slot, served: bytes)
    ensures (forall tries, placing :: GoodTries(tries, served) && DownloadRun(slot, tries, placing).1.Succeeded? ==>
               DownloadRun(slot, tries, placing).0.final == Some(served))
            <==> Found(slot.part) <= served
  {
    var found, offer := Found(slot.part), Offer(|served|, served);
    FetchedWhole(found, served);
    if found <= served {
      assert found == served[..|found|];
      assert Joined(found, served) == served;
      forall tries, placing | GoodTries(tries, served) && DownloadRun(slot, tries, placing).1.Succeeded?
        ensures DownloadRun(slot, tries, placing).0.final == Some(served)
      {
        DownloadEnds(slot, found, served, tries, placing);
      }
    } else {
      CleanTryPlaces(slot, offer, Completes);
      assert GoodTries(FourClean(slot, offer), served);
      assert Joined(found, served)[..|found|] == found;
      assert DownloadRun(slot, FourClean(slot, offer), Completes).0.final != Some(served);
    }
  }

  /**
   A target that was lost between the remove and the rename comes back: the next attempt that is answered finds the
   part file complete, fetches nothing, and places it. An upload cannot do that.
   */
  lemma {:induction false} LostTargetReturns(served: bytes, t: Try, rest: seq<Try>)
    requires t.nodeFound && t.connects && t.firstReply.Heard? && t.offer == Some(Offer(|served|, served))
    ensures var left := Slot(Some(served), None);
            && Pull(left, t) == (left, Done)
            && DownloadRun(left, [t] + rest, Completes) == (Slot(None, Some(served)), Client.Succeeded)
  {
    assert ([t] + rest)[0] == t;
  }

  // ------------------------------------------------------- a size that was measured too early

  /** The nodes that do not refuse announce this size before the bytes of this file. */
  ghost predicate Announcing(tries: seq<Try>, size: nat, served: bytes) {
    |tries| == Client.RETRIES + 1 && Offering(tries, Offer(size, served))
  }

  /** One attempt under an offer, refused or not. */
  lemma {:induction false} OneOffer(slot: Slot, found: bytes, size: nat, served: bytes, t: Try)
    requires t.hwm > 0 && (t.offer.Some? ==> t.offer == Some(Offer(size, served)))
    requires found <= Found(slot.part) <= Joined(found, served)
    ensures var (after, seen) := Pull(slot, t);
            && after.final == slot.final && (after.part.None? ==> slot.part.None?)
            && (after.part.Some? ==> slot.part.Some? || size > 0)
            && found <= Found(after.part) <= Joined(found, served)
            && |Found(after.part)| <= Max(|Found(slot.part)|, size)
            && (seen.Done? ==> |Found(after.part)| >= size)
  {
    JoinedOnwards(found, Found(slot.part), served);
    if t.offer.Some? {
      PullFollowsOffer(slot, t);
      PullStaysWithin(slot, t);
    }
  }

  /** What a run under one offer places, if it places anything. */
  lemma {:induction false} PlacedIsFetched(slot: Slot, found: bytes, size: nat, served: bytes,
                                           tries: seq<Try>, placing: Placing)
    requires Offering(tries, Offer(size, served))
    requires found <= Found(slot.part) <= Joined(found, served)
    ensures var (last, result) := DownloadRun(slot, tries, placing);
            result.Succeeded? ==>
              last.part == None && last.final.Some? && (slot.part.Some? || size > 0)
              && found <= last.final.value <= Joined(found, served)
              && size <= |last.final.value| <= Max(|Found(slot.part)|, size)
    decreases |tries|
  {
    if tries != [] && tries[0].nodeFound {
      assert tries[0] in tries && forall t | t in tries[1..] :: t in tries;
      OneOffer(slot, found, size, served, tries[0]);
      var (after, seen) := Pull(slot, tries[0]);
      if seen.Interrupted? {
        PlacedIsFetched(after, found, size, served, tries[1..], placing);
      }
    }
  }

  /** An attempt never takes more than was announced. */
  lemma {:induction false} PullStaysWithin(slot: Slot, t: Try)
    requires t.hwm > 0 && t.offer.Some?
    ensures var (after, seen) := Pull(slot, t);
            && |Found(after.part)| <= Max(SizeOf(slot.part), t.offer.value.size)
            && (after.part.Some? ==> slot.part.Some? || t.offer.value.size > 0)
  {
    var offset, offer := SizeOf(slot.part), t.offer.value;
    if t.connects && t.firstReply.Heard? && offer.size > offset {
      var events := if t.killed.Some? then t.events else t.events + [Reset(true)];
      ClosedWithin(Found(slot.part), Tail(offer.content, offset), offer.size - offset, t.hwm, events, FateOf(t));
      assert Opened(slot.part, offset) == Found(slot.part);
    }
  }

  /** A complete prefix of the file is the file. */
  lemma {:induction false} LongEnough(found: bytes, last: bytes, size: nat, served: bytes)
    requires found <= served && found <= last <= Joined(found, served) && size <= |last|
    requires found == served || size >= |served|
    ensures last == served
  {
    assert found == served[..|found|];
    assert Joined(found, served) == served;
  }

  lemma {:induction false} TrustedSize(slot: Slot, size: nat, served: bytes, tries: seq<Try>, placing: Placing)
    requires Found(slot.part) <= served && Announcing(tries, size, served)
    requires DownloadRun(slot, tries, placing).1.Succeeded?
    requires Found(slot.part) == served || size >= |served| || (size == 0 && slot.part.None?)
    ensures DownloadRun(slot, tries, placing).0.final == Some(served)
  {
    PlacedIsFetched(slot, Found(slot.part), size, served, tries, placing);
    LongEnough(Found(slot.part), DownloadRun(slot, tries, placing).0.final.value, size, served);
  }

  /**
   Exactly when the announced size can be trusted, for a part file that is a prefix of the file that is sent: every
   success is the whole file if and only if nothing is missing, or no less than its size is announced, or there is
   nothing to place. A size measured while the old version was removed is 0, so any part file then passes for whole.
   */
  lemma {:induction false} AnnouncedSizeIff(slot: Slot, size: nat, served: bytes)
    requires Found(slot.part) <= served
    ensures (forall tries, placing ::
               Announcing(tries, size, served) && DownloadRun(slot, tries, placing).1.Succeeded? ==>
                 DownloadRun(slot, tries, placing).0.final == Some(served))
            <==> Found(slot.part) == served || size >= |served| || (size == 0 && slot.part.None?)
  {
    var found, offer := Found(slot.part), Offer(size, served);
    assert found == served[..|found|];
    assert Joined(found, served) == served;
    if found == served || size >= |served| || (size == 0 && slot.part.None?) {
      forall tries, placing | Announcing(tries, size, served) && DownloadRun(slot, tries, placing).1.Succeeded?
        ensures DownloadRun(slot, tries, placing).0.final == Some(served)
      {
        TrustedSize(slot, size, served, tries, placing);
      }
    } else {
      CleanTryPlaces(slot, offer, Completes);
      assert Announcing(FourClean(slot, offer), size, served);
      assert |Fetched(found, offer)| < |served|;
      assert DownloadRun(slot, FourClean(slot, offer), Completes).0.final != Some(served);
    }
  }

  // ------------------------------------------------------------------------ the target, lost

  /** The announced size can be reached, so that the part file is taken for complete. */
  predicate Reachable(slot: Slot, size: nat, served: bytes) {
    size <= Max(|served|, SizeOf(slot.part))
  }

  /** The last step removes the target and puts nothing in its place. */
  predicate LosesTarget(slot: Slot, size: nat, served: bytes, placing: Placing) {
    || (placing.StopsBetween? && Reachable(slot, size, served))
    || (placing.Completes? && size == 0 && slot.part.None?)
  }

  lemma {:induction false} FailureKeepsTarget(slot: Slot, found: bytes, size: nat, served: bytes, tries: seq<Try>,
                                              placing: Placing)
    requires Offering(tries, Offer(size, served)) && found <= Found(slot.part) <= Joined(found, served)
    requires !DownloadRun(slot, tries, placing).1.Succeeded? && !LosesTarget(slot, size, served, placing)
    ensures DownloadRun(slot, tries, placing).0.final == slot.final
    decreases |tries|
  {
    if tries != [] && tries[0].nodeFound {
      assert tries[0] in tries && forall t | t in tries[1..] :: t in tries;
      OneOffer(slot, found, size, served, tries[0]);
      var (after, seen) := Pull(slot, tries[0]);
      if seen.Interrupted? {
        FailureKeepsTarget(after, found, size, served, tries[1..], placing);
      }
    }
  }

  /**
   Exactly when a failed download can cost the old target, whatever size is announced: there was one, and the client
   stops between the remove and the rename once the part file has reached that size, or the file is announced as
   empty and there is no part file. Up to the remove, no failure costs it.
   */
  lemma {:induction false} AnnouncedSizeLosesTargetIff(slot: Slot, size: nat, served: bytes, placing: Placing)
    ensures (exists tries :: Announcing(tries, size, served) && !DownloadRun(slot, tries, placing).1.Succeeded?
                             && DownloadRun(slot, tries, placing).0.final != slot.final)
            <==> slot.final.Some? && LosesTarget(slot, size, served, placing)
  {
    var offer := Offer(size, served);
    if slot.final.Some? && LosesTarget(slot, size, served, placing) {
      CleanTryPlaces(slot, offer, placing);
      assert Announcing(FourClean(slot, offer), size, served);
    } else if slot.final.Some? {
      forall tries | Announcing(tries, size, served) && !DownloadRun(slot, tries, placing).1.Succeeded?
        ensures DownloadRun(slot, tries, placing).0.final == slot.final
      {
        FailureKeepsTarget(slot, Found(slot.part), size, served, tries, placing);
      }
    } else {
      forall tries | Announcing(tries, size, served) && !DownloadRun(slot, tries, placing).1.Succeeded?
        ensures DownloadRun(slot, tries, placing).0.final == None
      {
        NoTargetStays(slot, tries, placing);
      }
    }
  }

  lemma {:induction false} NoTargetStays(slot: Slot, tries: seq<Try>, placing: Placing)
    requires slot.final == None && !DownloadRun(slot, tries, placing).1.Succeeded?
    ensures DownloadRun(slot, tries, placing).0.final == None
    decreases |tries|
  {
    if tries != [] && tries[0].nodeFound && Pull(slot, tries[0]).1.Interrupted? {
      NoTargetStays(Pull(slot, tries[0]).0, tries[1..], placing);
    }
  }

  /** For a file whose size is announced as it is. */
  lemma {:induction false} TargetLostIff(slot: Slot, served: bytes, placing: Placing)
    ensures (exists tries :: GoodTries(tries, served) && !DownloadRun(slot, tries, placing).1.Succeeded?
                             && DownloadRun(slot, tries, placing).0.final != slot.final)
            <==> slot.final.Some? && (placing.StopsBetween?
                                      || (placing.Completes? && served == [] && slot.part.None?))
  {
    AnnouncedSizeLosesTargetIff(slot, |served|, served, placing);
    assert forall tries :: GoodTries(tries, served) <==> Announcing(tries, |served|, served);
  }

  /** So every target that is there can be lost. */
  lemma {:induction false} TargetEverLostIff(slot: Slot, served: bytes)
    ensures (exists tries, placing ::
               GoodTries(tries, served) && !DownloadRun(slot, tries, placing).1.Succeeded?
               && DownloadRun(slot, tries, placing).0.final != slot.final)
            <==> slot.final.Some?
  {
    TargetLostIff(slot, served, StopsBetween);
    if slot.final.None? {
      forall tries, placing | GoodTries(tries, served) && !DownloadRun(slot, tries, placing).1.Succeeded?
        ensures DownloadRun(slot, tries, placing).0.final == slot.final
      {
        NoTargetStays(slot, tries, placing);
      }
    }
  }

  // ---------------------------------------------------------- which attempts lead to a retry

  /** How an attempt is taken; whatever is neither of these, nor the client's own death, leads to another one. */
  lemma {:induction false} SeenIff(slot: Slot, t: Try)
    ensures var (after, seen) := Pull(slot, t);
            && (seen.TurnedDown? <==> t.connects && (t.firstReply.PeerEnds? || (t.firstReply.Heard? && t.offer.None?)))
            && (seen.Done? <==> t.connects && t.firstReply.Heard? && t.offer.Some?
                                && (t.offer.value.size <= SizeOf(slot.part)
                                    || (t.killed.None? && Fetching(slot, t.offer.value, t).outcome.Resolved?)))
            && (seen.Killed? <==> t.connects && t.firstReply.Heard? && t.offer.Some?
                                  && t.offer.value.size > SizeOf(slot.part) && t.killed.Some?)
  {
    if t.connects && t.firstReply.Heard? && t.offer.Some? && t.killed.None? {
      NeverPending(Start(Wire(Tail(t.offer.value.content, SizeOf(slot.part))),
                         Open(Opened(slot.part, SizeOf(slot.part)), t.hwm), t.offer.value.size - SizeOf(slot.part)),
                   t.events);
    }
  }

  lemma {:induction false} NeverPending(s: Recv, events: seq<Event>)
    ensures !Run(s, events + [Reset(true)]).outcome.Pending?
    decreases |events|
  {
    if events == [] {
      assert events + [Reset(true)] == [Reset(true)] && [Reset(true)][1..] == [];
    } else {
      assert (events + [Reset(true)])[1..] == events[1..] + [Reset(true)];
      NeverPending(Step(s, events[0]), events[1..]);
    }
  }

  /** A download is refused only by a node that says so or hangs up, and given up only if every attempt was cut off. */
  lemma {:induction false} InterruptionIsRetried(slot: Slot, tries: seq<Try>, placing: Placing)
    ensures DownloadRun(slot, tries, placing).1.RefusedByPeer? ==>
              exists t :: t in tries && t.connects && (t.firstReply.PeerEnds? || (t.firstReply.Heard? && t.offer.None?))
    ensures DownloadRun(slot, tries, placing).1.GaveUp? ==>
              forall t | t in tries :: t.nodeFound && (t.connects && t.firstReply.Heard? ==>
                                                         t.offer.Some? && t.killed.None?)
    decreases |tries|
  {
    if tries != [] && tries[0].nodeFound {
      assert tries[0] in tries && forall t | t in tries[1..] :: t in tries;
      SeenIff(slot, tries[0]);
      if Pull(slot, tries[0]).1.Interrupted? {
        InterruptionIsRetried(Pull(slot, tries[0]).0, tries[1..], placing);
      }
    }
  }

  /** And the retry fetches what was missing: after any interruption, an undisturbed attempt completes the file. */
  lemma {:induction false} RetryCompletes(slot: Slot, served: bytes, t: Try, rest: seq<Try>)
    requires t.nodeFound && t.hwm > 0 && (t.offer.Some? ==> t.offer == Some(Offer(|served|, served)))
    requires Pull(slot, t).1.Interrupted? && (served != [] || slot.part.Some?)
    ensures var left := Pull(slot, t).0;
            var again := CleanTry(Offer(|served|, served), Max(0, |served| - SizeOf(left.part)));
            DownloadRun(slot, [t, again] + rest, Completes)
            == (Slot(None, Some(Joined(Found(slot.part), served))), Client.Succeeded)
  {
    var left, offer := Pull(slot, t).0, Offer(|served|, served);
    var again := CleanTry(offer, Max(0, |served| - SizeOf(left.part)));
    var tries := [t, again] + rest;
    assert tries[0] == t && tries[1..] == [again] + rest && tries[1..][0] == again;
    if t.offer.Some? {
      PullExtends(slot, served, t);
    } else {
      assert Found(slot.part) <= Joined(Found(slot.part), served);
    }
    JoinedOnwards(Found(slot.part), Found(left.part), served);
    FetchedWhole(Found(left.part), served);
    CleanPull(left, offer);
    assert DownloadRun(left, tries[1..], Completes) == Placed(Pull(left, again).0, Completes);
  }

  /** What an attempt that fetches leaves: all that was accepted, unless the client died with some of it in memory. */
  lemma {:induction false} PullLeaves(slot: Slot, t: Try)
    requires t.connects && t.firstReply.Heard? && t.offer.Some? && t.offer.value.size > SizeOf(slot.part)
    ensures var s := Fetching(slot, t.offer.value, t);
            Pull(slot, t).0 == slot.(part := Some(if t.killed.Some? then Torn(s.sink, t.killed.value)
                                                  else Ended(s.sink).file))
  {
    if t.killed.None? {
      NeverPending(Start(Wire(Tail(t.offer.value.content, SizeOf(slot.part))),
                         Open(Opened(slot.part, SizeOf(slot.part)), t.hwm), t.offer.value.size - SizeOf(slot.part)),
                   t.events);
    }
  }
}
