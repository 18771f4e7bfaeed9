/** What `upload` promises its caller, over everything that can happen to its attempts. */
module UploadLoop {
  import opened Bytes
  import opened Receive
  import opened Upload
  import opened UploadRuns
  import opened Client

  /** The file a chain of resumptions builds on a part file that was there before. */
  function Joined(found: bytes, source: bytes): (r: bytes) {
    found + Tail(source, |found|)
  }

  /** The part file is what was found, extended from the source, or a fresh copy of the source's start. */
  ghost predicate Fits(part: Option<bytes>, found: bytes, source: bytes) {
    part.Some? ==> (found <= part.value <= Joined(found, source)) || part.value <= source
  }

  lemma {:induction false} ResumedGoal(part: bytes, found: bytes, source: bytes)
    requires (found <= part <= Joined(found, source)) || part <= source
    ensures part + Tail(source, |part|) == Joined(found, source) || part + Tail(source, |part|) == source
  {
    if found <= part <= Joined(found, source) {
      var whole := Joined(found, source);
      if |found| < |source| {
        assert part + Tail(source, |part|) == whole;
      }
    } else if |part| < |source| {
      assert source == source[..|part|] + source[|part|..];
    }
  }

  /** What a resumed or restarted attempt is about to complete. */
  lemma {:induction false} GoalFits(part: Option<bytes>, offset: nat, found: bytes, source: bytes)
    requires Fits(part, found, source) && (offset == 0 || offset == SizeOf(part))
    ensures var goal := Goal(part, offset, source);
            && (goal == Joined(found, source) || goal == source)
            && (forall written | Opened(part, offset) <= written <= goal :: Fits(Some(written), found, source))
  {
    if offset > 0 {
      assert Opened(part, offset) == part.value;
      ResumedGoal(part.value, found, source);
    } else {
      assert [] + source == source && Tail(source, 0) == source;
    }
  }

  /** One attempt of the loop. */
  lemma {:induction false} PushFits(slot: Slot, found: bytes, source: bytes, t: Try, permitted: bool)
    requires t.hwm > 0 && Fits(slot.part, found, source)
    ensures var entry := Push(slot, source, t, permitted);
            && Fits(entry.after.part, found, source)
            && (entry.promoted ==> entry.offset < |source| && entry.after.part.None?)
            && (entry.promoted ==> entry.after.final in {Some(Joined(found, source)), Some(source)})
            && (!entry.promoted ==> entry.after.final == slot.final || entry.after.final == None)
            && (entry.seen.Done? ==> entry.promoted && permitted)
  {
    if t.connects && permitted {
      var offset := ResumeOffset(slot, t);
      var sent := if t.firstReply.Heard? then Tail(source, offset) else [];
      ServeExtends(slot, offset, source, sent, t.hwm, t.events, t.fate);
      GoalFits(slot.part, offset, found, source);
    }
  }

  /**
   Whatever the network and the nodes do: a part file left behind is a prefix of what was found there
   extended from the source, or of the source; the complete name is what it was, absent, or one of those two
   in full; and an upload reported as successful has put one of them there.
   */
  lemma {:induction false} UploadEnds(slot: Slot, found: bytes, source: bytes, tries: seq<Try>, permitted: bool)
    requires Fits(slot.part, found, source) && forall t | t in tries :: t.hwm > 0
    ensures var (last, result, log) := UploadRun(slot, source, tries, permitted);
            && Fits(last.part, found, source)
            && last.final in {slot.final, None, Some(Joined(found, source)), Some(source)}
            && (result.Succeeded? ==> permitted && source != [] && last.part == None)
            && (result.Succeeded? ==> last.final in {Some(Joined(found, source)), Some(source)})
    decreases |tries|
  {
    if tries != [] && !tries[0].stat.Throws? && tries[0].nodeFound {
      var entry := Push(slot, source, tries[0], permitted);
      PushFits(slot, found, source, tries[0], permitted);
      if entry.seen.Cut? {
        UploadEnds(entry.after, found, source, tries[1..], permitted);
      }
    }
  }

  /** The loop itself: attempts follow on, only an interruption leads to another, and they are limited. */
  lemma {:induction false} AttemptsAreLimited(slot: Slot, source: bytes, tries: seq<Try>, permitted: bool)
    ensures var (last, result, log) := UploadRun(slot, source, tries, permitted);
            && |log| <= |tries|
            && (log != [] ==> log[0].before == slot && log[|log| - 1].after == last)
            && (forall i | 0 <= i < |log| - 1 :: log[i].seen.Cut? && log[i + 1].before == log[i].after)
            && (result.Succeeded? <==> log != [] && log[|log| - 1].seen.Done?)
            && (result.RefusedByPeer? <==> log != [] && log[|log| - 1].seen.TurnedDown?)
            && (result.GaveUp? <==> |log| == |tries| && (log == [] || log[|log| - 1].seen.Cut?))
    decreases |tries|
  {
    if tries != [] && !tries[0].stat.Throws? && tries[0].nodeFound {
      var entry := Push(slot, source, tries[0], permitted);
      if entry.seen.Cut? {
        AttemptsAreLimited(entry.after, source, tries[1..], permitted);
        var rest := UploadRun(entry.after, source, tries[1..], permitted).2;
        var log := [entry] + rest;
        assert forall i | 0 < i < |log| :: log[i] == rest[i - 1];
      }
    }
  }

  // ------------------------------------------------------------------------- conservation

  /** How many bytes an attempt added to the file beyond the offset it resumed from. */
  function Persisted(e: Entry): (r: int) {
    SizeOf(if e.promoted then e.after.final else e.after.part) - e.offset
  }

  function Total(log: seq<Entry>): (r: int) {
    if log == [] then 0 else Persisted(log[0]) + Total(log[1..])
  }

  lemma {:induction false} PushPersists(slot: Slot, source: bytes, t: Try, permitted: bool)
    requires t.hwm > 0 && t.stat.Answers?
    ensures var e := Push(slot, source, t, permitted);
            && e.offset == SizeOf(slot.part)
            && Persisted(e) >= 0
            && (e.promoted ==> e.offset + Persisted(e) == |source|)
  {
    if t.connects && permitted {
      var offset := SizeOf(slot.part);
      var sent := if t.firstReply.Heard? then Tail(source, offset) else [];
      ServeExtends(slot, offset, source, sent, t.hwm, t.events, t.fate);
    }
  }

  /** In a log: each attempt resumes where the one before stopped, and none of the first `k` promoted. */
  ghost predicate Chained(log: seq<Entry>, k: nat)
    requires k < |log|
  {
    forall i | 0 <= i < k ::
      !log[i].promoted && Persisted(log[i]) >= 0 && log[i + 1].offset == log[i].offset + Persisted(log[i])
  }

  lemma {:induction false} ChainTotals(log: seq<Entry>, k: nat)
    requires k < |log| && Chained(log, k)
    ensures log[0].offset + Total(log[..k + 1]) == log[k].offset + Persisted(log[k])
    decreases k
  {
    var e, rest := log[0], log[1..];
    assert log[..k + 1][1..] == rest[..k];
    if k == 0 {
      assert rest[..k] == [];
    } else {
      assert forall i | 0 <= i < |rest| :: rest[i] == log[i + 1];
      ChainTotals(rest, k - 1);
    }
  }

  lemma {:induction false} ChainedCons(entry: Entry, rest: seq<Entry>, k: nat)
    requires k < |rest| && Chained(rest, k)
    requires !entry.promoted && Persisted(entry) >= 0 && rest[0].offset == entry.offset + Persisted(entry)
    ensures Chained([entry] + rest, k + 1)
  {
    var log := [entry] + rest;
    forall i | 0 <= i < k + 1
      ensures !log[i].promoted && Persisted(log[i]) >= 0 && log[i + 1].offset == log[i].offset + Persisted(log[i])
    {
      if i > 0 {
        assert log[i] == rest[i - 1] && log[i + 1] == rest[i - 1 + 1];
      }
    }
  }

  lemma {:induction false} AttemptsChain(slot: Slot, source: bytes, tries: seq<Try>, permitted: bool, k: nat)
    requires forall t | t in tries :: t.hwm > 0 && t.stat.Answers?
    requires k < |UploadRun(slot, source, tries, permitted).2|
    requires forall i | 0 <= i < k :: !UploadRun(slot, source, tries, permitted).2[i].promoted
    ensures var log := UploadRun(slot, source, tries, permitted).2;
            && log[0].offset == SizeOf(slot.part)
            && Chained(log, k)
            && (log[k].promoted ==> log[k].offset + Persisted(log[k]) == |source|)
    decreases |tries|
  {
    var log := UploadRun(slot, source, tries, permitted).2;
    var entry := Push(slot, source, tries[0], permitted);
    PushPersists(slot, source, tries[0], permitted);
    if k > 0 {
      var rest := UploadRun(entry.after, source, tries[1..], permitted).2;
      assert log == [entry] + rest;
      assert !log[0].promoted;
      forall i | 0 <= i < k - 1 ensures !rest[i].promoted {
        assert rest[i] == log[i + 1];
      }
      AttemptsChain(entry.after, source, tries[1..], permitted, k - 1);
      ChainedCons(entry, rest, k - 1);
    }
  }

  /**
   As long as every STAT is answered, each attempt resumes exactly where the one before stopped, and no
   byte is written twice: up to any attempt before or at the first promotion, the first offset plus all that
   was persisted is the size reached, which is the whole source when that attempt promotes.
   */
  lemma {:induction false} BytesAreConserved(slot: Slot, source: bytes, tries: seq<Try>, permitted: bool, k: nat)
    requires forall t | t in tries :: t.hwm > 0 && t.stat.Answers?
    requires k < |UploadRun(slot, source, tries, permitted).2|
    requires forall i | 0 <= i < k :: !UploadRun(slot, source, tries, permitted).2[i].promoted
    ensures var log := UploadRun(slot, source, tries, permitted).2;
            && log[0].offset == SizeOf(slot.part)
            && (forall i | 0 <= i < k :: log[i].offset <= log[i + 1].offset == log[i].offset + Persisted(log[i]))
            && log[0].offset + Total(log[..k + 1]) == log[k].offset + Persisted(log[k])
            && (log[k].promoted ==> log[0].offset + Total(log[..k + 1]) == |source|)
  {
    AttemptsChain(slot, source, tries, permitted, k);
    ChainTotals(UploadRun(slot, source, tries, permitted).2, k);
  }

  // ---------------------------------------------------------- when it succeeds, and with what

  /** Nothing goes wrong. */
  function CleanTry(n: nat): (t: Try) {
    Try(Answers, true, true, Heard, true, 1, [Arrive(n), Deliver], Survives)
  }

  lemma {:induction false} CleanTrySucceeds(slot: Slot, source: bytes, tries: seq<Try>)
    requires SizeOf(slot.part) < |source|
    requires tries != [] && tries[0] == CleanTry(|source| - SizeOf(slot.part))
    ensures var (last, result, log) := UploadRun(slot, source, tries, true);
            result == Succeeded && last == Slot(None, Some(Joined(Found(slot.part), source)))
  {
    CleanAttemptCompletes(slot, SizeOf(slot.part), source, 1);
    if slot.part.Some? && slot.part.value != [] {
      assert Opened(slot.part, SizeOf(slot.part)) == slot.part.value;
    }
  }

  lemma {:induction false} FullPartNeverSucceeds(slot: Slot, source: bytes, tries: seq<Try>, permitted: bool)
    requires SizeOf(slot.part) >= |source|
    requires forall t | t in tries :: t.hwm > 0 && t.stat.Answers?
    ensures var (last, result, log) := UploadRun(slot, source, tries, permitted);
            !result.Succeeded? && last.final == slot.final && Found(last.part) == Found(slot.part)
    decreases |tries|
  {
    if tries != [] && tries[0].nodeFound {
      var t := tries[0];
      var entry := Push(slot, source, t, permitted);
      if t.connects && permitted {
        FullPartIsStuck(slot, source, t.firstReply.Heard?, t.hwm, t.events, t.fate);
      }
      if entry.seen.Cut? {
        FullPartNeverSucceeds(entry.after, source, tries[1..], permitted);
      }
    }
  }

  lemma {:induction false} RestartedPush(slot: Slot, source: bytes)
    requires source != []
    ensures Push(slot, source, CleanTry(|source|).(stat := HangsUp), true)
            == Entry(0, slot, Slot(None, Some(source)), true, Done)
  {
    CleanAttemptCompletes(slot, 0, source, 1);
    assert source[0..] == source && [] + source == source;
    assert Goal(slot.part, 0, source) == source;
  }

  /** A STAT that nobody answers restarts the upload at 0, whatever the part file holds. */
  lemma {:induction false} RestartSucceeds(slot: Slot, source: bytes, tries: seq<Try>)
    requires source != []
    requires tries != [] && tries[0] == CleanTry(|source|).(stat := HangsUp)
    ensures var (last, result, log) := UploadRun(slot, source, tries, true);
            result == Succeeded && last == Slot(None, Some(source)) && |log| == 1 && log[0].offset == 0
  {
    RestartedPush(slot, source);
    assert !tries[0].stat.Throws? && tries[0].nodeFound;
  }

  /** From a part file too long to be resumed, success can only come by such a restart. */
  lemma {:induction false} LongPartEnds(slot: Slot, source: bytes, tries: seq<Try>, permitted: bool)
    requires SizeOf(slot.part) >= |source| && forall t | t in tries :: t.hwm > 0
    ensures var (last, result, log) := UploadRun(slot, source, tries, permitted);
            result.Succeeded? ==> last.final == Some(source)
    decreases |tries|
  {
    if tries != [] && !tries[0].stat.Throws? && tries[0].nodeFound {
      var t := tries[0];
      var entry := Push(slot, source, t, permitted);
      if t.connects && permitted && t.stat.HangsUp? && !t.fate.DiesBeforeOpen? {
        var sent := if t.firstReply.Heard? then Tail(source, 0) else [];
        ServeExtends(slot, 0, source, sent, t.hwm, t.events, t.fate);
        assert Goal(slot.part, 0, source) == source == Joined([], source);
        if entry.seen.Cut? {
          UploadEnds(entry.after, [], source, tries[1..], permitted);
        }
      } else {
        if t.connects && permitted && t.stat.Answers? {
          FullPartIsStuck(slot, source, t.firstReply.Heard?, t.hwm, t.events, t.fate);
        }
        if entry.seen.Cut? {
          LongPartEnds(entry.after, source, tries[1..], permitted);
        }
      }
    }
  }

  ghost predicate GoodTries(tries: seq<Try>) {
    |tries| == RETRIES + 1 && forall t | t in tries :: t.hwm > 0
  }

  predicate Answered(tries: seq<Try>) {
    forall t | t in tries :: t.stat.Answers?
  }

  /**
   Exactly when an upload can succeed by resuming: the user may write, and the part file found is shorter than
   the source. An empty source, or a part file left whole by a node that died before the rename, never can.
   */
  lemma {:induction false} SuccessPossibleIff(slot: Slot, source: bytes, permitted: bool)
    ensures (exists tries :: GoodTries(tries) && Answered(tries)
                             && UploadRun(slot, source, tries, permitted).1.Succeeded?)
            <==> permitted && SizeOf(slot.part) < |source|
  {
    if permitted && SizeOf(slot.part) < |source| {
      var t := CleanTry(|source| - SizeOf(slot.part));
      var tries := [t, t, t, t];
      CleanTrySucceeds(slot, source, tries);
      assert GoodTries(tries) && Answered(tries);
    } else {
      forall tries | GoodTries(tries) && Answered(tries)
        ensures !UploadRun(slot, source, tries, permitted).1.Succeeded?
      {
        if SizeOf(slot.part) >= |source| {
          FullPartNeverSucceeds(slot, source, tries, permitted);
        } else {
          UploadEnds(slot, Found(slot.part), source, tries, permitted);
        }
      }
    }
  }

  /** With unanswered STATs counted in: the user may write, and the source is not empty. */
  lemma {:induction false} SuccessEverPossibleIff(slot: Slot, source: bytes, permitted: bool)
    ensures (exists tries :: GoodTries(tries) && UploadRun(slot, source, tries, permitted).1.Succeeded?)
            <==> permitted && source != []
  {
    if permitted && source != [] {
      var t := CleanTry(|source|).(stat := HangsUp);
      var tries := [t, t, t, t];
      RestartSucceeds(slot, source, tries);
      assert GoodTries(tries);
    } else {
      forall tries | GoodTries(tries) ensures !UploadRun(slot, source, tries, permitted).1.Succeeded? {
        UploadEnds(slot, Found(slot.part), source, tries, permitted);
      }
    }
  }

  /**
   Exactly when success means the right file: every successful upload leaves the source under the complete
   name if and only if the part file found is a prefix of the source, or is too long ever to be resumed.
   */
  lemma {:induction false} IntegrityIff(slot: Slot, source: bytes)
    ensures (forall tries :: GoodTries(tries) && UploadRun(slot, source, tries, true).1.Succeeded? ==>
               UploadRun(slot, source, tries, true).0.final == Some(source))
            <==> Found(slot.part) <= source || SizeOf(slot.part) >= |source|
  {
    var found := Found(slot.part);
    if found <= source || |found| >= |source| {
      forall tries | GoodTries(tries) && UploadRun(slot, source, tries, true).1.Succeeded?
        ensures UploadRun(slot, source, tries, true).0.final == Some(source)
      {
        if |found| >= |source| {
          LongPartEnds(slot, source, tries, true);
        } else {
          UploadEnds(slot, found, source, tries, true);
          assert found == source[..|found|];
          assert Joined(found, source) == source;
        }
      }
    } else {
      var t := CleanTry(|source| - |found|);
      var tries := [t, t, t, t];
      CleanTrySucceeds(slot, source, tries);
      assert GoodTries(tries);
      assert Joined(found, source)[..|found|] == found;
      assert UploadRun(slot, source, tries, true).0.final != Some(source);
    }
  }

  // ------------------------------------------------------------------- the old version, removed

  /** What a clean transfer leaves when its node stops between removing the old version and renaming the new one. */
  function LeftBehind(slot: Slot, offset: nat, source: bytes, hwm: nat): (r: Slot)
    requires offset < |source|
  {
    Serve(slot, offset, |source|, Wire(source[offset..]), hwm, [Arrive(|source| - offset), Deliver],
          DiesBeforeRename).0
  }

  /**
   What it costs: no later upload of a source that is no longer than the new version, the new version itself included,
   completes anything as long as its STATs are answered, however often it retries.
   */
  lemma {:induction false} RemovedForGood(slot: Slot, offset: nat, source: bytes, hwm: nat, later: bytes,
                                          tries: seq<Try>, permitted: bool)
    requires hwm > 0 && offset <= SizeOf(slot.part) && offset < |source| && |later| <= |source|
    requires GoodTries(tries) && Answered(tries)
    ensures var left := LeftBehind(slot, offset, source, hwm);
            var (last, result, log) := UploadRun(left, later, tries, permitted);
            && left.final == None && SizeOf(left.part) == |source|
            && last.final == None && !result.Succeeded?
  {
    RemovedByCleanTransfer(slot, offset, source, hwm);
    FullPartNeverSucceeds(Slot(Some(Goal(slot.part, offset, source)), None), later, tries, permitted);
  }

  /** A part file with something in it that is resumed by answered STATs only is extended, never restarted. */
  ghost predicate Grows(slot: Slot, found: bytes, source: bytes) {
    slot.part.Some? && found != [] && found <= slot.part.value <= Joined(found, source)
  }

  lemma {:induction false} PushGrows(slot: Slot, found: bytes, source: bytes, t: Try, permitted: bool)
    requires Grows(slot, found, source) && t.hwm > 0 && t.stat.Answers?
    ensures var entry := Push(slot, source, t, permitted);
            && (!entry.promoted ==> Grows(entry.after, found, source))
            && (entry.promoted ==> permitted && entry.after == Slot(None, Some(Joined(found, source))))
            && (!entry.promoted ==> entry.after.final in {slot.final, None} && !entry.seen.Done?)
  {
    if t.connects && permitted {
      var offset := SizeOf(slot.part);
      var sent := if t.firstReply.Heard? then Tail(source, offset) else [];
      ServeExtends(slot, offset, source, sent, t.hwm, t.events, t.fate);
      assert Opened(slot.part, offset) == slot.part.value;
      GrownGoal(slot.part.value, found, source);
    }
  }

  lemma {:induction false} GrownGoal(part: bytes, found: bytes, source: bytes)
    requires found <= part <= Joined(found, source)
    ensures part + Tail(source, |part|) == Joined(found, source)
  {
    if |found| < |source| {
      assert Joined(found, source)[|part|..] == source[|part|..];
    }
  }

  /** Once something has been promoted, a loop whose STATs are answered can add only its own source. */
  lemma {:induction false} AfterPromotion(slot: Slot, source: bytes, tries: seq<Try>, permitted: bool)
    requires OfSource(slot, source) && forall t | t in tries :: t.hwm > 0
    ensures UploadRun(slot, source, tries, permitted).0.final in {slot.final, None, Some(source)}
    decreases |tries|
  {
    if tries != [] && !tries[0].stat.Throws? && tries[0].nodeFound {
      var entry := Push(slot, source, tries[0], permitted);
      PushKeepsSource(slot, entry.offset, source, tries[0], permitted);
      if entry.seen.Cut? {
        AfterPromotion(entry.after, source, tries[1..], permitted);
      }
    }
  }

  lemma {:induction false} GrowsToJoined(slot: Slot, found: bytes, source: bytes, tries: seq<Try>, permitted: bool)
    requires Grows(slot, found, source) && (forall t | t in tries :: t.hwm > 0) && Answered(tries)
    ensures UploadRun(slot, source, tries, permitted).0.final
            in {slot.final, None, Some(Joined(found, source)), Some(source)}
    ensures !permitted ==> UploadRun(slot, source, tries, permitted).0.final in {slot.final, None}
    decreases |tries|
  {
    if tries != [] && tries[0].nodeFound {
      assert tries[0] in tries && forall t | t in tries[1..] :: t in tries;
      var entry := Push(slot, source, tries[0], permitted);
      PushGrows(slot, found, source, tries[0], permitted);
      if entry.seen.Cut? {
        if entry.promoted {
          AfterPromotion(entry.after, source, tries[1..], permitted);
        } else {
          GrowsToJoined(entry.after, found, source, tries[1..], permitted);
        }
      }
    }
  }

  /**
   And exactly which later uploads bring a lost version back. Some upload whose STATs are answered puts these bytes
   under the name again if and only if the user may write, its source is longer than what was left, and the bytes
   are that source, or what was left extended from it.
   */
  lemma {:induction false} VersionReturnsIff(left: Slot, version: bytes, later: bytes, permitted: bool)
    requires left.part.Some? && left.part.value != [] && left.final == None
    ensures (exists tries :: GoodTries(tries) && Answered(tries)
                             && UploadRun(left, later, tries, permitted).0.final == Some(version))
            <==> permitted && |later| > |left.part.value|
                 && (version == later || version == Joined(left.part.value, later))
  {
    var found := left.part.value;
    if permitted && |later| > |found| && version == Joined(found, later) {
      var t := CleanTry(|later| - |found|);
      var tries := [t, t, t, t];
      CleanTrySucceeds(left, later, tries);
      assert GoodTries(tries) && Answered(tries);
    } else if permitted && |later| > |found| && version == later {
      var tries := PromoteThenRestart(left, later);
      assert GoodTries(tries) && Answered(tries);
    } else {
      forall tries | GoodTries(tries) && Answered(tries)
        ensures UploadRun(left, later, tries, permitted).0.final != Some(version)
      {
        GrowsToJoined(left, found, later, tries, permitted);
        if |later| <= |found| {
          FullPartNeverSucceeds(left, later, tries, permitted);
        }
      }
    }
  }

  lemma {:induction false} PromotedUnheard(left: Slot, later: bytes)
    requires left.part.Some? && |later| > |left.part.value|
    ensures var entry := Push(left, later, CleanTry(|later| - |left.part.value|).(lastReply := false), true);
            entry.after.part == None && entry.seen.Cut?
  {
    CleanAttemptCompletes(left, |left.part.value|, later, 1);
  }

  lemma {:induction false} CutGoesOn(slot: Slot, source: bytes, t: Try, rest: seq<Try>, permitted: bool)
    requires t.stat.Answers? && t.nodeFound && Push(slot, source, t, permitted).seen.Cut?
    ensures UploadRun(slot, source, [t] + rest, permitted).0
            == UploadRun(Push(slot, source, t, permitted).after, source, rest, permitted).0
  {
    assert ([t] + rest)[0] == t && ([t] + rest)[1..] == rest;
  }

  lemma {:induction false} FreshSucceeds(slot: Slot, source: bytes, tries: seq<Try>)
    requires slot.part == None && source != [] && tries != [] && tries[0] == CleanTry(|source|)
    ensures UploadRun(slot, source, tries, true).0.final == Some(source)
  {
    CleanTrySucceeds(slot, source, tries);
    assert Joined([], source) == source;
  }

  /** A first attempt whose confirmation is lost, and a second one that finds no part file. */
  lemma {:induction false} PromoteThenRestart(left: Slot, later: bytes) returns (tries: seq<Try>)
    requires left.part.Some? && |later| > |left.part.value|
    ensures GoodTries(tries) && Answered(tries)
    ensures UploadRun(left, later, tries, true).0.final == Some(later)
  {
    var first := CleanTry(|later| - |left.part.value|).(lastReply := false);
    var second := CleanTry(|later|);
    var rest := [second, second, second];
    tries := [first] + rest;
    PromotedUnheard(left, later);
    CutGoesOn(left, later, first, rest, true);
    FreshSucceeds(Push(left, later, first, true).after, later, rest);
  }

  // ---------------------------------------------------------------------- among other clients

  /** The part file is a prefix of the one source everybody uploads. */
  ghost predicate OfSource(slot: Slot, source: bytes) {
    slot.part.Some? ==> slot.part.value <= source
  }

  predicate AllOfSource(attempts: seq<Attempt>, source: bytes) {
    forall a | a in attempts :: a.source == source && a.hwm > 0
  }

  lemma {:induction false} OneKeepsSource(slot: Slot, source: bytes, a: Attempt)
    requires OfSource(slot, source) && a.source == source && a.hwm > 0
    ensures OfSource(NextSlot(slot, a), source)
    ensures NextSlot(slot, a).final in {slot.final, None, Some(source)}
    ensures a.offset <= SizeOf(slot.part) && EnteredSlot(slot, a).1.Confirmed? ==>
              NextSlot(slot, a) == Slot(None, Some(source)) && source != []
  {
    NextIntact(Ledger(slot, source, slot.final), a);
  }

  lemma {:induction false} AllKeepSource(slot: Slot, source: bytes, attempts: seq<Attempt>)
    requires OfSource(slot, source) && AllOfSource(attempts, source)
    ensures OfSource(SlotAfterAll(slot, attempts), source)
    ensures SlotAfterAll(slot, attempts).final in {slot.final, None, Some(source)}
    decreases |attempts|
  {
    if attempts != [] {
      OneKeepsSource(slot, source, attempts[0]);
      AllKeepSource(NextSlot(slot, attempts[0]), source, attempts[1..]);
    }
  }

  lemma {:induction false} PushKeepsSource(slot: Slot, offset: nat, source: bytes, t: Try, permitted: bool)
    requires OfSource(slot, source) && t.hwm > 0
    ensures var entry := PushAt(slot, offset, source, t, permitted);
            && OfSource(entry.after, source)
            && entry.after.final in {slot.final, None, Some(source)}
            && (entry.seen.Done? ==> entry.after == Slot(None, Some(source)) && permitted && source != [])
  {
    OneKeepsSource(slot, source, Attempt(source, offset, t.firstReply.Heard?, t.hwm, t.events, t.fate));
  }

  ghost predicate OneSource(turns: seq<Turn>, source: bytes) {
    forall t | t in turns :: t.own.hwm > 0 && AllOfSource(t.before, source) && AllOfSource(t.between, source)
  }

  /**
   Among any other clients that upload the same source, whatever they, the network, the nodes and the rules do
   before and between this client's own requests: the complete name is what it was, absent or the source, and
   when the upload is reported as successful it is the source.
   */
  lemma {:induction false} ContestedUploadEnds(slot: Slot, source: bytes, user: string, file: string, turns: seq<Turn>)
    requires OfSource(slot, source) && OneSource(turns, source)
    ensures var (last, result, log) := ContestedRun(slot, source, user, file, turns);
            && OfSource(last, source)
            && last.final in {slot.final, None, Some(source)}
            && |log| <= |turns|
            && (result.Succeeded? ==> last == Slot(None, Some(source)) && source != [])
    decreases |turns|
  {
    if turns != [] {
      var t := turns[0];
      assert t in turns && forall u | u in turns[1..] :: u in turns;
      var asked := SlotAfterAll(slot, t.before);
      var found := SlotAfterAll(asked, t.between);
      var permitted := Permitted(t.rules, user, file);
      AllKeepSource(slot, source, t.before);
      AllKeepSource(asked, source, t.between);
      PushKeepsSource(found, ResumeOffset(asked, t.own), source, t.own, permitted);
      var entry := PushAt(found, ResumeOffset(asked, t.own), source, t.own, permitted);
      if !t.own.stat.Throws? && t.own.nodeFound && entry.seen.Cut? {
        ContestedUploadEnds(entry.after, source, user, file, turns[1..]);
      }
    }
  }

  // ---------------------------------------------------------- which attempts lead to a retry

  /** The one answer that ends a loop: a "no" that is read, or a peer that hangs up before it has answered. */
  predicate SaysNo(slot: Slot, offset: nat, t: Try, permitted: bool) {
    t.connects && (t.firstReply.PeerEnds? || (t.firstReply.Heard? && (!permitted || offset > SizeOf(slot.part))))
  }

  /** The answer that ends it well: the request is accepted, carried out, confirmed, and both replies are read. */
  predicate SaysDone(slot: Slot, offset: nat, source: bytes, t: Try, permitted: bool) {
    && t.connects && t.firstReply.Heard? && t.lastReply && permitted && offset <= SizeOf(slot.part)
    && Serve(slot, offset, |source|, Wire(Tail(source, offset)), t.hwm, t.events, t.fate).1.Confirmed?
  }

  /** How an attempt is taken; everything else, an interrupted transfer above all, leads to another one. */
  lemma {:induction false} SeenIff(slot: Slot, offset: nat, source: bytes, t: Try, permitted: bool)
    ensures var entry := PushAt(slot, offset, source, t, permitted);
            && (entry.seen.TurnedDown? <==> SaysNo(slot, offset, t, permitted))
            && (entry.seen.Done? <==> SaysDone(slot, offset, source, t, permitted))
  {
    if t.connects && permitted && offset <= SizeOf(slot.part) {
      ServeOutcomes(slot, offset, |source|, Wire(Tail(source, offset)), t.hwm, t.events, t.fate);
    }
  }

  /** One attempt: STAT after what others did before it, the request after what they did in between. */
  ghost predicate TurnFollows(slot: Slot, source: bytes, user: string, file: string, t: Turn, e: Entry) {
    && !t.own.stat.Throws? && t.own.nodeFound
    && e.before == SlotAfterAll(SlotAfterAll(slot, t.before), t.between)
    && e.offset == (if t.own.stat.Answers? then SizeOf(SlotAfterAll(slot, t.before).part) else 0)
    && (e.seen.TurnedDown? <==> SaysNo(e.before, e.offset, t.own, Permitted(t.rules, user, file)))
    && (e.seen.Done? <==> SaysDone(e.before, e.offset, source, t.own, Permitted(t.rules, user, file)))
  }

  /** What the attempt before this one left. */
  function LeftBy(slot: Slot, log: seq<Entry>, i: nat): (r: Slot)
    requires i <= |log|
  {
    if i == 0 then slot else log[i - 1].after
  }

  ghost predicate AllFollow(slot: Slot, source: bytes, user: string, file: string, turns: seq<Turn>, log: seq<Entry>) {
    && |log| <= |turns|
    && forall i | 0 <= i < |log| :: TurnFollows(LeftBy(slot, log, i), source, user, file, turns[i], log[i])
  }

  lemma {:induction false} FollowCons(slot: Slot, source: bytes, user: string, file: string, turns: seq<Turn>,
                                      entry: Entry, rest: seq<Entry>)
    requires turns != [] && TurnFollows(slot, source, user, file, turns[0], entry)
    requires AllFollow(entry.after, source, user, file, turns[1..], rest)
    ensures AllFollow(slot, source, user, file, turns, [entry] + rest)
  {
    var log := [entry] + rest;
    forall i | 0 <= i < |log| ensures TurnFollows(LeftBy(slot, log, i), source, user, file, turns[i], log[i]) {
      if i > 0 {
        assert log[i] == rest[i - 1] && turns[i] == turns[1..][i - 1];
        assert LeftBy(slot, log, i) == LeftBy(entry.after, rest, i - 1);
      }
    }
  }

  /** What the loop starts an attempt with, and what it makes of it. */
  lemma {:induction false} FirstTurnFollows(slot: Slot, source: bytes, user: string, file: string, t: Turn)
    requires !t.own.stat.Throws? && t.own.nodeFound
    ensures var asked := SlotAfterAll(slot, t.before);
            TurnFollows(slot, source, user, file, t,
                        PushAt(SlotAfterAll(asked, t.between), ResumeOffset(asked, t.own), source, t.own,
                               Permitted(t.rules, user, file)))
  {
    var asked := SlotAfterAll(slot, t.before);
    SeenIff(SlotAfterAll(asked, t.between), ResumeOffset(asked, t.own), source, t.own, Permitted(t.rules, user, file));
  }

  /** How a loop ends, by its last attempt. */
  ghost predicate EndsBy(turns: seq<Turn>, result: Result, log: seq<Entry>)
    requires |log| <= |turns|
  {
    && (forall i | 0 <= i < |log| - 1 :: log[i].seen.Cut?)
    && (result.Succeeded? <==> log != [] && log[|log| - 1].seen.Done?)
    && (result.RefusedByPeer? <==> log != [] && log[|log| - 1].seen.TurnedDown?)
    && (result.GaveUp? <==> |log| == |turns| && (log == [] || log[|log| - 1].seen.Cut?))
    && (result.Escaped? <==> (log == [] || log[|log| - 1].seen.Cut?) && |log| < |turns|
                             && (turns[|log|].own.stat.Throws? || !turns[|log|].own.nodeFound))
  }

  lemma {:induction false} EndsCons(turns: seq<Turn>, result: Result, entry: Entry, rest: seq<Entry>)
    requires turns != [] && |rest| <= |turns| - 1 && entry.seen.Cut? && EndsBy(turns[1..], result, rest)
    ensures EndsBy(turns, result, [entry] + rest)
  {
    var log := [entry] + rest;
    assert forall i | 0 < i < |log| :: log[i] == rest[i - 1];
  }

  /**
   The whole loop, attempt by attempt, among any other clients: where each one starts, what ends the loop, and that
   an exception outside an attempt escapes at once.
   */
  lemma {:induction false} LoopFollows(slot: Slot, source: bytes, user: string, file: string, turns: seq<Turn>)
    ensures var (last, result, log) := ContestedRun(slot, source, user, file, turns);
            AllFollow(slot, source, user, file, turns, log) && EndsBy(turns, result, log)
    decreases |turns|
  {
    if turns != [] && !turns[0].own.stat.Throws? && turns[0].own.nodeFound {
      var t := turns[0];
      var asked := SlotAfterAll(slot, t.before);
      var found := SlotAfterAll(asked, t.between);
      var entry := PushAt(found, ResumeOffset(asked, t.own), source, t.own, Permitted(t.rules, user, file));
      FirstTurnFollows(slot, source, user, file, t);
      if entry.seen.Cut? {
        var (last, result, rest) := ContestedRun(entry.after, source, user, file, turns[1..]);
        LoopFollows(entry.after, source, user, file, turns[1..]);
        FollowCons(slot, source, user, file, turns, entry, rest);
        EndsCons(turns, result, entry, rest);
      }
    }
  }

  /** A client is told "no" only if its last attempt was refused, or hung up on: an interrupted one is never final. */
  lemma {:induction false} RefusedIff(slot: Slot, source: bytes, user: string, file: string, turns: seq<Turn>)
    ensures var (last, result, log) := ContestedRun(slot, source, user, file, turns);
            result.RefusedByPeer?
            <==> log != [] && |log| <= |turns|
                 && var (t, e) := (turns[|log| - 1], log[|log| - 1]);
                 SaysNo(e.before, e.offset, t.own, Permitted(t.rules, user, file))
  {
    LoopFollows(slot, source, user, file, turns);
    var log := ContestedRun(slot, source, user, file, turns).2;
    if log != [] {
      var i := |log| - 1;
      assert TurnFollows(LeftBy(slot, log, i), source, user, file, turns[i], log[i]);
    }
  }

  /** For a client that has the name to itself and may write it, only a peer that hangs up can be taken for a "no". */
  lemma {:induction false} InterruptionIsRetried(slot: Slot, source: bytes, tries: seq<Try>)
    ensures var (last, result, log) := UploadRun(slot, source, tries, true);
            result.RefusedByPeer? ==>
              log != [] && |log| <= |tries| && tries[|log| - 1].connects && tries[|log| - 1].firstReply.PeerEnds?
    decreases |tries|
  {
    if tries != [] && !tries[0].stat.Throws? && tries[0].nodeFound {
      var entry := Push(slot, source, tries[0], true);
      if entry.seen.Cut? {
        InterruptionIsRetried(entry.after, source, tries[1..]);
      }
    }
  }

  /**
   And the retry makes good what was interrupted: whatever cut the first attempt off, if what it left is shorter
   than the source, one undisturbed attempt for the missing bytes completes what was there.
   */
  lemma {:induction false} RetryCompletes(slot: Slot, source: bytes, t: Try, rest: seq<Try>)
    requires !t.stat.Throws? && t.nodeFound && Push(slot, source, t, true).seen.Cut?
    requires SizeOf(Push(slot, source, t, true).after.part) < |source|
    ensures var left := Push(slot, source, t, true).after;
            var again := CleanTry(|source| - SizeOf(left.part));
            var (last, result, log) := UploadRun(slot, source, [t, again] + rest, true);
            && result == Succeeded && |log| == 2
            && last == Slot(None, Some(Joined(Found(left.part), source)))
  {
    var left := Push(slot, source, t, true).after;
    var again := CleanTry(|source| - SizeOf(left.part));
    var tries := [t, again] + rest;
    assert tries[0] == t && tries[1..] == [again] + rest;
    assert ([again] + rest)[0] == again;
    CleanTrySucceeds(left, source, tries[1..]);
    CleanTryLogsOne(left, source, tries[1..]);
  }

  lemma {:induction false} CleanTryLogsOne(slot: Slot, source: bytes, tries: seq<Try>)
    requires SizeOf(slot.part) < |source|
    requires tries != [] && tries[0] == CleanTry(|source| - SizeOf(slot.part))
    ensures |UploadRun(slot, source, tries, true).2| == 1
  {
    CleanAttemptCompletes(slot, SizeOf(slot.part), source, 1);
  }

  /** The same among other clients, once they leave the name alone. */
  lemma {:induction false} ContestedRetryCompletes(slot: Slot, source: bytes, user: string, file: string,
                                                   turns: seq<Turn>)
    requires |turns| >= 2 && !turns[0].own.stat.Throws? && turns[0].own.nodeFound
    requires ContestedRun(slot, source, user, file, turns[..1]).1 == GaveUp
    requires var left := ContestedRun(slot, source, user, file, turns[..1]).0;
             && SizeOf(left.part) < |source|
             && turns[1].before == [] && turns[1].between == [] && Permitted(turns[1].rules, user, file)
             && turns[1].own == CleanTry(|source| - SizeOf(left.part))
    ensures var left := ContestedRun(slot, source, user, file, turns[..1]).0;
            var (last, result, log) := ContestedRun(slot, source, user, file, turns);
            result == Succeeded && last == Slot(None, Some(Joined(Found(left.part), source)))
  {
    var t, first := turns[0], turns[..1];
    var asked := SlotAfterAll(slot, t.before);
    var found := SlotAfterAll(asked, t.between);
    var entry := PushAt(found, ResumeOffset(asked, t.own), source, t.own, Permitted(t.rules, user, file));
    assert first[0] == t && first[1..] == [];
    assert entry.seen.Cut? && ContestedRun(slot, source, user, file, first).0 == entry.after;
    var rest := turns[1..];
    assert rest[0] == turns[1];
    var left := entry.after;
    CleanPush(left, source, turns[1].own);
    assert SlotAfterAll(left, []) == left;
  }

  lemma {:induction false} CleanPush(slot: Slot, source: bytes, t: Try)
    requires SizeOf(slot.part) < |source| && t == CleanTry(|source| - SizeOf(slot.part))
    ensures var entry := Push(slot, source, t, true);
            entry.seen.Done? && entry.after == Slot(None, Some(Joined(Found(slot.part), source)))
  {
    CleanTrySucceeds(slot, source, [t]);
    CleanAttemptCompletes(slot, SizeOf(slot.part), source, 1);
  }
}
