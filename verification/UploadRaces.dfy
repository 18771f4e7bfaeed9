/**
 Several requests for one name in flight on one node. The offset is checked before the request queues for
 the file lock, so sections of other requests can come between a check and the section it was made for.
 */
module UploadRaces {
  import opened Bytes
  import opened Streams
  import opened Receive
  import opened ReceiveProgress
  import opened Upload
  import opened UploadRuns

  /** The files of the name and the requests that have passed the check and wait for the lock. */
  datatype Race = Race(ledger: Ledger, waiting: seq<Attempt>)

  datatype Action = Check(a: Attempt) | Enter(i: nat)

  function Move(r: Race, action: Action): (s: Race) {
    match action
    case Check(a) =>
      if a.offset > SizeOf(r.ledger.slot.part) then r else r.(waiting := r.waiting + [a])
    case Enter(i) =>
      if i >= |r.waiting| then r
      else Race(Entered(r.ledger, r.waiting[i]), r.waiting[..i] + r.waiting[i + 1..])
  }

  function Moves(r: Race, actions: seq<Action>): (s: Race)
    decreases |actions|
  {
    if actions == [] then r else Moves(Move(r, actions[0]), actions[1..])
  }

  /** The request would still pass its check now, or it finds no part file at all. */
  predicate StillChecked(l: Ledger, a: Attempt) {
    l.slot.part.Some? ==> a.offset <= |l.slot.part.value|
  }

  predicate Allowed(r: Race, action: Action) {
    action.Enter? && action.i < |r.waiting| ==>
      var a := r.waiting[action.i];
      a.hwm > 0 && StillChecked(r.ledger, a) && Resumes(r.ledger, a)
  }

  predicate Guarded(r: Race, actions: seq<Action>)
    decreases |actions|
  {
    actions == [] || (Allowed(r, actions[0]) && Guarded(Move(r, actions[0]), actions[1..]))
  }

  lemma {:induction false} EnteredIntact(l: Ledger, a: Attempt)
    requires Intact(l) && a.hwm > 0 && StillChecked(l, a) && Resumes(l, a)
    ensures Intact(Entered(l, a))
  {
    if a.offset <= SizeOf(l.slot.part) {
      assert Entered(l, a) == Next(l, a);
      NextIntact(l, a);
    }
  }

  /**
   Any number of requests, checked and served in any interleaving: as long as what was checked still holds
   when the section begins, the part file and the complete file stay as intact as for one request at a time.
   */
  lemma {:induction false} RacesStayIntact(r: Race, actions: seq<Action>)
    requires Intact(r.ledger) && Guarded(r, actions)
    ensures Intact(Moves(r, actions).ledger)
    decreases |actions|
  {
    if actions != [] {
      if actions[0].Enter? && actions[0].i < |r.waiting| {
        EnteredIntact(r.ledger, r.waiting[actions[0].i]);
      }
      RacesStayIntact(Move(r, actions[0]), actions[1..]);
    }
  }

  /** The part file has shrunk below the checked offset: truncating it to that offset fills in zeros. */
  lemma {:induction false} TruncatedIsPrefixIff(part: bytes, source: bytes, offset: nat)
    requires part <= source && offset <= |source|
    ensures Truncated(part, offset) == source[..offset]
            <==> forall k | |part| <= k < offset :: source[k] == 0
  {
    var t := Truncated(part, offset);
    if offset > |part| {
      assert |t| == offset;
      assert forall k | 0 <= k < |part| :: t[k] == source[k];
      assert forall k | |part| <= k < offset :: t[k] == 0;
      if t == source[..offset] {
        assert forall k | |part| <= k < offset :: source[..offset][k] == 0;
      }
    }
  }

  /**
   Exactly what a stale check costs: a request that resumes its own source, but finds a shorter part file than
   it was admitted with, is confirmed all the same, and the file is the source only if the gap was all zeros.
   */
  lemma {:induction false} StaleCheckIff(l: Ledger, source: bytes, offset: nat, hwm: nat)
    requires l.slot.part.Some? && l.slot.part.value <= source && offset < |source| && hwm > 0
    ensures var a := Attempt(source, offset, true, hwm, [Arrive(|source| - offset), Deliver], Survives);
            var slot := Entered(l, a).slot;
            && slot.part == None && SizeOf(slot.final) == |source|
            && (slot.final == Some(source)
                <==> forall k | |l.slot.part.value| <= k < offset :: source[k] == 0)
  {
    var base := Opened(l.slot.part, offset);
    OneDeliveryCompletes(base, source[offset..], hwm);
    TruncatedIsPrefixIff(l.slot.part.value, source, offset);
    assert |base| == offset;
    assert source == source[..offset] + source[offset..];
    assert (base + source[offset..])[..offset] == base;
  }

  /** An attempt whose peer resets before sending anything leaves what it opened. */
  lemma {:induction false} EmptiedByRestart(l: Ledger, source: bytes, hwm: nat)
    requires hwm > 0
    ensures Entered(l, Attempt(source, 0, true, hwm, [Reset(true)], Survives))
            == Ledger(Slot(Some([]), l.slot.final), source, l.complete)
  {
    var s0 := Start(Wire(Tail(source, 0)), Open([], hwm), |source|);
    assert [Reset(true)][1..] == [];
    assert Run(s0, [Reset(true)]) == Run(Step(s0, Reset(true)), []);
  }

  /**
   And it happens with a single unchanged source and the lock served in order: a restart at 0 and a resume
   both pass the check, the restart empties the part file and is cut off, and the resume then completes a
   file of the right length that starts with zeros.
   */
  lemma {:induction false} RestartUnderResumeCorrupts(l: Ledger, source: bytes, n: nat, hwm: nat)
    requires 0 < n < |source| && hwm > 0 && source[0] != 0
    requires l.slot.part == Some(source[..n]) && l.source == source
    ensures var restart := Attempt(source, 0, true, hwm, [Reset(true)], Survives);
            var resume := Attempt(source, n, true, hwm, [Arrive(|source| - n), Deliver], Survives);
            var slot := Moves(Race(l, []), [Check(restart), Check(resume), Enter(0), Enter(0)]).ledger.slot;
            slot.part == None && SizeOf(slot.final) == |source| && slot.final != Some(source)
  {
    var restart := Attempt(source, 0, true, hwm, [Reset(true)], Survives);
    var resume := Attempt(source, n, true, hwm, [Arrive(|source| - n), Deliver], Survives);
    var a1, a2, a3 := [Check(resume), Enter(0), Enter(0)], [Enter(0), Enter(0)], [Enter(0)];
    var actions := [Check(restart)] + a1;
    assert actions == [Check(restart), Check(resume), Enter(0), Enter(0)];
    assert actions[1..] == a1 && a1[1..] == a2 && a2[1..] == a3 && a3[1..] == [];
    var r0 := Race(l, []);
    var r1 := Move(r0, Check(restart));
    var r2 := Move(r1, Check(resume));
    assert r2.waiting == [restart, resume];
    var r3 := Move(r2, Enter(0));
    EmptiedByRestart(l, source, hwm);
    assert r3.waiting == [resume];
    var r4 := Move(r3, Enter(0));
    assert Moves(r0, actions) == Moves(r1, a1) == Moves(r2, a2) == Moves(r3, a3) == Moves(r4, []);
    StaleCheckIff(r3.ledger, source, n, hwm);
  }

  /** A request that has the name to itself is checked and served as the handler does it in one go. */
  lemma {:induction false} AloneIsNext(l: Ledger, a: Attempt)
    ensures Moves(Race(l, []), [Check(a), Enter(0)]).ledger == Next(l, a)
  {
    var actions := [Check(a), Enter(0)];
    assert actions[1..] == [Enter(0)] && actions[1..][1..] == [];
    var r1 := Move(Race(l, []), Check(a));
    assert Moves(Race(l, []), actions) == Moves(r1, [Enter(0)]) == Moves(Move(r1, Enter(0)), []);
  }
}
