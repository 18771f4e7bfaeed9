/**
 Permission is checked before the file lock is taken, as the offset is. What a promoter may still do when its turn
 comes, over every interleaving of checks, sections and changes to the rules.
 */
module UploadRights {
  import opened Bytes
  import opened Receive
  import opened Upload
  import opened UploadRuns
  import opened Policy
  import opened PolicyHistory

  /** A request that has passed both checks; `asked` is how many changes to the rules had been made by then. */
  datatype Request = Request(user: string, a: Attempt, asked: nat)

  /** One name: its files, all changes made to the rules so far, and the requests that wait for the lock. */
  datatype Desk = Desk(ledger: Ledger, log: seq<Op>, waiting: seq<Request>)

  datatype Act = Ask(user: string, a: Attempt) | Enter(i: nat) | Change(op: Op)

  function Do(d: Desk, act: Act, name: string): (r: Desk) {
    match act
    case Ask(user, a) =>
      if !CanWrite(Fold(d.log), user, name) || a.offset > SizeOf(d.ledger.slot.part) then d
      else d.(waiting := d.waiting + [Request(user, a, |d.log|)])
    case Enter(i) =>
      if i >= |d.waiting| then d
      else
        var r := d.waiting[i];
        Desk(Entered(d.ledger, r.a),
             if EnteredSlot(d.ledger.slot, r.a).2 then d.log + [Claim(r.user, name)] else d.log,
             d.waiting[..i] + d.waiting[i + 1..])
    case Change(op) => d.(log := d.log + [op])
  }

  function DoAll(d: Desk, acts: seq<Act>, name: string): (r: Desk)
    decreases |acts|
  {
    if acts == [] then d else DoAll(Do(d, acts[0], name), acts[1..], name)
  }

  ghost predicate Admitted(r: Request, log: seq<Op>, name: string) {
    r.asked <= |log| && CanWrite(Fold(log[..r.asked]), r.user, name)
  }

  ghost predicate AllAdmitted(d: Desk, name: string) {
    forall r | r in d.waiting :: Admitted(r, d.log, name)
  }

  lemma {:induction false} AdmittedLasts(r: Request, log: seq<Op>, op: Op, name: string)
    requires Admitted(r, log, name)
    ensures Admitted(r, log + [op], name)
  {
    assert (log + [op])[..r.asked] == log[..r.asked];
  }

  lemma {:induction false} DoAdmitted(d: Desk, act: Act, name: string)
    requires AllAdmitted(d, name)
    ensures AllAdmitted(Do(d, act, name), name)
  {
    var next := Do(d, act, name);
    assert d.log[..|d.log|] == d.log;
    forall r | r in next.waiting ensures Admitted(r, next.log, name) {
      if r in d.waiting && next.log != d.log {
        AdmittedLasts(r, d.log, next.log[|d.log|], name);
      }
    }
  }

  lemma {:induction false} DoAllAdmitted(d: Desk, acts: seq<Act>, name: string)
    requires AllAdmitted(d, name)
    ensures AllAdmitted(DoAll(d, acts, name), name)
    decreases |acts|
  {
    if acts != [] {
      DoAdmitted(d, acts[0], name);
      DoAllAdmitted(Do(d, acts[0], name), acts[1..], name);
    }
  }

  lemma {:induction false} DoGrows(d: Desk, act: Act, name: string)
    ensures d.log <= Do(d, act, name).log
  {
  }

  lemma {:induction false} DoAllGrows(d: Desk, acts: seq<Act>, name: string)
    ensures d.log <= DoAll(d, acts, name).log
    decreases |acts|
  {
    if acts != [] {
      DoGrows(d, acts[0], name);
      DoAllGrows(Do(d, acts[0], name), acts[1..], name);
    }
  }

  /**
   Exactly when the check answers for the whole wait: a user who passes it may write the name after everything that
   can happen before the section has its turn if and only if the name has a rule when the user asks.
   */
  lemma {:induction false} PromoterMayWriteIff(d: Desk, user: string, name: string)
    requires CanWrite(Fold(d.log), user, name)
    ensures (forall acts :: CanWrite(Fold(DoAll(d, acts, name).log), user, name)) <==> name in Fold(d.log)
  {
    if name in Fold(d.log) {
      forall acts ensures CanWrite(Fold(DoAll(d, acts, name).log), user, name) {
        DoAllGrows(d, acts, name);
        var later := DoAll(d, acts, name).log;
        assert later == d.log + later[|d.log|..];
        RightsLast(d.log, later[|d.log|..], user, name);
      }
    } else {
      var claim := Claim(user + "x", name);
      var acts := [Change(claim)];
      ClaimTakesRight(d.log, user, user + "x", name);
      assert acts[1..] == [];
      assert DoAll(d, acts, name) == DoAll(Do(d, acts[0], name), [], name) == Do(d, acts[0], name);
      assert DoAll(d, acts, name).log == d.log + [claim];
      assert !CanWrite(Fold(DoAll(d, acts, name).log), user, name);
    }
  }

  /** So in every run, a request that was admitted under a rule is entitled to write when its turn comes. */
  lemma {:induction false} RuledRequestsMayWrite(l: Ledger, acts: seq<Act>, name: string, i: nat)
    requires i < |DoAll(Desk(l, [], []), acts, name).waiting|
    ensures var d := DoAll(Desk(l, [], []), acts, name);
            var r := d.waiting[i];
            r.asked <= |d.log| && (name in Fold(d.log[..r.asked]) ==> CanWrite(Fold(d.log), r.user, name))
  {
    DoAllAdmitted(Desk(l, [], []), acts, name);
    var d := DoAll(Desk(l, [], []), acts, name);
    var r := d.waiting[i];
    assert Admitted(r, d.log, name);
    assert d.log == d.log[..r.asked] + d.log[r.asked..];
    if name in Fold(d.log[..r.asked]) {
      RightsLast(d.log[..r.asked], d.log[r.asked..], r.user, name);
    }
  }

  /** A whole upload that nothing disturbs. */
  function Clean(source: bytes): (a: Attempt) {
    Attempt(source, 0, true, 1, [Arrive(|source|), Deliver], Survives)
  }

  lemma {:induction false} CleanEnters(l: Ledger, source: bytes)
    requires source != []
    ensures EnteredSlot(l.slot, Clean(source)) == (Slot(None, Some(source)), Confirmed(|source|), true)
    ensures Entered(l, Clean(source)).slot == Slot(None, Some(source))
  {
    CleanAttemptCompletes(l.slot, 0, source, 1);
    assert source[0..] == source && [] + source == source;
    assert Goal(l.slot.part, 0, source) == source;
  }

  /** Two requests that ask one after the other and then have their turns in that order. */
  function Both(d: Desk, u: string, a: Attempt, v: string, b: Attempt, name: string): (r: Desk) {
    DoAll(d, [Ask(u, a), Ask(v, b), Enter(0), Enter(0)], name)
  }

  lemma {:induction false} BothUnfold(d: Desk, u: string, a: Attempt, v: string, b: Attempt, name: string)
    ensures Both(d, u, a, v, b, name)
            == Do(Do(Do(Do(d, Ask(u, a), name), Ask(v, b), name), Enter(0), name), Enter(0), name)
  {
    var a1, a2, a3 := [Ask(v, b), Enter(0), Enter(0)], [Enter(0), Enter(0)], [Enter(0)];
    var acts := [Ask(u, a), Ask(v, b), Enter(0), Enter(0)];
    assert acts[1..] == a1 && a1[1..] == a2 && a2[1..] == a3 && a3[1..] == [];
    var d1 := Do(d, Ask(u, a), name);
    var d2 := Do(d1, Ask(v, b), name);
    var d3 := Do(d2, Enter(0), name);
    assert DoAll(d, acts, name) == DoAll(d1, a1, name) == DoAll(d2, a2, name) == DoAll(d3, a3, name);
  }

  lemma {:induction false} AsksUnclaimed(d: Desk, user: string, a: Attempt, name: string)
    requires name !in Fold(d.log) && a.offset == 0
    ensures Do(d, Ask(user, a), name) == d.(waiting := d.waiting + [Request(user, a, |d.log|)])
  {
  }

  lemma {:induction false} FirstEnters(d: Desk, user: string, source: bytes, asked: nat, rest: seq<Request>,
                                       name: string)
    requires source != [] && d.waiting == [Request(user, Clean(source), asked)] + rest
    ensures var r := Do(d, Enter(0), name);
            r.ledger.slot == Slot(None, Some(source)) && r.log == d.log + [Claim(user, name)] && r.waiting == rest
  {
    CleanEnters(d.ledger, source);
    assert d.waiting[..0] + d.waiting[1..] == rest;
  }

  lemma {:induction false} FirstClaimStands(log: seq<Op>, u: string, v: string, name: string)
    requires u != v && name !in Fold(log)
    ensures var rules := Fold(log + [Claim(u, name)] + [Claim(v, name)]);
            OwnerOf(rules, name) == Some(u) && !CanWrite(rules, v, name)
  {
    FoldSnoc(log, Claim(u, name));
    FoldSnoc(log + [Claim(u, name)], Claim(v, name));
  }

  /**
   It does happen: two users upload one unclaimed name. Both pass the check, both are confirmed, the first to
   finish owns the name, and the file is the other one's, who may not write it.
   */
  lemma {:induction false} UnclaimedNameIsOverwritten(l: Ledger, name: string, u: string, v: string,
                                                      s1: bytes, s2: bytes)
    requires u != v && s1 != [] && s2 != []
    ensures var d := Both(Desk(l, [], []), u, Clean(s1), v, Clean(s2), name);
            && d.ledger.slot == Slot(None, Some(s2))
            && OwnerOf(Fold(d.log), name) == Some(u) && !CanWrite(Fold(d.log), v, name)
  {
    var d0 := Desk(l, [], []);
    BothUnfold(d0, u, Clean(s1), v, Clean(s2), name);
    AsksUnclaimed(d0, u, Clean(s1), name);
    var d1 := Do(d0, Ask(u, Clean(s1)), name);
    AsksUnclaimed(d1, v, Clean(s2), name);
    var d2 := Do(d1, Ask(v, Clean(s2)), name);
    FirstEnters(d2, u, s1, 0, [Request(v, Clean(s2), 0)], name);
    var d3 := Do(d2, Enter(0), name);
    FirstEnters(d3, v, s2, 0, [], name);
    var d4 := Do(d3, Enter(0), name);
    assert d4.log == d0.log + [Claim(u, name)] + [Claim(v, name)];
    FirstClaimStands(d0.log, u, v, name);
  }

  /** A request that has the name to itself is refused, served and followed by its claim as the handler does it. */
  lemma {:induction false} AloneIsHandled(l: Ledger, log: seq<Op>, user: string, a: Attempt, name: string)
    ensures var d := DoAll(Desk(l, log, []), [Ask(user, a), Enter(0)], name);
            if !CanWrite(Fold(log), user, name) then d == Desk(l, log, [])
            else
              && d.ledger == Next(l, a)
              && Fold(d.log) == if a.offset <= SizeOf(l.slot.part) && EnteredSlot(l.slot, a).2
                                then Apply(Fold(log), Claim(user, name)).0 else Fold(log)
  {
    var acts := [Ask(user, a), Enter(0)];
    assert acts[1..] == [Enter(0)] && acts[1..][1..] == [];
    var d0 := Desk(l, log, []);
    var d1 := Do(d0, Ask(user, a), name);
    assert DoAll(d0, acts, name) == DoAll(d1, [Enter(0)], name) == DoAll(Do(d1, Enter(0), name), [], name);
    FoldSnoc(log, Claim(user, name));
    if CanWrite(Fold(log), user, name) && a.offset <= SizeOf(l.slot.part) {
      assert d1.waiting == [Request(user, a, |log|)];
      assert d1.waiting[..0] + d1.waiting[1..] == [];
    }
  }
}
