/** Permissions as a function of history alone: no rule, no bucket, only which changes were asked for. */
module PolicyHistory {
  import opened Bytes
  import opened Policy

  /** Entry `i` is the first claim of the file. */
  ghost predicate FirstClaim(log: seq<Op>, file: string, i: nat) {
    && i < |log| && log[i].Claim? && log[i].file == file
    && forall j | 0 <= j < i :: !(log[j].Claim? && log[j].file == file)
  }

  /** After claiming it in entry `i`, the claimer granted the target this permission. */
  ghost predicate SharedSince(log: seq<Op>, i: nat, file: string, target: string, permission: Permission)
    requires FirstClaim(log, file, i)
  {
    exists j :: i < j < |log| && log[j] == Share(log[i].user, file, target, permission)
  }

  /** After claiming it in entry `i`, the claimer made the file public and has not taken that back. */
  ghost predicate PublicSince(log: seq<Op>, i: nat, file: string)
    requires FirstClaim(log, file, i)
  {
    exists j :: i < j < |log| && log[j] == SetPublic(log[i].user, file, true)
             && forall k | j < k < |log| :: log[k] != SetPublic(log[i].user, file, false)
  }

  ghost predicate NoDuplicates(names: seq<string>) {
    forall i, j | 0 <= i < j < |names| :: names[i] != names[j]
  }

  ghost predicate Claimed(log: seq<Op>, file: string) {
    exists i: nat :: FirstClaim(log, file, i)
  }

  lemma {:induction false} UnclaimedHasNoRule(log: seq<Op>, file: string)
    requires forall j | 0 <= j < |log| :: !(log[j].Claim? && log[j].file == file)
    ensures file !in Fold(log)
  {
    if log != [] {
      UnclaimedHasNoRule(log[..|log| - 1], file);
    }
  }

  ghost predicate RuleIsHistory(log: seq<Op>, file: string, i: nat)
    requires FirstClaim(log, file, i)
  {
    && file in Fold(log)
    && var rule := Fold(log)[file];
    && rule.owner == log[i].user
    && (forall u :: u in rule.readers <==> SharedSince(log, i, file, u, Read))
    && (forall u :: u in rule.writers <==> SharedSince(log, i, file, u, Write))
    && (rule.isPublic <==> PublicSince(log, i, file))
    && NoDuplicates(rule.readers) && NoDuplicates(rule.writers)
  }

  lemma {:induction false} SharedSinceSnoc(front: seq<Op>, op: Op, i: nat, file: string, target: string,
                                           permission: Permission)
    requires FirstClaim(front, file, i)
    ensures FirstClaim(front + [op], file, i)
    ensures SharedSince(front + [op], i, file, target, permission)
            <==> SharedSince(front, i, file, target, permission) || op == Share(front[i].user, file, target, permission)
  {
    var log := front + [op];
    assert forall j | 0 <= j < |front| :: log[j] == front[j];
    assert log[|front|] == op;
    if op == Share(front[i].user, file, target, permission) {
      assert log[|front|] == Share(log[i].user, file, target, permission);
    }
    if SharedSince(front, i, file, target, permission) {
      var j :| i < j < |front| && front[j] == Share(front[i].user, file, target, permission);
      assert log[j] == Share(log[i].user, file, target, permission);
    }
  }

  lemma {:induction false} PublicSinceSnoc(front: seq<Op>, op: Op, i: nat, file: string)
    requires FirstClaim(front, file, i)
    ensures FirstClaim(front + [op], file, i)
    ensures PublicSince(front + [op], i, file)
            <==> op == SetPublic(front[i].user, file, true)
                 || (PublicSince(front, i, file) && op != SetPublic(front[i].user, file, false))
  {
    var log := front + [op];
    assert forall j | 0 <= j < |front| :: log[j] == front[j];
    assert log[|front|] == op;
    if op == SetPublic(front[i].user, file, true) {
      assert log[|front|] == SetPublic(log[i].user, file, true);
    } else if PublicSince(front, i, file) && op != SetPublic(front[i].user, file, false) {
      var j :| i < j < |front| && front[j] == SetPublic(front[i].user, file, true)
               && forall k | j < k < |front| :: front[k] != SetPublic(front[i].user, file, false);
      assert log[j] == SetPublic(log[i].user, file, true);
    }
  }

  /** How one more change shows in the rule, read off the history. */
  lemma {:induction false} RuleSnoc(front: seq<Op>, op: Op, file: string, i: nat)
    requires FirstClaim(front, file, i) && RuleIsHistory(front, file, i)
    ensures FirstClaim(front + [op], file, i) && RuleIsHistory(front + [op], file, i)
  {
    var log := front + [op];
    FoldSnoc(front, op);
    PublicSinceSnoc(front, op, i, file);
    forall u ensures u in Fold(log)[file].readers <==> SharedSince(log, i, file, u, Read) {
      SharedSinceSnoc(front, op, i, file, u, Read);
    }
    forall u ensures u in Fold(log)[file].writers <==> SharedSince(log, i, file, u, Write) {
      SharedSinceSnoc(front, op, i, file, u, Write);
    }
  }

  lemma {:induction false} FreshRule(front: seq<Op>, op: Op, file: string)
    requires FirstClaim(front + [op], file, |front|)
    ensures RuleIsHistory(front + [op], file, |front|)
  {
    var log := front + [op];
    assert forall j | 0 <= j < |front| :: log[j] == front[j];
    UnclaimedHasNoRule(front, file);
    FoldSnoc(front, op);
  }

  lemma {:induction false} RuleFollowsHistory(log: seq<Op>, file: string, i: nat)
    requires FirstClaim(log, file, i)
    ensures RuleIsHistory(log, file, i)
    decreases |log|
  {
    var n := |log| - 1;
    var front, op := log[..n], log[n];
    assert log == front + [op];
    if i == n {
      FreshRule(front, op, file);
    } else {
      assert FirstClaim(front, file, i);
      RuleFollowsHistory(front, file, i);
      RuleSnoc(front, op, file, i);
    }
  }

  /**
   After any log of changes, who may do what follows from the log: the first claimer owns the file for
   ever; others read it by the owner's grant or while the owner's last word was "public"; others write it
   by the owner's grant, or because nobody has claimed it.
   */
  lemma {:induction false} AccessIsHistory(log: seq<Op>, user: string, file: string)
    ensures file in Fold(log) <==> Claimed(log, file)
    ensures forall i: nat | FirstClaim(log, file, i) :: OwnerOf(Fold(log), file) == Some(log[i].user)
    ensures CanRead(Fold(log), user, file)
            <==> exists i: nat :: FirstClaim(log, file, i) &&
                   (user == log[i].user || SharedSince(log, i, file, user, Read) || PublicSince(log, i, file))
    ensures CanWrite(Fold(log), user, file)
            <==> forall i: nat | FirstClaim(log, file, i) ::
                   user == log[i].user || SharedSince(log, i, file, user, Write)
    ensures file in VisibleTo(Fold(log), user)
            <==> Claimed(log, file) && (CanRead(Fold(log), user, file) || CanWrite(Fold(log), user, file))
  {
    forall i: nat | FirstClaim(log, file, i) ensures RuleIsHistory(log, file, i) {
      RuleFollowsHistory(log, file, i);
    }
    if !Claimed(log, file) {
      NoFirstMeansNone(log, file);
      UnclaimedHasNoRule(log, file);
    }
  }

  lemma {:induction false} NoFirstMeansNone(log: seq<Op>, file: string)
    requires !Claimed(log, file)
    ensures forall j | 0 <= j < |log| :: !(log[j].Claim? && log[j].file == file)
  {
    if log != [] {
      var n := |log| - 1;
      var front := log[..n];
      if Claimed(front, file) {
        var i: nat :| FirstClaim(front, file, i);
        assert FirstClaim(log, file, i);
      }
      NoFirstMeansNone(front, file);
      assert forall j | 0 <= j < n :: log[j] == front[j];
      assert log[n].Claim? && log[n].file == file ==> FirstClaim(log, file, n);
    }
  }

  /** Rule by rule: the same owner, the same grants or more. */
  ghost predicate Grown(before: Rules, after: Rules) {
    forall f | f in before ::
      && f in after && after[f].owner == before[f].owner
      && before[f].readers <= after[f].readers && before[f].writers <= after[f].writers
  }

  lemma {:induction false} ApplyGrows(rules: Rules, op: Op)
    ensures Grown(rules, Apply(rules, op).0)
  {
    forall f | f in rules
      ensures var after := Apply(rules, op).0;
              && f in after && after[f].owner == rules[f].owner
              && rules[f].readers <= after[f].readers && rules[f].writers <= after[f].writers
    {
      if f != op.file {
        assert Apply(rules, op).0[f] == rules[f];
      }
    }
  }

  lemma {:induction false} GrownTransitive(a: Rules, b: Rules, c: Rules)
    requires Grown(a, b) && Grown(b, c)
    ensures Grown(a, c)
  {
    forall f | f in a
      ensures f in c && c[f].owner == a[f].owner && a[f].readers <= c[f].readers && a[f].writers <= c[f].writers
    {
      assert f in b;
    }
  }

  /** No later change ever takes back a rule, an owner or a grant. */
  lemma {:induction false} GrantsOnlyGrow(log: seq<Op>, more: seq<Op>)
    ensures Grown(Fold(log), Fold(log + more))
    decreases |more|
  {
    if more == [] {
      assert log + more == log;
    } else {
      var n := |more| - 1;
      GrantsOnlyGrow(log, more[..n]);
      assert log + more == (log + more[..n]) + [more[n]];
      FoldSnoc(log + more[..n], more[n]);
      ApplyGrows(Fold(log + more[..n]), more[n]);
      GrownTransitive(Fold(log), Fold(log + more[..n]), Fold(log + more));
    }
  }

  /** An owner's or writer's right, once held through a rule, is never lost. */
  lemma {:induction false} RightsLast(log: seq<Op>, more: seq<Op>, user: string, file: string)
    requires file in Fold(log) && CanWrite(Fold(log), user, file)
    ensures file in Fold(log + more) && CanWrite(Fold(log + more), user, file)
  {
    GrantsOnlyGrow(log, more);
    var before, after := Fold(log)[file], Fold(log + more)[file];
    if user in before.writers {
      var i :| 0 <= i < |before.writers| && before.writers[i] == user;
      assert after.writers[i] == user;
    }
  }

  /** The right to write a file without a rule ends with anybody else's claim. */
  lemma {:induction false} ClaimTakesRight(log: seq<Op>, user: string, other: string, file: string)
    requires file !in Fold(log) && user != other
    ensures !CanWrite(Fold(log + [Claim(other, file)]), user, file)
  {
    FoldSnoc(log, Claim(other, file));
  }

  /**
   Exactly which rights to write can be relied on for later: those held through a rule. The right that everybody
   has to a file without one can always be lost.
   */
  lemma {:induction false} RightLastsIff(log: seq<Op>, user: string, file: string)
    requires CanWrite(Fold(log), user, file)
    ensures (forall more :: CanWrite(Fold(log + more), user, file)) <==> file in Fold(log)
  {
    if file in Fold(log) {
      forall more ensures CanWrite(Fold(log + more), user, file) {
        RightsLast(log, more, user, file);
      }
    } else {
      ClaimTakesRight(log, user, user + "x", file);
    }
  }

  // --------------------------------------------------------------------------- answers and notices

  /** The actor is the one who claimed the file first. */
  ghost predicate OwnedBy(log: seq<Op>, file: string, actor: string) {
    exists i: nat :: FirstClaim(log, file, i) && log[i].user == actor
  }

  lemma {:induction false} OwnerIsHistory(log: seq<Op>, file: string, actor: string)
    ensures file in Fold(log) <==> Claimed(log, file)
    ensures OwnedBy(log, file, actor) <==> file in Fold(log) && Fold(log)[file].owner == actor
  {
    AccessIsHistory(log, actor, file);
    if Claimed(log, file) {
      var i: nat :| FirstClaim(log, file, i);
      assert OwnerOf(Fold(log), file) == Some(log[i].user);
      assert OwnedBy(log, file, log[i].user);
    }
  }

  /** What a claim is told: the first one creates the rule. */
  lemma {:induction false} ClaimAnswer(log: seq<Op>, user: string, file: string)
    ensures Apply(Fold(log), Claim(user, file)).1 == if Claimed(log, file) then AlreadyClaimed else Created
  {
    OwnerIsHistory(log, file, user);
  }

  /** What somebody who shares is told, in the order in which the requests are refused. */
  lemma {:induction false} ShareAnswer(log: seq<Op>, actor: string, file: string, target: string,
                                       permission: Permission)
    ensures Apply(Fold(log), Share(actor, file, target, permission)).1
            == if !Claimed(log, file) then NotFound
               else if !OwnedBy(log, file, actor) then NotOwner
               else if permission.Other? then BadPermission
               else Granted
  {
    OwnerIsHistory(log, file, actor);
  }

  /** What somebody who changes the visibility is told. */
  lemma {:induction false} PublicAnswer(log: seq<Op>, actor: string, file: string, value: bool)
    ensures Apply(Fold(log), SetPublic(actor, file, value)).1
            == if !Claimed(log, file) then NotFound else if !OwnedBy(log, file, actor) then NotOwner else Changed
  {
    OwnerIsHistory(log, file, actor);
  }

  /** What is announced, and about whom: a first claim, and what an owner grants or switches. Nothing else. */
  lemma {:induction false} NoticesAreHistory(log: seq<Op>, op: Op)
    ensures Noticed(op, Apply(Fold(log), op).1)
            == match op
               case Claim(user, file) => if Claimed(log, file) then [] else [OwnerSet(file, user)]
               case Share(actor, file, target, permission) =>
                 if OwnedBy(log, file, actor) && !permission.Other?
                 then [SharedWith(file, actor, target, permission)] else []
               case SetPublic(actor, file, _) =>
                 if OwnedBy(log, file, actor) then [VisibilitySet(file, actor)] else []
  {
    match op {
      case Claim(user, file) => OwnerIsHistory(log, file, user);
      case Share(actor, file, _, _) => OwnerIsHistory(log, file, actor);
      case SetPublic(actor, file, _) => OwnerIsHistory(log, file, actor);
    }
  }
}
