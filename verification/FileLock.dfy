/**
 The promise chains that serialise sections of one process: `Storage.withFileLock`, one chain per file
 name, and `PolicyStore._queue`, the same thing with a single key.
 */
module FileLock {
  import opened Bytes

  /** A section and what has become of it; `ok` is false when its promise was rejected. */
  datatype Status = Waiting | Running | Settled(ok: bool)

  /** `prev` is the section whose promise this one was chained to. */
  datatype Section = Section(key: string, prev: Option<nat>, status: Status)

  datatype Locks = Locks(chains: map<string, nat>, sections: seq<Section>)

  datatype Action = Enter(key: string) | Begin(t: nat) | Settle(t: nat, ok: bool)

  predicate CanBegin(l: Locks, t: nat) {
    && t < |l.sections|
    && l.sections[t].status.Waiting?
    && (var prev := l.sections[t].prev;
        prev.Some? ==> prev.value < |l.sections| && l.sections[prev.value].status.Settled?)
  }

  function Step(l: Locks, a: Action): (r: Locks) {
    match a
    case Enter(key) =>
      var prev := if key in l.chains then Some(l.chains[key]) else None;
      Locks(l.chains[key := |l.sections|], l.sections + [Section(key, prev, Waiting)])
    case Begin(t) =>
      if CanBegin(l, t) then l.(sections := l.sections[t := l.sections[t].(status := Running)]) else l
    case Settle(t, ok) =>
      if t < |l.sections| && l.sections[t].status.Running?
      then l.(sections := l.sections[t := l.sections[t].(status := Settled(ok))]) else l
  }

  const UNLOCKED := Locks(map[], [])

  function Run(l: Locks, actions: seq<Action>): (r: Locks)
    decreases |actions|
  {
    if actions == [] then l else Run(Step(l, actions[0]), actions[1..])
  }

  /** The `_chains` map of a Storage object and the sections hanging on it. */
  class Chains {
    var chains: map<string, nat>
    var sections: seq<Section>

    constructor ()
      ensures View() == UNLOCKED
    {
      chains, sections := map[], [];
    }

    function View(): (l: Locks)
      reads this
    {
      Locks(chains, sections)
    }

    method WithFileLock(key: string) returns (t: nat)
      modifies this
      ensures View() == Step(old(View()), Enter(key)) && t == |old(sections)|
    {
      var previous := if key in chains then Some(chains[key]) else None;
      t := |sections|;
      sections := sections + [Section(key, previous, Waiting)];
      chains := chains[key := t];
    }

    method RunNext(t: nat) returns (started: bool)
      modifies this
      ensures View() == Step(old(View()), Begin(t)) && started == CanBegin(old(View()), t)
    {
      started := CanBegin(View(), t);
      if started {
        sections := sections[t := sections[t].(status := Running)];
      }
    }

    method Done(t: nat, ok: bool)
      requires t < |sections| && sections[t].status.Running?
      modifies this
      ensures View() == Step(old(View()), Settle(t, ok))
    {
      sections := sections[t := sections[t].(status := Settled(ok))];
    }
  }

  /** `last` is the newest of the first `n` sections on this key. */
  ghost predicate IsNewest(sections: seq<Section>, key: string, n: nat, last: Option<nat>)
    requires n <= |sections|
  {
    match last
    case None => forall u | 0 <= u < n :: sections[u].key != key
    case Some(p) => p < n && sections[p].key == key && forall u | p < u < n :: sections[u].key != key
  }

  function Tail(l: Locks, key: string): (r: Option<nat>) {
    if key in l.chains then Some(l.chains[key]) else None
  }

  /** The chain of a key ends at its newest section, and each section hangs on the one before it. */
  ghost predicate Linked(l: Locks) {
    && (forall key {:trigger Tail(l, key)} :: IsNewest(l.sections, key, |l.sections|, Tail(l, key)))
    && (forall t {:trigger IsNewest(l.sections, l.sections[t].key, t, l.sections[t].prev)} |
          0 <= t < |l.sections| :: IsNewest(l.sections, l.sections[t].key, t, l.sections[t].prev))
  }

  ghost predicate InTurn(l: Locks) {
    forall t, u | 0 <= t < u < |l.sections| && l.sections[t].key == l.sections[u].key ::
      l.sections[u].status.Waiting? || l.sections[t].status.Settled?
  }

  lemma {:induction false} BeginInTurn(l: Locks, t: nat)
    requires Linked(l) && InTurn(l) && CanBegin(l, t)
    ensures InTurn(Step(l, Begin(t)))
  {
    var r := Step(l, Begin(t));
    var prev := l.sections[t].prev;
    assert IsNewest(l.sections, l.sections[t].key, t, prev);
    forall v, u | 0 <= v < u < |r.sections| && r.sections[v].key == r.sections[u].key
      ensures r.sections[u].status.Waiting? || r.sections[v].status.Settled?
    {
      assert l.sections[v].key == l.sections[u].key;
      if u == t {
        assert v <= prev.value;
        assert l.sections[prev.value].status.Settled?;
      }
    }
  }

  /** Changing what has become of sections does not change who hangs on whom. */
  lemma {:induction false} StatusKeepsLinked(l: Locks, r: Locks)
    requires Linked(l) && r.chains == l.chains && |r.sections| == |l.sections|
    requires forall t | 0 <= t < |l.sections| ::
               r.sections[t].key == l.sections[t].key && r.sections[t].prev == l.sections[t].prev
    ensures Linked(r)
  {
    forall key ensures IsNewest(r.sections, key, |r.sections|, Tail(r, key)) {
      assert IsNewest(l.sections, key, |l.sections|, Tail(l, key));
    }
    forall t | 0 <= t < |r.sections| ensures IsNewest(r.sections, r.sections[t].key, t, r.sections[t].prev) {
      assert IsNewest(l.sections, l.sections[t].key, t, l.sections[t].prev);
    }
  }

  lemma {:induction false} EnterKeepsLinked(l: Locks, key: string)
    requires Linked(l)
    ensures Linked(Step(l, Enter(key)))
  {
    var r, n := Step(l, Enter(key)), |l.sections|;
    forall k ensures IsNewest(r.sections, k, n + 1, Tail(r, k)) {
      assert IsNewest(l.sections, k, n, Tail(l, k));
    }
    forall t | 0 <= t < n + 1 ensures IsNewest(r.sections, r.sections[t].key, t, r.sections[t].prev) {
      if t < n {
        assert IsNewest(l.sections, l.sections[t].key, t, l.sections[t].prev);
      } else {
        assert IsNewest(l.sections, key, n, Tail(l, key));
      }
    }
  }

  lemma {:induction false} StepInTurn(l: Locks, a: Action)
    requires Linked(l) && InTurn(l)
    ensures Linked(Step(l, a)) && InTurn(Step(l, a))
  {
    match a {
      case Enter(key) => EnterKeepsLinked(l, key);
      case Begin(t) =>
        StatusKeepsLinked(l, Step(l, a));
        if CanBegin(l, t) {
          BeginInTurn(l, t);
        }
      case Settle(_, _) => StatusKeepsLinked(l, Step(l, a));
    }
  }

  lemma {:induction false} RunInTurn(l: Locks, actions: seq<Action>)
    requires Linked(l) && InTurn(l)
    ensures Linked(Run(l, actions)) && InTurn(Run(l, actions))
    decreases |actions|
  {
    if actions != [] {
      StepInTurn(l, actions[0]);
      RunInTurn(Step(l, actions[0]), actions[1..]);
    }
  }

  /**
   For every arrival sequence and every interleaving: two sections on one key never run together and run
   in arrival order; and a waiting section may begin exactly when all earlier sections on its own key have
   settled, whether they succeeded or failed and whatever happens on other keys.
   */
  lemma {:induction false} SectionsTakeTurns(actions: seq<Action>)
    ensures var l := Run(UNLOCKED, actions);
            && (forall t, u | 0 <= t < u < |l.sections| && l.sections[t].key == l.sections[u].key ::
                  !l.sections[u].status.Waiting? ==> l.sections[t].status.Settled?)
            && (forall t | 0 <= t < |l.sections| && l.sections[t].status.Waiting? ::
                  CanBegin(l, t) <==> forall u | 0 <= u < t && l.sections[u].key == l.sections[t].key ::
                    l.sections[u].status.Settled?)
  {
    RunInTurn(UNLOCKED, actions);
    var l := Run(UNLOCKED, actions);
    forall t | 0 <= t < |l.sections| && l.sections[t].status.Waiting?
      ensures CanBegin(l, t) <==> forall u | 0 <= u < t && l.sections[u].key == l.sections[t].key ::
                l.sections[u].status.Settled?
    {
      assert IsNewest(l.sections, l.sections[t].key, t, l.sections[t].prev);
    }
  }

  /** So nothing is ever stuck: the oldest unsettled section of a key is running or free to begin. */
  lemma {:induction false} OldestCanMove(actions: seq<Action>, t: nat)
    requires t < |Run(UNLOCKED, actions).sections| && !Run(UNLOCKED, actions).sections[t].status.Settled?
    requires var l := Run(UNLOCKED, actions);
             forall u | 0 <= u < t && l.sections[u].key == l.sections[t].key :: l.sections[u].status.Settled?
    ensures Run(UNLOCKED, actions).sections[t].status.Running? || CanBegin(Run(UNLOCKED, actions), t)
  {
    SectionsTakeTurns(actions);
  }

  // ----------------------------------------------------------------- every section has its turn

  lemma {:induction false} RunAppend(l: Locks, a: seq<Action>, b: seq<Action>)
    ensures Run(l, a + b) == Run(Run(l, a), b)
    decreases |a|
  {
    if a == [] {
      assert a + b == b;
    } else {
      assert (a + b)[0] == a[0] && (a + b)[1..] == a[1..] + b;
      RunAppend(Step(l, a[0]), a[1..], b);
    }
  }

  /** The keys that have asked for a section, in order. */
  function Arrivals(actions: seq<Action>): (r: seq<string>) {
    if actions == [] then []
    else (if actions[0].Enter? then [actions[0].key] else []) + Arrivals(actions[1..])
  }

  function KeysOf(l: Locks): (r: seq<string>) {
    seq(|l.sections|, i requires 0 <= i < |l.sections| => l.sections[i].key)
  }

  lemma {:induction false} StepKeys(l: Locks, a: Action)
    ensures KeysOf(Step(l, a)) == KeysOf(l) + (if a.Enter? then [a.key] else [])
  {
  }

  /** Nobody who asks is forgotten, and nobody gets two sections. */
  lemma {:induction false} ArrivalsAreKept(l: Locks, actions: seq<Action>)
    ensures KeysOf(Run(l, actions)) == KeysOf(l) + Arrivals(actions)
    decreases |actions|
  {
    if actions != [] {
      StepKeys(l, actions[0]);
      ArrivalsAreKept(Step(l, actions[0]), actions[1..]);
    } else {
      assert KeysOf(l) + [] == KeysOf(l);
    }
  }

  /** A section changes only by beginning when it may, and by settling, once it runs, with the result it is given. */
  lemma {:induction false} ChangesAsTold(l: Locks, a: Action, t: nat)
    requires t < |l.sections|
    ensures t < |Step(l, a).sections|
    ensures Step(l, a).sections[t].status
            == if a == Begin(t) && CanBegin(l, t) then Running
               else if a.Settle? && a.t == t && l.sections[t].status.Running? then Settled(a.ok)
               else l.sections[t].status
  {
  }

  lemma {:induction false} SettleOne(l: Locks, t: nat, ok: bool)
    requires Linked(l) && InTurn(l) && t < |l.sections| && !l.sections[t].status.Settled?
    requires forall u | 0 <= u < t :: l.sections[u].status.Settled?
    ensures var r := Step(Step(l, Begin(t)), Settle(t, ok));
            && Linked(r) && InTurn(r) && |r.sections| == |l.sections|
            && r.sections[t].status == Settled(ok)
            && forall u | 0 <= u < |l.sections| && u != t :: r.sections[u] == l.sections[u]
  {
    assert IsNewest(l.sections, l.sections[t].key, t, l.sections[t].prev);
    StepInTurn(l, Begin(t));
    StepInTurn(Step(l, Begin(t)), Settle(t, ok));
  }

  /** Whatever has happened, everything that waits can still be run to its end, with any results. */
  lemma {:induction false} SettleAll(l: Locks, n: nat, want: nat -> bool) returns (more: seq<Action>)
    requires Linked(l) && InTurn(l) && n <= |l.sections|
    ensures var r := Run(l, more);
            && Linked(r) && InTurn(r) && |r.sections| == |l.sections|
            && forall t: nat | t < |l.sections| ::
                 r.sections[t].status == if t < n && !l.sections[t].status.Settled? then Settled(want(t))
                                         else l.sections[t].status
  {
    if n == 0 {
      more := [];
    } else {
      var before := SettleAll(l, n - 1, want);
      var r := Run(l, before);
      if r.sections[n - 1].status.Settled? {
        more := before;
      } else {
        SettleOne(r, n - 1, want(n - 1));
        var two := [Begin(n - 1), Settle(n - 1, want(n - 1))];
        more := before + two;
        RunAppend(l, before, two);
        assert two[1..] == [Settle(n - 1, want(n - 1))] && two[1..][1..] == [];
        assert Run(r, two) == Run(Step(r, two[0]), two[1..]) == Step(Step(r, two[0]), two[1]);
      }
    }
  }

  /** So no arrival sequence, and no failure, ever leaves a section without its turn. */
  lemma {:induction false} EverySectionCanSettle(actions: seq<Action>, want: nat -> bool)
    ensures exists more :: var l := Run(UNLOCKED, actions + more);
              && |l.sections| == |Arrivals(actions)| == |Run(UNLOCKED, actions).sections|
              && forall t: nat | t < |l.sections| ::
                   l.sections[t].status.Settled?
                   && (!Run(UNLOCKED, actions).sections[t].status.Settled? ==>
                         l.sections[t].status == Settled(want(t)))
  {
    RunInTurn(UNLOCKED, actions);
    ArrivalsAreKept(UNLOCKED, actions);
    var l := Run(UNLOCKED, actions);
    assert |KeysOf(l)| == |l.sections|;
    var more := SettleAll(l, |l.sections|, want);
    RunAppend(UNLOCKED, actions, more);
  }
}
