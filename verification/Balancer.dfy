/** `NodeRegistry`: the balancer's view of the nodes, its choice among them, and how pings change it. */
module Balancer {
  import opened Bytes

  datatype Node = Node(alive: bool, active: nat, served: nat, pending: nat, lastSeen: int, failures: nat)

  /** A health check that was answered: the node's two counters, and the time. */
  datatype Pong = Pong(active: nat, served: nat, at: int)

  function Load(n: Node): (r: nat) {
    n.active + n.pending
  }

  /** The comparison of `pick`: fewer connections first, then fewer served. */
  predicate NotAfter(a: Node, b: Node) {
    Load(a) < Load(b) || (Load(a) == Load(b) && a.served <= b.served)
  }

  /** The node a stable sort of the healthy ones puts first. */
  ghost predicate IsChoice(nodes: seq<Node>, i: nat) {
    && i < |nodes| && nodes[i].alive
    && (forall j | 0 <= j < |nodes| && nodes[j].alive :: NotAfter(nodes[i], nodes[j]))
    && (forall j | 0 <= j < i && nodes[j].alive :: !NotAfter(nodes[j], nodes[i]))
  }

  function Choice(nodes: seq<Node>): (r: Option<nat>)
    ensures r.Some? ==> IsChoice(nodes, r.value)
    ensures r.None? ==> forall j | 0 <= j < |nodes| :: !nodes[j].alive
  {
    if nodes == [] then None
    else
      var n := |nodes| - 1;
      var front := Choice(nodes[..n]);
      if !nodes[n].alive || (front.Some? && NotAfter(nodes[front.value], nodes[n])) then front else Some(n)
  }

  function Picked(nodes: seq<Node>): (r: seq<Node>)
    ensures |r| == |nodes|
  {
    match Choice(nodes)
    case Some(i) => nodes[i := nodes[i].(pending := nodes[i].pending + 1)]
    case None => nodes
  }

  function Pinged(n: Node, pong: Option<Pong>): (r: Node) {
    match pong
    case Some(p) => Node(true, p.active, p.served, 0, p.at, 0)
    case None => Node(false, 0, 0, n.pending, n.lastSeen, n.failures + 1)
  }

  datatype Op = Pick | Ping(i: nat, pong: Option<Pong>)

  function Step(nodes: seq<Node>, op: Op): (r: seq<Node>)
    ensures |r| == |nodes|
  {
    match op
    case Pick => Picked(nodes)
    case Ping(i, pong) => if i < |nodes| then nodes[i := Pinged(nodes[i], pong)] else nodes
  }

  // ------------------------------------------------------------------------- the sort of `pick`

  predicate Indices(ids: seq<nat>, n: nat) {
    forall k | 0 <= k < |ids| :: ids[k] < n
  }

  /** `x` goes behind everything that is not after it. */
  function Insert(nodes: seq<Node>, order: seq<nat>, x: nat): (r: seq<nat>)
    requires x < |nodes| && Indices(order, |nodes|)
    ensures |r| == |order| + 1 && Indices(r, |nodes|)
    ensures r[0] == if order != [] && NotAfter(nodes[order[0]], nodes[x]) then order[0] else x
  {
    if order != [] && NotAfter(nodes[order[0]], nodes[x]) then [order[0]] + Insert(nodes, order[1..], x)
    else [x] + order
  }

  /** `healthy.sort(...)`, stable as JavaScript requires. */
  function SortedByLoad(nodes: seq<Node>, healthy: seq<nat>): (r: seq<nat>)
    requires Indices(healthy, |nodes|)
    ensures |r| == |healthy| && Indices(r, |nodes|)
  {
    if healthy == [] then []
    else
      var n := |healthy| - 1;
      Insert(nodes, SortedByLoad(nodes, healthy[..n]), healthy[n])
  }

  function Healthy(nodes: seq<Node>, n: nat): (r: seq<nat>)
    requires n <= |nodes|
    ensures Indices(r, n)
  {
    if n == 0 then []
    else if nodes[n - 1].alive then Healthy(nodes, n - 1) + [n - 1]
    else Healthy(nodes, n - 1)
  }

  lemma {:induction false} SortedHeadIsChoice(nodes: seq<Node>, n: nat)
    requires n <= |nodes|
    ensures var order := SortedByLoad(nodes, Healthy(nodes, n));
            Choice(nodes[..n]) == if order == [] then None else Some(order[0])
  {
    if n > 0 {
      SortedHeadIsChoice(nodes, n - 1);
      ChoiceOfOneMore(nodes, n - 1);
      if nodes[n - 1].alive {
        SortOfOneMore(nodes, Healthy(nodes, n - 1), n - 1);
      }
    }
  }

  lemma {:induction false} ChoiceOfOneMore(nodes: seq<Node>, n: nat)
    requires n < |nodes|
    ensures var front := Choice(nodes[..n]);
            Choice(nodes[..n + 1])
            == if !nodes[n].alive || (front.Some? && NotAfter(nodes[front.value], nodes[n])) then front else Some(n)
  {
    var more := nodes[..n + 1];
    assert more[..n] == nodes[..n] && more[n] == nodes[n];
  }

  lemma {:induction false} SortOfOneMore(nodes: seq<Node>, front: seq<nat>, x: nat)
    requires Indices(front, |nodes|) && x < |nodes|
    ensures SortedByLoad(nodes, front + [x]) == Insert(nodes, SortedByLoad(nodes, front), x)
  {
    var more := front + [x];
    assert more[..|more| - 1] == front && more[|more| - 1] == x;
  }

  lemma {:induction false} InsertPermutes(nodes: seq<Node>, order: seq<nat>, x: nat)
    requires x < |nodes| && Indices(order, |nodes|)
    ensures multiset(Insert(nodes, order, x)) == multiset(order) + multiset{x}
  {
    if order != [] && NotAfter(nodes[order[0]], nodes[x]) {
      InsertPermutes(nodes, order[1..], x);
      assert order == [order[0]] + order[1..];
    }
  }

  /** The sort neither drops nor repeats a node. */
  lemma {:induction false} SortPermutes(nodes: seq<Node>, healthy: seq<nat>)
    requires Indices(healthy, |nodes|)
    ensures multiset(SortedByLoad(nodes, healthy)) == multiset(healthy)
  {
    if healthy != [] {
      var n := |healthy| - 1;
      SortPermutes(nodes, healthy[..n]);
      InsertPermutes(nodes, SortedByLoad(nodes, healthy[..n]), healthy[n]);
      assert healthy == healthy[..n] + [healthy[n]];
    }
  }

  // ------------------------------------------------------------------------------- the registry

  class Entry {
    var alive: bool
    var active: nat
    var served: nat
    var pending: nat
    var lastSeen: int
    var failures: nat

    constructor ()
      ensures View() == Node(false, 0, 0, 0, 0, 0)
    {
      alive, active, served, pending, lastSeen, failures := false, 0, 0, 0, 0, 0;
    }

    function View(): (n: Node)
      reads this
    {
      Node(alive, active, served, pending, lastSeen, failures)
    }
  }

  class NodeRegistry {
    const state: seq<Entry>

    ghost predicate Valid() {
      forall i, j | 0 <= i < j < |state| :: state[i] != state[j]
    }

    function View(): (r: seq<Node>)
      reads state
      ensures |r| == |state|
    {
      seq(|state|, i requires 0 <= i < |state| reads state => state[i].View())
    }

    constructor (n: nat)
      ensures Valid() && fresh(state) && View() == Unknown(n)
    {
      var entries: seq<Entry> := [];
      while |entries| < n
        invariant |entries| <= n && fresh(entries)
        invariant forall i, j | 0 <= i < j < |entries| :: entries[i] != entries[j]
        invariant forall i | 0 <= i < |entries| :: entries[i].View() == Node(false, 0, 0, 0, 0, 0)
      {
        var entry := new Entry();
        entries := entries + [entry];
      }
      state := entries;
    }

    /** The first of the healthy nodes once they are sorted. */
    method Choose() returns (chosen: Option<nat>)
      requires Valid()
      ensures chosen == Choice(View())
    {
      var entries := View();
      var healthy: seq<nat> := [];
      var i := 0;
      while i < |entries|
        invariant 0 <= i <= |entries|
        invariant healthy == Healthy(entries, i)
      {
        if entries[i].alive {
          healthy := healthy + [i];
        }
        i := i + 1;
      }
      SortedHeadIsChoice(entries, |entries|);
      assert entries[..|entries|] == entries;
      healthy := SortedByLoad(entries, healthy);
      chosen := if |healthy| == 0 then None else Some(healthy[0]);
    }

    /** The node to send a client to, counted at once as one more pending connection. */
    method PickNode() returns (chosen: Option<nat>)
      requires Valid()
      modifies state
      ensures chosen == Choice(old(View())) && View() == Picked(old(View()))
    {
      chosen := Choose();
      if chosen.Some? {
        var entry := state[chosen.value];
        entry.pending := entry.pending + 1;
        assert View() == Picked(old(View()));
      }
    }

    /** One node's share of `checkAll`. */
    method Record(i: nat, pong: Option<Pong>)
      requires Valid() && i < |state|
      modifies state
      ensures View() == Step(old(View()), Ping(i, pong))
    {
      var entry := state[i];
      match pong {
        case Some(p) =>
          entry.alive, entry.active, entry.served := true, p.active, p.served;
          entry.lastSeen, entry.failures, entry.pending := p.at, 0, 0;
        case None =>
          entry.alive, entry.active, entry.served := false, 0, 0;
          entry.failures := entry.failures + 1;
      }
      assert View() == Step(old(View()), Ping(i, pong));
    }

    /** A whole round with nothing in between; picks between its parts are runs of `Op`. */
    method CheckAll(pongs: seq<Option<Pong>>)
      requires Valid() && |pongs| == |state|
      modifies state
      ensures View() == seq(|pongs|, i requires 0 <= i < |pongs| => Pinged(old(View())[i], pongs[i]))
    {
      ghost var before := View();
      var i := 0;
      while i < |state|
        invariant 0 <= i <= |state|
        invariant forall j | 0 <= j < |state| :: View()[j] == if j < i then Pinged(before[j], pongs[j]) else before[j]
      {
        Record(i, pongs[i]);
        i := i + 1;
      }
    }
  }

  // ---------------------------------------------------------------------------------- every run

  function Unknown(n: nat): (r: seq<Node>)
    ensures |r| == n
  {
    seq(n, _ => Node(false, 0, 0, 0, 0, 0))
  }

  /** What an outside observer of the balancer sees: who was handed out, and what each ping said. */
  datatype Fact = HandedOut(node: Option<nat>) | Heard(i: nat, pong: Option<Pong>)

  function Run(n: nat, ops: seq<Op>): (r: (seq<Node>, seq<Fact>))
    ensures |r.0| == n
  {
    if ops == [] then (Unknown(n), [])
    else
      var last := |ops| - 1;
      var (nodes, facts) := Run(n, ops[..last]);
      (Step(nodes, ops[last]), facts + [FactOf(nodes, ops[last])])
  }

  /** The latest ping result of a node, if any arrived. */
  function Latest(facts: seq<Fact>, i: nat): (r: Option<Pong>) {
    if facts == [] then None
    else
      var last := facts[|facts| - 1];
      if last.Heard? && last.i == i then last.pong else Latest(facts[..|facts| - 1], i)
  }

  /** How often a node was handed out since its last successful ping. */
  function HandedSince(facts: seq<Fact>, i: nat): (r: nat) {
    if facts == [] then 0
    else
      var last, before := facts[|facts| - 1], facts[..|facts| - 1];
      if last.Heard? && last.i == i && last.pong.Some? then 0
      else HandedSince(before, i) + if last == HandedOut(Some(i)) then 1 else 0
  }

  /** When a node last answered, or 0 if it never has. */
  function LastAnswer(facts: seq<Fact>, i: nat): (r: int) {
    if facts == [] then 0
    else
      var last := facts[|facts| - 1];
      if last.Heard? && last.i == i && last.pong.Some? then last.pong.value.at else LastAnswer(facts[..|facts| - 1], i)
  }

  /** How many pings in a row it has missed since. */
  function MissedInARow(facts: seq<Fact>, i: nat): (r: nat) {
    if facts == [] then 0
    else
      var last, before := facts[|facts| - 1], facts[..|facts| - 1];
      if !last.Heard? || last.i != i then MissedInARow(before, i)
      else if last.pong.Some? then 0
      else MissedInARow(before, i) + 1
  }

  /** The counters of one node are what was observed of it. */
  ghost predicate Follows(node: Node, facts: seq<Fact>, i: nat) {
    && node.pending == HandedSince(facts, i)
    && node.alive == Latest(facts, i).Some?
    && node.active == (match Latest(facts, i) case Some(p) => p.active case None => 0)
    && node.served == (match Latest(facts, i) case Some(p) => p.served case None => 0)
    && node.lastSeen == LastAnswer(facts, i) && node.failures == MissedInARow(facts, i)
  }

  function FactOf(nodes: seq<Node>, op: Op): (r: Fact) {
    match op
    case Pick => HandedOut(Choice(nodes))
    case Ping(i, pong) => Heard(i, pong)
  }

  lemma {:induction false} FactsSnoc(facts: seq<Fact>, fact: Fact, i: nat)
    ensures var more, mine := facts + [fact], fact.Heard? && fact.i == i;
            && Latest(more, i) == (if mine then fact.pong else Latest(facts, i))
            && LastAnswer(more, i) == (if mine && fact.pong.Some? then fact.pong.value.at else LastAnswer(facts, i))
            && MissedInARow(more, i) == (if !mine then MissedInARow(facts, i)
                                         else if fact.pong.Some? then 0 else MissedInARow(facts, i) + 1)
            && HandedSince(more, i) == (if mine && fact.pong.Some? then 0
                                        else HandedSince(facts, i) + if fact == HandedOut(Some(i)) then 1 else 0)
  {
    var more := facts + [fact];
    assert more[..|more| - 1] == facts && more[|more| - 1] == fact;
  }

  /** How one fact shows in the counters of node `i`. */
  function Told(node: Node, fact: Fact, i: nat): (r: Node) {
    if fact.Heard? && fact.i == i then Pinged(node, fact.pong)
    else if fact == HandedOut(Some(i)) then node.(pending := node.pending + 1)
    else node
  }

  lemma {:induction false} StepTold(nodes: seq<Node>, op: Op, i: nat)
    requires i < |nodes|
    ensures Step(nodes, op)[i] == Told(nodes[i], FactOf(nodes, op), i)
  {
  }

  lemma {:induction false} ToldFollows(node: Node, facts: seq<Fact>, fact: Fact, i: nat)
    requires Follows(node, facts, i)
    ensures Follows(Told(node, fact, i), facts + [fact], i)
  {
    FactsSnoc(facts, fact, i);
  }

  /** The counters are a function of what was observed, over any interleaving of picks and ping results. */
  lemma {:induction false} RegistryFollowsFacts(n: nat, ops: seq<Op>, i: nat)
    requires i < n
    ensures Follows(Run(n, ops).0[i], Run(n, ops).1, i)
  {
    if ops != [] {
      var last := |ops| - 1;
      RegistryFollowsFacts(n, ops[..last], i);
      var (nodes, facts) := Run(n, ops[..last]);
      StepTold(nodes, ops[last], i);
      ToldFollows(nodes[i], facts, FactOf(nodes, ops[last]), i);
    }
  }

  /**
   So every choice is right by what was observed: an answering node of least reported-plus-handed-out
   load, ties broken by served and then by position; and nobody only if no node's latest ping was answered.
   */
  lemma {:induction false} PickIsLeastLoaded(n: nat, ops: seq<Op>)
    ensures var (nodes, facts) := Run(n, ops);
            match Choice(nodes)
            case None => forall j | 0 <= j < n :: Latest(facts, j).None?
            case Some(i) =>
              && i < n && Latest(facts, i).Some?
              && forall j | 0 <= j < n && Latest(facts, j).Some? ::
                   var li := Latest(facts, i).value.active + HandedSince(facts, i);
                   var lj := Latest(facts, j).value.active + HandedSince(facts, j);
                   var si, sj := Latest(facts, i).value.served, Latest(facts, j).value.served;
                   li < lj || (li == lj && (si < sj || (si == sj && i <= j)))
  {
    var (nodes, facts) := Run(n, ops);
    forall j | 0 <= j < n
      ensures nodes[j].pending == HandedSince(facts, j) && nodes[j].alive == Latest(facts, j).Some?
      ensures nodes[j].active == (match Latest(facts, j) case Some(p) => p.active case None => 0)
      ensures nodes[j].served == (match Latest(facts, j) case Some(p) => p.served case None => 0)
    {
      RegistryFollowsFacts(n, ops, j);
    }
  }
}
