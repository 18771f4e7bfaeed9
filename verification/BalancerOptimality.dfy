/** Between two rounds of pings the balancer is a greedy allocator; this is how good a greedy one is. */
module BalancerOptimality {
  import opened Bytes
  import opened Balancer

  /** `k` clients handed out in a row. */
  function Handed(nodes: seq<Node>, k: nat): (r: seq<Node>)
    ensures |r| == |nodes|
  {
    if k == 0 then nodes else Picked(Handed(nodes, k - 1))
  }

  /** How many of them went to each node. */
  function Gains(nodes: seq<Node>, k: nat): (r: seq<int>)
    ensures |r| == |nodes|
  {
    seq(|nodes|, i requires 0 <= i < |nodes| => Handed(nodes, k)[i].pending - nodes[i].pending)
  }

  function Sum(d: seq<int>): (r: int) {
    if d == [] then 0 else Sum(d[..|d| - 1]) + d[|d| - 1]
  }

  ghost predicate SomeAlive(nodes: seq<Node>) {
    exists i :: 0 <= i < |nodes| && nodes[i].alive
  }

  /** Another way of handing `k` clients to the answering nodes. */
  ghost predicate Distribution(nodes: seq<Node>, d: seq<int>, k: nat) {
    && |d| == |nodes| && Sum(d) == k
    && forall i | 0 <= i < |d| :: d[i] >= 0 && (!nodes[i].alive ==> d[i] == 0)
  }

  lemma {:induction false} SumUpdate(d: seq<int>, i: nat, x: int)
    requires i < |d|
    ensures Sum(d[i := x]) == Sum(d) - d[i] + x
  {
    var n := |d| - 1;
    if i < n {
      SumUpdate(d[..n], i, x);
      assert d[i := x][..n] == d[..n][i := x];
    } else {
      assert d[i := x][..n] == d[..n];
    }
  }

  lemma {:induction false} SumZero(d: seq<int>)
    requires forall i | 0 <= i < |d| :: d[i] == 0
    ensures Sum(d) == 0
  {
    if d != [] {
      SumZero(d[..|d| - 1]);
    }
  }

  /** Picking changes only `pending`, and no picked node ends more than one above any other. */
  ghost predicate Levelled(before: seq<Node>, after: seq<Node>) {
    && |after| == |before|
    && (forall i | 0 <= i < |before| :: after[i] == before[i].(pending := after[i].pending)
                                     && after[i].pending >= before[i].pending
                                     && (!before[i].alive ==> after[i] == before[i]))
    && (forall i, j | 0 <= i < |before| && 0 <= j < |before| && before[j].alive ::
          after[i].pending > before[i].pending ==> Load(after[i]) <= Load(after[j]) + 1)
  }

  lemma {:induction false} HandedLevels(nodes: seq<Node>, k: nat)
    ensures Levelled(nodes, Handed(nodes, k))
  {
    if k > 0 {
      HandedLevels(nodes, k - 1);
    }
  }

  /** The node the next client goes to; somebody always answers, and it has the least load of them. */
  lemma {:induction false} NextChoice(nodes: seq<Node>, k: nat) returns (i: nat)
    requires SomeAlive(nodes)
    ensures i < |nodes| && nodes[i].alive && Choice(Handed(nodes, k)) == Some(i)
    ensures forall j | 0 <= j < |nodes| && nodes[j].alive :: Load(Handed(nodes, k)[i]) <= Load(Handed(nodes, k)[j])
  {
    HandedLevels(nodes, k);
    var after := Handed(nodes, k);
    var a :| 0 <= a < |nodes| && nodes[a].alive;
    assert after[a].alive;
    i := Choice(after).value;
    assert IsChoice(after, i);
    assert forall j | 0 <= j < |nodes| :: after[j].alive == nodes[j].alive;
  }

  /** One more client is one more for exactly one node. */
  lemma {:induction false} GainsStep(nodes: seq<Node>, k: nat) returns (i: nat, g: seq<int>)
    requires SomeAlive(nodes)
    ensures i < |g| && g == Gains(nodes, k) && Gains(nodes, k + 1) == g[i := g[i] + 1]
  {
    i := NextChoice(nodes, k);
    var before, after := Handed(nodes, k), Handed(nodes, k + 1);
    assert after == before[i := before[i].(pending := before[i].pending + 1)];
    g := Gains(nodes, k);
    var h := Gains(nodes, k + 1);
    forall j | 0 <= j < |nodes| ensures h[j] == g[i := g[i] + 1][j] {
      assert h[j] == after[j].pending - nodes[j].pending;
    }
  }

  lemma {:induction false} GainsSum(nodes: seq<Node>, k: nat)
    requires SomeAlive(nodes)
    ensures Sum(Gains(nodes, k)) == k
  {
    if k == 0 {
      SumZero(Gains(nodes, 0));
    } else {
      GainsSum(nodes, k - 1);
      var i, g := GainsStep(nodes, k - 1);
      SumUpdate(g, i, g[i] + 1);
    }
  }

  lemma {:induction false} GainsDistribute(nodes: seq<Node>, k: nat)
    requires SomeAlive(nodes)
    ensures Distribution(nodes, Gains(nodes, k), k)
  {
    GainsSum(nodes, k);
    HandedLevels(nodes, k);
  }

  // ------------------------------------------------------------------------------ peak load

  lemma {:induction false} LargerSomewhere(d: seq<int>, g: seq<int>, i: nat)
    requires |d| == |g| && Sum(d) >= Sum(g) && i < |d| && d[i] < g[i]
    ensures exists j :: 0 <= j < |d| && d[j] > g[j]
  {
    if forall j | 0 <= j < |d| :: d[j] <= g[j] {
      SumLess(d, g, i);
    }
  }

  lemma {:induction false} SumAtMost(d: seq<int>, g: seq<int>)
    requires |d| == |g| && forall j | 0 <= j < |d| :: d[j] <= g[j]
    ensures Sum(d) <= Sum(g)
  {
    if d != [] {
      SumAtMost(d[..|d| - 1], g[..|g| - 1]);
    }
  }

  lemma {:induction false} SumLess(d: seq<int>, g: seq<int>, i: nat)
    requires |d| == |g| && i < |d| && d[i] < g[i] && forall j | 0 <= j < |d| :: d[j] <= g[j]
    ensures Sum(d) < Sum(g)
  {
    SumUpdate(g, i, d[i]);
    SumAtMost(d, g[i := d[i]]);
  }

  /**
   No other way of handing out the same clients has a lower peak: whatever load some node receiving
   clients ends at, the other way leaves some node receiving clients with at least that load.
   */
  lemma {:induction false} GreedyPeakIsOptimal(nodes: seq<Node>, k: nat, d: seq<int>, i: nat)
    requires Distribution(nodes, d, k)
    requires i < |nodes| && Gains(nodes, k)[i] > 0
    ensures exists j :: 0 <= j < |nodes| && d[j] > 0 && Load(nodes[j]) + d[j] >= Load(nodes[i]) + Gains(nodes, k)[i]
  {
    HandedLevels(nodes, k);
    var g := Gains(nodes, k);
    assert nodes[i].alive;
    GainsSum(nodes, k);
    if d[i] >= g[i] {
      assert d[i] > 0 && Load(nodes[i]) + d[i] >= Load(nodes[i]) + g[i];
    } else {
      LargerSomewhere(d, g, i);
      var j :| 0 <= j < |d| && d[j] > g[j];
      assert nodes[j].alive;
      assert Load(Handed(nodes, k)[j]) == Load(nodes[j]) + g[j];
      assert Load(Handed(nodes, k)[i]) == Load(nodes[i]) + g[i];
    }
  }

  // ---------------------------------------------------------------------- every convex cost

  function Slope(cost: int -> int, t: int): (r: int) {
    cost(t + 1) - cost(t)
  }

  ghost predicate Convex(cost: int -> int) {
    forall s: nat, t: nat | s <= t :: Slope(cost, s) <= Slope(cost, t)
  }

  /** Above level `m` a further unit costs at least the slope there; below it, at most. */
  lemma {:induction false} TangentUp(cost: int -> int, m: nat, x: nat, y: nat)
    requires Convex(cost) && m <= x <= y
    ensures cost(y) - cost(x) >= Slope(cost, m) * (y - x)
    decreases y - x
  {
    if x < y {
      TangentUp(cost, m, x, y - 1);
      assert Slope(cost, y - 1) == cost(y) - cost(y - 1);
      assert Slope(cost, m) * (y - x) == Slope(cost, m) * (y - 1 - x) + Slope(cost, m);
    }
  }

  lemma {:induction false} TangentDown(cost: int -> int, m: nat, x: nat, y: nat)
    requires Convex(cost) && y <= x <= m + 1
    ensures cost(y) - cost(x) >= Slope(cost, m) * (y - x)
    decreases x - y
  {
    if y < x {
      TangentDown(cost, m, x, y + 1);
      assert Slope(cost, y) == cost(y + 1) - cost(y);
      assert Slope(cost, m) * (y - x) == Slope(cost, m) * (y + 1 - x) - Slope(cost, m);
    }
  }

  /** The cost of every node's load once `d` has been handed out. */
  function Costs(nodes: seq<Node>, d: seq<int>, cost: int -> int): (r: seq<int>)
    requires |d| == |nodes|
    ensures |r| == |nodes|
  {
    seq(|nodes|, i requires 0 <= i < |nodes| => cost(Load(nodes[i]) + d[i]))
  }

  ghost predicate AboveTangent(a: seq<int>, b: seq<int>, d: seq<int>, g: seq<int>, c: int) {
    |a| == |b| == |d| == |g| && forall i | 0 <= i < |a| :: a[i] - b[i] >= c * (d[i] - g[i])
  }

  lemma {:induction false} SumTangent(a: seq<int>, b: seq<int>, d: seq<int>, g: seq<int>, c: int)
    requires AboveTangent(a, b, d, g, c)
    ensures Sum(a) - Sum(b) >= c * (Sum(d) - Sum(g))
  {
    if a != [] {
      var n := |a| - 1;
      SumTangent(a[..n], b[..n], d[..n], g[..n], c);
      var x, y := Sum(d[..n]) - Sum(g[..n]), d[n] - g[n];
      assert c * (x + y) == c * x + c * y;
      assert Sum(d) - Sum(g) == x + y;
    }
  }

  lemma {:induction false} TangentBound(a: seq<int>, b: seq<int>, d: seq<int>, g: seq<int>, c: int)
    requires AboveTangent(a, b, d, g, c) && Sum(d) == Sum(g)
    ensures Sum(b) <= Sum(a)
  {
    SumTangent(a, b, d, g, c);
    assert c * (Sum(d) - Sum(g)) == 0;
  }

  /** Node by node: the other way's cost lies above the tangent at the level greedy reaches. */
  lemma {:induction false} NodeCost(nodes: seq<Node>, k: nat, d: seq<int>, cost: int -> int, least: nat, i: nat)
    requires Convex(cost) && Distribution(nodes, d, k) && i < |nodes|
    requires least < |nodes| && nodes[least].alive
    requires forall j | 0 <= j < |nodes| && nodes[j].alive :: Load(Handed(nodes, k)[least]) <= Load(Handed(nodes, k)[j])
    ensures Costs(nodes, d, cost)[i] - Costs(nodes, Gains(nodes, k), cost)[i]
            >= Slope(cost, Load(Handed(nodes, k)[least])) * (d[i] - Gains(nodes, k)[i])
  {
    HandedLevels(nodes, k);
    var g, m := Gains(nodes, k), Load(Handed(nodes, k)[least]);
    var x, y := Load(nodes[i]) + g[i], Load(nodes[i]) + d[i];
    assert x == Load(Handed(nodes, k)[i]) && y - x == d[i] - g[i];
    if nodes[i].alive {
      if y >= x {
        TangentUp(cost, m, x, y);
      } else {
        assert g[i] > 0 && x <= m + 1;
        TangentDown(cost, m, x, y);
      }
    }
  }

  lemma {:induction false} NodeCosts(nodes: seq<Node>, k: nat, d: seq<int>, cost: int -> int, least: nat)
    requires Convex(cost) && Distribution(nodes, d, k)
    requires least < |nodes| && nodes[least].alive
    requires forall j | 0 <= j < |nodes| && nodes[j].alive :: Load(Handed(nodes, k)[least]) <= Load(Handed(nodes, k)[j])
    ensures AboveTangent(Costs(nodes, d, cost), Costs(nodes, Gains(nodes, k), cost), d, Gains(nodes, k),
                         Slope(cost, Load(Handed(nodes, k)[least])))
  {
    forall i | 0 <= i < |nodes|
      ensures Costs(nodes, d, cost)[i] - Costs(nodes, Gains(nodes, k), cost)[i]
              >= Slope(cost, Load(Handed(nodes, k)[least])) * (d[i] - Gains(nodes, k)[i])
    {
      NodeCost(nodes, k, d, cost, least, i);
    }
  }

  /**
   Greedy is optimal for every convex cost of load at once, the sum of squares among them: no other way of
   handing the same clients to the answering nodes costs less in total.
   */
  lemma {:induction false} GreedyCostIsOptimal(nodes: seq<Node>, k: nat, d: seq<int>, cost: int -> int)
    requires Convex(cost) && SomeAlive(nodes) && Distribution(nodes, d, k)
    ensures Sum(Costs(nodes, Gains(nodes, k), cost)) <= Sum(Costs(nodes, d, cost))
  {
    GainsSum(nodes, k);
    var least := NextChoice(nodes, k);
    var a, b, g := Costs(nodes, d, cost), Costs(nodes, Gains(nodes, k), cost), Gains(nodes, k);
    var c := Slope(cost, Load(Handed(nodes, k)[least]));
    NodeCosts(nodes, k, d, cost, least);
    TangentBound(a, b, d, g, c);
  }

  function Square(x: int): (r: int) {
    x * x
  }

  lemma {:induction false} GreedySquaresAreMinimal(nodes: seq<Node>, k: nat, d: seq<int>)
    requires SomeAlive(nodes) && Distribution(nodes, d, k)
    ensures Sum(Costs(nodes, Gains(nodes, k), Square)) <= Sum(Costs(nodes, d, Square))
  {
    forall s: nat, t: nat | s <= t ensures Slope(Square, s) <= Slope(Square, t) {
      assert Slope(Square, s) == 2 * s + 1 && Slope(Square, t) == 2 * t + 1;
    }
    GreedyCostIsOptimal(nodes, k, d, Square);
  }

  // ------------------------------------------------------------------------------- fairness

  /** Picks never widen the gap between answering nodes beyond what it was, or one. */
  lemma {:induction false} GapNeverWidens(nodes: seq<Node>, k: nat, gap: nat)
    requires forall i, j | 0 <= i < |nodes| && 0 <= j < |nodes| && nodes[i].alive && nodes[j].alive ::
               Load(nodes[i]) - Load(nodes[j]) <= gap
    ensures forall i, j | 0 <= i < |nodes| && 0 <= j < |nodes| && nodes[i].alive && nodes[j].alive ::
              Load(Handed(nodes, k)[i]) - Load(Handed(nodes, k)[j]) <= Max(gap, 1)
  {
    HandedLevels(nodes, k);
  }

  function AliveCount(nodes: seq<Node>): (r: nat) {
    if nodes == [] then 0
    else AliveCount(nodes[..|nodes| - 1]) + if nodes[|nodes| - 1].alive then 1 else 0
  }

  lemma {:induction false} SumBetween(nodes: seq<Node>, d: seq<int>, low: int, high: int)
    requires |d| == |nodes|
    requires forall i | 0 <= i < |d| :: if nodes[i].alive then low <= d[i] <= high else d[i] == 0
    ensures low * AliveCount(nodes) <= Sum(d) <= high * AliveCount(nodes)
  {
    if d != [] {
      var n := |d| - 1;
      SumBetween(nodes[..n], d[..n], low, high);
      var c := AliveCount(nodes[..n]);
      assert low * (c + 1) == low * c + low && high * (c + 1) == high * c + high;
    }
  }

  lemma {:induction false} GainsWithinOne(nodes: seq<Node>, k: nat, i: nat)
    requires i < |nodes| && nodes[i].alive
    requires forall j | 0 <= j < |nodes| && nodes[j].alive :: Load(nodes[i]) == Load(nodes[j])
    ensures var g := Gains(nodes, k);
            forall j | 0 <= j < |g| :: if nodes[j].alive then g[i] - 1 <= g[j] <= g[i] + 1 else g[j] == 0
  {
    HandedLevels(nodes, k);
    var g := Gains(nodes, k);
    forall j | 0 <= j < |g| ensures if nodes[j].alive then g[i] - 1 <= g[j] <= g[i] + 1 else g[j] == 0 {
      assert nodes[j].alive ==> Load(Handed(nodes, k)[j]) - Load(Handed(nodes, k)[i]) == g[j] - g[i];
    }
  }

  /** From equal loads over `n` answering nodes, each receives k/n clients rounded down or up. */
  lemma {:induction false} EqualShares(nodes: seq<Node>, k: nat, i: nat)
    requires i < |nodes| && nodes[i].alive
    requires forall j | 0 <= j < |nodes| && nodes[j].alive :: Load(nodes[i]) == Load(nodes[j])
    ensures var n := AliveCount(nodes);
            n > 0 && k / n <= Gains(nodes, k)[i] <= (k + n - 1) / n
  {
    GainsWithinOne(nodes, k, i);
    GainsSum(nodes, k);
    NearlyEqualSum(nodes, Gains(nodes, k), i);
    SharesBound(k, AliveCount(nodes), Gains(nodes, k)[i]);
  }

  /** Pushing entry `i` itself to either bound puts the sum between `n` times the bounds. */
  lemma {:induction false} NearlyEqualSum(nodes: seq<Node>, g: seq<int>, i: nat)
    requires |g| == |nodes| && i < |g| && nodes[i].alive
    requires forall j | 0 <= j < |g| :: if nodes[j].alive then g[i] - 1 <= g[j] <= g[i] + 1 else g[j] == 0
    ensures (g[i] - 1) * AliveCount(nodes) <= Sum(g) - 1 && Sum(g) + 1 <= (g[i] + 1) * AliveCount(nodes)
  {
    var low, high := g[i] - 1, g[i] + 1;
    SumUpdate(g, i, low);
    SumUpdate(g, i, high);
    SumBetween(nodes, g[i := low], low, high);
    SumBetween(nodes, g[i := high], low, high);
  }

  lemma {:induction false} SharesBound(k: nat, n: nat, x: int)
    requires (x - 1) * n <= k - 1 && k + 1 <= (x + 1) * n
    ensures n > 0 && k / n <= x <= (k + n - 1) / n
  {
    assert n > 0;
    var low, high := k / n, (k + n - 1) / n;
    assert low * n <= k;
    if low >= x + 1 {
      TimesMonotone(x + 1, low, n);
    }
    assert k + n - 1 < (high + 1) * n;
    assert x * n <= k + n - 1;
    if x >= high + 1 {
      TimesMonotone(high + 1, x, n);
    }
  }
}
