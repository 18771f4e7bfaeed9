/**
 Several node processes changing one rules file. Inside a process `_queue` runs one section at a time;
 across processes a lock file does. Steps interleave freely; a run is any sequence of actions.
 */
module PolicyCluster {
  import opened Bytes
  import opened Policy
  import opened PolicyHistory

  /** Where a process is in `_exclusive`. `Writing` has stringified the rules and truncated the file. */
  datatype Phase =
    | Idle
    | Acquiring
    | Locked
    | Fresh
    | Mutated(answer: Answer)
    | Writing(payload: Rules, answer: Answer)
    | Saved(answer: Answer)
    | Dead

  datatype Proc = Proc(rules: Rules, submitted: seq<Op>, queue: seq<Op>, phase: Phase, op: Op, done: seq<Entry>)

  datatype Entry = Entry(pid: nat, op: Op, answer: Answer)

  datatype Stored = Missing | Torn | Whole(rules: Rules)

  /** `log` records the changes in the order their writes completed. */
  datatype World = World(procs: seq<Proc>, disk: Stored, lock: Option<nat>, log: seq<Entry>)

  datatype Action =
    | Submit(p: nat, op: Op)
    | Begin(p: nat)
    | TryLock(p: nat)
    | Load(p: nat)
    | Mutate(p: nat)
    | BeginWrite(p: nat)
    | EndWrite(p: nat)
    | Unlock(p: nat)
    | Reload(p: nat, seen: Rules)   // an unqueued reload completes with whatever it read
    | BreakLock(p: nat)             // a waiter's deadline has passed and it removes the lock file
    | Crash(p: nat)

  function Read(disk: Stored): (r: Rules) {
    if disk.Whole? then disk.rules else map[]
  }

  predicate Critical(phase: Phase) {
    phase.Locked? || phase.Fresh? || phase.Mutated? || phase.Writing? || phase.Saved?
  }

  function Move(w: World, p: nat, proc: Proc): (r: World)
    requires p < |w.procs|
  {
    w.(procs := w.procs[p := proc])
  }

  function Step(w: World, a: Action): (r: World)
    ensures |r.procs| == |w.procs|
  {
    if a.p >= |w.procs| || w.procs[a.p].phase.Dead? then w
    else
      var p, me := a.p, w.procs[a.p];
      match a
      case Submit(_, op) => Move(w, p, me.(submitted := me.submitted + [op], queue := me.queue + [op]))
      case Begin(_) =>
        if me.phase.Idle? && me.queue != []
        then Move(w, p, me.(phase := Acquiring, op := me.queue[0], queue := me.queue[1..])) else w
      case TryLock(_) =>
        if me.phase.Acquiring? && w.lock.None?
        then Move(w, p, me.(phase := Locked)).(lock := Some(p)) else w
      case Load(_) =>
        if me.phase.Locked? then Move(w, p, me.(phase := Fresh, rules := Read(w.disk))) else w
      case Mutate(_) =>
        if me.phase.Fresh? then
          var (rules, answer) := Apply(me.rules, me.op);
          Move(w, p, me.(phase := Mutated(answer), rules := rules))
        else w
      case BeginWrite(_) =>
        if me.phase.Mutated?
        then Move(w, p, me.(phase := Writing(me.rules, me.phase.answer))).(disk := Torn) else w
      case EndWrite(_) =>
        if me.phase.Writing?
        then Move(w, p, me.(phase := Saved(me.phase.answer)))
             .(disk := Whole(me.phase.payload), log := w.log + [Entry(p, me.op, me.phase.answer)])
        else w
      case Unlock(_) =>
        if me.phase.Saved?
        then Move(w, p, me.(phase := Idle, done := me.done + [Entry(p, me.op, me.phase.answer)])).(lock := None)
        else w
      case Reload(_, seen) => Move(w, p, me.(rules := seen))
      case BreakLock(_) => if me.phase.Acquiring? then w.(lock := None) else w
      case Crash(_) => Move(w, p, me.(phase := Dead))
  }

  /**
   The three things the code does not rule out by itself: a stray reload between a section's load and its
   stringify, breaking the lock of a live holder, and dying inside a save.
   */
  predicate Allowed(w: World, a: Action) {
    a.p < |w.procs| ==>
      match a
      case Reload(p, _) => !w.procs[p].phase.Fresh? && !w.procs[p].phase.Mutated?
      case BreakLock(p) => w.lock.Some? && w.lock.value < |w.procs| ==> w.procs[w.lock.value].phase.Dead?
      case Crash(p) => !w.procs[p].phase.Writing?
      case _ => true
  }

  function Run(w: World, actions: seq<Action>): (r: World)
    ensures |r.procs| == |w.procs|
    decreases |actions|
  {
    if actions == [] then w else Run(Step(w, actions[0]), actions[1..])
  }

  predicate Guarded(w: World, actions: seq<Action>)
    decreases |actions|
  {
    actions == [] || (Allowed(w, actions[0]) && Guarded(Step(w, actions[0]), actions[1..]))
  }

  function Boot(n: nat): (w: World) {
    World(seq(n, _ => Proc(map[], [], [], Idle, Claim("", ""), [])), Missing, None, [])
  }

  // ------------------------------------------------------------------------ the log as a history

  function Ops(log: seq<Entry>): (r: seq<Op>)
    ensures |r| == |log|
    ensures forall i | 0 <= i < |log| :: r[i] == log[i].op
  {
    seq(|log|, i requires 0 <= i < |log| => log[i].op)
  }

  /** The rules a sequential store would hold after this log. */
  function State(log: seq<Entry>): (r: Rules) {
    Fold(Ops(log))
  }

  lemma {:induction false} StateSnoc(log: seq<Entry>, e: Entry)
    ensures State(log + [e]) == Apply(State(log), e.op).0
  {
    assert Ops(log + [e]) == Ops(log) + [e.op];
    FoldSnoc(Ops(log), e.op);
  }

  /** Entry `i` carries the answer a sequential store would have given at that point. */
  ghost predicate AnswersAt(log: seq<Entry>, i: nat)
    requires i < |log|
  {
    log[i].answer == Apply(State(log[..i]), log[i].op).1
  }

  ghost predicate Sequential(log: seq<Entry>) {
    forall i {:trigger AnswersAt(log, i)} | 0 <= i < |log| :: AnswersAt(log, i)
  }

  function OfProc(log: seq<Entry>, p: nat): (r: seq<Entry>) {
    if log == [] then []
    else OfProc(log[..|log| - 1], p) + (if log[|log| - 1].pid == p then [log[|log| - 1]] else [])
  }

  // ---------------------------------------------------------------------------------- invariant

  /** What a process in this phase knows, given the committed log. */
  ghost predicate PhaseOk(me: Proc, p: nat, log: seq<Entry>) {
    match me.phase
    case Fresh => me.rules == State(log)
    case Mutated(answer) => (me.rules, answer) == Apply(State(log), me.op)
    case Writing(payload, answer) => (payload, answer) == Apply(State(log), me.op)
    case _ => true
  }

  /** Its returned calls are its log entries, in order, plus the one it has saved but not yet returned. */
  ghost predicate HistoryOk(me: Proc, p: nat, log: seq<Entry>) {
    match me.phase
    case Saved(answer) => OfProc(log, p) == me.done + [Entry(p, me.op, answer)]
    case Dead => OfProc(log, p) == me.done || (exists e :: OfProc(log, p) == me.done + [e])
    case _ => OfProc(log, p) == me.done
  }

  /** Nothing submitted is dropped or reordered. */
  ghost predicate QueueOk(me: Proc) {
    me.phase.Dead?
    || me.submitted == Ops(me.done) + (if me.phase.Idle? then [] else [me.op]) + me.queue
  }

  ghost predicate ProcOk(w: World, p: nat)
    requires p < |w.procs|
  {
    && PhaseOk(w.procs[p], p, w.log)
    && HistoryOk(w.procs[p], p, w.log)
    && QueueOk(w.procs[p])
    && (Critical(w.procs[p].phase) ==> w.lock == Some(p))
    && (w.procs[p].phase.Writing? ==> w.disk == Torn)
  }

  ghost predicate DiskOk(w: World) {
    && (w.disk.Torn? ==> w.lock.Some? && w.lock.value < |w.procs| && w.procs[w.lock.value].phase.Writing?)
    && (!w.disk.Torn? ==> Read(w.disk) == State(w.log))
  }

  /** The lock file belongs to a section in progress or to a process that died in one. */
  ghost predicate LockOk(w: World) {
    w.lock.Some? ==>
      w.lock.value < |w.procs| && (Critical(w.procs[w.lock.value].phase) || w.procs[w.lock.value].phase.Dead?)
  }

  ghost predicate Inv(w: World) {
    && (forall p | 0 <= p < |w.procs| :: ProcOk(w, p))
    && DiskOk(w)
    && Sequential(w.log)
  }

  lemma {:induction false} BootInv(n: nat)
    ensures Inv(Boot(n))
  {
    var w := Boot(n);
    assert State([]) == map[];
    assert OfProc([], 0) == [];
    assert Ops([]) == [];
  }

  lemma {:induction false} OfProcSnoc(log: seq<Entry>, e: Entry, p: nat)
    ensures OfProc(log + [e], p) == OfProc(log, p) + (if e.pid == p then [e] else [])
  {
    assert (log + [e])[..|log|] == log;
  }

  lemma {:induction false} OpsSnoc(log: seq<Entry>, e: Entry)
    ensures Ops(log + [e]) == Ops(log) + [e.op]
  {
  }

  /** At most one live process is inside its critical section. */
  lemma {:induction false} OneCritical(w: World, p: nat, q: nat)
    requires Inv(w) && p < |w.procs| && q < |w.procs|
    requires Critical(w.procs[p].phase) && Critical(w.procs[q].phase)
    ensures p == q
  {
    assert ProcOk(w, p) && ProcOk(w, q);
  }

  /** A process that does not move is as it was, if its lock and its torn file are left alone. */
  lemma {:induction false} Untouched(w: World, r: World, q: nat)
    requires q < |w.procs| == |r.procs| && ProcOk(w, q)
    requires r.procs[q] == w.procs[q] && r.log == w.log
    requires Critical(w.procs[q].phase) ==> r.lock == w.lock && (w.disk == Torn ==> r.disk == Torn)
    ensures ProcOk(r, q)
  {
  }

  /** A step of `p` that commits nothing keeps the invariant if it does so for `p` and for the disk. */
  lemma {:induction false} OnlyMoves(w: World, r: World, p: nat)
    requires Inv(w) && p < |w.procs| == |r.procs|
    requires forall q | 0 <= q < |w.procs| && q != p :: r.procs[q] == w.procs[q]
    requires r.log == w.log && ProcOk(r, p) && DiskOk(r)
    requires forall q | 0 <= q < |w.procs| && q != p && Critical(w.procs[q].phase) ::
               r.lock == w.lock && (w.disk == Torn ==> r.disk == Torn)
    ensures Inv(r)
  {
    forall q | 0 <= q < |r.procs| ensures ProcOk(r, q) {
      assert ProcOk(w, q);
      if q != p {
        Untouched(w, r, q);
      }
    }
  }

  lemma {:induction false} SubmitQueues(me: Proc, op: Op)
    requires QueueOk(me)
    ensures QueueOk(me.(submitted := me.submitted + [op], queue := me.queue + [op]))
  {
    var head := Ops(me.done) + (if me.phase.Idle? then [] else [me.op]);
    assert !me.phase.Dead? ==> (head + me.queue) + [op] == head + (me.queue + [op]);
  }

  lemma {:induction false} BeginDequeues(me: Proc)
    requires QueueOk(me) && me.phase.Idle? && me.queue != []
    ensures QueueOk(me.(phase := Acquiring, op := me.queue[0], queue := me.queue[1..]))
  {
    assert me.queue == [me.queue[0]] + me.queue[1..];
    assert Ops(me.done) + [] + me.queue == Ops(me.done) + [me.queue[0]] + me.queue[1..];
  }

  lemma {:induction false} QueueInv(w: World, a: Action)
    requires Inv(w) && a.p < |w.procs| && (a.Submit? || a.Begin? || a.Reload?)
    requires Allowed(w, a)
    ensures Inv(Step(w, a))
  {
    var me := w.procs[a.p];
    assert ProcOk(w, a.p);
    if Step(w, a) != w {
      match a {
        case Submit(_, op) => SubmitQueues(me, op);
        case Begin(_) => BeginDequeues(me);
        case _ =>
      }
      OnlyMoves(w, Step(w, a), a.p);
    }
  }

  lemma {:induction false} CriticalHoldsLock(w: World)
    requires Inv(w)
    ensures forall q | 0 <= q < |w.procs| && Critical(w.procs[q].phase) :: w.lock == Some(q)
  {
    forall q | 0 <= q < |w.procs| && Critical(w.procs[q].phase) ensures w.lock == Some(q) {
      assert ProcOk(w, q);
    }
  }

  lemma {:induction false} UnlockSelf(me: Proc, p: nat, log: seq<Entry>)
    requires me.phase.Saved? && HistoryOk(me, p, log) && QueueOk(me)
    ensures var next := me.(phase := Idle, done := me.done + [Entry(p, me.op, me.phase.answer)]);
            HistoryOk(next, p, log) && QueueOk(next)
  {
    OpsSnoc(me.done, Entry(p, me.op, me.phase.answer));
    assert Ops(me.done) + [me.op] + [] + me.queue == Ops(me.done) + [me.op] + me.queue;
  }

  lemma {:induction false} LockInv(w: World, a: Action)
    requires Inv(w) && a.p < |w.procs| && (a.TryLock? || a.BreakLock? || a.Unlock?)
    requires Allowed(w, a)
    ensures Inv(Step(w, a))
  {
    var p, me := a.p, w.procs[a.p];
    assert ProcOk(w, p);
    CriticalHoldsLock(w);
    if Step(w, a) != w {
      if a.Unlock? {
        UnlockSelf(me, p, w.log);
      }
      OnlyMoves(w, Step(w, a), p);
    }
  }

  lemma {:induction false} SectionInv(w: World, a: Action)
    requires Inv(w) && a.p < |w.procs| && (a.Load? || a.Mutate? || a.BeginWrite? || a.Crash?)
    requires Allowed(w, a)
    ensures Inv(Step(w, a))
  {
    assert ProcOk(w, a.p);
    CriticalHoldsLock(w);
    OnlyMoves(w, Step(w, a), a.p);
  }

  lemma {:induction false} SequentialSnoc(log: seq<Entry>, e: Entry)
    requires Sequential(log) && e.answer == Apply(State(log), e.op).1
    ensures Sequential(log + [e])
  {
    var more := log + [e];
    forall i | 0 <= i < |more| ensures AnswersAt(more, i) {
      if i < |log| {
        assert AnswersAt(log, i);
        assert more[..i] == log[..i];
      } else {
        assert more[..i] == log;
      }
    }
  }

  lemma {:induction false} CommitOthers(w: World, p: nat, q: nat)
    requires p < |w.procs| && q < |w.procs| && q != p && w.procs[p].phase.Writing?
    requires w.lock == Some(p) && ProcOk(w, q)
    ensures ProcOk(Step(w, EndWrite(p)), q)
  {
    assert !Critical(w.procs[q].phase);
    OfProcSnoc(w.log, Entry(p, w.procs[p].op, w.procs[p].phase.answer), q);
    assert OfProc(w.log, q) + [] == OfProc(w.log, q);
  }

  lemma {:induction false} CommitSelf(w: World, p: nat)
    requires p < |w.procs| && w.procs[p].phase.Writing? && ProcOk(w, p)
    ensures ProcOk(Step(w, EndWrite(p)), p) && DiskOk(Step(w, EndWrite(p)))
  {
    var e := Entry(p, w.procs[p].op, w.procs[p].phase.answer);
    StateSnoc(w.log, e);
    OfProcSnoc(w.log, e, p);
  }

  lemma {:induction false} CommitLog(w: World, p: nat)
    requires p < |w.procs| && w.procs[p].phase.Writing?
    requires PhaseOk(w.procs[p], p, w.log) && Sequential(w.log)
    ensures Sequential(Step(w, EndWrite(p)).log)
  {
    SequentialSnoc(w.log, Entry(p, w.procs[p].op, w.procs[p].phase.answer));
  }

  /** The completed write is the one step that commits. */
  lemma {:induction false} CommitInv(w: World, p: nat)
    requires Inv(w) && p < |w.procs| && w.procs[p].phase.Writing?
    ensures Inv(Step(w, EndWrite(p)))
  {
    var r := Step(w, EndWrite(p));
    assert ProcOk(w, p);
    CommitLog(w, p);
    CommitSelf(w, p);
    forall q | 0 <= q < |r.procs| ensures ProcOk(r, q) {
      assert ProcOk(w, q);
      if q != p {
        CommitOthers(w, p, q);
      }
    }
  }

  lemma {:induction false} StepInv(w: World, a: Action)
    requires Inv(w) && Allowed(w, a)
    ensures Inv(Step(w, a))
  {
    if a.p < |w.procs| && !w.procs[a.p].phase.Dead? {
      match a {
        case Submit(_, _) => QueueInv(w, a);
        case Begin(_) => QueueInv(w, a);
        case Reload(_, _) => QueueInv(w, a);
        case TryLock(_) => LockInv(w, a);
        case BreakLock(_) => LockInv(w, a);
        case Unlock(_) => LockInv(w, a);
        case EndWrite(p) => if w.procs[p].phase.Writing? { CommitInv(w, p); }
        case _ => SectionInv(w, a);
      }
    }
  }

  lemma {:induction false} RunInv(w: World, actions: seq<Action>)
    requires Inv(w) && Guarded(w, actions)
    ensures Inv(Run(w, actions)) && |Run(w, actions).procs| == |w.procs|
    decreases |actions|
  {
    if actions != [] {
      StepInv(w, actions[0]);
      RunInv(Step(w, actions[0]), actions[1..]);
    }
  }

  /**
   Linearizability. For any number of processes and any interleaving within the guards: critical sections
   do not overlap; whenever no write is under way, and so at every release of the lock, the file holds
   exactly the sequential result of all committed changes; every caller was told what a sequential store
   would have told it at its place in the log; and each process's returned calls are exactly its log
   entries, in submission order, so no update is lost, repeated or reordered.
   */
  lemma {:induction false} PolicyIsLinearizable(n: nat, actions: seq<Action>)
    requires Guarded(Boot(n), actions)
    ensures var w := Run(Boot(n), actions);
            && |w.procs| == n
            && (forall p, q | 0 <= p < n && 0 <= q < n && Critical(w.procs[p].phase) && Critical(w.procs[q].phase) ::
                  p == q)
            && ((forall p | 0 <= p < n :: !w.procs[p].phase.Writing?) ==> Read(w.disk) == State(w.log) && !w.disk.Torn?)
            && (forall p | 0 <= p < n && w.procs[p].phase.Saved? :: Read(w.disk) == State(w.log))
            && Sequential(w.log)
            && (forall p | 0 <= p < n && w.procs[p].phase.Idle? ::
                  OfProc(w.log, p) == w.procs[p].done
                  && w.procs[p].submitted == Ops(w.procs[p].done) + w.procs[p].queue)
  {
    BootInv(n);
    RunInv(Boot(n), actions);
    var w := Run(Boot(n), actions);
    forall p | 0 <= p < n ensures ProcOk(w, p) {
    }
    forall p, q | 0 <= p < n && 0 <= q < n && Critical(w.procs[p].phase) && Critical(w.procs[q].phase)
      ensures p == q
    {
      OneCritical(w, p, q);
    }
    forall p | 0 <= p < n && w.procs[p].phase.Idle?
      ensures OfProc(w.log, p) == w.procs[p].done && w.procs[p].submitted == Ops(w.procs[p].done) + w.procs[p].queue
    {
      assert ProcOk(w, p);
      assert Ops(w.procs[p].done) + [] == Ops(w.procs[p].done);
    }
  }

  // ------------------------------------------------------------------------- real-time order

  lemma {:induction false} LogOnlyGrows(w: World, actions: seq<Action>)
    ensures w.log <= Run(w, actions).log && |Run(w, actions).procs| == |w.procs|
    decreases |actions|
  {
    if actions != [] {
      LogOnlyGrows(Step(w, actions[0]), actions[1..]);
    }
  }

  /** Where the `k`-th entry of a process is in the log. */
  function Position(log: seq<Entry>, p: nat, k: nat): (r: nat)
    requires k < |OfProc(log, p)|
    ensures r < |log| && log[r] == OfProc(log, p)[k] && log[r].pid == p
  {
    var n := |log| - 1;
    if k < |OfProc(log[..n], p)| then Position(log[..n], p, k) else n
  }

  lemma {:induction false} PositionStays(log: seq<Entry>, more: seq<Entry>, p: nat, k: nat)
    requires k < |OfProc(log + more, p)|
    ensures |OfProc(log, p)| <= |OfProc(log + more, p)|
    ensures k < |OfProc(log, p)| ==> Position(log + more, p, k) < |log|
    ensures k >= |OfProc(log, p)| ==> Position(log + more, p, k) >= |log|
    decreases |more|
  {
    if more == [] {
      assert log + more == log;
    } else {
      var n := |more| - 1;
      var front := log + more[..n];
      assert log + more == front + [more[n]];
      OfProcSnoc(front, more[n], p);
      assert (log + more)[..|log + more| - 1] == front;
      if k < |OfProc(front, p)| {
        PositionStays(log, more[..n], p, k);
      } else {
        ProcGrows(log, more[..n], p);
      }
    }
  }

  lemma {:induction false} ProcGrows(log: seq<Entry>, more: seq<Entry>, p: nat)
    ensures |OfProc(log, p)| <= |OfProc(log + more, p)|
    decreases |more|
  {
    if more == [] {
      assert log + more == log;
    } else {
      var n := |more| - 1;
      ProcGrows(log, more[..n], p);
      assert log + more == (log + more[..n]) + [more[n]];
      OfProcSnoc(log + more[..n], more[n], p);
    }
  }

  /** No process has more entries than calls submitted to it, nor fewer than have returned. */
  ghost predicate CountOk(w: World, p: nat)
    requires p < |w.procs|
  {
    |w.procs[p].done| <= |OfProc(w.log, p)| <= |w.procs[p].submitted|
  }

  lemma {:induction false} LiveCount(w: World, p: nat)
    requires p < |w.procs| && ProcOk(w, p) && !w.procs[p].phase.Dead?
    ensures CountOk(w, p)
  {
  }

  /** Only its own steps change what has been submitted to a process, what it has returned and what it has logged. */
  lemma {:induction false} OthersKeepCount(w: World, a: Action, p: nat)
    requires p < |w.procs| && (a.p != p || w.procs[p].phase.Dead? || a.Crash?)
    ensures Step(w, a).procs[p].done == w.procs[p].done && Step(w, a).procs[p].submitted == w.procs[p].submitted
    ensures OfProc(Step(w, a).log, p) == OfProc(w.log, p)
  {
    if a.EndWrite? && a.p < |w.procs| && w.procs[a.p].phase.Writing? {
      OfProcSnoc(w.log, Entry(a.p, w.procs[a.p].op, w.procs[a.p].phase.answer), p);
      assert a.p != p ==> OfProc(w.log, p) + [] == OfProc(w.log, p);
    }
  }

  lemma {:induction false} StepCount(w: World, a: Action, p: nat)
    requires Inv(w) && Allowed(w, a) && p < |w.procs| && CountOk(w, p)
    ensures CountOk(Step(w, a), p)
  {
    if a.p != p || w.procs[p].phase.Dead? || a.Crash? {
      OthersKeepCount(w, a, p);
    } else {
      StepInv(w, a);
      assert ProcOk(Step(w, a), p);
      LiveCount(Step(w, a), p);
    }
  }

  lemma {:induction false} RunCount(w: World, actions: seq<Action>, p: nat)
    requires Inv(w) && Guarded(w, actions) && p < |w.procs| && CountOk(w, p)
    ensures CountOk(Run(w, actions), p)
    decreases |actions|
  {
    if actions != [] {
      StepCount(w, actions[0], p);
      StepInv(w, actions[0]);
      RunCount(Step(w, actions[0]), actions[1..], p);
    }
  }

  /**
   The log respects real time: a call that had returned at some moment of a run comes before every call, of any
   process, that had not been submitted by then.
   */
  lemma {:induction false} RealTimeOrder(n: nat, before: seq<Action>, after: seq<Action>,
                                         p: nat, j: nat, q: nat, k: nat)
    requires Guarded(Boot(n), before) && p < n && q < n
    requires j < |Run(Boot(n), before).procs[p].done|
    requires k >= |Run(Boot(n), before).procs[q].submitted|
    requires k < |OfProc(Run(Run(Boot(n), before), after).log, q)|
    ensures var log := Run(Run(Boot(n), before), after).log;
            j < |OfProc(log, p)| && Position(log, p, j) < Position(log, q, k)
  {
    var w := Run(Boot(n), before);
    var z := Run(w, after);
    BootInv(n);
    RunCount(Boot(n), before, p);
    RunCount(Boot(n), before, q);
    LogOnlyGrows(w, after);
    var more := z.log[|w.log|..];
    assert z.log == w.log + more;
    ProcGrows(w.log, more, p);
    PositionStays(w.log, more, p, j);
    PositionStays(w.log, more, q, k);
  }

  lemma {:induction false} RunLockOk(w: World, actions: seq<Action>)
    requires LockOk(w)
    ensures LockOk(Run(w, actions))
    decreases |actions|
  {
    if actions != [] {
      RunLockOk(Step(w, actions[0]), actions[1..]);
    }
  }

  /** How far a section is from releasing the lock. */
  function StepsLeft(phase: Phase): (r: nat) {
    match phase
    case Locked => 5
    case Fresh => 4
    case Mutated(_) => 3
    case Writing(_, _) => 2
    case Saved(_) => 1
    case _ => 0
  }

  /** What a process inside its section does next. */
  function Onward(phase: Phase, p: nat): (a: Action) {
    match phase
    case Locked => Load(p)
    case Fresh => Mutate(p)
    case Mutated(_) => BeginWrite(p)
    case Writing(_, _) => EndWrite(p)
    case _ => Unlock(p)
  }

  lemma {:induction false} OnwardDescends(w: World, h: nat)
    requires h < |w.procs| && Critical(w.procs[h].phase)
    ensures var a := Onward(w.procs[h].phase, h);
            && Allowed(w, a) && |Step(w, a).procs| == |w.procs|
            && StepsLeft(Step(w, a).procs[h].phase) == StepsLeft(w.procs[h].phase) - 1
            && (StepsLeft(w.procs[h].phase) == 1 ==> Step(w, a).lock == None)
  {
  }

  /**
   A waiting section is never abandoned: it can take the lock, or the holder is alive and at most five steps
   of its own from releasing it, or the holder is dead and the waiter may remove the lock file.
   */
  lemma {:induction false} WaiterIsServed(n: nat, actions: seq<Action>, p: nat)
    requires p < |Run(Boot(n), actions).procs| && Run(Boot(n), actions).procs[p].phase.Acquiring?
    ensures var w := Run(Boot(n), actions);
            match w.lock
            case None => Step(w, TryLock(p)).lock == Some(p)
            case Some(h) =>
              && h < |w.procs|
              && if w.procs[h].phase.Dead? then Allowed(w, BreakLock(p)) && Step(w, BreakLock(p)).lock == None
                 else
                   var next := Step(w, Onward(w.procs[h].phase, h));
                   && 1 <= StepsLeft(w.procs[h].phase) <= 5 && |next.procs| == |w.procs|
                   && StepsLeft(next.procs[h].phase) == StepsLeft(w.procs[h].phase) - 1
                   && (StepsLeft(w.procs[h].phase) == 1 ==> next.lock == None)
  {
    RunLockOk(Boot(n), actions);
    var w := Run(Boot(n), actions);
    if w.lock.Some? && !w.procs[w.lock.value].phase.Dead? {
      OnwardDescends(w, w.lock.value);
    }
  }

  // ------------------------------------------------------------- each guard is needed

  /** A change submitted to an idle process, up to the point where it has loaded the rules. */
  function Loading(w: World, p: nat, op: Op): (r: World)
    ensures |r.procs| == |w.procs|
  {
    Step(Step(Step(Step(w, Submit(p, op)), Begin(p)), TryLock(p)), Load(p))
  }

  lemma {:induction false} LoadingSection(w: World, p: nat, op: Op)
    requires p < |w.procs| && w.procs[p].phase.Idle? && w.procs[p].queue == [] && w.lock == None
    ensures var r, me := Loading(w, p, op), w.procs[p];
            && r == w.(procs := r.procs, lock := Some(p))
            && r.procs == w.procs[p := r.procs[p]]
            && r.procs[p].phase == Fresh && r.procs[p].op == op && r.procs[p].rules == Read(w.disk)
            && r.procs[p].queue == [] && r.procs[p].done == me.done
  {
    var w1 := Step(w, Submit(p, op));
    assert w1.procs[p].queue == [op];
    var w2 := Step(w1, Begin(p));
    assert w2.procs[p].queue == [] && w2.procs[p].op == op && w2.procs[p].phase == Acquiring;
    var w3 := Step(w2, TryLock(p));
    assert w3.procs[p].phase == Locked;
  }

  /** A change submitted to an idle process that then waits for the lock. */
  function Waiting(w: World, q: nat, op: Op): (r: World)
    ensures |r.procs| == |w.procs|
  {
    Step(Step(w, Submit(q, op)), Begin(q))
  }

  lemma {:induction false} WaitingSection(w: World, q: nat, op: Op)
    requires q < |w.procs| && w.procs[q].phase.Idle? && w.procs[q].queue == []
    ensures var r := Waiting(w, q, op);
            && r == w.(procs := r.procs) && r.procs == w.procs[q := r.procs[q]]
            && r.procs[q].phase == Acquiring && r.procs[q].op == op && r.procs[q].done == w.procs[q].done
  {
    var w1 := Step(w, Submit(q, op));
    assert w1.procs[q].queue == [op];
  }

  /** The rest of a section that has loaded the rules. */
  function Finished(w: World, p: nat): (r: World)
    ensures |r.procs| == |w.procs|
  {
    Step(Step(Step(Step(w, Mutate(p)), BeginWrite(p)), EndWrite(p)), Unlock(p))
  }

  lemma {:induction false} FinishedSection(w: World, p: nat)
    requires p < |w.procs| && w.procs[p].phase.Fresh?
    ensures var r, me := Finished(w, p), w.procs[p];
            && r.procs == w.procs[p := r.procs[p]]
            && r.procs[p].phase == Idle && r.procs[p].queue == me.queue
            && r.procs[p].done == me.done + [Entry(p, me.op, Apply(me.rules, me.op).1)]
            && r.disk == Whole(Apply(me.rules, me.op).0)
            && r.log == w.log + [Entry(p, me.op, Apply(me.rules, me.op).1)]
            && r.lock == None
  {
    var w1 := Step(w, Mutate(p));
    assert w1.procs[p].phase == Mutated(Apply(w.procs[p].rules, w.procs[p].op).1);
    var w2 := Step(w1, BeginWrite(p));
    assert w2.procs[p].phase == Writing(w1.procs[p].rules, w1.procs[p].phase.answer);
    var w3 := Step(w2, EndWrite(p));
    assert w3.procs[p].phase == Saved(w1.procs[p].phase.answer);
  }

  /** A waiter that breaks the lock, takes it and loads. */
  function Barged(w: World, q: nat): (r: World)
    ensures |r.procs| == |w.procs|
  {
    Step(Step(Step(w, BreakLock(q)), TryLock(q)), Load(q))
  }

  lemma {:induction false} BargedSection(w: World, q: nat)
    requires q < |w.procs| && w.procs[q].phase.Acquiring?
    ensures var r, me := Barged(w, q), w.procs[q];
            && r == w.(procs := r.procs, lock := Some(q))
            && r.procs == w.procs[q := me.(phase := Fresh, rules := Read(w.disk))]
  {
    var w1 := Step(w, BreakLock(q));
    var w2 := Step(w1, TryLock(q));
    assert w1.lock == None && w2.procs[q].phase == Locked;
  }

  lemma {:induction false} ClaimIsInState(log: seq<Entry>, i: nat)
    requires i < |log| && log[i].op.Claim?
    ensures log[i].op.file in State(log)
  {
    var n := |log| - 1;
    assert log == log[..n] + [log[n]];
    StateSnoc(log[..n], log[n]);
    if i < n {
      ClaimIsInState(log[..n], i);
    }
  }

  // ------------------------------------------------------------------- breaking a live lock

  /** Two waiters past their deadline: one breaks the lock of the other, which has loaded, and both finish. */
  function BothFinish(w: World, p: nat, q: nat): (r: World)
    ensures |r.procs| == |w.procs|
  {
    Finished(Finished(Barged(w, q), q), p)
  }

  lemma {:induction false} BargedPair(w: World, p: nat, q: nat)
    requires p < |w.procs| && q < |w.procs| && p != q
    requires w.procs[p].phase.Fresh? && w.procs[q].phase.Acquiring?
    ensures var r, opp, opq := BothFinish(w, p, q), w.procs[p].op, w.procs[q].op;
            && r.log == w.log + [Entry(q, opq, Apply(Read(w.disk), opq).1)]
                              + [Entry(p, opp, Apply(w.procs[p].rules, opp).1)]
            && r.disk == Whole(Apply(w.procs[p].rules, opp).0)
            && r.procs[q].done == w.procs[q].done + [Entry(q, opq, Apply(Read(w.disk), opq).1)]
  {
    var w1 := Barged(w, q);
    BargedSection(w, q);
    FinishedSection(w1, q);
    var w2 := Finished(w1, q);
    assert w2.procs[p] == w.procs[p];
    FinishedSection(w2, p);
  }

  lemma {:induction false} StateOfTwo(log: seq<Entry>, e1: Entry, e2: Entry)
    ensures State(log + [e1] + [e2]) == Apply(Apply(State(log), e1.op).0, e2.op).0
  {
    StateSnoc(log, e1);
    StateSnoc(log + [e1], e2);
  }

  lemma {:induction false} FreshKnowsState(w: World, p: nat)
    requires Inv(w) && p < |w.procs| && w.procs[p].phase.Fresh?
    ensures w.procs[p].rules == State(w.log) == Read(w.disk) && w.lock == Some(p)
    ensures forall q | 0 <= q < |w.procs| :: !Allowed(w, BreakLock(q))
  {
    assert ProcOk(w, p);
  }

  /**
   Exactly what breaking a live holder's lock costs: the file still is the sequential result of the log if and
   only if the change let in did nothing, or the holder's makes it of no consequence.
   */
  lemma {:induction false} BreakingLiveLockLosesUpdate(w: World, p: nat, q: nat)
    requires Inv(w) && p < |w.procs| && q < |w.procs| && p != q
    requires w.procs[p].phase.Fresh? && w.procs[q].phase.Acquiring?
    ensures !Allowed(w, BreakLock(q))
    ensures var r, s := BothFinish(w, p, q), State(w.log);
            var opp, opq := w.procs[p].op, w.procs[q].op;
            && r.log == w.log + [Entry(q, opq, Apply(s, opq).1)] + [Entry(p, opp, Apply(s, opp).1)]
            && (Read(r.disk) == State(r.log) <==> Apply(s, opq).0 == s || Supersedes(opp, opq))
  {
    var s, opp, opq := State(w.log), w.procs[p].op, w.procs[q].op;
    FreshKnowsState(w, p);
    BargedPair(w, p, q);
    StateOfTwo(w.log, Entry(q, opq, Apply(s, opq).1), Entry(p, opp, Apply(s, opp).1));
    LostIff(s, opp, opq);
  }

  /** A change that makes another one before it of no consequence: the same change, or the same switch set again. */
  predicate Supersedes(opp: Op, opq: Op) {
    opp == opq || (opp.SetPublic? && opq.SetPublic? && opp.actor == opq.actor && opp.file == opq.file)
  }

  /** Which of two changes made on the same rules is lost, in so many words. */
  lemma {:induction false} LostIff(s: Rules, opp: Op, opq: Op)
    ensures Apply(Apply(s, opq).0, opp).0 == Apply(s, opp).0 <==> Apply(s, opq).0 == s || Supersedes(opp, opq)
  {
    if opp.file != opq.file {
      OtherFileLostIff(s, opp, opq);
    } else if Apply(s, opq).0 != s {
      if Supersedes(opp, opq) {
        SupersededIsSame(s, opp, opq);
      } else if Apply(Apply(s, opq).0, opp).0 == Apply(s, opp).0 {
        SameMeansSuperseded(s, opp, opq);
      }
    } else if Supersedes(opp, opq) {
      SupersededIsSame(s, opp, opq);
    }
  }

  lemma {:induction false} SupersededIsSame(s: Rules, opp: Op, opq: Op)
    requires Supersedes(opp, opq)
    ensures Apply(Apply(s, opq).0, opp).0 == Apply(s, opp).0
  {
    var f, t := opp.file, Apply(s, opq).0;
    ApplyIsLocal(s, opq);
    assert f in t && f in s ==> t == s[f := t[f]];
  }

  lemma {:induction false} SameMeansSuperseded(s: Rules, opp: Op, opq: Op)
    requires opp.file == opq.file && Apply(s, opq).0 != s
    requires Apply(Apply(s, opq).0, opp).0 == Apply(s, opp).0
    ensures Supersedes(opp, opq)
  {
    var f, t := opp.file, Apply(s, opq).0;
    assert f in t;
    assert f in s ==> t == s[f := t[f]] && t[f] != s[f];
    assert f in Apply(t, opp).0 && f in Apply(s, opp).0;
    assert Apply(t, opp).0[f] == Apply(s, opp).0[f];
  }

  /** For changes to different files that means: if and only if the change let in did nothing at all. */
  lemma {:induction false} OtherFileLostIff(s: Rules, opp: Op, opq: Op)
    requires opp.file != opq.file
    ensures Apply(Apply(s, opq).0, opp).0 == Apply(s, opp).0 <==> Apply(s, opq).0 == s
  {
    var a, b := Apply(Apply(s, opq).0, opp).0, Apply(s, opp).0;
    ApplyIsLocal(s, opq);
    ApplyIsLocal(s, opp);
    ApplyIsLocal(Apply(s, opq).0, opp);
    if a == b {
      assert forall f :: f in Apply(s, opq).0 <==> f in s;
      assert forall f | f in s :: Apply(s, opq).0[f] == s[f];
    }
  }

  lemma {:induction false} ApplyIsLocal(s: Rules, op: Op)
    ensures forall f | f != op.file :: f in Apply(s, op).0 <==> f in s
    ensures forall f | f != op.file && f in s :: Apply(s, op).0[f] == s[f]
  {
  }

  // ------------------------------------------------- two sections at once, under every schedule

  /** A step of one of two sections from its change to its release. */
  predicate SectionStep(a: Action, p: nat, q: nat) {
    (a.Mutate? || a.BeginWrite? || a.EndWrite? || a.Unlock?) && (a.p == p || a.p == q)
  }

  predicate Past(phase: Phase) {
    phase.Saved? || phase.Idle?
  }

  /** A section for `op` that loaded `base`. */
  ghost predicate Midway(me: Proc, base: Rules, op: Op) {
    && me.op == op
    && match me.phase
       case Fresh => me.rules == base
       case Mutated(answer) => (me.rules, answer) == Apply(base, op)
       case Writing(payload, answer) => (payload, answer) == Apply(base, op)
       case Saved(_) => true
       case Idle => true
       case _ => false
  }

  /** Whoever has written is in the log; once both have, the file is what the second of them wrote. */
  ghost predicate Overlapping(w: World, log: seq<Entry>, p: nat, bp: Rules, opp: Op, q: nat, bq: Rules, opq: Op) {
    && p < |w.procs| && q < |w.procs| && p != q
    && Midway(w.procs[p], bp, opp) && Midway(w.procs[q], bq, opq)
    && var ep, eq := Entry(p, opp, Apply(bp, opp).1), Entry(q, opq, Apply(bq, opq).1);
    if Past(w.procs[p].phase) && Past(w.procs[q].phase) then
      || (w.log == log + [eq] + [ep] && w.disk == Whole(Apply(bp, opp).0))
      || (w.log == log + [ep] + [eq] && w.disk == Whole(Apply(bq, opq).0))
    else if Past(w.procs[p].phase) then w.log == log + [ep]
    else if Past(w.procs[q].phase) then w.log == log + [eq]
    else w.log == log
  }

  lemma {:induction false} OverlapStep(w: World, a: Action, log: seq<Entry>,
                                       p: nat, bp: Rules, opp: Op, q: nat, bq: Rules, opq: Op)
    requires Overlapping(w, log, p, bp, opp, q, bq, opq) && SectionStep(a, p, p)
    ensures Overlapping(Step(w, a), log, p, bp, opp, q, bq, opq)
  {
  }

  lemma {:induction false} OverlapRun(w: World, steps: seq<Action>, log: seq<Entry>,
                                      p: nat, bp: Rules, opp: Op, q: nat, bq: Rules, opq: Op)
    requires Overlapping(w, log, p, bp, opp, q, bq, opq) && forall a | a in steps :: SectionStep(a, p, q)
    ensures Overlapping(Run(w, steps), log, p, bp, opp, q, bq, opq)
    decreases |steps|
  {
    if steps != [] {
      var a := steps[0];
      assert a in steps && forall b | b in steps[1..] :: b in steps;
      if a.p == p {
        OverlapStep(w, a, log, p, bp, opp, q, bq, opq);
      } else {
        OverlapStep(w, a, log, q, bq, opq, p, bp, opp);
      }
      OverlapRun(Step(w, a), steps[1..], log, p, bp, opp, q, bq, opq);
    }
  }

  /** What the second section loads: nothing, if the first has truncated the file. */
  function LoadedBy(w: World, p: nat): (r: Rules)
    requires p < |w.procs|
  {
    if w.procs[p].phase.Writing? then map[] else State(w.log)
  }

  lemma {:induction false} BargedOverlaps(w: World, p: nat, q: nat)
    requires Inv(w) && p < |w.procs| && q < |w.procs| && p != q && w.procs[q].phase.Acquiring?
    requires w.procs[p].phase.Fresh? || w.procs[p].phase.Mutated? || w.procs[p].phase.Writing?
    ensures Overlapping(Barged(w, q), w.log, p, State(w.log), w.procs[p].op, q, LoadedBy(w, p), w.procs[q].op)
  {
    assert ProcOk(w, p);
    BargedSection(w, q);
  }

  /** When the file is right although the section of `last`, which loaded `base`, did not see the one before it. */
  predicate NotMissed(s: Rules, base: Rules, last: Op, first: Op) {
    if base == s then Apply(s, first).0 == s || Supersedes(last, first)
    else Apply(s, first).0 == map[] || (last.Claim? && Apply(s, first).0 == Alone(last))
  }

  lemma {:induction false} NotMissedIff(s: Rules, base: Rules, last: Op, first: Op)
    requires base == s || base == map[]
    ensures Apply(Apply(s, first).0, last).0 == Apply(base, last).0 <==> NotMissed(s, base, last, first)
  {
    if base == s {
      LostIff(s, last, first);
    } else {
      SameFromNothingIff(Apply(s, first).0, last);
    }
  }

  /**
   Breaking the lock of a holder that has loaded, changed or is writing the rules: under every schedule of the two
   sections, once both have written, the file is the sequential result of the log if and only if the change logged
   first is not missed by the section that wrote last.
   */
  lemma {:induction false} OverlapLosesIff(w: World, p: nat, q: nat, steps: seq<Action>)
    requires Inv(w) && p < |w.procs| && q < |w.procs| && p != q && w.procs[q].phase.Acquiring?
    requires w.procs[p].phase.Fresh? || w.procs[p].phase.Mutated? || w.procs[p].phase.Writing?
    requires forall a | a in steps :: SectionStep(a, p, q)
    requires Past(Run(Barged(w, q), steps).procs[p].phase) && Past(Run(Barged(w, q), steps).procs[q].phase)
    ensures var r, s, opp, opq := Run(Barged(w, q), steps), State(w.log), w.procs[p].op, w.procs[q].op;
            && |r.log| == |w.log| + 2
            && (Read(r.disk) == State(r.log)
                <==> if r.log[|w.log| + 1].pid == p then NotMissed(s, s, opp, opq)
                     else NotMissed(s, LoadedBy(w, p), opq, opp))
  {
    var s, opp, opq := State(w.log), w.procs[p].op, w.procs[q].op;
    BargedOverlaps(w, p, q);
    OverlapRun(Barged(w, q), steps, w.log, p, s, opp, q, LoadedBy(w, p), opq);
    var ep, eq := Entry(p, opp, Apply(s, opp).1), Entry(q, opq, Apply(LoadedBy(w, p), opq).1);
    StateOfTwo(w.log, eq, ep);
    StateOfTwo(w.log, ep, eq);
    NotMissedIff(s, s, opp, opq);
    NotMissedIff(s, LoadedBy(w, p), opq, opp);
  }

  /** From a fresh start: one claim has loaded the rules, a second one waits for the lock. */
  function Contended(first: Op, second: Op): (w: World)
    ensures |w.procs| == 2 && w.log == [] && w.disk == Missing && w.lock == Some(0)
    ensures w.procs[0].phase == Fresh && w.procs[0].op == first && w.procs[0].rules == map[]
    ensures w.procs[1].phase == Acquiring && w.procs[1].op == second && w.procs[1].done == []
  {
    LoadingSection(Boot(2), 0, first);
    WaitingSection(Loading(Boot(2), 0, first), 1, second);
    Waiting(Loading(Boot(2), 0, first), 1, second)
  }

  /** What two confirmed claims leave if the second to write had not seen the first. */
  ghost predicate ClaimLost(r: World, first: Op, second: Op) {
    && r.log == [Entry(1, second, Created), Entry(0, first, Created)]
    && first.file in Read(r.disk) && second.file !in Read(r.disk)
    && second.file in State(r.log)
  }

  lemma {:induction false} LogShowsLoss(r: World, first: Op, second: Op)
    requires first.Claim? && second.Claim? && first.file != second.file
    requires r.log == [] + [Entry(1, second, Apply(map[], second).1)] + [Entry(0, first, Apply(map[], first).1)]
    requires r.disk == Whole(Apply(map[], first).0)
    ensures ClaimLost(r, first, second)
  {
    assert r.log[0].op == second;
    ClaimIsInState(r.log, 0);
  }

  /** So from a fresh start two claims of different files can both be confirmed, and one of them is gone. */
  lemma {:induction false} ConfirmedClaimIsLost(first: Op, second: Op)
    requires first.Claim? && second.Claim? && first.file != second.file
    ensures ClaimLost(BothFinish(Contended(first, second), 0, 1), first, second)
  {
    var w := Contended(first, second);
    BargedPair(w, 0, 1);
    LogShowsLoss(BothFinish(w, 0, 1), first, second);
  }

  // --------------------------------------------------------------------------- a stray reload

  /** A reload completes after the change and before the stringify; the section then saves and returns. */
  function StrayReload(w: World, p: nat, seen: Rules): (r: World)
    ensures |r.procs| == |w.procs|
  {
    Step(Step(Step(Step(w, Reload(p, seen)), BeginWrite(p)), EndWrite(p)), Unlock(p))
  }

  lemma {:induction false} StrayReloadStores(w: World, p: nat, seen: Rules)
    requires p < |w.procs| && w.procs[p].phase.Mutated?
    ensures var r, e := StrayReload(w, p, seen), Entry(p, w.procs[p].op, w.procs[p].phase.answer);
            && r.disk == Whole(seen) && r.log == w.log + [e] && |r.procs| == |w.procs|
            && r.procs[p].done == w.procs[p].done + [e]
  {
    var w1 := Step(w, Reload(p, seen));
    var w2 := Step(w1, BeginWrite(p));
    assert w2.procs[p].phase == Writing(seen, w.procs[p].phase.answer);
    var w3 := Step(w2, EndWrite(p));
    assert w3.procs[p].phase == Saved(w.procs[p].phase.answer);
  }

  /** The file is the sequential result if and only if the reload read the very rules it replaced. */
  lemma {:induction false} StrayReloadLosesUpdate(w: World, p: nat, seen: Rules)
    requires Inv(w) && p < |w.procs| && w.procs[p].phase.Mutated?
    ensures !Allowed(w, Reload(p, seen))
    ensures var r := StrayReload(w, p, seen);
            Read(r.disk) == State(r.log) <==> seen == w.procs[p].rules
  {
    assert ProcOk(w, p);
    StrayReloadStores(w, p, seen);
    StateSnoc(w.log, Entry(p, w.procs[p].op, w.procs[p].phase.answer));
  }

  /** From a fresh start, reading what is really there: a claim is confirmed, and the file holds no rule. */
  lemma {:induction false} ConfirmedClaimIsReloadedAway(op: Op)
    requires op.Claim?
    ensures var w := Step(Loading(Boot(1), 0, op), Mutate(0));
            var r := StrayReload(w, 0, Read(w.disk));
            && |r.procs| == 1 && r.procs[0].done == [Entry(0, op, Created)]
            && op.file in State(r.log) && Read(r.disk) == map[]
  {
    LoadingSection(Boot(1), 0, op);
    var w := Step(Loading(Boot(1), 0, op), Mutate(0));
    assert w.procs[0].phase == Mutated(Created) && w.log == [] && w.disk == Missing;
    StrayReloadStores(w, 0, map[]);
    var r := StrayReload(w, 0, map[]);
    assert r.log == [] + [Entry(0, op, Created)] && r.log[0].op == op;
    ClaimIsInState(r.log, 0);
  }

  // ------------------------------------------------------------------------ dying inside a save

  /** A process dies while it writes, a waiter takes over after its deadline and finishes its own change. */
  function TakenOver(w: World, p: nat, q: nat): (r: World)
    ensures |r.procs| == |w.procs|
  {
    Finished(Barged(Step(w, Crash(p)), q), q)
  }

  lemma {:induction false} TakenOverStores(w: World, p: nat, q: nat)
    requires p < |w.procs| && q < |w.procs| && p != q && w.disk == Torn
    requires w.procs[q].phase.Acquiring? && !w.procs[p].phase.Dead?
    ensures var r, opq := TakenOver(w, p, q), w.procs[q].op;
            && r.disk == Whole(Apply(map[], opq).0)
            && r.log == w.log + [Entry(q, opq, Apply(map[], opq).1)]
  {
    var w1 := Step(w, Crash(p));
    BargedSection(w1, q);
    FinishedSection(Barged(w1, q), q);
  }

  lemma {:induction false} WritingTore(w: World, p: nat)
    requires Inv(w) && p < |w.procs| && w.procs[p].phase.Writing?
    ensures w.disk == Torn && w.lock == Some(p)
  {
    assert ProcOk(w, p);
  }

  /** The next section starts from no rules at all. */
  lemma {:induction false} NextStartsFromNothing(w: World, p: nat, q: nat)
    requires Inv(w) && p < |w.procs| && q < |w.procs| && p != q
    requires w.procs[p].phase.Writing? && w.procs[q].phase.Acquiring?
    ensures !Allowed(w, Crash(p)) && Allowed(Step(w, Crash(p)), BreakLock(q))
    ensures var r := Barged(Step(w, Crash(p)), q);
            r.procs[q].phase.Fresh? && r.procs[q].rules == map[] && r.log == w.log
  {
    WritingTore(w, p);
    BargedSection(Step(w, Crash(p)), q);
  }

  /** The rules a claim makes from nothing. */
  function Alone(claim: Op): (r: Rules)
    requires claim.Claim?
  {
    map[claim.file := Rule(claim.user, [], [], false)]
  }

  lemma {:induction false} SameFromNothingIff(s: Rules, op: Op)
    ensures Apply(map[], op).0 == Apply(s, op).0 <==> s == map[] || (op.Claim? && s == Alone(op))
  {
    var t := Apply(s, op).0;
    ApplyGrows(s, op);
    if op.Claim? && op.file !in s && t == Alone(op) {
      forall f ensures f !in s {
        assert f in t ==> f == op.file;
      }
    } else if !op.Claim? && t == map[] {
      forall f ensures f !in s {
        assert f !in t;
      }
    }
  }

  /**
   Exactly what dying inside a save costs: the file the next section leaves is the sequential result if and only if
   nothing had been committed, or all that had been is the rule which that section's claim makes anew.
   */
  lemma {:induction false} CrashInSaveForgetsEverything(w: World, p: nat, q: nat)
    requires Inv(w) && p < |w.procs| && q < |w.procs| && p != q
    requires w.procs[p].phase.Writing? && w.procs[q].phase.Acquiring?
    ensures var r, s, opq := TakenOver(w, p, q), State(w.log), w.procs[q].op;
            Read(r.disk) == State(r.log) <==> s == map[] || (opq.Claim? && s == Alone(opq))
  {
    var s, opq := State(w.log), w.procs[q].op;
    WritingTore(w, p);
    TakenOverStores(w, p, q);
    StateSnoc(w.log, Entry(q, opq, Apply(map[], opq).1));
    SameFromNothingIff(s, opq);
  }

  /** A change of an idle process, up to the point where it has truncated the file. */
  function MidWrite(w: World, p: nat, op: Op): (r: World)
    ensures |r.procs| == |w.procs|
  {
    Step(Step(Loading(w, p, op), Mutate(p)), BeginWrite(p))
  }

  lemma {:induction false} MidWriteSection(w: World, p: nat, op: Op)
    requires p < |w.procs| && w.procs[p].phase.Idle? && w.procs[p].queue == [] && w.lock == None
    ensures var r := MidWrite(w, p, op);
            && r == w.(procs := r.procs, lock := Some(p), disk := Torn)
            && r.procs == w.procs[p := r.procs[p]]
            && r.procs[p].phase.Writing? && r.procs[p].done == w.procs[p].done
  {
    LoadingSection(w, p, op);
    assert Step(Loading(w, p, op), Mutate(p)).procs[p].phase.Mutated?;
  }

  /** The first of two processes has had its change confirmed, and nothing else is going on. */
  ghost predicate OneConfirmed(w: World, first: Op) {
    && |w.procs| == 2 && w.lock == None && w.log == [Entry(0, first, Apply(map[], first).1)]
    && w.procs[0].phase.Idle? && w.procs[0].queue == [] && w.procs[0].done == w.log
    && w.procs[1].phase.Idle? && w.procs[1].queue == []
  }

  lemma {:induction false} ConfirmedFrom(w: World, first: Op)
    requires |w.procs| == 2 && w.lock == None && w.log == [] && Read(w.disk) == map[]
    requires forall p | 0 <= p < 2 :: w.procs[p].phase.Idle? && w.procs[p].queue == [] && w.procs[p].done == []
    ensures OneConfirmed(Finished(Loading(w, 0, first), 0), first)
  {
    LoadingSection(w, 0, first);
    FinishedSection(Loading(w, 0, first), 0);
    assert [] + [Entry(0, first, Apply(map[], first).1)] == [Entry(0, first, Apply(map[], first).1)];
  }

  /** The first process starts a second change and dies writing it; the other process makes a third one. */
  function DiesHalfWay(w: World, second: Op, third: Op): (r: World)
    requires |w.procs| == 2
  {
    TakenOver(Waiting(MidWrite(w, 0, second), 1, third), 0, 1)
  }

  ghost predicate ClaimForgotten(r: World, first: Op) {
    r.log != [] && r.log[0] == Entry(0, first, Created) && first.file in State(r.log) && first.file !in Read(r.disk)
  }

  lemma {:induction false} ForgottenOnceConfirmed(w: World, first: Op, second: Op, third: Op)
    requires OneConfirmed(w, first) && first.Claim? && third.Claim? && first.file != third.file
    ensures ClaimForgotten(DiesHalfWay(w, second, third), first)
  {
    var w1 := MidWrite(w, 0, second);
    MidWriteSection(w, 0, second);
    WaitingSection(w1, 1, third);
    TakenOverStores(Waiting(w1, 1, third), 0, 1);
    var r := DiesHalfWay(w, second, third);
    assert r.log[0] == w.log[0];
    ClaimIsInState(r.log, 0);
  }

  /** From a fresh start: a confirmed claim is gone after another change died half written. */
  lemma {:induction false} ConfirmedClaimIsForgotten(first: Op, second: Op, third: Op)
    requires first.Claim? && third.Claim? && first.file != third.file
    ensures ClaimForgotten(DiesHalfWay(Finished(Loading(Boot(2), 0, first), 0), second, third), first)
  {
    ConfirmedFrom(Boot(2), first);
    ForgottenOnceConfirmed(Finished(Loading(Boot(2), 0, first), 0), first, second, third);
  }
}
