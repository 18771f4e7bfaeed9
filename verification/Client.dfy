/** The retry-and-resume loops of the client, against the server's handlers. */
module Client {
  import opened Bytes
  import opened Sockets
  import opened Names
  import opened Receive
  import opened Upload
  import opened UploadRuns
  import Policy

  const RETRIES := 3

  /** What the STAT request of an attempt meets: an exception, a peer that hangs up, or an answer. */
  datatype Stat = Throws | HangsUp | Answers

  /** The node's first answer: read, missing because the peer hangs up, or lost to an error on the socket. */
  datatype FirstReply = Heard | PeerEnds | Breaks

  /** Everything outside the client's control during one attempt. */
  datatype Try = Try(stat: Stat, nodeFound: bool, connects: bool, firstReply: FirstReply, lastReply: bool,
                     hwm: nat, events: seq<Event>, fate: Fate)

  /** How `_push` or `_pull` ends. */
  datatype Seen = Done | TurnedDown | Cut

  datatype Result = Succeeded | RefusedByPeer | GaveUp | Escaped

  /** One attempt as the client saw it, and what it changed on the node's disk. */
  datatype Entry = Entry(offset: nat, before: Slot, after: Slot, promoted: bool, seen: Seen)

  // ------------------------------------------------------------------------------------ upload

  /** The offset a client resumes from; an unanswered STAT reads as "nothing uploaded". */
  function ResumeOffset(slot: Slot, t: Try): (r: nat)
    ensures r <= SizeOf(slot.part)
  {
    if t.stat.Answers? then SizeOf(slot.part) else 0
  }

  /**
   One `_push` at an offset learnt earlier. A first reply that is missing counts as a refusal, though the node goes
   on without a body; one that is lost to an error is an interruption like any other.
   */
  function PushAt(slot: Slot, offset: nat, source: bytes, t: Try, permitted: bool): (r: Entry)
    ensures r.offset == offset && r.before == slot
  {
    if !t.connects then Entry(offset, slot, slot, false, Cut)
    else if !permitted || offset > SizeOf(slot.part) then
      Entry(offset, slot, slot, false, if t.firstReply.Breaks? then Cut else TurnedDown)
    else
      var sent := if t.firstReply.Heard? then Tail(source, offset) else [];
      var (after, report, claimed) := Serve(slot, offset, |source|, Wire(sent), t.hwm, t.events, t.fate);
      Entry(offset, slot, after, after.part.None? && !t.fate.DiesBeforeOpen?,
            match t.firstReply
            case Heard => if report.Confirmed? && t.lastReply then Done else Cut
            case PeerEnds => TurnedDown
            case Breaks => Cut)
  }

  /** One attempt of a client that has the name to itself. */
  function Push(slot: Slot, source: bytes, t: Try, permitted: bool): (r: Entry)
    ensures r.offset == ResumeOffset(slot, t) && r.before == slot
  {
    PushAt(slot, ResumeOffset(slot, t), source, t, permitted)
  }

  /** The loop of `upload` over the attempts that are left, when nobody else uploads the name. */
  function UploadRun(slot: Slot, source: bytes, tries: seq<Try>, permitted: bool): (r: (Slot, Result, seq<Entry>))
    decreases |tries|
  {
    if tries == [] then (slot, GaveUp, [])
    else if tries[0].stat.Throws? || !tries[0].nodeFound then (slot, Escaped, [])
    else
      var entry := Push(slot, source, tries[0], permitted);
      match entry.seen
      case Done => (entry.after, Succeeded, [entry])
      case TurnedDown => (entry.after, RefusedByPeer, [entry])
      case Cut =>
        var (last, result, log) := UploadRun(entry.after, source, tries[1..], permitted);
        (last, result, [entry] + log)
  }

  predicate Permitted(rules: Policy.Rules, user: string, file: string) {
    Policy.CanWrite(rules, OrAnonymous(user), SafeName(file))
  }

  /**
   What surrounds one attempt of a client that does not have the name to itself: the requests of others served
   before its STAT and between its STAT and its request, and the rules in force when the request arrives.
   */
  datatype Turn = Turn(before: seq<Attempt>, between: seq<Attempt>, rules: Policy.Rules, own: Try)

  /** The loop of `upload` among any other clients. */
  function ContestedRun(slot: Slot, source: bytes, user: string, file: string, turns: seq<Turn>):
    (r: (Slot, Result, seq<Entry>))
    decreases |turns|
  {
    if turns == [] then (slot, GaveUp, [])
    else
      var t := turns[0];
      var asked := SlotAfterAll(slot, t.before);
      var found := SlotAfterAll(asked, t.between);
      if t.own.stat.Throws? then (asked, Escaped, [])
      else if !t.own.nodeFound then (found, Escaped, [])
      else
        var entry := PushAt(found, ResumeOffset(asked, t.own), source, t.own, Permitted(t.rules, user, file));
        match entry.seen
        case Done => (entry.after, Succeeded, [entry])
        case TurnedDown => (entry.after, RefusedByPeer, [entry])
        case Cut =>
          var (last, result, log) := ContestedRun(entry.after, source, user, file, turns[1..]);
          (last, result, [entry] + log)
  }

  /** The client's own part of its turns. */
  function Own(turns: seq<Turn>): (r: seq<Try>)
    ensures |r| == |turns| && forall i | 0 <= i < |r| :: r[i] == turns[i].own
  {
    seq(|turns|, i requires 0 <= i < |turns| => turns[i].own)
  }

  /** With no other clients, the two loops are the same. */
  lemma {:induction false} ContestedAlone(slot: Slot, source: bytes, user: string, file: string, turns: seq<Turn>,
                                          permitted: bool)
    requires forall t | t in turns :: t.before == [] && t.between == [] && Permitted(t.rules, user, file) == permitted
    ensures ContestedRun(slot, source, user, file, turns) == UploadRun(slot, source, Own(turns), permitted)
    decreases |turns|
  {
    if turns != [] {
      var t := turns[0];
      assert t in turns && SlotAfterAll(slot, t.before) == slot == SlotAfterAll(slot, t.between);
      assert Own(turns)[1..] == Own(turns[1..]);
      assert forall u | u in turns[1..] :: u in turns;
      ContestedAlone(Push(slot, source, t.own, permitted).after, source, user, file, turns[1..], permitted);
    }
  }

  /** Other clients' requests on this name, and whatever has happened to the rules meanwhile. */
  method OthersAct(storage: Storage, policy: Policy.PolicyStore, file: string, attempts: seq<Attempt>,
                   rules: Policy.Rules)
    modifies storage.disk, policy.file
    ensures storage.SlotOf(file) == SlotAfterAll(old(storage.SlotOf(file)), attempts)
    ensures policy.file.content == Some(rules)
    ensures OthersKept(PartPath(storage.base, file), FinalPath(storage.base, file),
                       old(storage.disk.files), storage.disk.files)
  {
    var part, final := PartPath(storage.base, file), FinalPath(storage.base, file);
    var after := SlotAfterAll(storage.SlotOf(file), attempts);
    PutBoth(storage.disk.files, part, final, after);
    storage.disk.files := Put(Put(storage.disk.files, part, after.part), final, after.final);
    policy.file.content := Some(rules);
  }

  /** What the client makes of a request once it has connected. */
  function SeenOf(t: Try, report: Report): (r: Seen) {
    match t.firstReply
    case Breaks => Cut
    case PeerEnds => TurnedDown
    case Heard => if report.Refused? then TurnedDown else if report.Confirmed? && t.lastReply then Done else Cut
  }

  /** What a client sends on the connection. */
  function SentBy(source: bytes, offset: nat, t: Try): (r: bytes) {
    if t.firstReply.Heard? then Tail(source, offset) else []
  }

  lemma {:induction false} RefusedPush(slot: Slot, offset: nat, source: bytes, t: Try, permitted: bool, report: Report)
    requires t.connects && (!permitted || offset > SizeOf(slot.part)) && report.Refused?
    ensures PushAt(slot, offset, source, t, permitted) == Entry(offset, slot, slot, false, SeenOf(t, report))
  {
  }

  lemma {:induction false} ServedPush(slot: Slot, offset: nat, source: bytes, t: Try)
    requires t.connects && offset <= SizeOf(slot.part)
    ensures var (after, report, claimed) :=
              Serve(slot, offset, |source|, Wire(SentBy(source, offset, t)), t.hwm, t.events, t.fate);
            var entry := PushAt(slot, offset, source, t, true);
            entry.after == after && entry.seen == SeenOf(t, report)
  {
  }

  /** A claim of one's own leaves the right to write as it was. */
  lemma {:induction false} ClaimKeepsPermission(rules: Policy.Rules, user: string, file: string)
    requires Permitted(rules, user, file)
    ensures Permitted(Policy.Apply(rules, Policy.Claim(OrAnonymous(user), SafeName(file))).0, user, file)
  {
  }

  /** `_push` against a node: one connection, the request, the body, the final reply. */
  method PushOnce(storage: Storage, policy: Policy.PolicyStore, user: string, file: string, source: bytes,
                  offset: nat, t: Try) returns (seen: Seen)
    requires t.hwm > 0
    modifies storage.disk, policy, policy.file
    ensures var permitted := Permitted(Policy.Loaded(old(policy.file.content)), user, file);
            var entry := PushAt(old(storage.SlotOf(file)), offset, source, t, permitted);
            && seen == entry.seen
            && storage.SlotOf(file) == entry.after
            && OthersKept(PartPath(storage.base, file), FinalPath(storage.base, file),
                        old(storage.disk.files), storage.disk.files)
            && Permitted(Policy.Loaded(policy.file.content), user, file) == permitted
  {
    if !t.connects {
      return Cut;
    }
    ghost var slot, rules := storage.SlotOf(file), Policy.Loaded(policy.file.content);
    ghost var permitted := Permitted(rules, user, file);
    ghost var files, entry := storage.disk.files, PushAt(slot, offset, source, t, permitted);
    var socket := new Socket(SentBy(source, offset, t));
    var report, _ := HandleUpload(storage, policy, user, file, offset, |source|, socket, t.hwm, t.events, t.fate);
    if !permitted || offset > SizeOf(slot.part) {
      RefusedPush(slot, offset, source, t, permitted, report);
    } else {
      ServedPush(slot, offset, source, t);
      ClaimKeepsPermission(rules, user, file);
      PutBoth(files, PartPath(storage.base, file), FinalPath(storage.base, file), entry.after);
    }
    seen := SeenOf(t, report);
  }

  /** The outcome of a loop that has already logged these attempts. */
  function Logged(log: seq<Entry>, rest: (Slot, Result, seq<Entry>)): (r: (Slot, Result, seq<Entry>)) {
    (rest.0, rest.1, log + rest.2)
  }

  lemma {:induction false} OneMoreTurn(log: seq<Entry>, slot: Slot, source: bytes, user: string, file: string,
                                       turns: seq<Turn>)
    requires turns != []
    ensures var whole := Logged(log, ContestedRun(slot, source, user, file, turns));
            var t := turns[0];
            var asked := SlotAfterAll(slot, t.before);
            var found := SlotAfterAll(asked, t.between);
            var entry := PushAt(found, ResumeOffset(asked, t.own), source, t.own, Permitted(t.rules, user, file));
            if t.own.stat.Throws? then whole == (asked, Escaped, log)
            else if !t.own.nodeFound then whole == (found, Escaped, log)
            else if entry.seen.Done? then whole == (entry.after, Succeeded, log + [entry])
            else if entry.seen.TurnedDown? then whole == (entry.after, RefusedByPeer, log + [entry])
            else if |turns| == 1 then whole == (entry.after, GaveUp, log + [entry])
            else whole == Logged(log + [entry], ContestedRun(entry.after, source, user, file, turns[1..]))
  {
    var t := turns[0];
    var asked := SlotAfterAll(slot, t.before);
    var found := SlotAfterAll(asked, t.between);
    var entry := PushAt(found, ResumeOffset(asked, t.own), source, t.own, Permitted(t.rules, user, file));
    var rest := ContestedRun(entry.after, source, user, file, turns[1..]);
    assert log + [] == log;
    assert log + ([entry] + rest.2) == (log + [entry]) + rest.2;
    assert |turns| == 1 ==> rest.2 == [] && log + ([entry] + []) == log + [entry];
  }

  /** `upload`: at most RETRIES + 1 attempts, each resuming from what STAT reports, among any other clients. */
  method UploadFile(storage: Storage, policy: Policy.PolicyStore, user: string, file: string, source: bytes,
                    turns: seq<Turn>) returns (result: Result, ghost log: seq<Entry>)
    requires |turns| == RETRIES + 1 && forall t | t in turns :: t.own.hwm > 0
    modifies storage.disk, policy, policy.file
    ensures (storage.SlotOf(file), result, log) == ContestedRun(old(storage.SlotOf(file)), source, user, file, turns)
    ensures OthersKept(PartPath(storage.base, file), FinalPath(storage.base, file),
                       old(storage.disk.files), storage.disk.files)
  {
    ghost var whole := ContestedRun(storage.SlotOf(file), source, user, file, turns);
    var attempt := 1;
    log := [];
    assert [] + whole.2 == whole.2;
    // the attempt numbered RETRIES + 1 always returns, so the bound on the counter is never what ends the loop
    while true
      invariant 1 <= attempt <= RETRIES + 1
      invariant whole == Logged(log, ContestedRun(storage.SlotOf(file), source, user, file, turns[attempt - 1..]))
      invariant OthersKept(PartPath(storage.base, file), FinalPath(storage.base, file),
                           old(storage.disk.files), storage.disk.files)
      decreases RETRIES + 1 - attempt
    {
      var t := turns[attempt - 1];
      OneMoreTurn(log, storage.SlotOf(file), source, user, file, turns[attempt - 1..]);
      OthersAct(storage, policy, file, t.before, t.rules);
      if t.own.stat.Throws? {
        return Escaped, log;
      }
      var offset := 0;
      if t.own.stat.Answers? {
        offset := storage.UploadedBytes(file);
      }
      OthersAct(storage, policy, file, t.between, t.rules);
      if !t.own.nodeFound {
        return Escaped, log;
      }
      log := log + [PushAt(storage.SlotOf(file), offset, source, t.own, Permitted(t.rules, user, file))];
      var seen := PushOnce(storage, policy, user, file, source, offset, t.own);
      match seen {
        case Done => return Succeeded, log;
        case TurnedDown => return RefusedByPeer, log;
        case Cut =>
          if attempt > RETRIES {
            return GaveUp, log;
          }
      }
      assert turns[attempt - 1..][1..] == turns[attempt..];
      attempt := attempt + 1;
    }
  }
}
