/**
 Where a monitor's events come from: the stories that the upload and download handlers publish, any number of them
 interleaved in any way.
 */
module Lifecycles {
  import opened Bytes
  import opened Monitor
  import Receive
  import Sockets
  import Throttle
  import Handlers = Upload
  import Download

  /** A transfer that a handler is working on. */
  datatype Life = Life(dir: Direction, user: string, file: string)

  /** A handler at work, and what it has still to publish. */
  datatype Work = Work(life: Life, rest: seq<Handlers.Published>)

  /** Progress, and then at most one end. */
  predicate Orderly(rest: seq<Handlers.Published>) {
    forall i | 0 <= i < |rest| :: rest[i].Progressed? || (i == |rest| - 1 && (rest[i].CutOff? || rest[i].Finished?))
  }

  predicate IsStory(published: seq<Handlers.Published>) {
    published != [] && published[0].Begun? && Orderly(published[1..])
  }

  lemma {:induction false} ReportsAndEnd(reports: seq<int>, end: seq<Handlers.Published>)
    requires |end| <= 1 && forall p | p in end :: p.CutOff? || p.Finished?
    ensures Orderly(Handlers.AllProgressed(reports) + end)
    ensures IsStory([Handlers.Begun] + Handlers.AllProgressed(reports) + end)
  {
    var rest := Handlers.AllProgressed(reports) + end;
    var story := [Handlers.Begun] + Handlers.AllProgressed(reports) + end;
    assert story[1..] == rest;
    assert end != [] ==> end[0] in end;
  }

  /** What an upload publishes once it is admitted is a story, whatever happens to it. */
  lemma {:induction false} UploadIsStory(slot: Handlers.Slot, offset: int, total: int, sock: Sockets.Sock, hwm: nat,
                                         events: seq<Receive.Event>, fate: Handlers.Fate)
    ensures IsStory([Handlers.Begun] + Handlers.Story(slot, offset, total, sock, hwm, events, fate))
  {
    var story := Handlers.Story(slot, offset, total, sock, hwm, events, fate);
    assert ([Handlers.Begun] + story)[1..] == story;
  }

  /** So is what a download publishes. */
  lemma {:induction false} DownloadIsStory(there: Option<bytes>, size: nat, offset: nat, lost: Option<nat>)
    ensures IsStory(Download.DownloadStory(there, size, offset, lost))
  {
    var chunks := Download.Sent(there, offset, lost);
    ReportsAndEnd(Throttle.Reports(offset + Throttle.PROGRESS_EVERY, offset, Throttle.Sizes(chunks)),
                  if there.None? then [] else if lost.Some? then [Handlers.CutOff(offset + |Flatten(chunks)|)]
                  else [Handlers.Finished(size)]);
  }

  datatype Act =
    | Begin(life: Life, story: seq<Handlers.Published>, ts: int, offset: nat, total: nat)
    | Advance(i: nat, ts: int)   // the handler publishes the next event of its story, if there is one
    | Elsewhere(e: Event)        // something that is not about a transfer

  function Dropped(running: seq<Work>, i: nat): (r: seq<Work>)
    requires i < |running|
  {
    running[..i] + running[i + 1..]
  }

  /** The handlers at work after one act, and what it publishes. */
  function Publish(running: seq<Work>, act: Act): (r: (seq<Work>, seq<Event>)) {
    match act
    case Begin(l, story, ts, offset, total) =>
      if !IsStory(story) then (running, [])
      else (running + [Work(l, story[1..])], [Event(ts, Started(l.dir), l.user, l.file, offset, total, 0, 0)])
    case Advance(i, ts) =>
      if i >= |running| || running[i].rest == [] then (running, [])
      else
        var (l, rest) := (running[i].life, running[i].rest);
        (match rest[0]
         case Finished(size) => (Dropped(running, i), [Event(ts, Completed(l.dir), l.user, l.file, 0, 0, 0, size)])
         case CutOff(_) => (Dropped(running, i), [Event(ts, Aborted(l.dir), l.user, l.file, 0, 0, 0, 0)])
         case Progressed(done) =>
           (running[i := Work(l, rest[1..])], [Event(ts, Progress(l.dir), l.user, l.file, 0, 0, Max(done, 0), 0)])
         case _ => (running, []))
    case Elsewhere(e) => (running, if KeyOf(e).None? then [e] else [])
  }

  /** The handlers at work and everything published, after a whole history. */
  function Trace(acts: seq<Act>): (r: (seq<Work>, seq<Event>)) {
    if acts == [] then ([], [])
    else
      var (running, events) := Trace(acts[..|acts| - 1]);
      var (left, told) := Publish(running, acts[|acts| - 1]);
      (left, events + told)
  }

  function KeyOfLife(l: Life): (r: string) {
    Key(l.user, l.file, l.dir)
  }

  function KeyList(running: seq<Work>): (r: seq<string>)
    ensures |r| == |running| && forall i | 0 <= i < |r| :: r[i] == KeyOfLife(running[i].life)
  {
    seq(|running|, i requires 0 <= i < |running| => KeyOfLife(running[i].life))
  }

  /** The keys of the handlers at work. */
  function Keys(running: seq<Work>): (r: multiset<string>) {
    multiset(KeyList(running))
  }

  lemma {:induction false} KeysSnoc(running: seq<Work>, w: Work)
    ensures Keys(running + [w]) == Keys(running) + multiset{KeyOfLife(w.life)}
  {
    assert KeyList(running + [w]) == KeyList(running) + [KeyOfLife(w.life)];
  }

  lemma {:induction false} DropOne(keys: seq<string>, i: nat)
    requires i < |keys|
    ensures multiset(keys) == multiset(keys[..i] + keys[i + 1..]) + multiset{keys[i]}
  {
    assert keys == keys[..i] + ([keys[i]] + keys[i + 1..]);
  }

  lemma {:induction false} KeysDropped(running: seq<Work>, i: nat)
    requires i < |running|
    ensures Keys(running) == Keys(Dropped(running, i)) + multiset{KeyOfLife(running[i].life)}
  {
    var keys := KeyList(running);
    DropOne(keys, i);
    assert KeyList(Dropped(running, i)) == keys[..i] + keys[i + 1..];
  }

  function EventKey(e: Event): (r: string)
    requires e.kind.Started? || e.kind.Progress? || e.kind.Completed? || e.kind.Aborted?
  {
    Key(e.user, e.file, e.kind.dir)
  }

  predicate EndsSomething(e: Event) {
    e.kind.Completed? || e.kind.Aborted?
  }

  lemma {:induction false} OpenSnoc(events: seq<Event>, e: Event)
    ensures Matched(events + [e]) <==> Matched(events) && (EndsSomething(e) ==> EventKey(e) in Open(events))
    ensures Open(events + [e])
            == if e.kind.Started? then Open(events) + multiset{EventKey(e)}
               else if EndsSomething(e) then Open(events) - multiset{EventKey(e)}
               else Open(events)
  {
    var more := events + [e];
    assert more[..|more| - 1] == events && more[|more| - 1] == e;
  }

  /**
   Every end so far had a start, every handler at work has a transfer open, and none has anything to publish after its
   end, so that nothing of a story is left out when its handler is dropped.
   */
  ghost predicate Sound(running: seq<Work>, events: seq<Event>) {
    Matched(events) && Keys(running) <= Open(events) && forall w | w in running :: Orderly(w.rest)
  }

  lemma {:induction false} BeginSound(running: seq<Work>, events: seq<Event>, w: Work, e: Event)
    requires Sound(running, events) && Orderly(w.rest) && e.kind.Started? && EventKey(e) == KeyOfLife(w.life)
    ensures Sound(running + [w], events + [e])
  {
    OpenSnoc(events, e);
    KeysSnoc(running, w);
  }

  lemma {:induction false} EndSound(running: seq<Work>, events: seq<Event>, i: nat, e: Event)
    requires Sound(running, events) && i < |running| && EndsSomething(e) && EventKey(e) == KeyOfLife(running[i].life)
    ensures Sound(Dropped(running, i), events + [e])
  {
    OpenSnoc(events, e);
    KeysDropped(running, i);
  }

  /** Publishing progress changes neither whose transfers are running nor the order of what is left to say. */
  lemma {:induction false} AdvanceKeeps(running: seq<Work>, i: nat)
    requires i < |running| && running[i].rest != [] && forall w | w in running :: Orderly(w.rest)
    ensures var next := running[i := Work(running[i].life, running[i].rest[1..])];
            Keys(next) == Keys(running) && forall w | w in next :: Orderly(w.rest)
  {
    var moved := Work(running[i].life, running[i].rest[1..]);
    var next := running[i := moved];
    assert KeyList(next) == KeyList(running);
    assert Orderly(running[i].rest);
    forall w | w in next ensures Orderly(w.rest) {
      assert w == moved || w in running;
    }
  }

  lemma {:induction false} ProgressSound(running: seq<Work>, events: seq<Event>, i: nat, e: Event)
    requires Sound(running, events) && i < |running| && running[i].rest != [] && e.kind.Progress?
    ensures Sound(running[i := Work(running[i].life, running[i].rest[1..])], events + [e])
  {
    OpenSnoc(events, e);
    AdvanceKeeps(running, i);
  }

  lemma {:induction false} OtherSound(running: seq<Work>, events: seq<Event>, e: Event)
    requires Sound(running, events) && !e.kind.Started? && !EndsSomething(e)
    ensures Sound(running, events + [e])
  {
    OpenSnoc(events, e);
  }

  lemma {:induction false} AdvanceSound(running: seq<Work>, events: seq<Event>, i: nat, ts: int)
    requires Sound(running, events) && Publish(running, Advance(i, ts)).1 != []
    ensures Sound(Publish(running, Advance(i, ts)).0, events + Publish(running, Advance(i, ts)).1)
  {
    var told := Publish(running, Advance(i, ts)).1;
    if running[i].rest[0].Progressed? {
      ProgressSound(running, events, i, told[0]);
    } else {
      EndSound(running, events, i, told[0]);
    }
  }

  ghost predicate StaysSound(running: seq<Work>, events: seq<Event>, act: Act) {
    Sound(Publish(running, act).0, events + Publish(running, act).1)
  }

  lemma {:induction false} SilentSound(running: seq<Work>, events: seq<Event>, act: Act)
    requires Sound(running, events) && Publish(running, act) == (running, [])
    ensures StaysSound(running, events, act)
  {
    assert events + [] == events;
  }

  lemma {:induction false} BeginActSound(running: seq<Work>, events: seq<Event>, act: Act)
    requires Sound(running, events) && act.Begin? && IsStory(act.story)
    ensures StaysSound(running, events, act)
  {
    BeginSound(running, events, Work(act.life, act.story[1..]), Publish(running, act).1[0]);
  }

  lemma {:induction false} ElsewhereSound(running: seq<Work>, events: seq<Event>, act: Act)
    requires Sound(running, events) && act.Elsewhere? && KeyOf(act.e).None?
    ensures StaysSound(running, events, act)
  {
    OtherSound(running, events, act.e);
  }

  /** One act keeps every handler's transfer open until the handler ends it. */
  lemma {:induction false} PublishSound(running: seq<Work>, events: seq<Event>, act: Act)
    requires Sound(running, events)
    ensures StaysSound(running, events, act)
  {
    if Publish(running, act) == (running, []) {
      SilentSound(running, events, act);
    } else if act.Begin? {
      BeginActSound(running, events, act);
    } else if act.Advance? {
      AdvanceSound(running, events, act.i, act.ts);
    } else {
      ElsewhereSound(running, events, act);
    }
  }

  /** However handlers interleave, every end they announce matches an open start. */
  lemma {:induction false} LifecyclesMatch(acts: seq<Act>)
    ensures Sound(Trace(acts).0, Trace(acts).1)
  {
    if acts != [] {
      var n := |acts| - 1;
      LifecyclesMatch(acts[..n]);
      PublishSound(Trace(acts[..n]).0, Trace(acts[..n]).1, acts[n]);
    }
  }

  /** So no node ever shows more live transfers than its counters leave outstanding. */
  lemma {:induction false} HandlersShownWithinOutstanding(acts: seq<Act>)
    ensures var board := Watch(Trace(acts).1);
            |Shown(board)| <= Outstanding(board.counters)
  {
    LifecyclesMatch(acts);
    LiveTransfersBounded(Trace(acts).1);
  }

  // ------------------------------------------------------------------ one story, event by event

  /** The event says of this transfer what the handler has to say. */
  ghost predicate Announces(e: Event, p: Handlers.Published, l: Life) {
    && e.user == l.user && e.file == l.file
    && match p
       case Begun => e.kind == Started(l.dir)
       case Progressed(done) => e.kind == Progress(l.dir) && (done >= 0 ==> e.done == done)
       case CutOff(_) => e.kind == Aborted(l.dir)
       case Finished(size) => e.kind == Completed(l.dir) && e.size == size
       case Forbidden => false
  }

  /** A handler left alone, publishing the first `n` events of its story at these times. */
  function Solo(l: Life, story: seq<Handlers.Published>, times: seq<int>, offset: nat, total: nat): (r: seq<Act>)
    requires times != []
    ensures |r| == |times|
    decreases |times|
  {
    if |times| == 1 then [Begin(l, story, times[0], offset, total)]
    else Solo(l, story, times[..|times| - 1], offset, total) + [Advance(0, times[|times| - 1])]
  }

  /** The whole story reaches the monitor, each event as what it is. */
  lemma {:induction false} StoryIsTold(l: Life, story: seq<Handlers.Published>, times: seq<int>,
                                       offset: nat, total: nat)
    requires IsStory(story) && 0 < |times| <= |story|
    ensures var (running, events) := Trace(Solo(l, story, times, offset, total));
            && |events| == |times|
            && (forall i | 0 <= i < |events| :: Announces(events[i], story[i], l) && events[i].ts == times[i])
            && (|times| < |story| ==> running == [Work(l, story[|times|..])])
    decreases |times|
  {
    var acts := Solo(l, story, times, offset, total);
    var n := |times| - 1;
    var front := acts[..n];
    if n == 0 {
      assert Trace(front) == ([], []);
      assert [] + [Work(l, story[1..])] == [Work(l, story[1..])];
    } else {
      assert front == Solo(l, story, times[..n], offset, total);
      StoryIsTold(l, story, times[..n], offset, total);
      var (running, events) := Trace(front);
      assert story[1..][n - 1] == story[n];
      assert story[n..][0] == story[n] && story[n..][1..] == story[n + 1..];
      assert running[0 := Work(l, story[n + 1..])] == [Work(l, story[n + 1..])];
    }
  }
}
