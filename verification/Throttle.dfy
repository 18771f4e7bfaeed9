/** Progress reports of a transfer: at most one every PROGRESS_EVERY bytes. */
module Throttle {
  import opened Bytes

  const CHUNK_SIZE := 1024 * 1024
  const PROGRESS_EVERY := 8 * CHUNK_SIZE

  function Sum(sizes: seq<nat>): (r: nat) {
    if sizes == [] then 0 else sizes[0] + Sum(sizes[1..])
  }

  /** The values reported while a transfer that stands at `done` moves on by the given chunk sizes. */
  function Reports(next: int, done: int, sizes: seq<nat>): (r: seq<int>)
    decreases |sizes|
  {
    if sizes == [] then []
    else
      var now := done + sizes[0];
      if now >= next then [now] + Reports(now + PROGRESS_EVERY, now, sizes[1..])
      else Reports(next, now, sizes[1..])
  }

  /** The `nextReport` variable of a handler and the progress events it has published. */
  datatype Gauge = Gauge(next: int, reports: seq<int>)

  function StartGauge(offset: int): (r: Gauge) {
    Gauge(offset + PROGRESS_EVERY, [])
  }

  /** What the progress callback does when it is told that `done` bytes are there. */
  function Reported(g: Gauge, done: int): (r: Gauge) {
    if done >= g.next then Gauge(done + PROGRESS_EVERY, g.reports + [done]) else g
  }

  class Meter {
    var next: int
    var reports: seq<int>

    constructor (offset: int)
      ensures View() == StartGauge(offset)
    {
      next, reports := offset + PROGRESS_EVERY, [];
    }

    function View(): (g: Gauge)
      reads this
    {
      Gauge(next, reports)
    }

    method OnProgress(done: int)
      modifies this
      ensures View() == Reported(old(View()), done)
    {
      if done >= next {
        reports := reports + [done];
        next := done + PROGRESS_EVERY;
      }
    }
  }

  /** The pass-through stream of the download path: counts from `startAt` and passes every chunk on. */
  class CountingStream {
    var count: int
    const meter: Meter

    constructor (meter: Meter, startAt: int)
      ensures this.meter == meter && count == startAt
    {
      this.meter, count := meter, startAt;
    }

    method Transform(chunk: bytes) returns (out: bytes)
      modifies this, meter
      ensures out == chunk && count == old(count) + |chunk|
      ensures meter.View() == Reported(old(meter.View()), count)
    {
      count := count + |chunk|;
      meter.OnProgress(count);
      out := chunk;
    }
  }

  function Sizes(chunks: seq<bytes>): (r: seq<nat>)
    ensures |r| == |chunks|
  {
    seq(|chunks|, i requires 0 <= i < |chunks| => |chunks[i]|)
  }

  /** The chunks that pass before the receiver disappears, if it does. */
  function Passed(chunks: seq<bytes>, lost: Option<nat>): (r: seq<bytes>)
    ensures r <= chunks
    ensures |r| == if lost.Some? then Min(lost.value, |chunks|) else |chunks|
  {
    match lost
    case Some(n) => chunks[..Min(n, |chunks|)]
    case None => chunks
  }

  /** `pipeline(reader, counter, socket)`: what reaches the socket, what was reported, where the count stands. */
  method Pipe(offset: int, chunks: seq<bytes>, lost: Option<nat>) returns (sent: bytes, reports: seq<int>, count: int)
    ensures sent == Flatten(Passed(chunks, lost))
    ensures reports == Reports(offset + PROGRESS_EVERY, offset, Sizes(Passed(chunks, lost)))
    ensures count == offset + |sent|
  {
    var passed := Passed(chunks, lost);
    var meter := new Meter(offset);
    var counter := new CountingStream(meter, offset);
    sent := [];
    var i := 0;
    while i < |passed|
      invariant 0 <= i <= |passed|
      invariant Flatten(passed) == sent + Flatten(passed[i..])
      invariant counter.count == offset + |sent|
      invariant Reports(offset + PROGRESS_EVERY, offset, Sizes(passed))
             == meter.reports + Reports(meter.next, counter.count, Sizes(passed)[i..])
    {
      var out := counter.Transform(passed[i]);
      sent := sent + out;
      assert Sizes(passed)[i..][0] == |passed[i]|;
      assert Sizes(passed)[i..][1..] == Sizes(passed)[i + 1..];
      assert passed[i..][1..] == passed[i + 1..];
      i := i + 1;
    }
    reports, count := meter.reports, counter.count;
  }

  /** Where the transfer stood at its last report (or its start), then at each report. */
  function Marks(last: int, done: int, sizes: seq<nat>): (r: seq<int>) {
    [last] + Reports(last + PROGRESS_EVERY, done, sizes)
  }

  ghost predicate Spaced(marks: seq<int>, largest: nat) {
    forall i | 0 <= i < |marks| - 1 :: PROGRESS_EVERY <= marks[i + 1] - marks[i] < PROGRESS_EVERY + largest
  }

  lemma {:induction false} SpacedCons(last: int, marks: seq<int>, largest: nat)
    requires marks != [] && Spaced(marks, largest)
    requires PROGRESS_EVERY <= marks[0] - last < PROGRESS_EVERY + largest
    ensures Spaced([last] + marks, largest)
  {
    var more := [last] + marks;
    assert forall i | 0 <= i < |marks| :: more[i + 1] == marks[i];
    forall i | 0 <= i < |more| - 1 ensures PROGRESS_EVERY <= more[i + 1] - more[i] < PROGRESS_EVERY + largest {
      assert i > 0 ==> more[i] == marks[i - 1];
    }
  }

  /** Reports are at least PROGRESS_EVERY apart, and less than that plus a chunk. */
  lemma {:induction false} MarksSpaced(last: int, done: int, sizes: seq<nat>, largest: nat)
    requires last <= done < last + PROGRESS_EVERY
    requires forall n | n in sizes :: n <= largest
    ensures Spaced(Marks(last, done, sizes), largest)
    decreases |sizes|
  {
    if sizes != [] {
      var now := done + sizes[0];
      assert sizes[0] in sizes;
      assert forall n | n in sizes[1..] :: n in sizes;
      if now >= last + PROGRESS_EVERY {
        MarksSpaced(now, now, sizes[1..], largest);
        SpacedCons(last, Marks(now, now, sizes[1..]), largest);
        assert Marks(last, done, sizes) == [last] + Marks(now, now, sizes[1..]);
      } else {
        MarksSpaced(last, now, sizes[1..], largest);
        assert Marks(last, done, sizes) == Marks(last, now, sizes[1..]);
      }
    }
  }

  /** The last report is never a whole PROGRESS_EVERY behind. */
  lemma {:induction false} LastMark(last: int, done: int, sizes: seq<nat>)
    requires last <= done < last + PROGRESS_EVERY
    ensures var marks := Marks(last, done, sizes);
            marks[|marks| - 1] <= done + Sum(sizes) < marks[|marks| - 1] + PROGRESS_EVERY
    decreases |sizes|
  {
    if sizes != [] {
      var now := done + sizes[0];
      if now >= last + PROGRESS_EVERY {
        LastMark(now, now, sizes[1..]);
        assert Marks(last, done, sizes) == [last] + Marks(now, now, sizes[1..]);
      } else {
        LastMark(last, now, sizes[1..]);
      }
    }
  }

  lemma {:induction false} MarksRise(marks: seq<int>, largest: nat)
    requires marks != [] && Spaced(marks, largest)
    ensures forall i | 0 < i < |marks| :: marks[0] + PROGRESS_EVERY <= marks[i] <= marks[|marks| - 1]
    ensures (|marks| - 1) * PROGRESS_EVERY <= marks[|marks| - 1] - marks[0]
  {
    if |marks| > 1 {
      var n := |marks| - 1;
      var front := marks[..n];
      MarksRise(front, largest);
      assert marks[n] >= front[n - 1] + PROGRESS_EVERY;
      assert n * PROGRESS_EVERY == (n - 1) * PROGRESS_EVERY + PROGRESS_EVERY;
    }
  }

  lemma {:induction false} OneMoreTime(q: int, n: int, every: nat)
    requires q < n
    ensures q * every + every <= n * every
  {
    TimesMonotone(q + 1, n, every);
    assert (q + 1) * every == q * every + every;
  }

  lemma {:induction false} AtMostQuotient(n: nat, every: nat, x: int)
    requires every > 0 && n * every <= x
    ensures n <= x / every
  {
    assert x == (x / every) * every + x % every;
    if x / every < n {
      OneMoreTime(x / every, n, every);
    }
  }

  /**
   Reports are at least PROGRESS_EVERY apart, never lag by a whole PROGRESS_EVERY plus a chunk, are never
   withheld once due, and there is at most one for each PROGRESS_EVERY bytes.
   */
  lemma {:induction false} Throttled(last: int, done: int, sizes: seq<nat>, largest: nat)
    requires last <= done < last + PROGRESS_EVERY
    requires forall n | n in sizes :: n <= largest
    ensures var marks := Marks(last, done, sizes);
            && Spaced(marks, largest)
            && marks[|marks| - 1] <= done + Sum(sizes) < marks[|marks| - 1] + PROGRESS_EVERY
            && |marks| - 1 <= (done + Sum(sizes) - last) / PROGRESS_EVERY
  {
    MarksSpaced(last, done, sizes, largest);
    LastMark(last, done, sizes);
    var marks := Marks(last, done, sizes);
    MarksRise(marks, largest);
    AtMostQuotient(|marks| - 1, PROGRESS_EVERY, done + Sum(sizes) - last);
  }

  /** For a whole transfer of `total - offset` bytes. */
  lemma {:induction false} TransferReports(offset: int, total: int, sizes: seq<nat>, largest: nat)
    requires Sum(sizes) == total - offset
    requires forall n | n in sizes :: n <= largest
    ensures var reports := Reports(offset + PROGRESS_EVERY, offset, sizes);
            && |reports| <= (total - offset) / PROGRESS_EVERY
            && Spaced(reports, largest)
            && forall i | 0 <= i < |reports| :: offset + PROGRESS_EVERY <= reports[i] <= total
  {
    Throttled(offset, offset, sizes, largest);
    var marks := Marks(offset, offset, sizes);
    var reports := Reports(offset + PROGRESS_EVERY, offset, sizes);
    assert forall i | 0 <= i < |reports| :: reports[i] == marks[i + 1];
    MarksRise(marks, largest);
  }

  /** What is reported is where the transfer stood after one of its pieces. */
  lemma {:induction false} ReportsAreMarks(next: int, done: int, sizes: seq<nat>, i: nat) returns (k: nat)
    requires i < |Reports(next, done, sizes)|
    ensures 0 < k <= |sizes| && Reports(next, done, sizes)[i] == done + Sum(sizes[..k])
    decreases |sizes|
  {
    var now, rest := done + sizes[0], sizes[1..];
    assert sizes[..1] == [sizes[0]] && sizes[..1][1..] == [];
    if now >= next && i == 0 {
      k := 1;
    } else {
      var j: nat;
      if now >= next {
        j := ReportsAreMarks(now + PROGRESS_EVERY, now, rest, i - 1);
      } else {
        j := ReportsAreMarks(next, now, rest, i);
      }
      k := j + 1;
      assert sizes[..k][0] == sizes[0] && sizes[..k][1..] == rest[..j];
    }
  }
}
