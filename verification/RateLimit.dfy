// The webhook receiver's sliding-window rate limit: a deque of accepted
// request times, pruned from the front.

module RateLimit {

  const WINDOW := 60.0

  function PruneFront(queue: seq<real>, cutoff: real): (r: seq<real>)
    ensures |r| <= |queue|
  {
    if queue != [] && queue[0] < cutoff then PruneFront(queue[1..], cutoff) else queue
  }

  predicate Admits(queue: seq<real>, now: real, max: int) {
    |PruneFront(queue, now - WINDOW)| < max
  }

  function QueueAfter(queue: seq<real>, now: real, max: int): seq<real> {
    PruneFront(queue, now - WINDOW) + (if Admits(queue, now, max) then [now] else [])
  }

  class RateLimiter {
    const max: int
    var queue: seq<real>

    constructor (max: int)
      ensures this.max == max && queue == []
    {
      this.max := max;
      queue := [];
    }

    method CheckRateLimit(now: real) returns (ok: bool)
      modifies this
      ensures ok == Admits(old(queue), now, max)
      ensures queue == QueueAfter(old(queue), now, max)
    {
      var cutoff := now - WINDOW;
      while queue != [] && queue[0] < cutoff
        invariant PruneFront(queue, cutoff) == PruneFront(old(queue), cutoff)
        decreases |queue|
      {
        queue := queue[1..];
      }
      if |queue| >= max {
        return false;
      }
      queue := queue + [now];
      return true;
    }

    /** A whole sequence of requests: the times accepted and the deque left are
        those of the specification below. */
    method ServeAll(times: seq<real>) returns (accepted: seq<real>)
      modifies this
      ensures accepted == Serve(old(queue), times, max)
      ensures queue == QueueRun(old(queue), times, max)
    {
      accepted := [];
      var i := 0;
      while i < |times|
        invariant i <= |times|
        invariant Serve(old(queue), times, max) == accepted + Serve(queue, times[i..], max)
        invariant QueueRun(old(queue), times, max) == QueueRun(queue, times[i..], max)
      {
        var ok := CheckRateLimit(times[i]);
        if ok {
          accepted := accepted + [times[i]];
        }
        assert times[i..][1..] == times[i + 1..];
        i := i + 1;
      }
    }
  }

  // Times accepted by the pruned deque, for any clock.
  function Serve(queue: seq<real>, times: seq<real>, max: int): seq<real>
    decreases |times|
  {
    if times == [] then []
    else
      var first := if Admits(queue, times[0], max) then [times[0]] else [];
      first + Serve(QueueAfter(queue, times[0], max), times[1..], max)
  }

  function QueueRun(queue: seq<real>, times: seq<real>, max: int): seq<real>
    decreases |times|
  {
    if times == [] then queue else QueueRun(QueueAfter(queue, times[0], max), times[1..], max)
  }

  // ----- the full-history specification -----

  // Accepted requests at or after an instant, however long ago they came.
  function CountSince(accepted: seq<real>, from: real): nat {
    if accepted == [] then 0
    else (if accepted[|accepted| - 1] >= from then 1 else 0) + CountSince(accepted[..|accepted| - 1], from)
  }

  function CountWithin(accepted: seq<real>, from: real, to: real): nat {
    if accepted == [] then 0
    else
      var last := accepted[|accepted| - 1];
      (if from <= last <= to then 1 else 0) + CountWithin(accepted[..|accepted| - 1], from, to)
  }

  // Accept exactly when fewer than max were accepted in the last 60 seconds.
  function HistoryServe(accepted: seq<real>, times: seq<real>, max: int): seq<real>
    decreases |times|
  {
    if times == [] then accepted
    else HistoryServe(if CountSince(accepted, times[0] - WINDOW) < max then accepted + [times[0]] else accepted,
                      times[1..], max)
  }

  ghost predicate Nondecreasing(s: seq<real>) {
    forall i, j :: 0 <= i < j < |s| ==> s[i] <= s[j]
  }

  lemma Regroup(a: seq<real>, b: seq<real>, c: seq<real>)
    ensures a + (b + c) == (a + b) + c
  {
  }

  // Each accepted request found fewer than max in its window.
  ghost predicate Spaced(accepted: seq<real>, max: int) {
    accepted == [] ||
    (var (rest, last) := (accepted[..|accepted| - 1], accepted[|accepted| - 1]);
     Spaced(rest, max) && CountSince(rest, last - WINDOW) < max && AtMost(rest, last))
  }

  ghost predicate AtMost(accepted: seq<real>, t: real) {
    forall i :: 0 <= i < |accepted| ==> accepted[i] <= t
  }

  lemma SpacedGrow(accepted: seq<real>, now: real, max: int)
    requires Spaced(accepted, max) && AtMost(accepted, now) && CountSince(accepted, now - WINDOW) < max
    ensures Spaced(accepted + [now], max) && AtMost(accepted + [now], now)
  {
    assert (accepted + [now])[..|accepted|] == accepted;
  }

  lemma {:induction false} HistorySpaced(accepted: seq<real>, times: seq<real>, max: int, last: real)
    requires Spaced(accepted, max) && AtMost(accepted, last) && Nondecreasing(times)
    requires times != [] ==> last <= times[0]
    ensures Spaced(HistoryServe(accepted, times, max), max)
    decreases |times|
  {
    if times != [] {
      var now := times[0];
      if CountSince(accepted, now - WINDOW) < max {
        SpacedGrow(accepted, now, max);
        HistorySpaced(accepted + [now], times[1..], max, now);
      } else {
        HistorySpaced(accepted, times[1..], max, now);
      }
    }
  }

  lemma {:induction false} WithinAtMostSince(accepted: seq<real>, from: real, to: real, from': real)
    requires from' <= from
    ensures CountWithin(accepted, from, to) <= CountSince(accepted, from')
  {
    if accepted != [] {
      WithinAtMostSince(accepted[..|accepted| - 1], from, to, from');
    }
  }

  lemma {:induction false} SpacedWindows(accepted: seq<real>, max: int, t: real)
    requires Spaced(accepted, max) && max >= 0
    ensures CountWithin(accepted, t, t + WINDOW) <= max
  {
    if accepted != [] {
      var (rest, last) := (accepted[..|accepted| - 1], accepted[|accepted| - 1]);
      SpacedWindows(rest, max, t);
      if t <= last <= t + WINDOW {
        WithinAtMostSince(rest, t, t + WINDOW, last - WINDOW);
      }
    }
  }

  /** Every closed 60-second interval contains at most max accepted requests. */
  lemma NoWindowExceedsLimit(times: seq<real>, max: int, t: real)
    requires Nondecreasing(times) && max >= 0
    ensures CountWithin(Serve([], times, max), t, t + 60.0) <= max
  {
    ServeIsHistoryServe(times, max);
    HistorySpaced([], times, max, if times == [] then 0.0 else times[0]);
    SpacedWindows(HistoryServe([], times, max), max, t);
  }

  // ----- any clock -----

  // Everything accepted so far, and how many of the oldest have left the deque.
  datatype Track = Track(accepted: seq<real>, popped: nat)

  type History = t: Track | t.popped <= |t.accepted| witness Track([], 0)

  function Deque(t: History): seq<real> {
    t.accepted[t.popped..]
  }

  function TrackStep(t: History, now: real, max: int): History {
    var kept := PruneFront(Deque(t), now - WINDOW);
    Track(t.accepted + (if Admits(Deque(t), now, max) then [now] else []), |t.accepted| - |kept|)
  }

  function Tracked(t: History, times: seq<real>, max: int): History
    decreases |times|
  {
    if times == [] then t else Tracked(TrackStep(t, times[0], max), times[1..], max)
  }

  lemma TrackStepDeque(t: History, now: real, max: int)
    ensures Deque(TrackStep(t, now, max)) == QueueAfter(Deque(t), now, max)
  {
    PrunedAreOld(Deque(t), now - WINDOW);
  }

  /** Whatever the clock does, the deque is what is left of the accepted list
      once the popped requests are gone. */
  lemma {:induction false} DequeIsSuffix(t: History, times: seq<real>, max: int)
    ensures QueueRun(Deque(t), times, max) == Deque(Tracked(t, times, max))
    ensures t.accepted + Serve(Deque(t), times, max) == Tracked(t, times, max).accepted
    decreases |times|
  {
    if times == [] {
      assert t.accepted + [] == t.accepted;
    } else {
      var t' := TrackStep(t, times[0], max);
      TrackStepDeque(t, times[0], max);
      DequeIsSuffix(t', times[1..], max);
      ServeStep(Deque(t), times, max);
      var first := if Admits(Deque(t), times[0], max) then [times[0]] else [];
      Regroup(t.accepted, first, Serve(Deque(t'), times[1..], max));
    }
  }

  lemma {:induction false} CountConcat(a: seq<real>, b: seq<real>, from: real)
    ensures CountSince(a + b, from) == CountSince(a, from) + CountSince(b, from)
  {
    if b == [] {
      assert a + b == a;
    } else {
      assert (a + b)[..|a + b| - 1] == a + b[..|b| - 1];
      CountConcat(a, b[..|b| - 1], from);
    }
  }

  lemma {:induction false} CountBounds(s: seq<real>, from: real)
    ensures CountSince(s, from) <= |s|
    ensures CountSince(s, from) > 0 <==> exists k :: 0 <= k < |s| && s[k] >= from
    ensures CountSince(s, from) < |s| <==> exists k :: 0 <= k < |s| && s[k] < from
  {
    if s != [] {
      var n := |s| - 1;
      CountBounds(s[..n], from);
      assert forall k :: 0 <= k < n ==> s[..n][k] == s[k];
    }
  }

  lemma {:induction false} PrunedAreOld(queue: seq<real>, cutoff: real)
    ensures var r := PruneFront(queue, cutoff);
      r == queue[|queue| - |r|..] && forall k :: 0 <= k < |queue| - |r| ==> queue[k] < cutoff
  {
    if queue != [] && queue[0] < cutoff {
      PrunedAreOld(queue[1..], cutoff);
    }
  }

  // The parts of the history a decision counts differently: popped requests it
  // no longer sees, and kept ones it counts although they are old.
  function Revived(t: History, now: real): nat {
    CountSince(t.accepted[..t.popped], now - WINDOW)
  }

  function Kept(t: History, now: real): seq<real> {
    PruneFront(Deque(t), now - WINDOW)
  }

  lemma HistorySplits(t: History, now: real)
    ensures CountSince(t.accepted, now - WINDOW) == Revived(t, now) + CountSince(Kept(t, now), now - WINDOW)
  {
    var c := now - WINDOW;
    assert t.accepted == t.accepted[..t.popped] + Deque(t);
    CountConcat(t.accepted[..t.popped], Deque(t), c);
    PruningDropsOld(Deque(t), c);
  }

  lemma PruningDropsOld(queue: seq<real>, cutoff: real)
    ensures CountSince(queue, cutoff) == CountSince(PruneFront(queue, cutoff), cutoff)
  {
    var kept := PruneFront(queue, cutoff);
    var pruned := queue[..|queue| - |kept|];
    PrunedAreOld(queue, cutoff);
    assert queue == pruned + kept;
    CountConcat(pruned, kept, cutoff);
    CountBounds(pruned, cutoff);
  }

  predicate Allowed(t: History, now: real, max: int) {
    CountSince(t.accepted, now - WINDOW) < max
  }

  ghost predicate SomeRevived(t: History, now: real) {
    exists k :: 0 <= k < t.popped && t.accepted[k] >= now - WINDOW
  }

  ghost predicate SomeStale(t: History, now: real) {
    exists k :: 0 <= k < |Kept(t, now)| && Kept(t, now)[k] < now - WINDOW
  }

  lemma DecisionIff(t: History, now: real, max: int)
    ensures var (kept, seen) := (|Kept(t, now)|, Revived(t, now) + CountSince(Kept(t, now), now - WINDOW));
      && (Admits(Deque(t), now, max) && !Allowed(t, now, max) <==> kept < max <= seen)
      && (!Admits(Deque(t), now, max) && Allowed(t, now, max) <==> seen < max <= kept)
      && (kept < seen ==> SomeRevived(t, now))
      && (seen < kept ==> SomeStale(t, now))
  {
    var gone := t.accepted[..t.popped];
    HistorySplits(t, now);
    CountBounds(Kept(t, now), now - WINDOW);
    CountBounds(gone, now - WINDOW);
    if Revived(t, now) > 0 {
      var k :| 0 <= k < |gone| && gone[k] >= now - WINDOW;
      assert t.accepted[k] >= now - WINDOW;
    }
  }

  // Each popped request was over a window old at some reading of the clock.
  ghost predicate PoppedBy(t: History, readings: seq<real>) {
    forall k :: 0 <= k < t.popped ==> OldAt(t.accepted[k], readings)
  }

  ghost predicate OldAt(time: real, readings: seq<real>) {
    exists r :: r in readings && time < r - WINDOW
  }

  lemma PoppedStep(t: History, readings: seq<real>, now: real, max: int)
    requires PoppedBy(t, readings)
    ensures PoppedBy(TrackStep(t, now, max), readings + [now])
  {
    PrunedAreOld(Deque(t), now - WINDOW);
    var t' := TrackStep(t, now, max);
    forall k | 0 <= k < t'.popped ensures OldAt(t'.accepted[k], readings + [now]) {
      if k < t.popped {
        assert OldAt(t.accepted[k], readings);
        var r :| r in readings && t.accepted[k] < r - WINDOW;
        assert r in readings + [now];
      } else {
        assert t'.accepted[k] == Deque(t)[k - t.popped];
        assert now in readings + [now];
      }
    }
  }

  lemma {:induction false} PoppedRun(t: History, readings: seq<real>, times: seq<real>, max: int)
    requires PoppedBy(t, readings)
    ensures PoppedBy(Tracked(t, times, max), readings + times)
    decreases |times|
  {
    if times == [] {
      assert readings + times == readings;
    } else {
      PoppedStep(t, readings, times[0], max);
      PoppedRun(TrackStep(t, times[0], max), readings + [times[0]], times[1..], max);
      assert readings + times == readings + [times[0]] + times[1..];
    }
  }

  // The clock has been ahead of now, by more than the age of some accepted
  // request that is within the window now.
  ghost predicate ClockWasAhead(t: History, times: seq<real>, now: real) {
    exists k, r :: 0 <= k < t.popped && r in times && now - WINDOW <= t.accepted[k] < r - WINDOW
  }

  // A request was accepted at an earlier reading than one accepted before it.
  ghost predicate ClockSteppedBack(accepted: seq<real>) {
    exists i, j :: 0 <= i < j < |accepted| && accepted[j] < accepted[i]
  }

  lemma StaleMeansSteppedBack(t: History, now: real)
    requires SomeStale(t, now)
    ensures ClockSteppedBack(t.accepted)
  {
    var kept := Kept(t, now);
    var k :| 0 <= k < |kept| && kept[k] < now - WINDOW;
    PrunedAreOld(Deque(t), now - WINDOW);
    PrunedFront(Deque(t), now - WINDOW);
    var first := |t.accepted| - |kept|;
    assert kept[0] == t.accepted[first] && kept[k] == t.accepted[first + k];
  }

  lemma RevivedMeansAhead(t: History, times: seq<real>, now: real)
    requires SomeRevived(t, now) && PoppedBy(t, times)
    ensures ClockWasAhead(t, times, now)
  {
    var k :| 0 <= k < t.popped && t.accepted[k] >= now - WINDOW;
    assert OldAt(t.accepted[k], times);
    var r :| r in times && t.accepted[k] < r - WINDOW;
  }

  /** For any clock, after any requests: the next one is admitted against the
      history if and only if the deque keeps fewer than max while the popped
      requests that are again within the window make up the difference. That
      takes a clock that has been ahead: while no earlier reading is later than
      now, nobody is let in against the history, however the clock moved before.
      Likewise a request is refused against the history only after one was
      accepted at an earlier reading than the one before it. */
  lemma OverAdmissionIff(times: seq<real>, now: real, max: int)
    ensures var t := Tracked(Track([], 0), times, max);
      var admits := Admits(QueueRun([], times, max), now, max);
      var (kept, seen) := (|Kept(t, now)|, Revived(t, now) + CountSince(Kept(t, now), now - WINDOW));
      && t.accepted == Serve([], times, max)
      && (admits && !Allowed(t, now, max) <==> kept < max <= seen)
      && (admits && !Allowed(t, now, max) ==> ClockWasAhead(t, times, now) && exists r :: r in times && now < r)
      && (!admits && Allowed(t, now, max) <==> seen < max <= kept)
      && (!admits && Allowed(t, now, max) ==> ClockSteppedBack(t.accepted))
  {
    var start: History := Track([], 0);
    var t := Tracked(start, times, max);
    assert Deque(start) == [];
    DequeIsSuffix(start, times, max);
    assert [] + Serve([], times, max) == Serve([], times, max);
    DecisionIff(t, now, max);
    PoppedRun(start, [], times, max);
    assert [] + times == times;
    if SomeRevived(t, now) {
      RevivedMeansAhead(t, times, now);
    }
    if SomeStale(t, now) {
      StaleMeansSteppedBack(t, now);
    }
  }

  // ----- a clock that does not step back -----

  // Nothing popped is within the window again.
  ghost predicate Forward(t: History, last: real) {
    && Nondecreasing(t.accepted) && AtMost(t.accepted, last)
    && (forall i :: 0 <= i < t.popped ==> t.accepted[i] < last - WINDOW)
  }

  lemma ForwardDecides(t: History, last: real, now: real, max: int)
    requires Forward(t, last) && last <= now
    ensures Admits(Deque(t), now, max) == Allowed(t, now, max)
  {
    var c := now - WINDOW;
    PrunedAreOld(Deque(t), c);
    PrunedFront(Deque(t), c);
    DecisionIff(t, now, max);
    assert !SomeRevived(t, now);
    assert !SomeStale(t, now) by {
      forall k | 0 <= k < |Kept(t, now)| ensures Kept(t, now)[k] >= c {
        assert Kept(t, now)[0] <= Kept(t, now)[k];
      }
    }
  }

  lemma PrunedFront(queue: seq<real>, cutoff: real)
    ensures var r := PruneFront(queue, cutoff); r != [] ==> r[0] >= cutoff
  {
  }

  lemma ForwardStep(t: History, last: real, now: real, max: int)
    requires Forward(t, last) && last <= now
    ensures Forward(TrackStep(t, now, max), now)
  {
    PrunedAreOld(Deque(t), now - WINDOW);
    var t' := TrackStep(t, now, max);
    forall i | 0 <= i < t'.popped ensures t'.accepted[i] < now - WINDOW {
      if t.popped <= i {
        assert t'.accepted[i] == Deque(t)[i - t.popped];
      }
    }
  }

  lemma {:induction false} ForwardIsHistory(t: History, last: real, times: seq<real>, max: int)
    requires Forward(t, last) && Nondecreasing(times) && (times != [] ==> last <= times[0])
    ensures Tracked(t, times, max).accepted == HistoryServe(t.accepted, times, max)
    decreases |times|
  {
    if times != [] {
      ForwardDecides(t, last, times[0], max);
      ForwardStep(t, last, times[0], max);
      ForwardIsHistory(TrackStep(t, times[0], max), times[0], times[1..], max);
      assert t.accepted + [] == t.accepted;
    }
  }

  /** With a nondecreasing clock every decision on the pruned deque is the
      decision on the whole history. */
  lemma ServeIsHistoryServe(times: seq<real>, max: int)
    requires Nondecreasing(times)
    ensures Serve([], times, max) == HistoryServe([], times, max)
  {
    var start: History := Track([], 0);
    assert Deque(start) == [];
    DequeIsSuffix(start, times, max);
    assert [] + Serve([], times, max) == Serve([], times, max);
    ForwardIsHistory(start, if times == [] then 0.0 else times[0], times, max);
  }

  lemma {:induction false} WithinIsSince(accepted: seq<real>, from: real, to: real)
    requires AtMost(accepted, to)
    ensures CountWithin(accepted, from, to) == CountSince(accepted, from)
  {
    if accepted != [] {
      WithinIsSince(accepted[..|accepted| - 1], from, to);
    }
  }

  lemma {:induction false} HistoryNext(accepted: seq<real>, times: seq<real>, now: real, max: int)
    ensures var before := HistoryServe(accepted, times, max);
      HistoryServe(accepted, times + [now], max) == before + (if CountSince(before, now - 60.0) < max then [now] else [])
    decreases |times|
  {
    if times == [] {
      assert [] + [now] == [now] && [now][1..] == [] && accepted + [] == accepted;
    } else {
      assert (times + [now])[1..] == times[1..] + [now] && (times + [now])[0] == times[0];
      HistoryNext(if CountSince(accepted, times[0] - 60.0) < max then accepted + [times[0]] else accepted, times[1..], now, max);
    }
  }

  lemma {:induction false} HistoryAtMost(accepted: seq<real>, times: seq<real>, max: int, to: real)
    requires AtMost(accepted, to) && AtMost(times, to)
    ensures AtMost(HistoryServe(accepted, times, max), to)
    decreases |times|
  {
    if times != [] {
      HistoryAtMost(if CountSince(accepted, times[0] - 60.0) < max then accepted + [times[0]] else accepted, times[1..], max, to);
    }
  }

  /** The decision, in seconds: with a nondecreasing clock a request is accepted
      exactly when fewer than max were accepted in the 60 seconds up to it. */
  lemma AcceptsIff(times: seq<real>, now: real, max: int)
    requires Nondecreasing(times + [now])
    ensures var accepted := Serve([], times, max);
      Serve([], times + [now], max) == accepted + (if CountWithin(accepted, now - 60.0, now) < max then [now] else [])
  {
    forall i, j | 0 <= i < j < |times| ensures times[i] <= times[j] {
      assert (times + [now])[i] == times[i] && (times + [now])[j] == times[j];
    }
    forall i | 0 <= i < |times| ensures times[i] <= now {
      assert (times + [now])[i] == times[i] && (times + [now])[|times|] == now;
    }
    ServeIsHistoryServe(times, max);
    ServeIsHistoryServe(times + [now], max);
    HistoryNext([], times, now, max);
    HistoryAtMost([], times, max, now);
    WithinIsSince(HistoryServe([], times, max), now - 60.0, now);
  }

  // Requests at 100, 100, 161 and 100 against a limit of 2.
  lemma RewoundServe()
    ensures Serve([], [100.0, 100.0, 161.0, 100.0], 2) == [100.0, 100.0, 161.0, 100.0]
  {
    var times := [100.0, 100.0, 161.0, 100.0];
    ServeStep([], times, 2);
    ServeStep([100.0], times[1..], 2);
    ServeStep([100.0, 100.0], times[1..][1..], 2);
    PruneBoth(100.0, 101.0);
    ServeStep([161.0], times[1..][1..][1..], 2);
    assert times[1..][1..][1..][1..] == [];
  }

  lemma PruneBoth(t: real, cutoff: real)
    requires t < cutoff
    ensures PruneFront([t, t], cutoff) == []
  {
    assert [t, t][1..] == [t] && [t][1..] == [];
  }

  /** The clock must not step back: pruning forgets requests a rewound clock
      would still have to count, and three are accepted in one instant. */
  lemma RewoundClockExceedsLimit()
    ensures CountWithin(Serve([], [100.0, 100.0, 161.0, 100.0], 2), 100.0, 160.0) == 3
  {
    RewoundServe();
    var r := [100.0, 100.0, 161.0, 100.0];
    assert r[..3] == [100.0, 100.0, 161.0] && r[..3][..2] == [100.0, 100.0] && r[..3][..2][..1] == [100.0];
    assert CountWithin(r[..3][..2][..1], 100.0, 160.0) == 1;
    assert CountWithin(r[..3][..2], 100.0, 160.0) == 2;
  }

  lemma ServeStep(queue: seq<real>, times: seq<real>, max: int)
    requires times != []
    ensures var first := if Admits(queue, times[0], max) then [times[0]] else [];
      Serve(queue, times, max) == first + Serve(QueueAfter(queue, times[0], max), times[1..], max)
  {
  }
}
