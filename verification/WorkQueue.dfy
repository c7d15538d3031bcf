// The agents' work queue, a list pushed on the left and popped on the right,
// and the dequeue-process-requeue loop of any number of runners.

module WorkQueue {
  import opened Options

  // The text of an item, as it is stored in the list.
  datatype Raw = Raw(text: string)

  function Reverse(s: seq<Raw>): (r: seq<Raw>)
    ensures |r| == |s|
    ensures forall i :: 0 <= i < |s| ==> r[i] == s[|s| - 1 - i]
  {
    if s == [] then [] else Reverse(s[1..]) + [s[0]]
  }

  lemma ReverseSnoc(s: seq<Raw>, x: Raw)
    ensures Reverse(s + [x]) == [x] + Reverse(s)
  {
  }

  lemma ReverseCons(x: Raw, s: seq<Raw>)
    ensures Reverse([x] + s) == Reverse(s) + [x]
  {
    assert ([x] + s)[1..] == s;
  }

  lemma ReverseMultiset(s: seq<Raw>)
    ensures multiset(Reverse(s)) == multiset(s)
  {
    if s != [] {
      assert s == [s[0]] + s[1..];
    }
  }

  // ----- one runner over one queue -----

  datatype Polled = Timeout | Item(raw: Raw) | Malformed(raw: Raw)

  class AgentQueue {
    var items: seq<Raw>

    constructor ()
      ensures items == []
    {
      items := [];
    }

    // LPUSH; requeue pushes the original text the same way
    method Push(raw: Raw)
      modifies this
      ensures items == [raw] + old(items)
    {
      items := [raw] + items;
    }

    method PushAll(raws: seq<Raw>)
      modifies this
      ensures items == Reverse(raws) + old(items)
      ensures multiset(items) == multiset(old(items)) + multiset(raws)
    {
      for k := 0 to |raws|
        invariant items == Reverse(raws[..k]) + old(items)
      {
        Push(raws[k]);
        ReverseSnoc(raws[..k], raws[k]);
        assert raws[..k + 1] == raws[..k] + [raws[k]];
      }
      assert raws[..|raws|] == raws;
      ReverseMultiset(raws);
    }

    /** BRPOP, then decode: the text has left the queue before decoding can fail. */
    method Dequeue(valid: Raw -> bool) returns (r: Polled)
      modifies this
      ensures old(items) == [] <==> r.Timeout?
      ensures r.Timeout? ==> items == old(items)
      ensures !r.Timeout? ==> old(items) == items + [r.raw] && (r.Item? <==> valid(r.raw))
    {
      if items == [] {
        return Timeout;
      }
      var raw := items[|items| - 1];
      items := items[..|items| - 1];
      r := if valid(raw) then Item(raw) else Malformed(raw);
    }
  }

  // What the environment does during one pass of the loop.
  datatype Turn = Turn(arrivals: seq<Raw>, succeeds: bool, signal: bool)

  function Arrivals(turns: seq<Turn>): seq<Raw> {
    if turns == [] then [] else Arrivals(turns[..|turns| - 1]) + turns[|turns| - 1].arrivals
  }

  lemma ArrivalsNext(turns: seq<Turn>, k: nat)
    requires k < |turns|
    ensures Arrivals(turns[..k + 1]) == Arrivals(turns[..k]) + turns[k].arrivals
  {
    assert turns[..k + 1][..k] == turns[..k];
  }

  // Everything that was queued or arrived is queued, done or lost.
  ghost predicate Balanced(items: seq<Raw>, done: seq<Raw>, lost: Option<Raw>, start: seq<Raw>, arrived: seq<Raw>) {
    multiset(items) + multiset(done) + Lost(lost) == multiset(start) + multiset(arrived)
  }

  lemma BalancedStart(items: seq<Raw>, turns: seq<Turn>)
    ensures Balanced(items, [], None, items, Arrivals(turns[..0]))
  {
    assert multiset(Arrivals(turns[..0])) == multiset{};
  }

  ghost predicate AllValid(raws: seq<Raw>, valid: Raw -> bool) {
    forall raw :: raw in raws ==> valid(raw)
  }

  lemma ValidAfterTurn(done: seq<Raw>, items: seq<Raw>, turn: Turn, valid: Raw -> bool)
    requires AllValid(done, valid)
    ensures AllValid(done + FinishedBy(items, turn, valid), valid)
  {
  }

  lemma BalancedTurn(items: seq<Raw>, done: seq<Raw>, start: seq<Raw>, arrived: seq<Raw>, turn: Turn, valid: Raw -> bool)
    requires Balanced(items, done, None, start, arrived)
    ensures Balanced(QueueAfterTurn(items, turn, valid), done + FinishedBy(items, turn, valid),
                     LostBy(items, turn, valid), start, arrived + turn.arrivals)
  {
    TurnBalance(items, turn, valid);
    Balance(multiset(items), multiset(QueueAfterTurn(items, turn, valid)), multiset(FinishedBy(items, turn, valid)),
            Lost(LostBy(items, turn, valid)), multiset(turn.arrivals), multiset(done), multiset(start), multiset(arrived));
  }

  lemma Balance(q: multiset<Raw>, q': multiset<Raw>, f: multiset<Raw>, l: multiset<Raw>, arrived: multiset<Raw>,
                d: multiset<Raw>, q0: multiset<Raw>, a: multiset<Raw>)
    requires q' + f + l == q + arrived && q + d == q0 + a
    ensures q' + (d + f) + l == q0 + (a + arrived)
  {
    forall x ensures (q' + (d + f) + l)[x] == (q0 + (a + arrived))[x] {
      assert (q' + f + l)[x] == (q + arrived)[x] && (q + d)[x] == (q0 + a)[x];
    }
  }

  // The queue a turn polls, and what the turn makes of it.
  function Polls(items: seq<Raw>, turn: Turn): seq<Raw> {
    Reverse(turn.arrivals) + items
  }

  function AfterPoll(q: seq<Raw>, succeeds: bool, valid: Raw -> bool): seq<Raw> {
    if q == [] then []
    else
      var (raw, rest) := (q[|q| - 1], q[..|q| - 1]);
      if valid(raw) && !succeeds then [raw] + rest else rest
  }

  function FinishedAt(q: seq<Raw>, succeeds: bool, valid: Raw -> bool): seq<Raw> {
    if q != [] && valid(q[|q| - 1]) && succeeds then [q[|q| - 1]] else []
  }

  function LostAt(q: seq<Raw>, valid: Raw -> bool): Option<Raw> {
    if q != [] && !valid(q[|q| - 1]) then Some(q[|q| - 1]) else None
  }

  function QueueAfterTurn(items: seq<Raw>, turn: Turn, valid: Raw -> bool): seq<Raw> {
    AfterPoll(Polls(items, turn), turn.succeeds, valid)
  }

  function FinishedBy(items: seq<Raw>, turn: Turn, valid: Raw -> bool): seq<Raw> {
    FinishedAt(Polls(items, turn), turn.succeeds, valid)
  }

  function LostBy(items: seq<Raw>, turn: Turn, valid: Raw -> bool): Option<Raw> {
    LostAt(Polls(items, turn), valid)
  }

  function Lost(raw: Option<Raw>): multiset<Raw> {
    if raw.Some? then multiset{raw.value} else multiset{}
  }

  // What a turn takes from the queue it puts back, finishes or loses.
  lemma TurnBalance(items: seq<Raw>, turn: Turn, valid: Raw -> bool)
    ensures multiset(QueueAfterTurn(items, turn, valid)) + multiset(FinishedBy(items, turn, valid))
      + Lost(LostBy(items, turn, valid)) == multiset(items) + multiset(turn.arrivals)
  {
    var q := Polls(items, turn);
    ReverseMultiset(turn.arrivals);
    assert multiset(q) == multiset(items) + multiset(turn.arrivals);
    PollBalance(q, turn.succeeds, valid);
  }

  lemma PollBalance(q: seq<Raw>, succeeds: bool, valid: Raw -> bool)
    ensures multiset(AfterPoll(q, succeeds, valid)) + multiset(FinishedAt(q, succeeds, valid)) + Lost(LostAt(q, valid))
      == multiset(q)
  {
    if q != [] {
      LastTaken(q);
      var (raw, rest) := (q[|q| - 1], q[..|q| - 1]);
      if !valid(raw) {
        assert FinishedAt(q, succeeds, valid) == [] && AfterPoll(q, succeeds, valid) == rest;
      } else if succeeds {
        assert FinishedAt(q, succeeds, valid) == [raw] && AfterPoll(q, succeeds, valid) == rest;
      } else {
        assert FinishedAt(q, succeeds, valid) == [] && AfterPoll(q, succeeds, valid) == [raw] + rest;
      }
    }
  }

  lemma LastTaken(q: seq<Raw>)
    requires q != []
    ensures var (raw, rest) := (q[|q| - 1], q[..|q| - 1]);
      multiset(q) == multiset(rest) + multiset{raw} == multiset([raw] + rest)
  {
    assert q == q[..|q| - 1] + [q[|q| - 1]];
  }

  // Where the loop stands.
  datatype Progress = Progress(items: seq<Raw>, done: seq<Raw>, lost: Option<Raw>, running: bool, used: nat)

  // Turn after turn, until the loop is told to stop or a text cannot be decoded.
  function TakeTurns(p: Progress, turns: seq<Turn>, valid: Raw -> bool): Progress
    decreases |turns|
  {
    if turns == [] || !p.running || p.lost.Some? then p
    else TakeTurns(AfterTurn(p, turns[0], valid), turns[1..], valid)
  }

  function AfterTurn(p: Progress, turn: Turn, valid: Raw -> bool): Progress {
    Progress(QueueAfterTurn(p.items, turn, valid), p.done + FinishedBy(p.items, turn, valid),
             LostBy(p.items, turn, valid), p.running && !turn.signal, p.used + 1)
  }

  // Turns on which nothing arrives or stops the loop, and processing succeeds.
  ghost predicate Calm(turns: seq<Turn>) {
    forall t :: t in turns ==> t.arrivals == [] && t.succeeds && !t.signal
  }

  lemma CalmTurn(items: seq<Raw>, turn: Turn, valid: Raw -> bool)
    requires turn.arrivals == [] && turn.succeeds && AllValid(items, valid)
    ensures Polls(items, turn) == items && LostBy(items, turn, valid) == None
    ensures items == [] ==> QueueAfterTurn(items, turn, valid) == [] && FinishedBy(items, turn, valid) == []
    ensures items != [] ==>
      var n := |items| - 1;
      QueueAfterTurn(items, turn, valid) == items[..n] && FinishedBy(items, turn, valid) == [items[n]]
  {
    assert Reverse(turn.arrivals) == [];
    assert items != [] ==> items[|items| - 1] in items;
  }

  /** The loop works: left alone for as many turns as there are items, it finishes
      all of them, oldest first. */
  lemma {:induction false} LoopDrains(p: Progress, turns: seq<Turn>, valid: Raw -> bool)
    requires p.running && p.lost.None? && Calm(turns) && |turns| == |p.items| && AllValid(p.items, valid)
    ensures TakeTurns(p, turns, valid) == Progress([], p.done + Reverse(p.items), None, true, p.used + |turns|)
    decreases |turns|
  {
    if turns == [] {
      assert p.done + [] == p.done;
    } else {
      var next := AfterTurn(p, turns[0], valid);
      assert turns[0] in turns && forall t :: t in turns[1..] ==> t in turns;
      CalmStep(p, turns[0], valid);
      LoopDrains(next, turns[1..], valid);
    }
  }

  lemma CalmStep(p: Progress, turn: Turn, valid: Raw -> bool)
    requires p.running && p.lost.None? && p.items != [] && AllValid(p.items, valid)
    requires turn.arrivals == [] && turn.succeeds && !turn.signal
    ensures var next := AfterTurn(p, turn, valid);
      && next.running && next.lost.None? && |next.items| == |p.items| - 1 && AllValid(next.items, valid)
      && next.done + Reverse(next.items) == p.done + Reverse(p.items) && next.used == p.used + 1
  {
    var n := |p.items| - 1;
    CalmTurn(p.items, turn, valid);
    assert p.items == p.items[..n] + [p.items[n]];
    ReverseSnoc(p.items[..n], p.items[n]);
    Assoc(p.done, [p.items[n]], Reverse(p.items[..n]));
  }

  class AgentRunner {
    const queue: AgentQueue
    var running: bool

    constructor (queue: AgentQueue)
      ensures this.queue == queue && running
    {
      this.queue := queue;
      running := true;
    }

    /** The loop, against a script of turns. `used` turns were taken before a
        signal, the end of the script, or a decoding error stopped it. Every
        arrival is still queued, was processed, or is the one undecodable text
        that stopped the runner. */
    method Loop(turns: seq<Turn>, valid: Raw -> bool)
      returns (done: seq<Raw>, lost: Option<Raw>, used: nat)
      modifies this`running, queue
      ensures used <= |turns|
      ensures Balanced(queue.items, done, lost, old(queue.items), Arrivals(turns[..used]))
      ensures lost.Some? ==> !valid(lost.value)
      ensures AllValid(done, valid)
      ensures lost.None? ==> used == |turns| || !running
      ensures Progress(queue.items, done, lost, running, used)
        == TakeTurns(Progress(old(queue.items), [], None, old(running), 0), turns, valid)
    {
      done, lost, used := [], None, 0;
      BalancedStart(queue.items, turns);
      while running && lost.None? && used < |turns|
        invariant used <= |turns|
        invariant lost.Some? ==> !valid(lost.value)
        invariant Balanced(queue.items, done, lost, old(queue.items), Arrivals(turns[..used]))
        invariant AllValid(done, valid)
        invariant TakeTurns(Progress(queue.items, done, lost, running, used), turns[used..], valid)
          == TakeTurns(Progress(old(queue.items), [], None, old(running), 0), turns, valid)
        decreases |turns| - used
      {
        BalancedTurn(queue.items, done, old(queue.items), Arrivals(turns[..used]), turns[used], valid);
        ValidAfterTurn(done, queue.items, turns[used], valid);
        var finished;
        finished, lost := TakeTurn(turns[used], valid);
        ArrivalsNext(turns, used);
        done := done + finished;
        assert turns[used..][1..] == turns[used + 1..];
        used := used + 1;
      }
    }

    // One pass of the loop.
    method TakeTurn(turn: Turn, valid: Raw -> bool) returns (finished: seq<Raw>, lost: Option<Raw>)
      modifies this`running, queue
      ensures queue.items == QueueAfterTurn(old(queue.items), turn, valid)
      ensures finished == FinishedBy(old(queue.items), turn, valid)
      ensures lost == LostBy(old(queue.items), turn, valid)
      ensures running == (old(running) && !turn.signal)
    {
      queue.PushAll(turn.arrivals);
      var item := queue.Dequeue(valid);
      var ok;
      ok, lost := Handle(item, turn, valid);
      finished := if ok then [item.raw] else [];
    }

    // One dequeued item: process it, requeue it, or stop on undecodable text.
    method Handle(item: Polled, turn: Turn, valid: Raw -> bool) returns (ok: bool, lost: Option<Raw>)
      requires item.Item? ==> valid(item.raw)
      requires item.Malformed? ==> !valid(item.raw)
      modifies this`running, queue
      ensures item.Timeout? ==> !ok && lost.None? && queue.items == old(queue.items)
      ensures item.Malformed? ==> !ok && lost == Some(item.raw) && queue.items == old(queue.items)
      ensures item.Item? ==> lost.None? && ok == turn.succeeds
      ensures item.Item? ==> queue.items == if ok then old(queue.items) else [item.raw] + old(queue.items)
      ensures running == (old(running) && !turn.signal)
    {
      ok, lost := false, None;
      if turn.signal {
        running := false;
      }
      if item.Timeout? {
        return;
      }
      if item.Malformed? {
        lost := Some(item.raw);
        return;
      }
      if turn.succeeds {
        ok := true;
      } else {
        queue.Push(item.raw);
      }
    }
  }

  // ----- any number of runners -----

  datatype Phase = Polling | Holding(raw: Raw) | Stopped

  datatype Runner = Runner(running: bool, phase: Phase)

  datatype State = State(queue: seq<Raw>, runners: seq<Runner>, processed: multiset<Raw>, lost: multiset<Raw>)

  datatype Action =
    | Enqueue(raw: Raw)
    | Poll(r: nat, valid: bool)  // valid: whether the popped text decodes
    | Done(r: nat)
    | Fail(r: nat)               // process() raised; the item is requeued
    | Signal(r: nat)
    | Crash(r: nat)              // the process dies, or the requeue itself fails

  predicate Enabled(s: State, a: Action) {
    a.Enqueue? ||
    (a.r < |s.runners| &&
     match a
     case Poll(r, _) => s.runners[r].phase.Polling?
     case Done(r) => s.runners[r].phase.Holding?
     case Fail(r) => s.runners[r].phase.Holding?
     case _ => true)
  }

  predicate Pops(s: State, a: Action) {
    Enabled(s, a) && a.Poll? && s.runners[a.r].running && s.queue != []
  }

  function With(s: State, r: nat, phase: Phase): seq<Runner>
    requires r < |s.runners|
  {
    s.runners[r := s.runners[r].(phase := phase)]
  }

  function Step(s: State, a: Action): State {
    if !Enabled(s, a) then s
    else
      match a
      case Enqueue(raw) => s.(queue := [raw] + s.queue)
      case Poll(r, valid) =>
        if !s.runners[r].running then s.(runners := With(s, r, Stopped))
        else if s.queue == [] then s
        else
          var n := |s.queue| - 1;
          var raw := s.queue[n];
          if valid then s.(queue := s.queue[..n], runners := With(s, r, Holding(raw)))
          else s.(queue := s.queue[..n], runners := With(s, r, Stopped), lost := s.lost + multiset{raw})
      case Done(r) =>
        s.(runners := With(s, r, Polling), processed := s.processed + multiset{s.runners[r].phase.raw})
      case Fail(r) =>
        s.(runners := With(s, r, Polling), queue := [s.runners[r].phase.raw] + s.queue)
      case Signal(r) => s.(runners := s.runners[r := s.runners[r].(running := false)])
      case Crash(r) =>
        s.(runners := With(s, r, Stopped),
           lost := s.lost + (if s.runners[r].phase.Holding? then multiset{s.runners[r].phase.raw} else multiset{}))
  }

  /** What the steps of a running runner do: a poll takes the oldest text, Done
      accounts for it, Fail puts it back behind everything. */
  lemma StepsDoWork(s: State, r: nat)
    requires r < |s.runners| && s.runners[r].running
    ensures s.runners[r].phase.Polling? && s.queue != [] ==>
      var s' := Step(s, Poll(r, true));
      s'.queue + [s.queue[|s.queue| - 1]] == s.queue && s'.runners[r].phase == Holding(s.queue[|s.queue| - 1])
    ensures s.runners[r].phase.Holding? ==>
      var s' := Step(s, Done(r));
      s'.processed == s.processed + multiset{s.runners[r].phase.raw} && s'.queue == s.queue && s'.runners[r].phase == Polling
    ensures s.runners[r].phase.Holding? ==>
      var s' := Step(s, Fail(r));
      s'.processed == s.processed && s'.queue == [s.runners[r].phase.raw] + s.queue && s'.runners[r].phase == Polling
  {
  }

  function Run(s: State, acts: seq<Action>): State
    decreases |acts|
  {
    if acts == [] then s else Run(Step(s, acts[0]), acts[1..])
  }

  // Texts popped by any runner, in order.
  function Popped(s: State, acts: seq<Action>): seq<Raw>
    decreases |acts|
  {
    if acts == [] then []
    else (if Pops(s, acts[0]) then [s.queue[|s.queue| - 1]] else []) + Popped(Step(s, acts[0]), acts[1..])
  }

  function PushedBy(s: State, a: Action): seq<Raw> {
    if a.Enqueue? then [a.raw]
    else if a.Fail? && Enabled(s, a) then [s.runners[a.r].phase.raw]
    else []
  }

  // Texts pushed, by producers and by requeues, in order.
  function Pushed(s: State, acts: seq<Action>): seq<Raw>
    decreases |acts|
  {
    if acts == [] then [] else PushedBy(s, acts[0]) + Pushed(Step(s, acts[0]), acts[1..])
  }

  function Enqueued(acts: seq<Action>): multiset<Raw> {
    if acts == [] then multiset{}
    else (if acts[0].Enqueue? then multiset{acts[0].raw} else multiset{}) + Enqueued(acts[1..])
  }

  function Held(phase: Phase): multiset<Raw> {
    if phase.Holding? then multiset{phase.raw} else multiset{}
  }

  function InFlight(runners: seq<Runner>): multiset<Raw> {
    if runners == [] then multiset{} else Held(runners[0].phase) + InFlight(runners[1..])
  }

  function Total(s: State): multiset<Raw> {
    multiset(s.queue) + InFlight(s.runners) + s.processed + s.lost
  }

  lemma {:induction false} InFlightUpdate(runners: seq<Runner>, r: nat, x: Runner, raw: Raw)
    requires r < |runners|
    ensures InFlight(runners[r := x])[raw] + Held(runners[r].phase)[raw] == InFlight(runners)[raw] + Held(x.phase)[raw]
  {
    if r == 0 {
      assert runners[0 := x][1..] == runners[1..];
    } else {
      var rest := runners[1..];
      assert runners[r := x][1..] == rest[r - 1 := x];
      InFlightUpdate(rest, r - 1, x, raw);
    }
  }

  lemma PollConserves(s: State, a: Action, raw: Raw)
    requires Pops(s, a)
    ensures Total(Step(s, a))[raw] == Total(s)[raw]
  {
    var n := |s.queue| - 1;
    assert s.queue == s.queue[..n] + [s.queue[n]];
    InFlightUpdate(s.runners, a.r, Step(s, a).runners[a.r], raw);
  }

  lemma RunnerConserves(s: State, a: Action, raw: Raw)
    requires Enabled(s, a) && !a.Enqueue? && !Pops(s, a)
    ensures Total(Step(s, a))[raw] == Total(s)[raw]
  {
    RunnerLedger(s, a, raw);
    InFlightUpdate(s.runners, a.r, Step(s, a).runners[a.r], raw);
    TotalCount(s, raw);
    TotalCount(Step(s, a), raw);
  }

  lemma TotalCount(s: State, raw: Raw)
    ensures Total(s)[raw] == multiset(s.queue)[raw] + InFlight(s.runners)[raw] + s.processed[raw] + s.lost[raw]
  {
  }

  // What leaves a runner's hands arrives elsewhere.
  ghost function Ledger(s: State, r: nat, raw: Raw): int
    requires r < |s.runners|
  {
    multiset(s.queue)[raw] + s.processed[raw] + s.lost[raw] + Held(s.runners[r].phase)[raw]
  }

  ghost predicate Kept(s: State, s': State, r: nat, raw: Raw)
    requires r < |s.runners|
  {
    |s'.runners| == |s.runners| && s'.runners == s.runners[r := s'.runners[r]] && Ledger(s', r, raw) == Ledger(s, r, raw)
  }

  lemma RunnerLedger(s: State, a: Action, raw: Raw)
    requires Enabled(s, a) && !a.Enqueue? && !Pops(s, a)
    ensures Kept(s, Step(s, a), a.r, raw)
  {
    match a
    case Poll(r, valid) => PollLedger(s, r, valid, raw);
    case Done(r) => DoneLedger(s, r, raw);
    case Fail(r) => FailLedger(s, r, raw);
    case Signal(r) => SignalLedger(s, r, raw);
    case Crash(r) => CrashLedger(s, r, raw);
  }

  lemma PollLedger(s: State, r: nat, valid: bool, raw: Raw)
    requires Enabled(s, Poll(r, valid)) && !Pops(s, Poll(r, valid))
    ensures Kept(s, Step(s, Poll(r, valid)), r, raw)
  {
  }

  lemma DoneLedger(s: State, r: nat, raw: Raw)
    requires Enabled(s, Done(r))
    ensures Kept(s, Step(s, Done(r)), r, raw)
  {
  }

  lemma FailLedger(s: State, r: nat, raw: Raw)
    requires Enabled(s, Fail(r))
    ensures Kept(s, Step(s, Fail(r)), r, raw)
  {
    var held := s.runners[r].phase.raw;
    assert multiset([held] + s.queue) == multiset{held} + multiset(s.queue);
  }

  lemma SignalLedger(s: State, r: nat, raw: Raw)
    requires Enabled(s, Signal(r))
    ensures Kept(s, Step(s, Signal(r)), r, raw)
  {
  }

  lemma CrashLedger(s: State, r: nat, raw: Raw)
    requires Enabled(s, Crash(r))
    ensures Kept(s, Step(s, Crash(r)), r, raw)
  {
  }

  lemma StepConserves(s: State, a: Action)
    ensures Total(Step(s, a)) == Total(s) + (if a.Enqueue? then multiset{a.raw} else multiset{})
  {
    if Pops(s, a) {
      forall raw ensures Total(Step(s, a))[raw] == Total(s)[raw] {
        PollConserves(s, a, raw);
      }
    } else if Enabled(s, a) && !a.Enqueue? {
      forall raw ensures Total(Step(s, a))[raw] == Total(s)[raw] {
        RunnerConserves(s, a, raw);
      }
    }
  }

  /** Conservation: whatever the runners do, every enqueued text is queued, in
      flight, processed or lost, as often as it was enqueued. */
  lemma {:induction false} Conservation(s: State, acts: seq<Action>)
    ensures Total(Run(s, acts)) == Total(s) + Enqueued(acts)
    decreases |acts|
  {
    if acts != [] {
      StepConserves(s, acts[0]);
      Conservation(Step(s, acts[0]), acts[1..]);
    }
  }

  // The steps of one pass of runner r: the arrivals, the poll, and what came of it.
  function StepsOfTurn(items: seq<Raw>, turn: Turn, valid: Raw -> bool, r: nat): seq<Action> {
    Enqueues(turn.arrivals) + PollSteps(Polls(items, turn), turn, valid, r)
  }

  function PollSteps(q: seq<Raw>, turn: Turn, valid: Raw -> bool, r: nat): seq<Action> {
    if q == [] then [Poll(r, true)]
    else if !valid(q[|q| - 1]) then [Poll(r, false)]
    else [Poll(r, true), if turn.succeeds then Done(r) else Fail(r)]
  }

  function Enqueues(raws: seq<Raw>): seq<Action> {
    if raws == [] then [] else [Enqueue(raws[0])] + Enqueues(raws[1..])
  }

  lemma {:induction false} EnqueuesRun(s: State, raws: seq<Raw>, rest: seq<Action>)
    ensures Run(s, Enqueues(raws) + rest) == Run(s.(queue := Reverse(raws) + s.queue), rest)
    decreases |raws|
  {
    if raws == [] {
      assert Enqueues(raws) + rest == rest && Reverse(raws) + s.queue == s.queue;
    } else {
      var next := s.(queue := [raws[0]] + s.queue);
      EnqueueFirst(raws, rest);
      assert Run(s, Enqueues(raws) + rest) == Run(next, Enqueues(raws[1..]) + rest);
      EnqueuesRun(next, raws[1..], rest);
      assert Reverse(raws[1..]) + next.queue == Reverse(raws) + s.queue;
    }
  }

  lemma EnqueueFirst(raws: seq<Raw>, rest: seq<Action>)
    requires raws != []
    ensures var acts := Enqueues(raws) + rest;
      acts != [] && acts[0] == Enqueue(raws[0]) && acts[1..] == Enqueues(raws[1..]) + rest
  {
    var (first, tail) := ([Enqueue(raws[0])], Enqueues(raws[1..]));
    assert Enqueues(raws) == first + tail;
    assert (first + tail) + rest == first + (tail + rest);
  }

  lemma ShortRun(s: State, a: Action, b: Action)
    ensures Run(s, [a]) == Step(s, a) && Run(s, [a, b]) == Step(Step(s, a), b)
  {
    assert [a][1..] == [] && [b][1..] == [] && [a, b][1..] == [b];
    assert Run(s, [a, b]) == Run(Step(s, a), [b]) == Run(Step(Step(s, a), b), []);
  }

  /** The loop refines the machine: one pass of the loop leaves the queue and the
      processed items exactly as these steps of its runner do. */
  lemma TurnIsRun(s: State, turn: Turn, valid: Raw -> bool, r: nat)
    requires r < |s.runners| && s.runners[r] == Runner(true, Polling)
    ensures var s' := Run(s, StepsOfTurn(s.queue, turn, valid, r));
      && s'.queue == QueueAfterTurn(s.queue, turn, valid)
      && s'.processed == s.processed + multiset(FinishedBy(s.queue, turn, valid))
      && |s'.runners| == |s.runners|
      && (s'.runners[r].phase.Stopped? <==> var q := Polls(s.queue, turn); q != [] && !valid(q[|q| - 1]))
  {
    var s1 := s.(queue := Polls(s.queue, turn));
    EnqueuesRun(s, turn.arrivals, PollSteps(s1.queue, turn, valid, r));
    PollRuns(s1, turn, valid, r);
  }

  lemma PollRuns(s: State, turn: Turn, valid: Raw -> bool, r: nat)
    requires r < |s.runners| && s.runners[r] == Runner(true, Polling)
    ensures var s' := Run(s, PollSteps(s.queue, turn, valid, r));
      var n := |s.queue| - 1;
      && |s'.runners| == |s.runners|
      && (n < 0 ==> s' == s)
      && (n >= 0 && !valid(s.queue[n]) ==>
            s'.queue == s.queue[..n] && s'.processed == s.processed && s'.runners[r].phase.Stopped?)
      && (n >= 0 && valid(s.queue[n]) ==>
            && s'.runners[r].phase.Polling?
            && s'.queue == (if turn.succeeds then s.queue[..n] else [s.queue[n]] + s.queue[..n])
            && s'.processed == s.processed + (if turn.succeeds then multiset{s.queue[n]} else multiset{}))
  {
    ShortRun(s, Poll(r, true), if turn.succeeds then Done(r) else Fail(r));
    ShortRun(s, Poll(r, false), Poll(r, false));
  }

  // The two ways to lose an item: popping undecodable text, or dying with one in hand.
  predicate Loses(s: State, a: Action) {
    (Pops(s, a) && !a.valid) || (a.Crash? && Enabled(s, a) && s.runners[a.r].phase.Holding?)
  }

  predicate Lossless(s: State, acts: seq<Action>)
    decreases |acts|
  {
    acts == [] || (!Loses(s, acts[0]) && Lossless(Step(s, acts[0]), acts[1..]))
  }

  lemma LostGrows(s: State, acts: seq<Action>)
    ensures s.lost <= Run(s, acts).lost
    decreases |acts|
  {
    if acts != [] {
      LostGrows(Step(s, acts[0]), acts[1..]);
    }
  }

  /** Nothing is lost exactly when no runner pops undecodable text and none dies
      holding an item; stop signals and failures lose nothing. */
  lemma {:induction false} NothingLostIff(s: State, acts: seq<Action>)
    ensures Run(s, acts).lost == s.lost <==> Lossless(s, acts)
    decreases |acts|
  {
    if acts != [] {
      var s' := Step(s, acts[0]);
      NothingLostIff(s', acts[1..]);
      LostGrows(s', acts[1..]);
      if Loses(s, acts[0]) {
        LossShows(s, acts[0], Run(s, acts).lost);
      }
    }
  }

  lemma LossShows(s: State, a: Action, final: multiset<Raw>)
    requires Loses(s, a) && Step(s, a).lost <= final
    ensures final != s.lost
  {
    var raw := if a.Crash? then s.runners[a.r].phase.raw else s.queue[|s.queue| - 1];
    assert final[raw] >= Step(s, a).lost[raw] == s.lost[raw] + 1;
  }

  /** The order law: what was popped, followed by what is still queued from the
      popping end, is the initial queue followed by everything pushed. */
  lemma {:induction false} OrderLaw(s: State, acts: seq<Action>)
    ensures Popped(s, acts) + Reverse(Run(s, acts).queue) == Reverse(s.queue) + Pushed(s, acts)
    decreases |acts|
  {
    if acts != [] {
      OrderLaw(Step(s, acts[0]), acts[1..]);
      StepOrder(s, acts[0]);
      var pop := if Pops(s, acts[0]) then [s.queue[|s.queue| - 1]] else [];
      var (rest, s') := (acts[1..], Step(s, acts[0]));
      calc {
        Popped(s, acts) + Reverse(Run(s, acts).queue);
        (pop + Popped(s', rest)) + Reverse(Run(s', rest).queue);
        { Assoc(pop, Popped(s', rest), Reverse(Run(s', rest).queue)); }
        pop + (Reverse(s'.queue) + Pushed(s', rest));
        { Assoc(pop, Reverse(s'.queue), Pushed(s', rest)); }
        (Reverse(s.queue) + PushedBy(s, acts[0])) + Pushed(s', rest);
        { Assoc(Reverse(s.queue), PushedBy(s, acts[0]), Pushed(s', rest)); }
        Reverse(s.queue) + Pushed(s, acts);
      }
    } else {
      assert [] + Reverse(s.queue) == Reverse(s.queue) + [];
    }
  }

  lemma Assoc(a: seq<Raw>, b: seq<Raw>, c: seq<Raw>)
    ensures (a + b) + c == a + (b + c)
  {
  }

  lemma StepOrder(s: State, a: Action)
    ensures (if Pops(s, a) then [s.queue[|s.queue| - 1]] else []) + Reverse(Step(s, a).queue)
         == Reverse(s.queue) + PushedBy(s, a)
  {
    if Pops(s, a) {
      var n := |s.queue| - 1;
      assert s.queue == s.queue[..n] + [s.queue[n]];
      ReverseSnoc(s.queue[..n], s.queue[n]);
    } else if a.Enqueue? {
      ReverseCons(a.raw, s.queue);
    } else if a.Fail? && Enabled(s, a) {
      ReverseCons(s.runners[a.r].phase.raw, s.queue);
    } else {
      Unmoved(s, a);
    }
  }

  lemma Unmoved(s: State, a: Action)
    requires !Pops(s, a) && !a.Enqueue? && !(a.Fail? && Enabled(s, a))
    ensures Step(s, a).queue == s.queue
  {
  }

  /** No starvation: an item with k items ahead of it is the (k+1)-th text popped
      from now on, whatever is enqueued, requeued, failed or crashed meanwhile. */
  lemma BoundedWait(s: State, acts: seq<Action>, k: nat)
    requires k < |s.queue| && k < |Popped(s, acts)|
    ensures Popped(s, acts)[k] == s.queue[|s.queue| - 1 - k]
  {
    OrderLaw(s, acts);
    assert (Popped(s, acts) + Reverse(Run(s, acts).queue))[k] == Popped(s, acts)[k];
    assert (Reverse(s.queue) + Pushed(s, acts))[k] == Reverse(s.queue)[k];
  }

  /** A requeued item goes behind everything then waiting, not to the head: it is
      popped only after all of them. */
  lemma FailedItemGoesLast(s: State, r: nat, acts: seq<Action>)
    requires Enabled(s, Fail(r))
    requires |Popped(Step(s, Fail(r)), acts)| > |s.queue|
    ensures Popped(Step(s, Fail(r)), acts)[..|s.queue|] == Reverse(s.queue)
    ensures Popped(Step(s, Fail(r)), acts)[|s.queue|] == s.runners[r].phase.raw
  {
    var s' := Step(s, Fail(r));
    forall k | 0 <= k <= |s.queue| ensures Popped(s', acts)[k] == s'.queue[|s'.queue| - 1 - k] {
      BoundedWait(s', acts, k);
    }
  }
}
