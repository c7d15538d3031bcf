// Client session recovery: single-flight registration, and a generation
// counter that decides which failed caller resets the session. Steps are the
// stretches of code between awaits, in any interleaving.

module ClientSession {
  import opened Options

  datatype Outcome = Returned | AuthError | OtherError

  datatype Pc =
    | Start
    | Await1           // waits for the registration in flight
    | Ready1           // ensureSession settled, continuation queued
    | Run1(gen: nat)   // fn is running, generation captured
    | Await2
    | Ready2
    | Run2
    | Done(ok: bool)

  // `claimed` is the generation value the caller reset, if it reset; `settledAt`
  // the generation in which its last successful wait for a session settled;
  // `ranOn` the transport when fn was first called; `outcomes` what the calls of
  // fn gave; `refused` whether a registration it waited for failed.
  datatype Caller = Caller(
    pc: Pc, runs: nat, claimed: Option<nat>, settledAt: nat, ranOn: nat, outcomes: seq<Outcome>, refused: bool)

  // The registration in flight; `on` is the transport the register call was sent on.
  datatype Flight = Flight(on: Option<nat>)

  // Transports are numbered by the resets before them.
  datatype State = State(
    registered: bool,
    inflight: Option<Flight>,
    generation: nat,
    transport: nat,
    started: nat,
    settled: nat,
    callers: seq<Caller>)

  datatype Action =
    | Begin(i: nat)
    | Send                 // the register call leaves on the current transport
    | Settle(ok: bool)     // the registration promise settles
    | Resume(i: nat)
    | Return(i: nat, outcome: Outcome)

  predicate Enabled(s: State, a: Action) {
    match a
    case Begin(i) => i < |s.callers| && s.callers[i].pc.Start?
    case Send => s.inflight.Some? && s.inflight.value.on.None?
    case Settle(ok) => s.inflight.Some? && (ok ==> s.inflight.value.on.Some?)
    case Resume(i) => i < |s.callers| && (s.callers[i].pc.Ready1? || s.callers[i].pc.Ready2?)
    case Return(i, _) => i < |s.callers| && (s.callers[i].pc.Run1? || s.callers[i].pc.Run2?)
  }

  // ensureSession: nothing to wait for, or join the flight, starting it if there is none.
  function Ensure(s: State, i: nat, c: Caller, ready: Pc, await: Pc): State
    requires i < |s.callers|
  {
    if s.registered then s.(callers := s.callers[i := c.(pc := ready, settledAt := s.generation)])
    else if s.inflight.Some? then s.(callers := s.callers[i := c.(pc := await)])
    else s.(callers := s.callers[i := c.(pc := await)], inflight := Some(Flight(None)), started := s.started + 1)
  }

  function Woken(c: Caller, ok: bool, generation: nat): Caller {
    if c.pc.Await1? then if ok then c.(pc := Ready1, settledAt := generation) else c.(pc := Done(false), refused := true)
    else if c.pc.Await2? then if ok then c.(pc := Ready2, settledAt := generation) else c.(pc := Done(false), refused := true)
    else c
  }

  function Wake(callers: seq<Caller>, ok: bool, generation: nat): (r: seq<Caller>)
    ensures |r| == |callers|
    ensures forall i :: 0 <= i < |r| ==> r[i] == Woken(callers[i], ok, generation)
  {
    seq(|callers|, i requires 0 <= i < |callers| => Woken(callers[i], ok, generation))
  }

  predicate ClaimsReset(s: State, i: nat, outcome: Outcome) {
    i < |s.callers| && s.callers[i].pc == Run1(s.generation) && outcome.AuthError?
  }

  function Reset(s: State, i: nat): State
    requires i < |s.callers|
  {
    s.(generation := s.generation + 1, registered := false, transport := s.transport + 1,
       callers := s.callers[i := s.callers[i].(claimed := Some(s.generation))])
  }

  // A step that is not enabled does nothing.
  function Step(s: State, a: Action): State {
    if !Enabled(s, a) then s
    else
      match a
      case Begin(i) => Ensure(s, i, s.callers[i], Ready1, Await1)
      case Send => s.(inflight := Some(Flight(Some(s.transport))))
      case Settle(ok) =>
        s.(inflight := None, settled := s.settled + 1, callers := Wake(s.callers, ok, s.generation),
           registered := s.registered || ok)
      case Resume(i) =>
        var c := s.callers[i];
        s.(callers := s.callers[i := c.(pc := if c.pc.Ready1? then Run1(s.generation) else Run2, runs := c.runs + 1,
                                        ranOn := if c.pc.Ready1? then s.transport else c.ranOn)])
      case Return(i, outcome) =>
        var c := s.callers[i].(outcomes := s.callers[i].outcomes + [outcome]);
        if c.pc.Run2? || !outcome.AuthError? then
          s.(callers := s.callers[i := c.(pc := Done(outcome.Returned?))])
        else
          var noted := s.(callers := s.callers[i := c]);
          var s' := if ClaimsReset(s, i, outcome) then Reset(noted, i) else noted;
          Ensure(s', i, s'.callers[i], Ready2, Await2)
  }

  function Run(s: State, acts: seq<Action>): State
    decreases |acts|
  {
    if acts == [] then s else Run(Step(s, acts[0]), acts[1..])
  }

  predicate AllEnabled(s: State, acts: seq<Action>)
    decreases |acts|
  {
    acts == [] || (Enabled(s, acts[0]) && AllEnabled(Step(s, acts[0]), acts[1..]))
  }

  predicate Resets(s: State, a: Action) {
    a.Return? && Enabled(s, a) && ClaimsReset(s, a.i, a.outcome)
  }

  function ResetCount(s: State, acts: seq<Action>): nat
    decreases |acts|
  {
    if acts == [] then 0
    else (if Resets(s, acts[0]) then 1 else 0) + ResetCount(Step(s, acts[0]), acts[1..])
  }

  function NewCaller(): Caller {
    Caller(Start, 0, None, 0, 0, [], false)
  }

  function Init(n: nat): State {
    State(false, None, 0, 0, 0, 0, seq(n, _ => NewCaller()))
  }

  // ----- safety -----

  predicate FirstHalf(pc: Pc) {
    pc.Start? || pc.Await1? || pc.Ready1? || pc.Run1?
  }

  ghost predicate CallerInv(s: State, c: Caller) {
    && (c.pc.Await1? || c.pc.Await2? ==> s.inflight.Some?)
    && (FirstHalf(c.pc) ==> c.claimed == None)
    && (c.pc.Run1? ==> c.pc.gen <= s.generation)
    && c.runs <= (if c.pc.Start? || c.pc.Await1? || c.pc.Ready1? then 0 else if c.pc.Run1? || c.pc.Await2? || c.pc.Ready2? then 1 else 2)
    && (c.claimed.Some? ==> c.claimed.value < s.generation)
    && (c.pc.Ready1? || c.pc.Run1? ==> c.settledAt <= s.generation)
    && ((c.pc.Ready1? || c.pc.Run1?) && c.settledAt == s.generation ==> s.registered)
  }

  function Claims(callers: seq<Caller>): nat {
    if callers == [] then 0 else (if callers[0].claimed.Some? then 1 else 0) + Claims(callers[1..])
  }

  ghost predicate Inv(s: State) {
    && (forall i :: 0 <= i < |s.callers| ==> CallerInv(s, s.callers[i]))
    && (forall i, j :: 0 <= i < j < |s.callers| && s.callers[i].claimed.Some? ==>
          s.callers[i].claimed != s.callers[j].claimed)
    && s.transport == s.generation == Claims(s.callers)
    && s.started == s.settled + (if s.inflight.Some? then 1 else 0)
    && (s.inflight.Some? ==> !s.registered)
  }

  lemma {:induction false} ClaimsUpdate(callers: seq<Caller>, i: nat, c: Caller)
    requires i < |callers|
    ensures Claims(callers[i := c]) + (if callers[i].claimed.Some? then 1 else 0)
         == Claims(callers) + (if c.claimed.Some? then 1 else 0)
  {
    if i == 0 {
      assert callers[0 := c][1..] == callers[1..];
    } else {
      assert callers[i := c][1..] == callers[1..][i - 1 := c];
      ClaimsUpdate(callers[1..], i - 1, c);
    }
  }

  lemma {:induction false} ClaimsWake(callers: seq<Caller>, ok: bool, generation: nat)
    ensures Claims(Wake(callers, ok, generation)) == Claims(callers) <= |callers|
  {
    if callers != [] {
      assert Wake(callers, ok, generation)[1..] == Wake(callers[1..], ok, generation);
      ClaimsWake(callers[1..], ok, generation);
    }
  }

  lemma StepClaims(s: State, a: Action)
    requires Inv(s)
    ensures Claims(Step(s, a).callers) == Step(s, a).generation == Step(s, a).transport
  {
    if Enabled(s, a) {
      match a
      case Send =>
      case Settle(ok) => ClaimsWake(s.callers, ok, s.generation);
      case Begin(i) => ClaimsUpdate(s.callers, i, Step(s, a).callers[i]);
      case Resume(i) => ClaimsUpdate(s.callers, i, Step(s, a).callers[i]);
      case Return(i, outcome) =>
        assert CallerInv(s, s.callers[i]);
        var c := Step(s, a).callers[i];
        ClaimsUpdate(s.callers, i, c);
        assert Step(s, a).callers == s.callers[i := c];
    }
  }

  lemma StepCallerInv(s: State, a: Action, k: nat)
    requires Inv(s) && k < |s.callers|
    ensures |Step(s, a).callers| == |s.callers| && CallerInv(Step(s, a), Step(s, a).callers[k])
  {
    assert CallerInv(s, s.callers[k]);
    if a.Return? {
      ReturnCallerInv(s, a.i, a.outcome, k);
    }
  }

  lemma ReturnCallerInv(s: State, i: nat, outcome: Outcome, k: nat)
    requires Inv(s) && k < |s.callers|
    ensures var s' := Step(s, Return(i, outcome));
      |s'.callers| == |s.callers| && CallerInv(s', s'.callers[k])
  {
    assert CallerInv(s, s.callers[k]);
    if i != k {
      Bystander(s, i, outcome, k);
    }
  }

  lemma StepDistinct(s: State, a: Action, i: nat, j: nat)
    requires Inv(s) && i < j < |s.callers| && Step(s, a).callers[i].claimed.Some?
    ensures Step(s, a).callers[i].claimed != Step(s, a).callers[j].claimed
  {
    assert CallerInv(s, s.callers[i]) && CallerInv(s, s.callers[j]);
  }

  lemma StepInv(s: State, a: Action)
    requires Inv(s)
    ensures Inv(Step(s, a)) && |Step(s, a).callers| == |s.callers|
  {
    StepClaims(s, a);
    var s' := Step(s, a);
    forall k | 0 <= k < |s'.callers| ensures CallerInv(s', s'.callers[k]) {
      StepCallerInv(s, a, k);
    }
    forall i, j | 0 <= i < j < |s'.callers| && s'.callers[i].claimed.Some?
      ensures s'.callers[i].claimed != s'.callers[j].claimed
    {
      StepDistinct(s, a, i, j);
    }
  }

  lemma {:induction false} RunInv(s: State, acts: seq<Action>)
    requires Inv(s)
    ensures Inv(Run(s, acts)) && |Run(s, acts).callers| == |s.callers|
    ensures Run(s, acts).generation == s.generation + ResetCount(s, acts)
    decreases |acts|
  {
    if acts != [] {
      StepInv(s, acts[0]);
      RunInv(Step(s, acts[0]), acts[1..]);
    }
  }

  lemma {:induction false} NoClaims(callers: seq<Caller>)
    requires forall i :: 0 <= i < |callers| ==> callers[i].claimed == None
    ensures Claims(callers) == 0
  {
    if callers != [] {
      NoClaims(callers[1..]);
    }
  }

  /** For any number of callers and any interleaving: the generation counts the
      resets, no value of it is claimed twice, no caller resets twice, one
      registration is in flight at most, and fn runs at most twice a caller. */
  lemma RecoverySafety(n: nat, acts: seq<Action>)
    ensures var s := Run(Init(n), acts);
      && |s.callers| == n
      && s.generation == ResetCount(Init(n), acts) == Claims(s.callers) <= n
      && (forall i, j :: 0 <= i < j < n && s.callers[i].claimed.Some? ==> s.callers[i].claimed != s.callers[j].claimed)
      && s.started <= s.settled + 1
      && (forall i :: 0 <= i < n ==> s.callers[i].runs <= 2)
  {
    NoClaims(Init(n).callers);
    RunInv(Init(n), acts);
    var s := Run(Init(n), acts);
    ClaimsWake(s.callers, true, 0);
    forall i | 0 <= i < n ensures s.callers[i].runs <= 2 {
      assert CallerInv(s, s.callers[i]);
    }
  }

  // ----- what a caller is told -----

  // A finished caller: what its calls of fn gave decides everything.
  predicate Justified(c: Caller, ok: bool) {
    || (c.runs == 0 && c.outcomes == [] && c.refused && !ok)
    || (c.runs == 1 && |c.outcomes| == 1 && c.outcomes[0] != AuthError && !c.refused && ok == (c.outcomes[0] == Returned))
    || (c.runs == 1 && c.outcomes == [AuthError] && c.refused && !ok)
    || (c.runs == 2 && |c.outcomes| == 2 && c.outcomes[0] == AuthError && !c.refused && ok == (c.outcomes[1] == Returned))
  }

  ghost predicate HistoryInv(s: State, c: Caller) {
    && (c.pc.Start? || c.pc.Await1? || c.pc.Ready1? ==> c.runs == 0 && c.outcomes == [] && !c.refused)
    && (c.pc.Run1? ==> c.runs == 1 && c.outcomes == [] && !c.refused && c.ranOn == c.pc.gen)
    && (c.pc.Await2? || c.pc.Ready2? ==> c.runs == 1 && c.outcomes == [AuthError] && !c.refused)
    && (c.pc.Run2? ==> c.runs == 2 && c.outcomes == [AuthError] && !c.refused)
    && (c.pc.Done? ==> Justified(c, c.pc.ok))
    && (c.claimed.Some? ==> c.claimed.value == c.ranOn && c.outcomes != [] && c.outcomes[0] == AuthError)
    && (c.outcomes != [] && c.outcomes[0] == AuthError ==> c.ranOn < s.transport)
  }

  ghost predicate Histories(s: State) {
    forall i :: 0 <= i < |s.callers| ==> HistoryInv(s, s.callers[i])
  }

  lemma StepHistory(s: State, a: Action, k: nat)
    requires Inv(s) && Histories(s) && k < |s.callers|
    ensures |Step(s, a).callers| == |s.callers| && HistoryInv(Step(s, a), Step(s, a).callers[k])
  {
    assert CallerInv(s, s.callers[k]) && HistoryInv(s, s.callers[k]);
    if a.Return? {
      ReturnHistory(s, a.i, a.outcome, k);
    }
  }

  lemma ReturnHistory(s: State, i: nat, outcome: Outcome, k: nat)
    requires Inv(s) && Histories(s) && k < |s.callers|
    ensures var s' := Step(s, Return(i, outcome));
      |s'.callers| == |s.callers| && HistoryInv(s', s'.callers[k])
  {
    assert CallerInv(s, s.callers[k]) && HistoryInv(s, s.callers[k]);
    if i != k {
      Bystander(s, i, outcome, k);
    }
  }

  lemma Bystander(s: State, i: nat, outcome: Outcome, k: nat)
    requires k < |s.callers| && i != k
    ensures var s' := Step(s, Return(i, outcome));
      && |s'.callers| == |s.callers| && s'.callers[k] == s.callers[k]
      && s'.transport >= s.transport && s'.generation >= s.generation && (s.inflight.Some? ==> s'.inflight.Some?)
      && (s'.generation == s.generation ==> s'.registered == s.registered)
  {
  }

  lemma {:induction false} RunHistories(s: State, acts: seq<Action>)
    requires Inv(s) && Histories(s)
    ensures Histories(Run(s, acts))
    decreases |acts|
  {
    if acts != [] {
      StepInv(s, acts[0]);
      forall k | 0 <= k < |s.callers| ensures HistoryInv(Step(s, acts[0]), Step(s, acts[0]).callers[k]) {
        StepHistory(s, acts[0], k);
      }
      RunHistories(Step(s, acts[0]), acts[1..]);
    }
  }

  /** On every run, what a finished caller is told is what its last call of fn
      gave. Every first auth error, whichever generation it is from, is followed
      by a second call of fn or by a failed registration, and nothing else is
      retried. */
  lemma EveryAuthErrorIsRetried(n: nat, acts: seq<Action>, i: nat)
    requires i < n
    ensures var s := Run(Init(n), acts);
      i < |s.callers| &&
      var c := s.callers[i];
      c.pc.Done? ==>
        && (c.pc.ok <==> c.outcomes != [] && c.outcomes[|c.outcomes| - 1] == Returned)
        && c.runs == |c.outcomes| <= 2
        && (c.runs == 2 <==> c.outcomes != [] && c.outcomes[0] == AuthError && !c.refused)
        && (c.runs == 1 ==> c.outcomes[0] == Returned || c.outcomes[0] == OtherError || c.refused)
        && (c.runs == 0 ==> c.refused)
  {
    NoClaims(Init(n).callers);
    RunInv(Init(n), acts);
    RunHistories(Init(n), acts);
    assert HistoryInv(Run(Init(n), acts), Run(Init(n), acts).callers[i]);
  }

  /** A caller only ever resets the transport its own first call of fn failed on,
      and after a first auth error that transport is gone, by its own reset or by
      another caller's. With RecoverySafety, each transport is reset at most once. */
  lemma ResetsOwnTransport(n: nat, acts: seq<Action>, i: nat)
    requires i < n
    ensures var s := Run(Init(n), acts);
      i < |s.callers| &&
      var c := s.callers[i];
      && (c.claimed.Some? ==> c.claimed == Some(c.ranOn) && c.outcomes != [] && c.outcomes[0] == AuthError)
      && (c.outcomes != [] && c.outcomes[0] == AuthError ==> c.ranOn < s.transport)
  {
    NoClaims(Init(n).callers);
    RunInv(Init(n), acts);
    RunHistories(Init(n), acts);
    assert HistoryInv(Run(Init(n), acts), Run(Init(n), acts).callers[i]);
  }

  // ----- progress -----

  function Rank(pc: Pc): nat {
    match pc
    case Start => 11
    case Await1 => 8
    case Ready1 => 7
    case Run1(_) => 6
    case Await2 => 3
    case Ready2 => 2
    case Run2 => 1
    case Done(_) => 0
  }

  function RankSum(callers: seq<Caller>): nat {
    if callers == [] then 0 else Rank(callers[0].pc) + RankSum(callers[1..])
  }

  // An upper bound on the steps still to come.
  function Measure(s: State): nat {
    RankSum(s.callers) + (if s.inflight.None? then 0 else if s.inflight.value.on.None? then 2 else 1)
  }

  lemma {:induction false} RankUpdate(callers: seq<Caller>, i: nat, c: Caller)
    requires i < |callers|
    ensures RankSum(callers[i := c]) + Rank(callers[i].pc) == RankSum(callers) + Rank(c.pc)
  {
    if i == 0 {
      assert callers[0 := c][1..] == callers[1..];
    } else {
      assert callers[i := c][1..] == callers[1..][i - 1 := c];
      RankUpdate(callers[1..], i - 1, c);
    }
  }

  lemma {:induction false} RankWake(callers: seq<Caller>, ok: bool, generation: nat)
    ensures RankSum(Wake(callers, ok, generation)) <= RankSum(callers)
  {
    if callers != [] {
      assert Wake(callers, ok, generation)[1..] == Wake(callers[1..], ok, generation);
      RankWake(callers[1..], ok, generation);
    }
  }

  lemma StepDecreases(s: State, a: Action)
    requires Enabled(s, a)
    ensures Measure(Step(s, a)) < Measure(s)
  {
    match a
    case Send =>
    case Settle(ok) => RankWake(s.callers, ok, s.generation);
    case Begin(i) => RankUpdate(s.callers, i, Step(s, a).callers[i]);
    case Resume(i) => RankUpdate(s.callers, i, Step(s, a).callers[i]);
    case Return(i, outcome) => ReturnDecreases(s, i, outcome);
  }

  lemma ReturnDecreases(s: State, i: nat, outcome: Outcome)
    requires Enabled(s, Return(i, outcome))
    ensures Measure(Step(s, Return(i, outcome))) < Measure(s)
  {
    var s' := Step(s, Return(i, outcome));
    RankUpdate(s.callers, i, s'.callers[i]);
    assert s'.callers == s.callers[i := s'.callers[i]];
  }

  lemma {:induction false} StepsBounded(s: State, acts: seq<Action>)
    requires AllEnabled(s, acts)
    ensures |acts| + Measure(Run(s, acts)) <= Measure(s)
    decreases |acts|
  {
    if acts != [] {
      StepDecreases(s, acts[0]);
      StepsBounded(Step(s, acts[0]), acts[1..]);
    }
  }

  lemma {:induction false} InitRank(callers: seq<Caller>)
    requires forall i :: 0 <= i < |callers| ==> callers[i].pc.Start?
    ensures RankSum(callers) == 11 * |callers|
  {
    if callers != [] {
      InitRank(callers[1..]);
    }
  }

  ghost predicate AllDone(s: State) {
    forall i :: 0 <= i < |s.callers| ==> s.callers[i].pc.Done?
  }

  /** Every run is finite, and as long as a caller is unfinished some step can be
      taken: if awaits settle, all n callers finish. */
  lemma EveryoneFinishes(n: nat, acts: seq<Action>)
    requires AllEnabled(Init(n), acts)
    ensures |acts| <= 11 * n
    ensures AllDone(Run(Init(n), acts)) || exists a :: Enabled(Run(Init(n), acts), a)
  {
    InitRank(Init(n).callers);
    StepsBounded(Init(n), acts);
    NoClaims(Init(n).callers);
    RunInv(Init(n), acts);
    var s := Run(Init(n), acts);
    if !AllDone(s) {
      var i :| 0 <= i < |s.callers| && !s.callers[i].pc.Done?;
      assert CallerInv(s, s.callers[i]);
      var pc := s.callers[i].pc;
      var a := if pc.Start? then Begin(i)
        else if pc.Await1? || pc.Await2? then Settle(false)
        else if pc.Ready1? || pc.Ready2? then Resume(i)
        else Return(i, Returned);
      assert Enabled(s, a);
    }
  }

  // ----- can a reset take the transport from under a registration? -----

  // The reset closes the transport on which a register call in flight was sent.
  predicate TearsDown(s: State, a: Action) {
    Resets(s, a) && s.inflight.Some? && s.inflight.value.on == Some(s.transport)
  }

  /** In every run, a caller whose wait settled in the current generation resets
      a registered session with nothing in flight. So a reset that tears down a
      registration in flight is always the work of a caller whose own wait had
      settled before an earlier reset, and which resumed after it. */
  lemma TearDownNeedsStaleWait(n: nat, acts: seq<Action>, i: nat)
    ensures var s := Run(Init(n), acts);
      Resets(s, Return(i, AuthError)) ==>
        && s.callers[i].settledAt <= s.generation
        && (s.callers[i].settledAt == s.generation ==> s.registered && s.inflight.None?)
        && (TearsDown(s, Return(i, AuthError)) ==> s.callers[i].settledAt < s.generation)
  {
    NoClaims(Init(n).callers);
    RunInv(Init(n), acts);
    var s := Run(Init(n), acts);
    if Resets(s, Return(i, AuthError)) {
      assert CallerInv(s, s.callers[i]);
    }
  }

  // Some step of the run tears down a registration.
  predicate TearsDownIn(s: State, acts: seq<Action>)
    decreases |acts|
  {
    acts != [] && (TearsDown(s, acts[0]) || TearsDownIn(Step(s, acts[0]), acts[1..]))
  }

  lemma LoneStepIsSafe(s: State, a: Action)
    requires Inv(s) && |s.callers| <= 1
    ensures !TearsDown(s, a)
  {
    if s.callers != [] {
      assert CallerInv(s, s.callers[0]) && s.callers[1..] == [];
      assert Claims(s.callers) == if s.callers[0].claimed.Some? then 1 else 0;
    }
  }

  lemma {:induction false} LoneCallerIsSafe(s: State, acts: seq<Action>)
    requires Inv(s) && |s.callers| <= 1
    ensures !TearsDownIn(s, acts)
    decreases |acts|
  {
    if acts != [] {
      LoneStepIsSafe(s, acts[0]);
      StepInv(s, acts[0]);
      LoneCallerIsSafe(Step(s, acts[0]), acts[1..]);
    }
  }

  lemma SomeRun(n: nat, acts: seq<Action>)
    requires TearsDownIn(Init(n), acts)
    ensures exists acts :: TearsDownIn(Init(n), acts)
  {
  }

  /** The generation check does not rule such a reset out: some run has one if
      and only if there are at least two callers. */
  lemma TearDownPossibleIff(n: nat)
    ensures (exists acts :: TearsDownIn(Init(n), acts)) <==> n >= 2
  {
    if n >= 2 {
      ResetHitsFreshTransport(n);
      SomeRun(n, FIRST + (SECOND + THIRD));
    } else {
      NoClaims(Init(n).callers);
      forall acts: seq<Action> ensures !TearsDownIn(Init(n), acts) {
        LoneCallerIsSafe(Init(n), acts);
      }
      assert !exists acts :: TearsDownIn(Init(n), acts);
    }
  }

  const FIRST := [Begin(0), Send, Settle(true)]
  const SECOND := [Resume(0), Begin(1), Return(0, AuthError)]
  const THIRD := [Resume(1), Send, Return(1, AuthError)]

  /** The run: caller 1 finds the session registered, so its continuation is
      queued at once; caller 0 fails and resets, and starts to re-register;
      caller 1 resumes and captures the new generation; the new transport is up
      and carries the register call; then caller 1 fails and closes it. */
  lemma ResetHitsFreshTransport(n: nat)
    requires n >= 2
    ensures TearsDownIn(Init(n), FIRST + (SECOND + THIRD))
  {
    var idle := Init(n).callers[2..];
    BothStarted(n);
    TearsLater(Init(n), Begin(0), Send, Settle(true), SECOND + THIRD) by {
      FirstResets(idle);
      TearsLater(OneRegistered(idle), Resume(0), Begin(1), Return(0, AuthError), THIRD) by {
        SecondResets(idle);
      }
    }
  }

  lemma TearsLater(s: State, a: Action, b: Action, c: Action, rest: seq<Action>)
    requires TearsDownIn(Run3(s, a, b, c), rest)
    ensures TearsDownIn(s, [a, b, c] + rest)
  {
    var acts := [a, b, c] + rest;
    assert acts[1..] == [b, c] + rest && acts[1..][1..] == [c] + rest && acts[1..][1..][1..] == rest;
    assert TearsDownIn(Step(Step(s, a), b), acts[1..][1..]);
    assert TearsDownIn(Step(s, a), acts[1..]);
  }

  // The states of that run; the other callers stay idle.
  function OneRegistered(idle: seq<Caller>): State {
    State(true, None, 0, 0, 1, 1, [Caller(Ready1, 0, None, 0, 0, [], false), NewCaller()] + idle)
  }

  function Reregistering(idle: seq<Caller>): State {
    State(false, Some(Flight(None)), 1, 1, 2, 1, [Caller(Await2, 1, Some(0), 0, 0, [AuthError], false), Caller(Ready1, 0, None, 0, 0, [], false)] + idle)
  }

  lemma BothStarted(n: nat)
    requires n >= 2
    ensures Run3(Init(n), Begin(0), Send, Settle(true)) == OneRegistered(Init(n).callers[2..])
  {
    var idle := Init(n).callers[2..];
    var start := NewCaller();
    assert Init(n).callers == [start, start] + idle;
    var s1 := Step(Init(n), Begin(0));
    assert s1.callers == [Caller(Await1, 0, None, 0, 0, [], false), start] + idle;
    assert Wake(s1.callers, true, 0) == [Caller(Ready1, 0, None, 0, 0, [], false), start] + idle;
  }

  lemma FirstResets(idle: seq<Caller>)
    ensures Run3(OneRegistered(idle), Resume(0), Begin(1), Return(0, AuthError)) == Reregistering(idle)
  {
    var s1 := Step(OneRegistered(idle), Resume(0));
    assert s1.callers == [Caller(Run1(0), 1, None, 0, 0, [], false), NewCaller()] + idle;
    var s2 := Step(s1, Begin(1));
    assert s2.callers == [Caller(Run1(0), 1, None, 0, 0, [], false), Caller(Ready1, 0, None, 0, 0, [], false)] + idle;
    assert [] + [AuthError] == [AuthError];
    assert Step(s2, Return(0, AuthError)).callers == Reregistering(idle).callers;
  }

  lemma SecondResets(idle: seq<Caller>)
    ensures TearsDownIn(Reregistering(idle), THIRD)
  {
    var s1 := Step(Reregistering(idle), Resume(1));
    assert s1.callers[1] == Caller(Run1(1), 1, None, 0, 1, [], false);
    var s2 := Step(s1, Send);
    assert TearsDown(s2, Return(1, AuthError));
    var acts := [Resume(1), Send, Return(1, AuthError)];
    assert acts[1..] == [Send, Return(1, AuthError)] && acts[1..][1..] == [Return(1, AuthError)];
    assert TearsDownIn(s2, acts[1..][1..]);
    assert TearsDownIn(s1, acts[1..]);
  }

  function Run3(s: State, a: Action, b: Action, c: Action): State {
    Step(Step(Step(s, a), b), c)
  }
}
