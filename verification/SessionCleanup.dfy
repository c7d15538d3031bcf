// Registration of the disconnect callback of one transport session. Setters
// run on any threads: each stores the session state, checks and sets the marker
// under the lock, and pushes the callback after releasing it.

module SessionCleanup {

  // `marking` are the setters that have stored their state and not checked the
  // marker yet, `pushing` those that set it and have not pushed yet; `pending`
  // counts the callbacks on the exit stack.
  datatype State = State(bound: bool, marker: bool, marking: set<nat>, pushing: set<nat>, pending: nat)

  datatype Action =
    | Bind(setter: nat)           // the setter stores the session state
    | Mark(setter: nat)           // its locked check of the marker
    | Push(setter: nat, ok: bool) // push_async_callback; ok is false when it raises
    | Cleanup                     // the exit stack runs one callback

  predicate Enabled(s: State, a: Action) {
    match a
    case Bind(i) => i !in s.marking && i !in s.pushing
    case Mark(i) => i in s.marking
    case Push(i, _) => i in s.pushing
    case Cleanup => s.pending > 0
  }

  function Step(s: State, a: Action): State {
    if !Enabled(s, a) then s
    else
      match a
      case Bind(i) => s.(bound := true, marking := s.marking + {i})
      case Mark(i) =>
        if s.marker then s.(marking := s.marking - {i})
        else s.(marker := true, marking := s.marking - {i}, pushing := s.pushing + {i})
      case Push(i, ok) =>
        if ok then s.(pushing := s.pushing - {i}, pending := s.pending + 1)
        else s.(pushing := s.pushing - {i}, marker := false)
      case Cleanup => s.(bound := false, marker := false, pending := s.pending - 1)
  }

  function Run(s: State, acts: seq<Action>): State
    decreases |acts|
  {
    if acts == [] then s else Run(Step(s, acts[0]), acts[1..])
  }

  function Init(bound: bool): State {
    State(bound, false, {}, {}, 0)
  }

  // No setter is under way.
  predicate Quiet(s: State) {
    s.marking == {} && s.pushing == {}
  }

  ghost predicate Inv(s: State) {
    && |s.pushing| + s.pending == (if s.marker then 1 else 0)
    && s.marking !! s.pushing
  }

  lemma StepInv(s: State, a: Action)
    requires Inv(s)
    ensures Inv(Step(s, a))
  {
    if a.Push? && Enabled(s, a) {
      assert |s.pushing - {a.setter}| == |s.pushing| - 1;
    }
  }

  lemma {:induction false} RunInv(s: State, acts: seq<Action>)
    requires Inv(s)
    ensures Inv(Run(s, acts))
    decreases |acts|
  {
    if acts != [] {
      StepInv(s, acts[0]);
      RunInv(Step(s, acts[0]), acts[1..]);
    }
  }

  /** However the setters interleave, and whichever pushes raise, at most one
      callback is ever pending; once no setter is under way the marker is set
      exactly when one is. */
  lemma MarkerMeansOnePending(bound: bool, acts: seq<Action>)
    ensures var s := Run(Init(bound), acts);
      && s.pending <= 1
      && (s.pushing == {} ==> (s.marker <==> s.pending == 1))
  {
    RunInv(Init(bound), acts);
  }

  /** When the callback has run, binding, marker and pending callback are gone. */
  lemma CleanupClearsAll(bound: bool, acts: seq<Action>)
    requires Enabled(Run(Init(bound), acts), Cleanup)
    ensures var s := Run(Init(bound), acts);
      Step(s, Cleanup) == State(false, false, s.marking, {}, 0)
  {
    RunInv(Init(bound), acts);
    var s := Run(Init(bound), acts);
    assert |s.pushing| == 0;
  }

  // ----- is a bound session always cleaned up? -----

  predicate Raises(s: State, a: Action) {
    Enabled(s, a) && a.Push? && !a.ok
  }

  // A setter sets the marker, or a callback runs.
  predicate Renews(s: State, a: Action) {
    Enabled(s, a) && ((a.Mark? && !s.marker) || a.Cleanup?)
  }

  // A push has raised, and since then no marker was set and no callback ran.
  function Abandoned(s: State, acts: seq<Action>, before: bool): bool
    decreases |acts|
  {
    if acts == [] then before
    else Abandoned(Step(s, acts[0]), acts[1..],
                   if Raises(s, acts[0]) then true else if Renews(s, acts[0]) then false else before)
  }

  ghost predicate AbandonInv(s: State, abandoned: bool) {
    && (abandoned ==> !s.marker)
    && (s.bound && s.marking == {} && !s.marker ==> abandoned)
  }

  lemma StepAbandon(s: State, a: Action, before: bool)
    requires Inv(s) && AbandonInv(s, before)
    ensures AbandonInv(Step(s, a), if Raises(s, a) then true else if Renews(s, a) then false else before)
  {
  }

  lemma {:induction false} RunAbandon(s: State, acts: seq<Action>, before: bool)
    requires Inv(s) && AbandonInv(s, before)
    ensures AbandonInv(Run(s, acts), Abandoned(s, acts, before))
    decreases |acts|
  {
    if acts != [] {
      var (s', a) := (Step(s, acts[0]), acts[0]);
      StepInv(s, a);
      StepAbandon(s, a, before);
      RunAbandon(s', acts[1..], if Raises(s, a) then true else if Renews(s, a) then false else before);
    }
  }

  /** A bound session that no setter is working on has no callback to clean it up
      if and only if a push has raised, and since then no setter set the marker
      and no callback ran. */
  lemma BoundWithoutCallbackIff(acts: seq<Action>)
    ensures var s := Run(Init(false), acts);
      s.bound && Quiet(s) ==> (s.pending == 0 <==> Abandoned(Init(false), acts, false))
  {
    RunInv(Init(false), acts);
    RunAbandon(Init(false), acts, false);
  }

  /** A second setter that skips its push does not help: when the first one's
      push then raises, its own call has succeeded and nothing will clean up. */
  lemma SkippedPushStrands()
    ensures var s := Run(Init(false), [Bind(0), Mark(0), Bind(1), Mark(1), Push(0, false)]);
      s.bound && Quiet(s) && s.pending == 0
  {
    var acts := [Bind(0), Mark(0), Bind(1), Mark(1), Push(0, false)];
    assert acts[1..] == [Mark(0), Bind(1), Mark(1), Push(0, false)];
    assert acts[1..][1..] == [Bind(1), Mark(1), Push(0, false)];
    assert acts[1..][1..][1..] == [Mark(1), Push(0, false)] && acts[1..][1..][1..][1..] == [Push(0, false)];
    var s2 := Step(Step(Init(false), Bind(0)), Mark(0));
    assert s2 == State(true, true, {}, {0}, 0);
    var s4 := Step(Step(s2, Bind(1)), Mark(1));
    assert s4 == State(true, true, {}, {0}, 0);
    assert Step(s4, Push(0, false)) == State(true, false, {}, {}, 0);
    assert Run(Init(false), acts) == Run(s2, acts[1..][1..]) == Run(s4, [Push(0, false)]);
  }
}
