// Leader election by a lock with a time to live. The store executes one
// command at a time; commands of different instances interleave freely.

module LeaderLease {
  import opened Options

  type Inst = nat

  datatype Lease = Lease(owner: Inst, expires: int)

  // ----- store commands -----

  // GET: an expired key is gone.
  function Holder(lock: Option<Lease>, now: int): Option<Inst> {
    if lock.Some? && now < lock.value.expires then Some(lock.value.owner) else None
  }

  // SET NX EX
  function SetNx(lock: Option<Lease>, now: int, id: Inst, ttl: int): Option<Lease> {
    if Holder(lock, now).None? then Some(Lease(id, now + ttl)) else lock
  }

  // EXPIRE: no effect on a missing key
  function Expire(lock: Option<Lease>, now: int, ttl: int): Option<Lease> {
    if Holder(lock, now).Some? then Some(lock.value.(expires := now + ttl)) else lock
  }

  // ----- one instance, calls not interrupted -----

  class Store {
    var now: int
    var lock: Option<Lease>

    constructor (now: int)
      ensures this.now == now && lock == None
    {
      this.now := now;
      lock := None;
    }
  }

  class LeaderElection {
    const store: Store
    const ttl: int
    var holder: Option<Inst>

    constructor (store: Store, ttl: int)
      ensures this.store == store && this.ttl == ttl && holder == None
    {
      this.store := store;
      this.ttl := ttl;
      holder := None;
    }

    /** Succeeds exactly when the lock is free or already ours, and then holds
        it for a full ttl. */
    method TryAcquire(id: Inst) returns (ok: bool)
      modifies this`holder, store`lock
      ensures ok <==> old(store.lock).None? || old(store.lock).value.expires <= store.now || old(store.lock).value.owner == id
      ensures ok ==> store.lock == Some(Lease(id, store.now + ttl)) && holder == Some(id)
      ensures !ok ==> store.lock == old(store.lock) && holder == old(holder)
    {
      var acquired := Holder(store.lock, store.now).None?;
      store.lock := SetNx(store.lock, store.now, id, ttl);
      if acquired {
        holder := Some(id);
        return true;
      }
      var current := Holder(store.lock, store.now);
      if current == Some(id) {
        store.lock := Expire(store.lock, store.now, ttl);
        holder := Some(id);
        return true;
      }
      return false;
    }

    method Heartbeat() returns (ok: bool)
      modifies this`holder, store`lock
      ensures ok <==>
        && old(holder).Some? && old(store.lock).Some?
        && store.now < old(store.lock).value.expires && old(store.lock).value.owner == old(holder).value
      ensures ok ==> holder == old(holder) && store.lock == Some(Lease(holder.value, store.now + ttl))
      ensures !ok ==> holder == None && store.lock == old(store.lock)
    {
      if holder == None {
        return false;
      }
      var current := Holder(store.lock, store.now);
      if current != holder {
        holder := None;
        return false;
      }
      store.lock := Expire(store.lock, store.now, ttl);
      return true;
    }

    method Release()
      modifies this`holder, store`lock
      ensures holder == None
      ensures store.lock
        == if old(holder).Some? && old(store.lock).Some? && store.now < old(store.lock).value.expires
              && old(store.lock).value.owner == old(holder).value
           then None else old(store.lock)
    {
      if holder.Some? {
        var current := Holder(store.lock, store.now);
        if current == holder {
          store.lock := None;
        }
        holder := None;
      }
    }
  }

  // ----- many instances, one store command per step -----

  datatype Pc = Idle | AcquireGet | AcquireExpire | BeatGet | BeatExpire | ReleaseGet | ReleaseDelete

  // `seen` is the expiry of the lease the last GET found to be its own, `until`
  // the end of the lease the last successful call promised.
  datatype Local = Local(pc: Pc, ttl: int, leader: bool, seen: int, until: int)

  datatype State = State(now: int, lock: Option<Lease>, locals: map<Inst, Local>)

  datatype Action =
    | Tick(d: nat)
    | TrySet(x: Inst)       // try_acquire, first command
    | BeatCall(x: Inst)
    | ReleaseCall(x: Inst)
    | Get(x: Inst)
    | Second(x: Inst)       // the EXPIRE or DELETE that follows a GET

  predicate InSecond(pc: Pc) {
    pc.AcquireExpire? || pc.BeatExpire? || pc.ReleaseDelete?
  }

  predicate Enabled(s: State, a: Action) {
    a.Tick? ||
    (a.x in s.locals &&
     var l := s.locals[a.x];
     match a
     case TrySet(_) => l.pc.Idle?
     case BeatCall(_) => l.pc.Idle?
     case ReleaseCall(_) => l.pc.Idle?
     case Get(_) => l.pc.AcquireGet? || l.pc.BeatGet? || l.pc.ReleaseGet?
     case Second(_) => InSecond(l.pc))
  }

  function AfterGet(l: Local, id: Inst, lock: Option<Lease>, now: int): Local {
    if Holder(lock, now) == Some(id) then
      l.(pc := if l.pc.AcquireGet? then AcquireExpire else if l.pc.BeatGet? then BeatExpire else ReleaseDelete,
         seen := lock.value.expires)
    else
      l.(pc := Idle, leader := l.leader && l.pc.AcquireGet?)
  }

  // A step that is not enabled does nothing.
  function Step(s: State, a: Action): State {
    if !Enabled(s, a) then s
    else if a.Tick? then s.(now := s.now + a.d)
    else
      var l := s.locals[a.x];
      match a
      case TrySet(x) =>
        if Holder(s.lock, s.now).None? then
          State(s.now, SetNx(s.lock, s.now, x, l.ttl), s.locals[x := l.(leader := true, until := s.now + l.ttl)])
        else s.(locals := s.locals[x := l.(pc := AcquireGet)])
      case BeatCall(x) => if l.leader then s.(locals := s.locals[x := l.(pc := BeatGet)]) else s
      case ReleaseCall(x) => if l.leader then s.(locals := s.locals[x := l.(pc := ReleaseGet)]) else s
      case Get(x) => s.(locals := s.locals[x := AfterGet(l, x, s.lock, s.now)])
      case Second(x) =>
        if l.pc.ReleaseDelete? then
          State(s.now, None, s.locals[x := l.(pc := Idle, leader := false, until := s.now)])
        else
          State(s.now, Expire(s.lock, s.now, l.ttl), s.locals[x := l.(pc := Idle, leader := true, until := s.now + l.ttl)])
  }

  // The step by which a try_acquire or heartbeat call of x returns True.
  predicate Succeeds(s: State, a: Action, x: Inst) {
    Enabled(s, a) &&
    ((a == TrySet(x) && Holder(s.lock, s.now).None?) || (a == Second(x) && !s.locals[x].pc.ReleaseDelete?))
  }

  predicate Deletes(s: State, a: Action, x: Inst) {
    Enabled(s, a) && a == Second(x) && s.locals[x].pc.ReleaseDelete?
  }

  // The command after a GET runs before the lease that GET saw lapses.
  predicate Timely(s: State, a: Action) {
    a.Second? && Enabled(s, a) ==> s.now < s.locals[a.x].seen
  }

  function Run(s: State, acts: seq<Action>): State
    decreases |acts|
  {
    if acts == [] then s else Run(Step(s, acts[0]), acts[1..])
  }

  predicate TimelyRun(s: State, acts: seq<Action>)
    decreases |acts|
  {
    acts == [] || (Timely(s, acts[0]) && TimelyRun(Step(s, acts[0]), acts[1..]))
  }

  predicate KeepsLock(s: State, acts: seq<Action>, x: Inst)
    decreases |acts|
  {
    acts == [] || (!Deletes(s, acts[0], x) && KeepsLock(Step(s, acts[0]), acts[1..], x))
  }

  ghost predicate Init(s: State) {
    s.lock == None &&
    forall x :: x in s.locals ==>
      s.locals[x].pc.Idle? && s.locals[x].ttl > 0 && !s.locals[x].leader && s.locals[x].until <= s.now
  }

  // A promised lease is really in the store; a pending second command has, while
  // timely, its own lease unchanged in the store.
  ghost predicate LocalInv(s: State, x: Inst)
    requires x in s.locals
  {
    var l := s.locals[x];
    && l.ttl > 0 && l.until <= s.now + l.ttl
    && (s.now < l.until ==> s.lock.Some? && s.lock.value.owner == x && l.until <= s.lock.value.expires)
    && (InSecond(l.pc) && s.lock.Some? && s.lock.value.owner == x ==> s.lock.value.expires == l.seen)
    && (InSecond(l.pc) && s.now < l.seen ==> s.lock == Some(Lease(x, l.seen)))
  }

  ghost predicate Inv(s: State) {
    forall x :: x in s.locals ==> LocalInv(s, x)
  }

  lemma InitInv(s: State)
    requires Init(s)
    ensures Inv(s)
  {
  }

  lemma StepLocalInv(s: State, a: Action, x: Inst)
    requires Inv(s) && Timely(s, a) && x in s.locals
    ensures LocalInv(Step(s, a), x)
  {
    assert LocalInv(s, x);
    if !a.Tick? && a.x in s.locals {
      assert LocalInv(s, a.x);
    }
  }

  lemma StepInv(s: State, a: Action)
    requires Inv(s) && Timely(s, a)
    ensures Inv(Step(s, a))
    ensures Step(s, a).locals.Keys == s.locals.Keys
  {
    forall x | x in s.locals ensures LocalInv(Step(s, a), x) {
      StepLocalInv(s, a, x);
    }
  }

  lemma {:induction false} RunInv(s: State, acts: seq<Action>)
    requires Inv(s) && TimelyRun(s, acts)
    ensures Inv(Run(s, acts)) && Run(s, acts).locals.Keys == s.locals.Keys
    decreases |acts|
  {
    if acts != [] {
      StepInv(s, acts[0]);
      RunInv(Step(s, acts[0]), acts[1..]);
    }
  }

  lemma {:induction false} ClaimStands(s: State, acts: seq<Action>, x: Inst)
    requires Inv(s) && TimelyRun(s, acts) && KeepsLock(s, acts, x) && x in s.locals
    ensures x in Run(s, acts).locals && s.locals[x].until <= Run(s, acts).locals[x].until
    decreases |acts|
  {
    if acts != [] {
      assert LocalInv(s, x);
      StepInv(s, acts[0]);
      ClaimStands(Step(s, acts[0]), acts[1..], x);
    }
  }

  /** Lease safety over every interleaving of single store commands: once a call
      of x has succeeded at time t, and unless x releases, no acquire or
      heartbeat of another instance succeeds before t + ttl. */
  lemma LeaseSafety(s0: State, before: seq<Action>, a: Action, x: Inst, between: seq<Action>, b: Action, y: Inst)
    requires Init(s0) && TimelyRun(s0, before)
    requires var s := Run(s0, before); Succeeds(s, a, x) && Timely(s, a)
    requires var s1 := Step(Run(s0, before), a); TimelyRun(s1, between) && KeepsLock(s1, between, x)
    requires var s2 := Run(Step(Run(s0, before), a), between); Succeeds(s2, b, y) && Timely(s2, b)
    requires x != y
    ensures var s := Run(s0, before);
      var s2 := Run(Step(s, a), between);
      x in s.locals && s2.now >= s.now + s.locals[x].ttl
  {
    InitInv(s0);
    RunInv(s0, before);
    var s := Run(s0, before);
    StepInv(s, a);
    var s1 := Step(s, a);
    RunInv(s1, between);
    ClaimStands(s1, between, x);
    var s2 := Run(s1, between);
    StepInv(s2, b);
    var s3 := Step(s2, b);
    assert LocalInv(s3, x) && LocalInv(s3, y);
    assert s3.now < s3.locals[y].until;
  }

  /** A timely release deletes its own lock and nobody else's. */
  lemma ReleaseDeletesOwnLock(s0: State, acts: seq<Action>, a: Action, x: Inst)
    requires Init(s0) && TimelyRun(s0, acts)
    requires Deletes(Run(s0, acts), a, x) && Timely(Run(s0, acts), a)
    ensures Holder(Run(s0, acts).lock, Run(s0, acts).now) == Some(x)
  {
    InitInv(s0);
    RunInv(s0, acts);
    assert LocalInv(Run(s0, acts), x);
  }

  /** Timeliness is exactly the condition under which the second command finds
      its own lease still standing. */
  lemma SecondOwnsLeaseIff(s0: State, acts: seq<Action>, x: Inst)
    requires Init(s0) && TimelyRun(s0, acts)
    requires Enabled(Run(s0, acts), Second(x))
    ensures var s := Run(s0, acts);
      Holder(s.lock, s.now) == Some(x) <==> s.now < s.locals[x].seen
  {
    InitInv(s0);
    RunInv(s0, acts);
    assert LocalInv(Run(s0, acts), x);
  }

  /** And for the EXPIRE of an acquire or heartbeat it is exactly the condition
      under which the success it reports is true: after a late one the store
      holds no lease of the caller. */
  lemma ReportedSuccessIsTrueIff(s0: State, acts: seq<Action>, x: Inst)
    requires Init(s0) && TimelyRun(s0, acts)
    requires Succeeds(Run(s0, acts), Second(x), x)
    ensures var s := Run(s0, acts);
      var s' := Step(s, Second(x));
      Holder(s'.lock, s'.now) == Some(x) <==> s.now < s.locals[x].seen
  {
    SecondOwnsLeaseIff(s0, acts, x);
    InitInv(s0);
    RunInv(s0, acts);
    assert LocalInv(Run(s0, acts), x);
  }

  function Fresh(ttl: int): Local {
    Local(Idle, ttl, false, 0, 0)
  }

  /** Without timeliness two instances hold a promised lease at once: 0 acquires
      and reads its lock in a heartbeat, the lease lapses, 1 acquires, and the
      late EXPIRE extends the lock of 1 while 0 is told it still leads. */
  lemma TwoLeadersWhenLate(ttl: int)
    requires ttl > 0
    ensures var s0 := State(0, None, map[0 := Fresh(ttl), 1 := Fresh(ttl)]);
      var s := Run(s0, [TrySet(0), BeatCall(0), Get(0), Tick(ttl), TrySet(1), Second(0)]);
      Init(s0) && 0 in s.locals && 1 in s.locals && s.now < s.locals[0].until && s.now < s.locals[1].until
  {
    var acts := [TrySet(0), BeatCall(0), Get(0), Tick(ttl), TrySet(1), Second(0)];
    var s0 := State(0, None, map[0 := Fresh(ttl), 1 := Fresh(ttl)]);
    assert acts == [TrySet(0), BeatCall(0), Get(0)] + [Tick(ttl), TrySet(1), Second(0)];
    RunAppend(s0, [TrySet(0), BeatCall(0), Get(0)], [Tick(ttl), TrySet(1), Second(0)]);
    RunOfThree(s0, TrySet(0), BeatCall(0), Get(0));
    var s3 := Step(Step(Step(s0, TrySet(0)), BeatCall(0)), Get(0));
    assert s3.locals[0].pc == BeatExpire && s3.lock == Some(Lease(0, ttl));
    RunOfThree(s3, Tick(ttl), TrySet(1), Second(0));
  }

  lemma RunOfThree(s: State, a: Action, b: Action, c: Action)
    ensures Run(s, [a, b, c]) == Step(Step(Step(s, a), b), c)
  {
    var acts := [a, b, c];
    assert acts[1..] == [b, c] && acts[1..][1..] == [c] && acts[1..][1..][1..] == [];
    var s1 := Step(s, a);
    var s2 := Step(s1, b);
    assert Run(s, acts) == Run(s1, acts[1..]) == Run(s2, acts[1..][1..]) == Run(Step(s2, c), []);
  }

  lemma {:induction false} RunAppend(s: State, a: seq<Action>, b: seq<Action>)
    ensures Run(s, a + b) == Run(Run(s, a), b)
    decreases |a|
  {
    if a == [] {
      assert a + b == b;
    } else {
      assert (a + b)[1..] == a[1..] + b;
      RunAppend(Step(s, a[0]), a[1..], b);
    }
  }

  /** Three uninterrupted steps are one try_acquire call as the class runs it. */
  lemma UninterruptedAcquire(s: State, x: Inst)
    requires x in s.locals && s.locals[x].pc.Idle?
    ensures var s' := Run(s, [TrySet(x), Get(x), Second(x)]);
      var ok := Holder(s.lock, s.now) in {None, Some(x)};
      && x in s'.locals && s'.locals[x].pc.Idle? && s'.now == s.now
      && (ok ==> s'.lock == Some(Lease(x, s.now + s.locals[x].ttl)) && s'.locals[x].leader)
      && (!ok ==> s'.lock == s.lock && s'.locals[x].leader == s.locals[x].leader)
  {
    RunOfThree(s, TrySet(x), Get(x), Second(x));
  }

  /** And so are three steps of a heartbeat, */
  lemma UninterruptedHeartbeat(s: State, x: Inst)
    requires x in s.locals && s.locals[x].pc.Idle?
    ensures var s' := Run(s, [BeatCall(x), Get(x), Second(x)]);
      var ok := s.locals[x].leader && Holder(s.lock, s.now) == Some(x);
      && x in s'.locals && s'.locals[x].pc.Idle? && s'.now == s.now
      && s'.locals[x].leader == ok
      && s'.lock == if ok then Some(Lease(x, s.now + s.locals[x].ttl)) else s.lock
  {
    RunOfThree(s, BeatCall(x), Get(x), Second(x));
  }

  /** and of a release. */
  lemma UninterruptedRelease(s: State, x: Inst)
    requires x in s.locals && s.locals[x].pc.Idle?
    ensures var s' := Run(s, [ReleaseCall(x), Get(x), Second(x)]);
      && x in s'.locals && s'.locals[x].pc.Idle? && s'.now == s.now && !s'.locals[x].leader
      && s'.lock == if s.locals[x].leader && Holder(s.lock, s.now) == Some(x) then None else s.lock
  {
    RunOfThree(s, ReleaseCall(x), Get(x), Second(x));
  }

  /** A lock is there to be taken exactly when it was never set, was deleted, or
      has lapsed. */
  lemma TakenIff(s: State, x: Inst)
    requires x in s.locals && s.locals[x].pc.Idle?
    ensures Succeeds(s, TrySet(x), x) <==> s.lock.None? || s.lock.value.expires <= s.now
  {
  }

  /** No lock outlives its holder: once as much time has passed as the lease had
      left, any idle instance that asks becomes leader for its own ttl. */
  lemma TakeoverAfterLapse(s: State, y: Inst, d: nat)
    requires y in s.locals && s.locals[y].pc.Idle?
    requires s.lock.Some? ==> s.lock.value.expires <= s.now + d
    ensures var s' := Run(s, [Tick(d), TrySet(y)]);
      && s'.now == s.now + d && s'.lock == Some(Lease(y, s.now + d + s.locals[y].ttl))
      && y in s'.locals && s'.locals[y].leader
  {
    assert [Tick(d), TrySet(y)][1..] == [TrySet(y)] && [TrySet(y)][1..] == [];
    var s1 := Step(s, Tick(d));
    assert Run(s, [Tick(d), TrySet(y)]) == Run(s1, [TrySet(y)]) == Run(Step(s1, TrySet(y)), []);
  }
}
