// The in-process table of authenticated sessions, keyed by MCP transport
// session, with an inactivity time to live and opportunistic pruning.

module SessionTable {
  import opened Options

  type Sid = string
  type User = string

  datatype Session = Session(
    user: Option<User>,
    expires: int,
    ttl: int,
    sessionId: Option<string>,
    driver: Option<string>)

  type Table = map<Sid, Session>

  predicate Lapsed(t: Table, sid: Sid, now: int)
    requires sid in t
  {
    now >= t[sid].expires
  }

  // Expired bindings of other sessions are discarded; one's own is kept.
  function Prune(t: Table, own: Sid, now: int): Table {
    map sid | sid in t && (sid == own || !Lapsed(t, sid, now)) :: t[sid]
  }

  function Bound(t: Table, sid: Sid, user: User, ttl: int, session: Option<string>, driver: Option<string>, now: int): Table {
    Prune(t[sid := Session(Some(user), now + ttl, ttl, session, driver)], sid, now)
  }

  function Answer(t: Table, sid: Sid, now: int): Option<User> {
    if sid in t && !Lapsed(t, sid, now) then t[sid].user else None
  }

  function Extended(t: Table, sid: Sid, now: int): Table
    requires sid in t
  {
    t[sid := t[sid].(expires := now + t[sid].ttl)]
  }

  function Refreshed(t: Table, sid: Sid, now: int): Table {
    var p := Prune(t, sid, now);
    if sid in p && !Lapsed(p, sid, now) then Extended(p, sid, now) else p
  }

  function Called(t: Table, sid: Sid, now: int): Table {
    var p := Prune(t, sid, now);
    if Answer(p, sid, now).Some? then Extended(p, sid, now) else p
  }

  // set_session_id renews an existing state without looking at its expiry.
  function Noted(t: Table, sid: Sid, session: string, ttl: int, now: int): Table {
    if sid in t then t[sid := t[sid].(expires := now + ttl, ttl := ttl, sessionId := Some(session))]
    else t[sid := Session(None, now + ttl, ttl, Some(session), None)]
  }

  function Driven(t: Table, sid: Sid, driver: Option<string>, ttl: int, now: int): Table {
    if sid in t then t[sid := t[sid].(driver := driver)]
    else t[sid := Session(None, now + ttl, ttl, None, driver)]
  }

  // Another session's binding: discarded when it has expired, else untouched.
  ghost predicate KeptUnlessExpired(before: Table, after: Table, sid: Sid, now: int) {
    && (sid in after <==> sid in before && now < before[sid].expires)
    && (sid in after ==> after[sid] == before[sid])
  }

  class Sessions {
    var table: Table

    constructor ()
      ensures table == map[]
    {
      table := map[];
    }

    method PruneExpired(own: Sid, now: int)
      modifies this
      ensures table == Prune(old(table), own, now)
      ensures forall other :: other != own ==> KeptUnlessExpired(old(table), table, other, now)
      ensures own in table <==> own in old(table)
      ensures own in table ==> table[own] == old(table)[own]
    {
      var expired := set sid | sid in table && sid != own && now >= table[sid].expires;
      var todo := expired;
      while todo != {}
        invariant todo <= expired
        invariant table == map sid | sid in old(table) && sid !in expired - todo :: old(table)[sid]
        decreases todo
      {
        var sid :| sid in todo;
        table := table - {sid};
        todo := todo - {sid};
      }
    }

    method SetSession(sid: Sid, user: User, ttl: int, session: Option<string>, driver: Option<string>, now: int)
      returns (expires: int)
      modifies this
      ensures table == Bound(old(table), sid, user, ttl, session, driver, now)
      ensures sid in table && table[sid] == Session(Some(user), now + ttl, ttl, session, driver)
      ensures forall other :: other != sid ==> KeptUnlessExpired(old(table), table, other, now)
      ensures expires == now + ttl
    {
      expires := now + ttl;
      table := table[sid := Session(Some(user), expires, ttl, session, driver)];
      PruneExpired(sid, now);
    }

    method GetCurrentUser(sid: Sid, now: int) returns (user: Option<User>)
      modifies this
      ensures user == Answer(old(table), sid, now)
      ensures table == Called(old(table), sid, now)
      ensures user == if sid in old(table) && now < old(table)[sid].expires then old(table)[sid].user else None
      ensures sid in old(table) ==> sid in table
      ensures sid in old(table) ==>
        table[sid] == if user.Some? then old(table)[sid].(expires := now + old(table)[sid].ttl) else old(table)[sid]
      ensures forall other :: other != sid ==> KeptUnlessExpired(old(table), table, other, now)
    {
      PruneExpired(sid, now);
      if sid !in table || table[sid].user.None? || now >= table[sid].expires {
        return None;
      }
      var state := table[sid];
      table := table[sid := state.(expires := now + state.ttl)];
      user := state.user;
    }

    method RefreshSessionMetadata(sid: Sid, now: int)
      modifies this
      ensures table == Refreshed(old(table), sid, now)
      ensures sid in old(table) ==> sid in table
      ensures sid in old(table) && now < old(table)[sid].expires ==>
        table[sid] == old(table)[sid].(expires := now + old(table)[sid].ttl)
      ensures sid in old(table) && old(table)[sid].expires <= now ==> table[sid] == old(table)[sid]
      ensures forall other :: other != sid ==> KeptUnlessExpired(old(table), table, other, now)
    {
      PruneExpired(sid, now);
      if sid !in table || now >= table[sid].expires {
        return;
      }
      var state := table[sid];
      table := table[sid := state.(expires := now + state.ttl)];
    }

    method IsSessionExpired(sid: Sid, now: int) returns (expired: bool)
      modifies this
      ensures expired <==> sid !in old(table) || old(table)[sid].expires <= now
      ensures table == Prune(old(table), sid, now)
    {
      PruneExpired(sid, now);
      expired := sid !in table || now >= table[sid].expires;
    }

    method ClearSession(sid: Sid)
      modifies this
      ensures table == old(table) - {sid}
    {
      table := table - {sid};
    }

    method SetSessionId(sid: Sid, session: string, ttl: int, now: int)
      modifies this
      ensures table == Noted(old(table), sid, session, ttl, now)
      ensures sid in table && table[sid].sessionId == Some(session) && table[sid].expires == now + ttl && table[sid].ttl == ttl
      ensures table[sid].user == if sid in old(table) then old(table)[sid].user else None
    {
      var expires := now + ttl;
      if sid !in table {
        table := table[sid := Session(None, expires, ttl, None, None)];
      } else {
        table := table[sid := table[sid].(expires := expires, ttl := ttl)];
      }
      table := table[sid := table[sid].(sessionId := Some(session))];
    }

    method SetDefaultDriverId(sid: Sid, driver: Option<string>, ttl: int, now: int)
      modifies this
      ensures table == Driven(old(table), sid, driver, ttl, now)
      ensures sid in table && table[sid].driver == driver
      ensures sid in old(table) ==> table[sid] == old(table)[sid].(driver := driver)
    {
      if sid !in table {
        table := table[sid := Session(None, now + ttl, ttl, None, None)];
      }
      table := table[sid := table[sid].(driver := driver)];
    }
  }

  // ----- whole runs over any number of transport sessions -----

  datatype Event =
    | Tick(d: nat)
    | Bind(sid: Sid, user: User, ttl: int, session: Option<string>, driver: Option<string>)
    | Call(sid: Sid)
    | Refresh(sid: Sid)
    | Peek(sid: Sid)
    | Clear(sid: Sid)
    | Note(sid: Sid, name: string, ttl: int)
    | Drive(sid: Sid, driver: Option<string>, ttl: int)

  datatype World = World(now: int, table: Table)

  function Step(w: World, e: Event): World {
    match e
    case Tick(d) => w.(now := w.now + d)
    case Bind(sid, user, ttl, session, driver) => w.(table := Bound(w.table, sid, user, ttl, session, driver, w.now))
    case Call(sid) => w.(table := Called(w.table, sid, w.now))
    case Refresh(sid) => w.(table := Refreshed(w.table, sid, w.now))
    case Peek(sid) => w.(table := Prune(w.table, sid, w.now))
    case Clear(sid) => w.(table := w.table - {sid})
    case Note(sid, name, ttl) => w.(table := Noted(w.table, sid, name, ttl, w.now))
    case Drive(sid, driver, ttl) => w.(table := Driven(w.table, sid, driver, ttl, w.now))
  }

  function Run(w: World, events: seq<Event>): World
    decreases |events|
  {
    if events == [] then w else Run(Step(w, events[0]), events[1..])
  }

  // The specification: what one session did, with no table and no pruning.
  datatype Binding = Binding(user: User, ttl: int, last: int)

  predicate Live(b: Option<Binding>, now: int) {
    b.Some? && now - b.value.last < b.value.ttl
  }

  function Track(b: Option<Binding>, sid: Sid, now: int, e: Event): Option<Binding> {
    if e.Tick? || e.sid != sid then b
    else
      match e
      case Bind(_, user, ttl, _, _) => Some(Binding(user, ttl, now))
      case Clear(_) => None
      case Call(_) => if Live(b, now) then Some(b.value.(last := now)) else b
      case Refresh(_) => if Live(b, now) then Some(b.value.(last := now)) else b
      case Note(_, _, ttl) => if Live(b, now) then Some(b.value.(last := now, ttl := ttl)) else b
      case _ => b
  }

  function History(b: Option<Binding>, sid: Sid, now: int, events: seq<Event>): Option<Binding>
    decreases |events|
  {
    if events == [] then b
    else History(Track(b, sid, now, events[0]), sid, if events[0].Tick? then now + events[0].d else now, events[1..])
  }

  // The last-bound user, exactly while less than the ttl has passed since its
  // last activity.
  function Expected(b: Option<Binding>, now: int): Option<User> {
    if Live(b, now) then Some(b.value.user) else None
  }

  // set_session_id on a binding that has expired but was not pruned yet.
  predicate Revives(w: World, e: Event) {
    e.Note? && e.sid in w.table && w.table[e.sid].user.Some? && Lapsed(w.table, e.sid, w.now) && e.ttl > 0
  }

  // The session's own calls never do that in the run.
  predicate NoRevival(w: World, sid: Sid, events: seq<Event>)
    decreases |events|
  {
    events == [] || (!(Revives(w, events[0]) && events[0].sid == sid) && NoRevival(Step(w, events[0]), sid, events[1..]))
  }

  // The table agrees with the history of one session.
  ghost predicate Agrees(t: Table, b: Option<Binding>, sid: Sid, now: int) {
    if Live(b, now) then
      && sid in t && t[sid].user == Some(b.value.user)
      && t[sid].ttl == b.value.ttl && t[sid].expires == b.value.last + b.value.ttl
    else sid !in t || t[sid].user.None? || Lapsed(t, sid, now)
  }

  lemma StepAgrees(w: World, b: Option<Binding>, sid: Sid, e: Event)
    requires Agrees(w.table, b, sid, w.now) && !(Revives(w, e) && e.sid == sid)
    ensures Agrees(Step(w, e).table, Track(b, sid, w.now, e), sid, Step(w, e).now)
  {
  }

  // After the run, the session gets the answer its own history calls for.
  predicate AnswersRight(w: World, b: Option<Binding>, sid: Sid, events: seq<Event>) {
    var w' := Run(w, events);
    Answer(w'.table, sid, w'.now) == Expected(History(b, sid, w.now, events), w'.now)
  }

  lemma AnswersShift(w: World, b: Option<Binding>, sid: Sid, events: seq<Event>, k: nat)
    requires 0 < k <= |events|
    ensures AnswersRight(w, b, sid, events[..k])
      == AnswersRight(Step(w, events[0]), Track(b, sid, w.now, events[0]), sid, events[1..][..k - 1])
  {
    PrefixCons(events, k);
  }

  lemma PrefixCons(events: seq<Event>, k: nat)
    requires 0 < k <= |events|
    ensures events[..k] == [events[0]] + events[1..][..k - 1]
    ensures events[..k][0] == events[0] && events[..k][1..] == events[1..][..k - 1]
  {
    var (all, head, tail) := (events[..k], [events[0]], events[1..][..k - 1]);
    assert all == head + tail;
    assert (head + tail)[1..] == tail;
  }

  lemma {:induction false} PrefixesRightIff(w: World, b: Option<Binding>, sid: Sid, events: seq<Event>)
    requires Agrees(w.table, b, sid, w.now)
    ensures (forall k :: 0 <= k <= |events| ==> AnswersRight(w, b, sid, events[..k])) <==> NoRevival(w, sid, events)
    decreases |events|
  {
    assert events[..0] == [] && AnswersRight(w, b, sid, events[..0]);
    if events != [] {
      var (e, rest) := (events[0], events[1..]);
      var (w', b') := (Step(w, e), Track(b, sid, w.now, e));
      if Revives(w, e) && e.sid == sid {
        AnswersShift(w, b, sid, events, 1);
        assert rest[..0] == [];
        NoteKeepsAnswerIff(w, b, sid, e.name, e.ttl);
        assert !AnswersRight(w, b, sid, events[..1]);
      } else {
        StepAgrees(w, b, sid, e);
        PrefixesRightIff(w', b', sid, rest);
        ShiftAll(w, b, sid, events);
      }
    }
  }

  lemma ShiftAll(w: World, b: Option<Binding>, sid: Sid, events: seq<Event>)
    requires events != [] && AnswersRight(w, b, sid, events[..0])
    ensures var (w', b', rest) := (Step(w, events[0]), Track(b, sid, w.now, events[0]), events[1..]);
      (forall k :: 0 <= k <= |events| ==> AnswersRight(w, b, sid, events[..k]))
      <==> (forall k :: 0 <= k <= |rest| ==> AnswersRight(w', b', sid, rest[..k]))
  {
    var (w', b', rest) := (Step(w, events[0]), Track(b, sid, w.now, events[0]), events[1..]);
    forall k | 0 < k <= |events|
      ensures AnswersRight(w, b, sid, events[..k]) == AnswersRight(w', b', sid, rest[..k - 1])
    {
      AnswersShift(w, b, sid, events, k);
    }
    if forall k :: 0 <= k <= |events| ==> AnswersRight(w, b, sid, events[..k]) {
      forall k | 0 <= k <= |rest| ensures AnswersRight(w', b', sid, rest[..k]) {
        assert AnswersRight(w, b, sid, events[..k + 1]);
      }
    }
    if forall k :: 0 <= k <= |rest| ==> AnswersRight(w', b', sid, rest[..k]) {
      forall k | 0 <= k <= |events| ensures AnswersRight(w, b, sid, events[..k]) {
        if k > 0 {
          assert AnswersRight(w', b', sid, rest[..k - 1]);
        }
      }
    }
  }

  /** Along any run, get_current_user always answers with the session's own
      last-bound user exactly while less than its ttl has passed since its last
      activity, if and only if no set_session_id call of that session finds an
      expired binding that was not pruned. What other sessions do or prune does
      not enter. */
  lemma AnswerIsOwnHistoryIff(start: int, events: seq<Event>, sid: Sid)
    ensures (forall k :: 0 <= k <= |events| ==> AnswersRight(World(start, map[]), None, sid, events[..k]))
      <==> NoRevival(World(start, map[]), sid, events)
  {
    PrefixesRightIff(World(start, map[]), None, sid, events);
  }

  // What holds even after a revival: the table holds no user but the last bound.
  ghost predicate HoldsOwnUser(t: Table, b: Option<Binding>, sid: Sid, now: int) {
    && (sid in t && t[sid].user.Some? ==> b.Some? && t[sid].user.value == b.value.user)
    && (Live(b, now) ==> Agrees(t, b, sid, now))
  }

  lemma StepHoldsOwnUser(w: World, b: Option<Binding>, sid: Sid, e: Event)
    requires HoldsOwnUser(w.table, b, sid, w.now)
    ensures HoldsOwnUser(Step(w, e).table, Track(b, sid, w.now, e), sid, Step(w, e).now)
  {
  }

  lemma {:induction false} RunHoldsOwnUser(w: World, b: Option<Binding>, sid: Sid, events: seq<Event>)
    requires HoldsOwnUser(w.table, b, sid, w.now)
    ensures HoldsOwnUser(Run(w, events).table, History(b, sid, w.now, events), sid, Run(w, events).now)
    decreases |events|
  {
    if events != [] {
      StepHoldsOwnUser(w, b, sid, events[0]);
      RunHoldsOwnUser(Step(w, events[0]), Track(b, sid, w.now, events[0]), sid, events[1..]);
    }
  }

  /** On every run, revivals included: a live session is answered, and no answer
      is ever anyone but the user this session last bound and has not cleared. */
  lemma NeverAnotherUser(start: int, events: seq<Event>, sid: Sid)
    ensures var w := Run(World(start, map[]), events);
      var b := History(None, sid, start, events);
      && (Answer(w.table, sid, w.now).Some? ==> b.Some? && Answer(w.table, sid, w.now).value == b.value.user)
      && (Live(b, w.now) ==> Answer(w.table, sid, w.now) == Some(b.value.user))
  {
    RunHoldsOwnUser(World(start, map[]), None, sid, events);
  }

  // The events a session can see: its own, and the clock.
  function Own(events: seq<Event>, sid: Sid): seq<Event> {
    if events == [] then []
    else (if events[0].Tick? || events[0].sid == sid then [events[0]] else []) + Own(events[1..], sid)
  }

  lemma OwnCons(events: seq<Event>, sid: Sid)
    requires events != []
    ensures Own(events, sid) == if events[0].Tick? || events[0].sid == sid
      then [events[0]] + Own(events[1..], sid) else Own(events[1..], sid)
  {
    assert [] + Own(events[1..], sid) == Own(events[1..], sid);
  }

  // A set_session_id call that would revive the session's expired binding if the
  // session were alone, and finds no user because another session's call pruned it.
  predicate Forgotten(w: World, alone: World, sid: Sid, e: Event) {
    e.Note? && e.sid == sid && Revives(alone, e) && !(sid in w.table && w.table[sid].user.Some?)
  }

  function StepAlone(alone: World, sid: Sid, e: Event): World {
    if e.Tick? || e.sid == sid then Step(alone, e) else alone
  }

  // It never happens in the run, next to which `alone` takes only the session's own events.
  predicate NothingForgotten(w: World, alone: World, sid: Sid, events: seq<Event>)
    decreases |events|
  {
    events == [] ||
    (!Forgotten(w, alone, sid, events[0])
     && NothingForgotten(Step(w, events[0]), StepAlone(alone, sid, events[0]), sid, events[1..]))
  }

  // After the run, the session gets the answer it would get on its own.
  predicate SameAnswer(w: World, alone: World, sid: Sid, events: seq<Event>) {
    var (w', alone') := (Run(w, events), Run(alone, Own(events, sid)));
    Answer(w'.table, sid, w'.now) == Answer(alone'.table, sid, alone'.now)
  }

  // The two tables agree on the session, or neither can answer.
  ghost predicate Coupled(w: World, alone: World, sid: Sid) {
    && w.now == alone.now
    && (|| ((sid in w.table <==> sid in alone.table) && (sid in w.table ==> w.table[sid] == alone.table[sid]))
        || (&& (sid in w.table ==> w.table[sid].user.None?)
            && (sid in alone.table ==> alone.table[sid].user.None? || Lapsed(alone.table, sid, alone.now))))
  }

  lemma StepCoupled(w: World, alone: World, sid: Sid, e: Event)
    requires Coupled(w, alone, sid) && !Forgotten(w, alone, sid, e)
    ensures Coupled(Step(w, e), StepAlone(alone, sid, e), sid)
  {
  }

  lemma ForgottenShows(w: World, alone: World, sid: Sid, e: Event)
    requires Coupled(w, alone, sid) && Forgotten(w, alone, sid, e)
    ensures Answer(Step(w, e).table, sid, w.now) == None
    ensures Answer(Step(alone, e).table, sid, alone.now) != None
  {
  }

  lemma SameAnswerShift(w: World, alone: World, sid: Sid, events: seq<Event>, k: nat)
    requires 0 < k <= |events|
    ensures SameAnswer(w, alone, sid, events[..k])
      == SameAnswer(Step(w, events[0]), StepAlone(alone, sid, events[0]), sid, events[1..][..k - 1])
  {
    var (e, rest) := (events[0], events[1..][..k - 1]);
    PrefixCons(events, k);
    assert ([e] + rest)[1..] == rest;
    OwnCons([e] + rest, sid);
    assert ([e] + Own(rest, sid))[1..] == Own(rest, sid);
  }

  lemma {:induction false} SameAnswersIff(w: World, alone: World, sid: Sid, events: seq<Event>)
    requires Coupled(w, alone, sid)
    ensures (forall k :: 0 <= k <= |events| ==> SameAnswer(w, alone, sid, events[..k]))
      <==> NothingForgotten(w, alone, sid, events)
    decreases |events|
  {
    assert events[..0] == [] && SameAnswer(w, alone, sid, events[..0]);
    if events != [] {
      var (e, rest) := (events[0], events[1..]);
      if Forgotten(w, alone, sid, e) {
        ForgottenShows(w, alone, sid, e);
        SameAnswerShift(w, alone, sid, events, 1);
        assert rest[..0] == [] && !SameAnswer(w, alone, sid, events[..1]);
      } else {
        StepCoupled(w, alone, sid, e);
        SameAnswersIff(Step(w, e), StepAlone(alone, sid, e), sid, rest);
        SameAnswersShift(w, alone, sid, events);
      }
    }
  }

  lemma SameAnswersShift(w: World, alone: World, sid: Sid, events: seq<Event>)
    requires events != [] && SameAnswer(w, alone, sid, events[..0])
    ensures var (w', alone', rest) := (Step(w, events[0]), StepAlone(alone, sid, events[0]), events[1..]);
      (forall k :: 0 <= k <= |events| ==> SameAnswer(w, alone, sid, events[..k]))
      <==> (forall k :: 0 <= k <= |rest| ==> SameAnswer(w', alone', sid, rest[..k]))
  {
    var (w', alone', rest) := (Step(w, events[0]), StepAlone(alone, sid, events[0]), events[1..]);
    forall k | 0 < k <= |events|
      ensures SameAnswer(w, alone, sid, events[..k]) == SameAnswer(w', alone', sid, rest[..k - 1])
    {
      SameAnswerShift(w, alone, sid, events, k);
    }
    if forall k :: 0 <= k <= |events| ==> SameAnswer(w, alone, sid, events[..k]) {
      forall k | 0 <= k <= |rest| ensures SameAnswer(w', alone', sid, rest[..k]) {
        assert SameAnswer(w, alone, sid, events[..k + 1]);
      }
    }
    if forall k :: 0 <= k <= |rest| ==> SameAnswer(w', alone', sid, rest[..k]) {
      forall k | 0 <= k <= |events| ensures SameAnswer(w, alone, sid, events[..k]) {
        if k > 0 {
          assert SameAnswer(w', alone', sid, rest[..k - 1]);
        }
      }
    }
  }

  /** Non-interference, exactly: along any run, dropping every event of every
      other session changes no answer this session gets, if and only if no
      set_session_id call of the session comes too late to revive an expired
      binding because another session's call has pruned it. */
  lemma OthersNeverInterfereIff(start: int, events: seq<Event>, sid: Sid)
    ensures var w := World(start, map[]);
      (forall k :: 0 <= k <= |events| ==> SameAnswer(w, w, sid, events[..k])) <==> NothingForgotten(w, w, sid, events)
  {
    SameAnswersIff(World(start, map[]), World(start, map[]), sid, events);
  }

  /** The guard is exact: a set_session_id call gives the answer the history
      calls for if and only if it does not find an expired, unpruned binding. */
  lemma NoteKeepsAnswerIff(w: World, b: Option<Binding>, sid: Sid, name: string, ttl: int)
    requires Agrees(w.table, b, sid, w.now)
    ensures var e := Note(sid, name, ttl);
      Answer(Step(w, e).table, sid, w.now) == Expected(Track(b, sid, w.now, e), w.now) <==> !Revives(w, e)
  {
  }

  /** Whether such a call revives the user depends on whether another session
      happened to prune the binding first. */
  lemma PruningDecidesRevival(w: World, sid: Sid, other: Sid, name: string, ttl: int)
    requires sid != other && Revives(w, Note(sid, name, ttl))
    ensures var e := Note(sid, name, ttl);
      && Answer(w.table, sid, w.now) == None
      && Answer(Step(w, e).table, sid, w.now) == w.table[sid].user
      && Answer(Step(Step(w, Peek(other)), e).table, sid, w.now) == None
  {
  }
}
