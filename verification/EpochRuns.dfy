// Whole runs of searches that share one stored epoch: how often the
// cache-stable prefix can be thrown away.

module EpochRuns {
  import opened Memory
  import opened Options
  import opened Sorting
  import opened Compilation
  import opened SearchOrdering

  // A search is its backfilled result set. Against a fixed database and filter,
  // whose visible ids are `visible`, it is non-empty, duplicate-free, and holds
  // every visible id of the stored epoch. It may also hold ids the filter hides.
  ghost predicate LegalSearch(stored: Option<Epoch>, all: seq<Hit>, visible: set<Id>) {
    && all != [] && DistinctIds(all)
    && (stored.Some? ==> forall id :: id in stored.value.ids && id in visible ==> id in IdSet(all))
  }

  function After(stored: Option<Epoch>, all: seq<Hit>): Option<Epoch> {
    StoredAfter(all, stored, true, true)
  }

  function Final(stored: Option<Epoch>, run: seq<seq<Hit>>): Option<Epoch>
    decreases |run|
  {
    if run == [] then stored else Final(After(stored, run[0]), run[1..])
  }

  ghost predicate LegalRun(stored: Option<Epoch>, run: seq<seq<Hit>>, visible: set<Id>)
    decreases |run|
  {
    run == [] || (LegalSearch(stored, run[0], visible) && LegalRun(After(stored, run[0]), run[1..], visible))
  }

  predicate Invalidates(stored: Option<Epoch>, all: seq<Hit>) {
    stored.Some? && Recompiles(all, stored.value)
  }

  function Invalidations(stored: Option<Epoch>, run: seq<seq<Hit>>): nat
    decreases |run|
  {
    if run == [] then 0
    else (if Invalidates(stored, run[0]) then 1 else 0) + Invalidations(After(stored, run[0]), run[1..])
  }

  ghost function Known(stored: Option<Epoch>, visible: set<Id>): set<Id> {
    if stored.None? then {} else set id | id in stored.value.ids && id in visible
  }

  /** A search backfilled from the database is legal in this sense. */
  lemma BackfillIsLegal(hits: seq<Hit>, epoch: Epoch, db: Database, filter: Row -> bool, threshold: real,
                        added: seq<Hit>)
    requires hits != [] && DistinctIds(hits) && IsBackfill(hits, epoch, db, filter, threshold, added)
    ensures LegalSearch(Some(epoch), hits + added, set id | id in db && filter(db[id]))
  {
    BackfilledIds(hits, epoch, db, filter, threshold, added);
  }

  // A recompile happens only when the response holds an id the epoch lacks.
  lemma InvalidationNeedsNews(epoch: Epoch, all: seq<Hit>)
    requires all != [] && Recompiles(all, epoch)
    ensures exists id :: id in IdSet(all) && id !in epoch.ids
  {
    if forall id :: id in IdSet(all) ==> id in epoch.ids {
      forall h | h in all ensures !OutsideEpoch(epoch.ids)(h) {
        assert h.item.id in IdSet(all);
      }
      FilterNone(all, OutsideEpoch(epoch.ids));
      CompiledIds(all, epoch);
      assert all[0].item.id in IdSet(all);
      assert all[0].item.id in Ids(Compiled(all, epoch));
      NoNewsNoRecompile(|Compiled(all, epoch)|);
    }
  }

  // No search of the run returns a memory outside the set.
  ghost predicate Inside(run: seq<seq<Hit>>, reach: set<Id>) {
    forall all :: all in run ==> IdSet(all) <= reach
  }

  lemma StepKnown(stored: Option<Epoch>, all: seq<Hit>, visible: set<Id>)
    requires LegalSearch(stored, all, visible)
    ensures Known(stored, visible) <= Known(After(stored, all), visible) <= visible
    ensures Invalidates(stored, all) && IdSet(all) <= visible ==>
      Known(stored, visible) < Known(After(stored, all), visible)
  {
    if stored.None? {
      CompileDistinct(all, 1);
    } else if Recompiles(all, stored.value) {
      var e := stored.value;
      CompileDistinct(all, e.number + 1);
      InvalidationNeedsNews(e, all);
      var id :| id in IdSet(all) && id !in e.ids;
      assert id in visible ==> id in Known(After(stored, all), visible) && id !in Known(stored, visible);
    }
  }

  lemma SubsetSize<T>(a: set<T>, b: set<T>)
    requires a <= b
    ensures |a| <= |b| && (a < b ==> |a| < |b|)
  {
    assert b == a + (b - a);
    assert a < b ==> b - a != {};
  }

  /** Over any run of searches with one filter on unchanged data, no visible id
      ever leaves the epoch; and while no search returns a memory the filter
      hides, the prefix is thrown away at most once per visible memory the epoch
      does not list yet. */
  lemma {:induction false} InvalidationsBounded(stored: Option<Epoch>, run: seq<seq<Hit>>, visible: set<Id>)
    requires LegalRun(stored, run, visible)
    ensures Known(stored, visible) <= Known(Final(stored, run), visible)
    ensures Inside(run, visible) ==> Invalidations(stored, run) + |Known(stored, visible)| <= |visible|
    decreases |run|
  {
    SubsetSize(Known(stored, visible), visible);
    if run != [] {
      assert run[0] in run && forall all :: all in run[1..] ==> all in run;
      StepKnown(stored, run[0], visible);
      SubsetSize(Known(stored, visible), Known(After(stored, run[0]), visible));
      InvalidationsBounded(After(stored, run[0]), run[1..], visible);
    }
  }

  function Lists(stored: Option<Epoch>, id: Id): bool {
    stored.Some? && id in stored.value.ids
  }

  // What is left to learn, counted double, and whether the epoch lists h.
  ghost function Potential(stored: Option<Epoch>, visible: set<Id>, h: Id): int {
    2 * (|visible| - |Known(stored, visible)|) + if Lists(stored, h) then 0 else 1
  }

  // An invalidation either learns a visible memory or puts h in the epoch.
  lemma PotentialDrops(stored: Option<Epoch>, all: seq<Hit>, visible: set<Id>, h: Id)
    requires LegalSearch(stored, all, visible) && IdSet(all) <= visible + {h}
    ensures Potential(After(stored, all), visible, h) + (if Invalidates(stored, all) then 1 else 0)
      <= Potential(stored, visible, h)
  {
    var (known, known') := (Known(stored, visible), Known(After(stored, all), visible));
    StepKnown(stored, all, visible);
    SubsetSize(known, known');
    if stored.Some? && Recompiles(all, stored.value) {
      NewsIsKnownOrHidden(stored.value, all, visible, h);
    } else if stored.None? {
      assert !Lists(stored, h);
    }
  }

  lemma NewsIsKnownOrHidden(epoch: Epoch, all: seq<Hit>, visible: set<Id>, h: Id)
    requires LegalSearch(Some(epoch), all, visible) && IdSet(all) <= visible + {h} && Recompiles(all, epoch)
    ensures var after := After(Some(epoch), all);
      Known(Some(epoch), visible) < Known(after, visible) || (!Lists(Some(epoch), h) && Lists(after, h))
  {
    StepKnown(Some(epoch), all, visible);
    CompileDistinct(all, epoch.number + 1);
    InvalidationNeedsNews(epoch, all);
    var id :| id in IdSet(all) && id !in epoch.ids;
    if id in visible {
      assert id in Known(After(Some(epoch), all), visible) && id !in Known(Some(epoch), visible);
    }
  }

  /** One reachable hidden memory does not break the bound, it doubles it. */
  lemma {:induction false} OneHiddenBounded(stored: Option<Epoch>, run: seq<seq<Hit>>, visible: set<Id>, h: Id)
    requires LegalRun(stored, run, visible) && Inside(run, visible + {h})
    ensures Invalidations(stored, run) <= Potential(stored, visible, h) <= 2 * |visible| + 1
    decreases |run|
  {
    SubsetSize(Known(stored, visible), visible);
    if run != [] {
      assert run[0] in run && forall all :: all in run[1..] ==> all in run;
      PotentialDrops(stored, run[0], visible, h);
      OneHiddenBounded(After(stored, run[0]), run[1..], visible, h);
    }
  }

  /** The epoch number counts the invalidations since the first compilation. */
  lemma {:induction false} NumberCountsInvalidations(epoch: Epoch, run: seq<seq<Hit>>)
    ensures Final(Some(epoch), run).Some?
    ensures Final(Some(epoch), run).value.number == epoch.number + Invalidations(Some(epoch), run)
    decreases |run|
  {
    if run != [] {
      NumberCountsInvalidations(After(Some(epoch), run[0]).value, run[1..]);
    }
  }

  // ----- two inputs taking turns, in any system -----

  function Turns<A>(a: A, b: A, n: nat): seq<A>
    decreases n
  {
    if n == 0 then [] else [a] + Turns(b, a, n - 1)
  }

  function CountBad<S, A>(step: (S, A) -> S, bad: (S, A) -> bool, s: S, run: seq<A>): nat
    decreases |run|
  {
    if run == [] then 0 else (if bad(s, run[0]) then 1 else 0) + CountBad(step, bad, step(s, run[0]), run[1..])
  }

  lemma TurnsStep<S, A>(step: (S, A) -> S, bad: (S, A) -> bool, s: S, a: A, b: A, n: nat)
    requires n > 0
    ensures CountBad(step, bad, s, Turns(a, b, n))
      == (if bad(s, a) then 1 else 0) + CountBad(step, bad, step(s, a), Turns(b, a, n - 1))
  {
    assert Turns(a, b, n)[1..] == Turns(b, a, n - 1);
  }

  lemma {:induction false} SettledTurns<S, A>(step: (S, A) -> S, bad: (S, A) -> bool, s: S, a: A, b: A, n: nat)
    requires !bad(s, a) && !bad(s, b) && step(s, a) == s && step(s, b) == s
    ensures CountBad(step, bad, s, Turns(a, b, n)) == 0
    decreases n
  {
    if n > 0 {
      SettledTurns(step, bad, s, b, a, n - 1);
      TurnsStep(step, bad, s, a, b, n);
    }
  }

  // In a state of `of(a, _)` the input a is fine, and the other input is bad and
  // leads to a state of its own exactly when it displaces a.
  ghost predicate Displacing<S(!new), A(!new)>(step: (S, A) -> S, bad: (S, A) -> bool, of: (A, int) -> S,
                                               displaces: (A, A) -> bool, a: A, b: A)
  {
    forall k :: var s := of(a, k);
      && !bad(s, a) && step(s, a) == s
      && bad(s, b) == displaces(b, a)
      && step(s, b) == if displaces(b, a) then of(b, k + 1) else s
  }

  lemma {:induction false} TurnsCount<S(!new), A(!new)>(step: (S, A) -> S, bad: (S, A) -> bool, of: (A, int) -> S,
                                                        displaces: (A, A) -> bool, a: A, b: A, k: int, n: nat)
    requires Displacing(step, bad, of, displaces, a, b) && Displacing(step, bad, of, displaces, b, a)
    ensures CountBad(step, bad, of(b, k), Turns(a, b, n))
      == if displaces(a, b) && displaces(b, a) then n else if displaces(a, b) && n > 0 then 1 else 0
    decreases n
  {
    if n > 0 {
      TurnsStep(step, bad, of(b, k), a, b, n);
      if !displaces(a, b) {
        SettledTurns(step, bad, of(b, k), a, b, n);
      } else if displaces(b, a) {
        TurnsCount(step, bad, of, displaces, b, a, k + 1, n - 1);
      } else {
        SettledTurns(step, bad, of(a, k + 1), b, a, n - 1);
      }
    }
  }

  ghost predicate Throughout<S, A>(step: (S, A) -> S, ok: (S, A) -> bool, s: S, run: seq<A>)
    decreases |run|
  {
    run == [] || (ok(s, run[0]) && Throughout(step, ok, step(s, run[0]), run[1..]))
  }

  lemma {:induction false} TurnsThroughout<S(!new), A(!new)>(step: (S, A) -> S, ok: (S, A) -> bool, of: (A, int) -> S,
                                                             a: A, b: A, k: int, n: nat)
    requires forall k {:trigger ok(of(b, k), a)} :: ok(of(b, k), a) && step(of(b, k), a) == of(a, k + 1)
    requires forall k {:trigger ok(of(a, k), b)} :: ok(of(a, k), b) && step(of(a, k), b) == of(b, k + 1)
    ensures Throughout(step, ok, of(b, k), Turns(a, b, n))
    decreases n
  {
    if n > 0 {
      TurnsThroughout(step, ok, of, b, a, k + 1, n - 1);
      assert Turns(a, b, n)[1..] == Turns(b, a, n - 1);
    }
  }

  // ----- two result sets taking turns -----

  lemma {:induction false} InvalidationsCount(stored: Option<Epoch>, run: seq<seq<Hit>>)
    ensures Invalidations(stored, run) == CountBad(After, Invalidates, stored, run)
    decreases |run|
  {
    if run != [] {
      InvalidationsCount(After(stored, run[0]), run[1..]);
    }
  }

  lemma IdCount(hits: seq<Hit>)
    requires DistinctIds(hits)
    ensures |IdSet(hits)| == |hits|
  {
    InIdsIff(hits);
    DistinctCardinality(Ids(hits), IdSet(hits));
  }

  /** Whether a search recompiles depends only on how many of its memories the
      epoch lists and how many it does not. */
  lemma RecompilesByCounts(all: seq<Hit>, other: seq<Hit>, number: int)
    requires DistinctIds(all) && DistinctIds(other)
    ensures Recompiles(all, CompileMemorySet(other, number)) == Displaces(all, other)
  {
    var epoch := CompileMemorySet(other, number);
    var (compiled, appendix) := (Compiled(all, epoch), Appendix(all, epoch));
    CompileDistinct(other, number);
    CompiledIds(all, epoch);
    FilterDistinct(epoch.ids, Listed(IdSet(all)));
    IdCount(compiled);
    InIdsIff(compiled);
    assert IdSet(compiled) == IdSet(all) * IdSet(other);
    ApplyIsPartition(all, epoch);
    MembersOfPermutation(compiled + appendix, all);
    IdCount(all);
    assert IdSet(all) == IdSet(all) * IdSet(other) + (IdSet(all) - IdSet(other));
  }

  // A search for a invalidates an epoch compiled from b.
  predicate Displaces(a: seq<Hit>, b: seq<Hit>) {
    ShouldRecompile(|IdSet(a) * IdSet(b)|, |IdSet(a) - IdSet(b)|)
  }

  lemma SameDoesNotDisplace(a: seq<Hit>)
    requires a != [] && DistinctIds(a)
    ensures !Displaces(a, a)
  {
    IdCount(a);
    assert IdSet(a) * IdSet(a) == IdSet(a) && IdSet(a) - IdSet(a) == {};
  }

  function CompiledFor(hits: seq<Hit>, number: int): Option<Epoch> {
    Some(CompileMemorySet(hits, number))
  }

  lemma DisplacingStep(a: seq<Hit>, b: seq<Hit>, number: int)
    requires DistinctIds(a) && DistinctIds(b)
    ensures Invalidates(CompiledFor(b, number), a) == Displaces(a, b)
    ensures After(CompiledFor(b, number), a)
      == if Displaces(a, b) then CompiledFor(a, number + 1) else CompiledFor(b, number)
  {
    RecompilesByCounts(a, b, number);
    StepByRecompile(CompileMemorySet(b, number), number, a, Displaces(a, b));
  }

  lemma StepByRecompile(epoch: Epoch, number: int, all: seq<Hit>, recompiles: bool)
    requires epoch.number == number && Recompiles(all, epoch) == recompiles
    ensures Invalidates(Some(epoch), all) == recompiles
    ensures After(Some(epoch), all) == if recompiles then CompiledFor(all, number + 1) else Some(epoch)
  {
  }

  lemma SearchesDisplace(a: seq<Hit>, b: seq<Hit>)
    requires a != [] && DistinctIds(a) && DistinctIds(b)
    ensures Displacing(After, Invalidates, CompiledFor, Displaces, a, b)
  {
    SameDoesNotDisplace(a);
    forall k: int
      ensures !Invalidates(CompiledFor(a, k), a) && After(CompiledFor(a, k), a) == CompiledFor(a, k)
      ensures Invalidates(CompiledFor(a, k), b) == Displaces(b, a)
      ensures After(CompiledFor(a, k), b) == if Displaces(b, a) then CompiledFor(b, k + 1) else CompiledFor(a, k)
    {
      DisplacingStep(a, a, k);
      DisplacingStep(b, a, k);
    }
  }

  /** Two result sets a and b take turns, the epoch being compiled from b: two
      filters that share an owner, or one filter whose searches reach different
      hidden memories. Every search invalidates if and only if each set displaces
      the other; otherwise at most the first does. */
  lemma AlternationCount(a: seq<Hit>, b: seq<Hit>, number: int, n: nat)
    requires a != [] && b != [] && DistinctIds(a) && DistinctIds(b)
    ensures Invalidations(CompiledFor(b, number), Turns(a, b, n))
      == if Displaces(a, b) && Displaces(b, a) then n else if Displaces(a, b) && n > 0 then 1 else 0
  {
    SearchesDisplace(a, b);
    SearchesDisplace(b, a);
    TurnsCount(After, Invalidates, CompiledFor, Displaces, a, b, number, n);
    InvalidationsCount(CompiledFor(b, number), Turns(a, b, n));
  }

  /** The exact condition for it, over arbitrary result sets. */
  lemma EverySearchInvalidatesIff(a: seq<Hit>, b: seq<Hit>, number: int)
    requires a != [] && b != [] && DistinctIds(a) && DistinctIds(b)
    ensures (forall n :: Invalidations(CompiledFor(b, number), Turns(a, b, n)) == n)
      <==> && ShouldRecompile(|IdSet(a) * IdSet(b)|, |IdSet(b) - IdSet(a)|)
           && ShouldRecompile(|IdSet(a) * IdSet(b)|, |IdSet(a) - IdSet(b)|)
  {
    assert IdSet(a) * IdSet(b) == IdSet(b) * IdSet(a);
    forall n: nat ensures Invalidations(CompiledFor(b, number), Turns(a, b, n))
      == if Displaces(a, b) && Displaces(b, a) then n else if Displaces(a, b) && n > 0 then 1 else 0
    {
      AlternationCount(a, b, number, n);
    }
    assert Invalidations(CompiledFor(b, number), Turns(a, b, 2)) == 2 <==> Displaces(a, b) && Displaces(b, a);
  }

  lemma SingletonsDisplace(a: Hit, b: Hit)
    requires a.item.id != b.item.id
    ensures Displaces([a], [b]) && DistinctIds([a])
  {
    TwoIds(a, a);
    TwoIds(b, b);
    assert IdSet([a]) * IdSet([b]) == {};
  }

  /** The epoch is keyed by owner, not by filter: two filters that see one memory
      each invalidate each other on every search, although each search is legal
      for its own filter and nothing ever changes. */
  lemma FiltersThrash(a: Hit, b: Hit, number: int, n: nat)
    requires a.item.id != b.item.id
    ensures Invalidations(CompiledFor([b], number), Turns([a], [b], n)) == n
    ensures LegalSearch(CompiledFor([b], number), [a], {a.item.id})
    ensures LegalSearch(CompiledFor([a], number), [b], {b.item.id})
  {
    SingletonsDisplace(a, b);
    SingletonsDisplace(b, a);
    AlternationCount([a], [b], number, n);
    LoneSearchIsLegal(a, b, number, {a.item.id});
    LoneSearchIsLegal(b, a, number, {b.item.id});
  }

  lemma LoneSearchIsLegal(a: Hit, b: Hit, number: int, visible: set<Id>)
    requires b.item.id in visible ==> b.item.id == a.item.id
    ensures LegalSearch(CompiledFor([b], number), [a], visible)
  {
    TwoIds(a, a);
    TwoIds(b, b);
    CompileDistinct([b], number);
  }

  ghost function LegalIn(visible: set<Id>): (Option<Epoch>, seq<Hit>) -> bool {
    (stored: Option<Epoch>, all: seq<Hit>) => LegalSearch(stored, all, visible)
  }

  lemma {:induction false} LegalThroughout(stored: Option<Epoch>, run: seq<seq<Hit>>, visible: set<Id>)
    ensures LegalRun(stored, run, visible) == Throughout(After, LegalIn(visible), stored, run)
    decreases |run|
  {
    if run != [] {
      LegalThroughout(After(stored, run[0]), run[1..], visible);
    }
  }

  lemma HiddenStep(a: Hit, b: Hit, number: int, visible: set<Id>)
    requires a.item.id != b.item.id && b.item.id !in visible
    ensures LegalIn(visible)(CompiledFor([b], number), [a])
    ensures After(CompiledFor([b], number), [a]) == CompiledFor([a], number + 1)
  {
    LoneSearchIsLegal(a, b, number, visible);
    SingletonsDisplace(a, b);
    SingletonsDisplace(b, a);
    DisplacingStep([a], [b], number);
  }

  lemma HiddenRunThrashes(a: Hit, b: Hit, number: int, n: nat, visible: set<Id>)
    requires a.item.id != b.item.id && a.item.id !in visible && b.item.id !in visible
    ensures LegalRun(CompiledFor([b], number), Turns([a], [b], n), visible)
    ensures Invalidations(CompiledFor([b], number), Turns([a], [b], n)) == n
  {
    forall k: int
      ensures LegalIn(visible)(CompiledFor([b], k), [a]) && After(CompiledFor([b], k), [a]) == CompiledFor([a], k + 1)
      ensures LegalIn(visible)(CompiledFor([a], k), [b]) && After(CompiledFor([a], k), [b]) == CompiledFor([b], k + 1)
    {
      HiddenStep(a, b, k, visible);
      HiddenStep(b, a, k, visible);
    }
    TurnsThroughout(After, LegalIn(visible), CompiledFor, [a], [b], number, n);
    LegalThroughout(CompiledFor([b], number), Turns([a], [b], n), visible);
    FiltersThrash(a, b, number, n);
  }

  // Against an epoch of one hidden memory there is nothing to load back.
  lemma HiddenIsBackfilled(a: Hit, b: Hit, number: int, db: Database, filter: Row -> bool, threshold: real)
    requires !VisibleIn(db, filter)(b.item.id)
    ensures IsBackfill([a], CompileMemorySet([b], number), db, filter, threshold, [])
  {
    TwoIds(b, b);
    CompileDistinct([b], number);
    NothingMissing([a], CompileMemorySet([b], number), db, filter, threshold);
  }

  /** Two are enough to break it. With one filter, two hidden memories that
      searches reach through their chunks invalidate the prefix on every search
      of a legal run of any length, each search being what the backfill makes of
      its one hit. */
  lemma HiddenHitsThrash(a: Hit, b: Hit, number: int, n: nat, db: Database, filter: Row -> bool, threshold: real)
    requires a.item.id != b.item.id && !VisibleIn(db, filter)(a.item.id) && !VisibleIn(db, filter)(b.item.id)
    ensures LegalRun(CompiledFor([b], number), Turns([a], [b], n), set id | id in db && filter(db[id]))
    ensures Invalidations(CompiledFor([b], number), Turns([a], [b], n)) == n
    ensures forall k :: IsBackfill([a], CompileMemorySet([b], k), db, filter, threshold, [])
    ensures forall k :: IsBackfill([b], CompileMemorySet([a], k), db, filter, threshold, [])
  {
    HiddenRunThrashes(a, b, number, n, set id | id in db && filter(db[id]));
    forall k: int
      ensures IsBackfill([a], CompileMemorySet([b], k), db, filter, threshold, [])
      ensures IsBackfill([b], CompileMemorySet([a], k), db, filter, threshold, [])
    {
      HiddenIsBackfilled(a, b, k, db, filter, threshold);
      HiddenIsBackfilled(b, a, k, db, filter, threshold);
    }
  }

  ghost predicate BoundedBy(bound: nat, visible: set<Id>, hidden: set<Id>) {
    forall stored, run :: LegalRun(stored, run, visible) && Inside(run, visible + hidden) ==>
      Invalidations(stored, run) <= bound
  }

  lemma AtMostOne(hidden: set<Id>) returns (h: Id)
    requires |hidden| <= 1
    ensures hidden <= {h}
  {
    h := 0;
    if hidden != {} {
      h :| h in hidden;
      assert |hidden - {h}| == 0;
    }
  }

  function AnyHit(id: Id): Hit {
    Hit(Stub(id, None, 0.0, None, "", [], "", TRUSTED, Meta("", None, false, false, None), true, true), 0.0)
  }

  lemma {:induction false} TurnsInside(a: seq<Hit>, b: seq<Hit>, n: nat, reach: set<Id>)
    requires IdSet(a) <= reach && IdSet(b) <= reach
    ensures Inside(Turns(a, b, n), reach)
    decreases n
  {
    if n > 0 {
      TurnsInside(b, a, n - 1, reach);
    }
  }

  lemma TwoHiddenUnbounded(x: Id, y: Id, bound: nat, visible: set<Id>, hidden: set<Id>)
    requires visible !! hidden && x in hidden && y in hidden && x != y
    ensures !BoundedBy(bound, visible, hidden)
  {
    var (a, b) := (AnyHit(x), AnyHit(y));
    HiddenRunThrashes(a, b, 1, bound + 1, visible);
    TwoIds(a, a);
    TwoIds(b, b);
    TurnsInside([a], [b], bound + 1, visible + hidden);
    var (stored, run) := (CompiledFor([b], 1), Turns([a], [b], bound + 1));
    assert LegalRun(stored, run, visible) && Invalidations(stored, run) == bound + 1;
  }

  /** The exact condition. Let searches return memories the filter admits, which
      are `visible`, and the ones in `hidden`, which it does not. The number of
      invalidations over all legal runs is bounded if and only if at most one
      hidden memory can be returned. */
  lemma InvalidationsBoundedIff(visible: set<Id>, hidden: set<Id>)
    requires visible !! hidden
    ensures (exists bound :: BoundedBy(bound, visible, hidden)) <==> |hidden| <= 1
  {
    if |hidden| <= 1 {
      var h := AtMostOne(hidden);
      forall stored, run | LegalRun(stored, run, visible) && Inside(run, visible + hidden)
        ensures Invalidations(stored, run) <= 2 * |visible| + 1
      {
        assert forall all :: all in run ==> IdSet(all) <= visible + {h};
        OneHiddenBounded(stored, run, visible, h);
      }
      assert BoundedBy(2 * |visible| + 1, visible, hidden);
    } else {
      var x :| x in hidden;
      assert |hidden - {x}| == |hidden| - 1;
      var y :| y in hidden - {x};
      forall bound: nat ensures !BoundedBy(bound, visible, hidden) {
        TwoHiddenUnbounded(x, y, bound, visible, hidden);
      }
    }
  }
}
