// Branch handling and the page clamp: results whose parent is also in the
// result set are nested or dropped, and the ordered page is cut to size.

module BranchSplit {
  import opened Memory
  import opened Options
  import opened Sorting
  import opened Compilation
  import opened SearchOrdering

  predicate IsBranch(ids: set<Id>, item: Item) {
    item.parent.Some? && item.parent.value in ids
  }

  function NotBranch(ids: set<Id>): Hit -> bool {
    (h: Hit) => !IsBranch(ids, h.item)
  }

  function ChildOf(pid: Id): Hit -> bool {
    (h: Hit) => h.item.parent == Some(pid)
  }

  function ParentIn(ids: set<Id>): Hit -> bool {
    (h: Hit) => IsBranch(ids, h.item)
  }

  function TopLevel(hits: seq<Hit>): seq<Hit> {
    Filter(hits, NotBranch(IdSet(hits)))
  }

  function Children(hits: seq<Hit>, pid: Id): seq<Hit> {
    Filter(hits, ChildOf(pid))
  }

  function Under(nested: map<Id, seq<Hit>>, id: Id): seq<Hit> {
    if id in nested then nested[id] else []
  }

  // What is nested after part of the pass.
  ghost predicate NestedFor(nested: map<Id, seq<Hit>>, hits: seq<Hit>, ids: set<Id>) {
    forall pid :: pid in ids ==> Under(nested, pid) == Children(hits, pid)
  }

  // Nothing is filed under a memory that is not a result, and no group is empty.
  ghost predicate NestsIn(nested: map<Id, seq<Hit>>, ids: set<Id>) {
    forall pid :: pid in nested ==> pid in ids && nested[pid] != []
  }

  lemma NestNone(nested: map<Id, seq<Hit>>, hits: seq<Hit>, ids: set<Id>, h: Hit)
    requires NestedFor(nested, hits, ids) && !IsBranch(ids, h.item)
    ensures NestedFor(nested, hits + [h], ids)
  {
    forall pid | pid in ids ensures Children(hits + [h], pid) == Children(hits, pid) {
      FilterSnoc(hits, h, ChildOf(pid));
    }
  }

  lemma NestUnder(nested: map<Id, seq<Hit>>, hits: seq<Hit>, ids: set<Id>, h: Hit)
    requires NestedFor(nested, hits, ids) && IsBranch(ids, h.item)
    ensures var pid := h.item.parent.value; NestedFor(nested[pid := Under(nested, pid) + [h]], hits + [h], ids)
  {
    forall pid | pid in ids
      ensures Children(hits + [h], pid) == if h.item.parent == Some(pid) then Children(hits, pid) + [h] else Children(hits, pid)
    {
      FilterSnoc(hits, h, ChildOf(pid));
    }
  }

  /** One pass over the results: a branch of a present parent is filed under
      that parent, or dropped when nesting is off. */
  method SplitBranches(hits: seq<Hit>, includeBranches: bool)
    returns (top: seq<Hit>, nested: map<Id, seq<Hit>>)
    ensures top == TopLevel(hits)
    ensures !includeBranches ==> nested == map[]
    ensures includeBranches ==> forall pid :: pid in IdSet(hits) ==> Under(nested, pid) == Children(hits, pid)
    ensures forall pid :: pid in nested ==> pid in IdSet(hits) && nested[pid] != []
  {
    var ids := IdSet(hits);
    top := [];
    nested := map[];
    ghost var seen: seq<Hit> := [];
    for i := 0 to |hits|
      invariant seen == hits[..i]
      invariant top == Filter(seen, NotBranch(ids))
      invariant if includeBranches then NestedFor(nested, seen, ids) else nested == map[]
      invariant NestsIn(nested, ids)
    {
      var h := hits[i];
      FilterSnoc(seen, h, NotBranch(ids));
      if h.item.parent.Some? && h.item.parent.value in ids {
        if includeBranches {
          NestUnder(nested, seen, ids, h);
          var pid := h.item.parent.value;
          nested := nested[pid := Under(nested, pid) + [h]];
        }
      } else {
        if includeBranches {
          NestNone(nested, seen, ids, h);
        }
        top := top + [h];
      }
      seen := seen + [h];
    }
    assert seen == hits;
  }

  function KeepOutside(ids: set<Id>): Flagged -> bool {
    (f: Flagged) => f.hit.item.id !in ids
  }

  function BranchIds(hits: seq<Hit>): set<Id> {
    IdSet(hits) - IdSet(TopLevel(hits))
  }

  // The ordered results without the branches.
  function TopEntries(hits: seq<Hit>, entries: seq<Flagged>): seq<Flagged> {
    Filter(entries, KeepOutside(BranchIds(hits)))
  }

  predicate IsFlagged(f: Flagged) {
    f.appendix
  }

  function FlaggedCount(entries: seq<Flagged>): nat {
    |Filter(entries, IsFlagged)|
  }

  method FilterAndClamp(hits: seq<Hit>, top: seq<Hit>, nested: map<Id, seq<Hit>>, o: Ordering, maxResults: nat)
    returns (page: Ordering, nested': map<Id, seq<Hit>>)
    requires top == TopLevel(hits)
    ensures var entries := TopEntries(hits, o.entries);
      && page.number == o.number
      && page.entries == entries[..if |entries| > maxResults then maxResults else |entries|]
      && (|entries| > maxResults ==>
            page.appendixCount == FlaggedCount(page.entries)
            && nested'.Keys == nested.Keys * IdSet(HitsOf(page.entries))
            && forall pid :: pid in nested' ==> nested'[pid] == nested[pid])
      && (|entries| <= maxResults ==> page.appendixCount == o.appendixCount && nested' == nested)
  {
    var branchIds := IdSet(hits) - IdSet(top);
    var ordered := Filter(o.entries, KeepOutside(branchIds));
    if |ordered| > maxResults {
      var kept := ordered[..maxResults];
      var keptIds := IdSet(HitsOf(kept));
      var count := 0;
      for i := 0 to |kept|
        invariant count == FlaggedCount(kept[..i])
      {
        assert kept[..i + 1] == kept[..i] + [kept[i]];
        FilterSnoc(kept[..i], kept[i], IsFlagged);
        if kept[i].appendix {
          count := count + 1;
        }
      }
      assert kept[..|kept|] == kept;
      page := Ordering(kept, o.number, count);
      nested' := map pid | pid in nested && pid in keptIds :: nested[pid];
    } else {
      page := Ordering(ordered, o.number, o.appendixCount);
      nested' := nested;
    }
  }

  /** A result is at top level exactly when its parent is not among the results,
      and nested under a memory exactly when that is its parent. */
  lemma SplitByParent(hits: seq<Hit>, h: Hit, pid: Id)
    ensures h in TopLevel(hits) <==> h in hits && !(exists p :: p in hits && h.item.parent == Some(p.item.id))
    ensures h in Children(hits, pid) <==> h in hits && h.item.parent == Some(pid)
  {
    if IsBranch(IdSet(hits), h.item) {
      var p :| p in hits && p.item.id == h.item.parent.value;
      assert h.item.parent == Some(p.item.id);
    }
  }

  // ----- every result is accounted for -----

  // A branch whose parent is itself a branch.
  ghost predicate BranchOfBranch(hits: seq<Hit>, h: Hit) {
    IsBranch(IdSet(hits), h.item) && h.item.parent.value !in IdSet(TopLevel(hits))
  }

  ghost function Reachable(hits: seq<Hit>): Hit -> bool {
    (h: Hit) => !BranchOfBranch(hits, h)
  }

  // What the response shows: each entry followed by what is nested under it.
  function Shown(entries: seq<Hit>, hits: seq<Hit>): seq<Hit> {
    if entries == [] then []
    else [entries[0]] + Children(hits, entries[0].item.id) + Shown(entries[1..], hits)
  }

  lemma IdSetCons(hits: seq<Hit>)
    requires hits != []
    ensures IdSet(hits) == {hits[0].item.id} + IdSet(hits[1..])
  {
    assert hits == [hits[0]] + hits[1..];
    forall id ensures id in IdSet(hits) <==> id == hits[0].item.id || id in IdSet(hits[1..]) {
      if id in IdSet(hits) {
        var h :| h in hits && h.item.id == id;
        assert h == hits[0] || h in hits[1..];
      }
      if id in IdSet(hits[1..]) {
        var h :| h in hits[1..] && h.item.id == id;
        assert h in hits;
      }
    }
  }

  lemma HeadIdIsFresh(hits: seq<Hit>)
    requires hits != [] && DistinctIds(hits)
    ensures hits[0].item.id !in IdSet(hits[1..]) && DistinctIds(hits[1..])
  {
    var rest := hits[1..];
    assert forall i :: 0 <= i < |rest| ==> Ids(rest)[i] == Ids(hits)[i + 1];
    forall h | h in rest ensures h.item.id != hits[0].item.id {
      var k :| 0 <= k < |rest| && rest[k] == h;
      assert Ids(hits)[k + 1] != Ids(hits)[0];
    }
  }

  lemma {:induction false} ShownMultiset(entries: seq<Hit>, hits: seq<Hit>)
    requires DistinctIds(entries)
    ensures multiset(Shown(entries, hits)) == multiset(entries) + multiset(Filter(hits, ParentIn(IdSet(entries))))
  {
    if entries == [] {
      FilterNone(hits, ParentIn(IdSet(entries)));
    } else {
      var (e, rest) := (entries[0], entries[1..]);
      HeadIdIsFresh(entries);
      IdSetCons(entries);
      ShownMultiset(rest, hits);
      SplitParents(hits, e.item.id, IdSet(rest), IdSet(entries));
      ShownStep(entries, hits);
    }
  }

  lemma ShownStep(entries: seq<Hit>, hits: seq<Hit>)
    requires entries != []
    ensures multiset(Shown(entries, hits))
      == multiset{entries[0]} + multiset(Children(hits, entries[0].item.id)) + multiset(Shown(entries[1..], hits))
    ensures multiset(entries) == multiset{entries[0]} + multiset(entries[1..])
  {
    assert entries == [entries[0]] + entries[1..];
  }

  lemma SplitParents(hits: seq<Hit>, id: Id, rest: set<Id>, all: set<Id>)
    requires id !in rest && all == {id} + rest
    ensures multiset(Filter(hits, ParentIn(all))) == multiset(Children(hits, id)) + multiset(Filter(hits, ParentIn(rest)))
  {
    forall h ensures multiset(Filter(hits, ParentIn(all)))[h]
      == multiset(Children(hits, id))[h] + multiset(Filter(hits, ParentIn(rest)))[h]
    {
      FilterMultiset(hits, ParentIn(all), h);
      FilterMultiset(hits, ChildOf(id), h);
      FilterMultiset(hits, ParentIn(rest), h);
    }
  }

  lemma FilterDistinctIds(hits: seq<Hit>, p: Hit -> bool)
    requires DistinctIds(hits)
    ensures DistinctIds(Filter(hits, p))
  {
    if hits != [] {
      assert DistinctIds(hits[1..]) by {
        assert forall i :: 0 <= i < |hits[1..]| ==> Ids(hits[1..])[i] == Ids(hits)[i + 1];
      }
      FilterDistinctIds(hits[1..], p);
      var rest := Filter(hits[1..], p);
      forall j | 0 <= j < |rest| ensures rest[j].item.id != hits[0].item.id {
        assert rest[j] in hits[1..];
        var k :| 0 <= k < |hits[1..]| && hits[1..][k] == rest[j];
        assert Ids(hits)[k + 1] != Ids(hits)[0];
      }
    }
  }

  lemma ReachableCount(hits: seq<Hit>, h: Hit)
    ensures multiset(TopLevel(hits))[h] + multiset(Filter(hits, ParentIn(IdSet(TopLevel(hits)))))[h]
      == multiset(Filter(hits, Reachable(hits)))[h]
  {
    FilterMultiset(hits, NotBranch(IdSet(hits)), h);
    FilterMultiset(hits, ParentIn(IdSet(TopLevel(hits))), h);
    FilterMultiset(hits, Reachable(hits), h);
    TopIdsAreIds(hits);
  }

  lemma FilterKeepsAllIff(hits: seq<Hit>, p: Hit -> bool)
    ensures multiset(Filter(hits, p)) == multiset(hits) <==> forall h :: h in hits ==> p(h)
  {
    if forall h :: h in hits ==> p(h) {
      FilterAll(hits, p);
    } else {
      var h :| h in hits && !p(h);
      FilterMultiset(hits, p, h);
      assert h in multiset(hits);
    }
  }

  /** With nesting on and no clamp, each result is shown exactly once, top-level
      or under its own parent, except a branch of a branch, which is shown
      nowhere. */
  lemma EveryResultShownOnceIff(hits: seq<Hit>)
    requires DistinctIds(hits)
    ensures multiset(Shown(TopLevel(hits), hits)) == multiset(Filter(hits, Reachable(hits)))
    ensures multiset(Shown(TopLevel(hits), hits)) == multiset(hits)
      <==> forall h :: h in hits ==> Reachable(hits)(h)
  {
    FilterDistinctIds(hits, NotBranch(IdSet(hits)));
    ShownMultiset(TopLevel(hits), hits);
    forall h ensures multiset(Shown(TopLevel(hits), hits))[h] == multiset(Filter(hits, Reachable(hits)))[h] {
      ReachableCount(hits, h);
    }
    FilterKeepsAllIff(hits, Reachable(hits));
  }

  /** So whenever a result's parent and grandparent are both among the results,
      it is not shown at all. */
  lemma GrandchildVanishes(hits: seq<Hit>, b: Hit, c: Hit)
    requires DistinctIds(hits) && b in hits && c in hits
    requires IsBranch(IdSet(hits), b.item) && c.item.parent == Some(b.item.id)
    ensures c !in Shown(TopLevel(hits), hits)
  {
    assert b.item.id in IdSet(hits);
    TopIffIdOutside(hits, b);
    assert !Reachable(hits)(c);
    EveryResultShownOnceIff(hits);
    FilterMultiset(hits, Reachable(hits), c);
    assert multiset(Shown(TopLevel(hits), hits))[c] == 0;
  }

  lemma ThreeGenerations(a: Hit, b: Hit, c: Hit)
    requires Distinct([a.item.id, b.item.id, c.item.id])
    requires b.item.parent == Some(a.item.id) && c.item.parent == Some(b.item.id)
    ensures DistinctIds([a, b, c]) && c !in Shown(TopLevel([a, b, c]), [a, b, c])
  {
    var hits := [a, b, c];
    assert Ids(hits) == [a.item.id, b.item.id, c.item.id];
    assert a in hits && b in hits && c in hits;
    GrandchildVanishes(hits, b, c);
  }

  lemma TopIdsAreIds(hits: seq<Hit>)
    ensures IdSet(TopLevel(hits)) <= IdSet(hits)
  {
    forall id | id in IdSet(TopLevel(hits)) ensures id in IdSet(hits) {
      var h :| h in TopLevel(hits) && h.item.id == id;
      assert h in hits;
    }
  }

  lemma TopIffIdOutside(hits: seq<Hit>, h: Hit)
    requires DistinctIds(hits) && h in hits
    ensures h.item.id !in BranchIds(hits) <==> h in TopLevel(hits)
  {
    assert h.item.id in IdSet(hits);
    if h.item.id in IdSet(TopLevel(hits)) {
      var t :| t in TopLevel(hits) && t.item.id == h.item.id;
      SameIdSameHit(hits, t, h);
    }
  }

  lemma FilterHits(entries: seq<Flagged>, ids: set<Id>)
    ensures HitsOf(Filter(entries, KeepOutside(ids))) == Filter(HitsOf(entries), KeepHit(ids))
  {
    MapFilter(HitOf, entries, KeepOutside(ids), KeepHit(ids));
  }

  function KeepHit(ids: set<Id>): Hit -> bool {
    (h: Hit) => h.item.id !in ids
  }

  /** The cached top level holds the same results as the raw one. */
  lemma CachedTopLevelIsPermutation(hits: seq<Hit>, entries: seq<Flagged>)
    requires DistinctIds(hits) && multiset(HitsOf(entries)) == multiset(hits)
    ensures multiset(HitsOf(TopEntries(hits, entries))) == multiset(TopLevel(hits))
  {
    FilterHits(entries, BranchIds(hits));
    forall h ensures multiset(HitsOf(TopEntries(hits, entries)))[h] == multiset(TopLevel(hits))[h] {
      FilterMultiset(HitsOf(entries), KeepHit(BranchIds(hits)), h);
      FilterMultiset(hits, NotBranch(IdSet(hits)), h);
      if h in multiset(hits) {
        TopIffIdOutside(hits, h);
      }
    }
  }

  lemma {:induction false} CountSplit(entries: seq<Flagged>, ids: set<Id>)
    ensures FlaggedCount(Filter(entries, KeepOutside(ids))) <= FlaggedCount(entries)
    ensures FlaggedCount(Filter(entries, KeepOutside(ids))) == FlaggedCount(entries)
      <==> forall f :: f in entries && f.appendix ==> f.hit.item.id !in ids
  {
    if entries != [] {
      var f := entries[0];
      CountSplit(entries[1..], ids);
      CountCons(entries);
      var kept := Filter(entries[1..], KeepOutside(ids));
      CountCons([f] + kept);
      assert ([f] + kept)[1..] == kept && [] + kept == kept;
      assert forall x :: x in entries <==> x == f || x in entries[1..];
    }
  }

  lemma CountCons(entries: seq<Flagged>)
    requires entries != []
    ensures FlaggedCount(entries) == (if entries[0].appendix then 1 else 0) + FlaggedCount(entries[1..])
  {
  }

  /** Without a clamp the reported appendix_count still counts branches that
      were filtered out: it equals the number of flagged entries shown exactly
      when no appendix result is a branch. */
  lemma AppendixCountHonestIff(hits: seq<Hit>, o: Ordering, maxResults: nat)
    requires o.appendixCount == FlaggedCount(o.entries)
    requires |TopEntries(hits, o.entries)| <= maxResults
    ensures o.appendixCount == FlaggedCount(TopEntries(hits, o.entries))
      <==> forall f :: f in o.entries && f.appendix ==> f.hit.item.id !in BranchIds(hits)
  {
    CountSplit(o.entries, BranchIds(hits));
  }

  lemma {:induction false} FlaggedOfFlagAll(hits: seq<Hit>, appendix: bool)
    ensures FlaggedCount(FlagAll(hits, appendix)) == if appendix then |hits| else 0
  {
    if hits != [] {
      FlaggedOfFlagAll(hits[1..], appendix);
      assert FlagAll(hits, appendix)[1..] == FlagAll(hits[1..], appendix);
    }
  }

  /** The ordering's own count is the number of entries it flags, so the
      precondition above always holds. */
  lemma OrderingCountsFlags(hits: seq<Hit>, seen: Option<Epoch>)
    ensures Ordered(hits, seen).appendixCount == FlaggedCount(Ordered(hits, seen).entries)
  {
    if NewEpoch(hits, seen).Some? {
      OrderedStarts(hits, seen);
      var le := RankLe(NewEpoch(hits, seen).value.ids);
      MembersOfPermutation(SortBy(FlagAll(hits, false), le), FlagAll(hits, false));
      FilterNone(SortBy(FlagAll(hits, false), le), IsFlagged);
    } else {
      var (compiled, appendix) := (Compiled(hits, seen.value), Appendix(hits, seen.value));
      OrderedStands(hits, seen.value);
      FilterConcat(FlagAll(compiled, false), FlagAll(appendix, true), IsFlagged);
      FlaggedOfFlagAll(compiled, false);
      FlaggedOfFlagAll(appendix, true);
    }
  }

  lemma OneNewHit(kept: seq<Hit>, c: Hit, number: int)
    requires DistinctIds(kept + [c])
    ensures var (hits, epoch) := (kept + [c], CompileMemorySet(kept, number));
      |Compiled(hits, epoch)| == |kept| && Appendix(hits, epoch) == [c]
  {
    var (hits, epoch) := (kept + [c], CompileMemorySet(kept, number));
    assert forall i :: 0 <= i < |kept| ==> Ids(kept)[i] == Ids(hits)[i];
    CompileDistinct(kept, number);
    CompileIsPermutation(kept, number);
    CompiledIds(hits, epoch);
    IdSetConcat(kept, [c]);
    FilterAll(epoch.ids, Listed(IdSet(hits)));
    assert |Compiled(hits, epoch)| == |Ids(Compiled(hits, epoch))|;
    NewIdOutside(kept, c);
    FilterConcat(kept, [c], OutsideEpoch(epoch.ids));
    FilterNone(kept, OutsideEpoch(epoch.ids)) by {
      forall h | h in kept ensures !OutsideEpoch(epoch.ids)(h) {
        assert h.item.id in IdSet(kept);
      }
    }
    FilterAll([c], OutsideEpoch(epoch.ids));
    SortFixed([c], AppendixLe);
    assert [] + [c] == [c];
  }

  lemma NewIdOutside(kept: seq<Hit>, c: Hit)
    requires DistinctIds(kept + [c])
    ensures c.item.id !in IdSet(kept)
  {
    var hits := kept + [c];
    forall h | h in kept ensures h.item.id != c.item.id {
      var k :| 0 <= k < |kept| && kept[k] == h;
      assert Ids(hits)[k] != Ids(hits)[|kept|];
    }
  }

  lemma OneNewStands(n: nat)
    requires n >= 4
    ensures !ShouldRecompile(n, 1)
  {
    if n == 4 {
      assert 1.0 / 4.0 <= 0.3;
    }
  }

  lemma StandsWithOneNew(kept: seq<Hit>, c: Hit, number: int)
    requires |kept| >= 4 && DistinctIds(kept + [c])
    ensures var (hits, epoch) := (kept + [c], CompileMemorySet(kept, number));
      !Recompiles(hits, epoch) && Ordered(hits, Some(epoch)) == Arranged(Compiled(hits, epoch), [c], number)
  {
    OneNewHit(kept, c, number);
    OneNewStands(|kept|);
    OrderedStands(kept + [c], CompileMemorySet(kept, number));
  }

  /** It does count a hidden entry: four compiled memories or more, and one new
      branch of a memory that is also in the results. */
  lemma HiddenAppendixCounted(kept: seq<Hit>, c: Hit, number: int)
    requires |kept| >= 4 && DistinctIds(kept + [c]) && IsBranch(IdSet(kept), c.item)
    ensures var o := Ordered(kept + [c], Some(CompileMemorySet(kept, number)));
      o.appendixCount != FlaggedCount(TopEntries(kept + [c], o.entries))
  {
    var (hits, epoch) := (kept + [c], CompileMemorySet(kept, number));
    StandsWithOneNew(kept, c, number);
    OrderingCountsFlags(hits, Some(epoch));
    LastIsFlagged(Compiled(hits, epoch), c, number);
    IdSetConcat(kept, [c]);
    FlaggedBranchCounted(hits, Ordered(hits, Some(epoch)), c);
  }

  lemma LastIsFlagged(compiled: seq<Hit>, c: Hit, number: int)
    ensures Flagged(c, true) in Arranged(compiled, [c], number).entries
  {
    assert Arranged(compiled, [c], number).entries[|compiled|] == Flagged(c, true);
  }

  lemma FlaggedBranchCounted(hits: seq<Hit>, o: Ordering, c: Hit)
    requires DistinctIds(hits) && c in hits && IsBranch(IdSet(hits), c.item)
    requires Flagged(c, true) in o.entries && o.appendixCount == FlaggedCount(o.entries)
    ensures o.appendixCount != FlaggedCount(TopEntries(hits, o.entries))
  {
    TopIffIdOutside(hits, c);
    AppendixCountHonestIff(hits, o, |TopEntries(hits, o.entries)|);
  }

  // ----- is the page prefix stable across queries? -----

  ghost predicate Faithful(hits: seq<Hit>, db: Database) {
    forall h :: h in hits ==> h.item.id in db && h.item.parent == db[h.item.id].parent
  }

  function ParentAbsent(db: Database, ids: set<Id>): Id -> bool {
    (id: Id) => id in db && !(db[id].parent.Some? && db[id].parent.value in ids)
  }

  // The compiled entries that survive the branch filter.
  function PagePrefix(all: seq<Hit>, epoch: Epoch): seq<Id> {
    Ids(Filter(Compiled(all, epoch), KeepHit(BranchIds(all))))
  }

  lemma KeepIffParentAbsent(all: seq<Hit>, h: Hit, db: Database)
    requires DistinctIds(all) && Faithful(all, db) && h in all
    ensures KeepHit(BranchIds(all))(h) == ParentAbsent(db, IdSet(all))(h.item.id)
  {
    TopIffIdOutside(all, h);
  }

  lemma FilterIds(hits: seq<Hit>, keep: Hit -> bool, keepId: Id -> bool)
    requires forall h :: h in hits ==> keep(h) == keepId(h.item.id)
    ensures Ids(Filter(hits, keep)) == Filter(Ids(hits), keepId)
  {
    MapFilter(IdOf, hits, keep, keepId);
  }

  lemma BackfillFaithful(hits: seq<Hit>, epoch: Epoch, db: Database, visible: Row -> bool, threshold: real, added: seq<Hit>)
    requires Faithful(hits, db) && IsBackfill(hits, epoch, db, visible, threshold, added)
    ensures Faithful(hits + added, db)
  {
  }

  // In the backfilled results: hit, or in the epoch and admitted by the filter.
  predicate InResults(hitIds: set<Id>, epoch: Epoch, db: Database, visible: Row -> bool, id: Id) {
    id in hitIds || (id in epoch.ids && id in db && visible(db[id]))
  }

  // A compiled memory a search shows at top level: it is in the results and its
  // parent is not.
  function OnPage(hitIds: set<Id>, epoch: Epoch, db: Database, visible: Row -> bool): Id -> bool {
    (id: Id) =>
      && id in db && InResults(hitIds, epoch, db, visible, id)
      && !(db[id].parent.Some? && InResults(hitIds, epoch, db, visible, db[id].parent.value))
  }

  lemma InResultsIff(hits: seq<Hit>, epoch: Epoch, db: Database, visible: Row -> bool, threshold: real, added: seq<Hit>, id: Id)
    requires DistinctIds(hits) && IsBackfill(hits, epoch, db, visible, threshold, added)
    ensures id in IdSet(hits + added) <==> InResults(IdSet(hits), epoch, db, visible, id)
  {
    BackfilledIds(hits, epoch, db, visible, threshold, added);
  }

  lemma PagePrefixIs(hits: seq<Hit>, epoch: Epoch, db: Database, visible: Row -> bool, threshold: real, added: seq<Hit>)
    requires DistinctIds(hits) && IsBackfill(hits, epoch, db, visible, threshold, added)
    requires Faithful(hits, db)
    ensures PagePrefix(hits + added, epoch) == Filter(epoch.ids, OnPage(IdSet(hits), epoch, db, visible))
  {
    var all := hits + added;
    var (present, keep) := (Present(db, visible, IdSet(hits)), ParentAbsent(db, IdSet(all)));
    BackfillFaithful(hits, epoch, db, visible, threshold, added);
    BackfilledIds(hits, epoch, db, visible, threshold, added);
    CompiledIds(all, epoch);
    forall h | h in Compiled(all, epoch) ensures KeepHit(BranchIds(all))(h) == keep(h.item.id) {
      KeepIffParentAbsent(all, h, db);
    }
    FilterIds(Compiled(all, epoch), KeepHit(BranchIds(all)), keep);
    CompiledSectionIs(hits, epoch, db, visible, threshold, added);
    FilterFilter(epoch.ids, present, keep, OnPage(IdSet(hits), epoch, db, visible)) by {
      forall id | id in epoch.ids ensures OnPage(IdSet(hits), epoch, db, visible)(id) == (present(id) && keep(id)) {
        if id in db && db[id].parent.Some? {
          InResultsIff(hits, epoch, db, visible, threshold, added, db[id].parent.value);
        }
      }
    }
  }

  /** Nesting is decided against the whole result set, appendix included. Two
      searches show the same cached prefix exactly when they agree on each epoch
      memory: whether it is in the results, by the filter or by a hit, and its
      parent is not. Only the hits of the two searches differ in this condition. */
  lemma PagePrefixStableIff(hits1: seq<Hit>, hits2: seq<Hit>, epoch: Epoch, db: Database, visible: Row -> bool,
                            threshold1: real, threshold2: real, added1: seq<Hit>, added2: seq<Hit>)
    requires DistinctIds(hits1) && IsBackfill(hits1, epoch, db, visible, threshold1, added1)
    requires DistinctIds(hits2) && IsBackfill(hits2, epoch, db, visible, threshold2, added2)
    requires Faithful(hits1, db) && Faithful(hits2, db)
    ensures PagePrefix(hits1 + added1, epoch) == PagePrefix(hits2 + added2, epoch)
      <==> forall id :: id in epoch.ids ==>
        OnPage(IdSet(hits1), epoch, db, visible)(id) == OnPage(IdSet(hits2), epoch, db, visible)(id)
  {
    PagePrefixIs(hits1, epoch, db, visible, threshold1, added1);
    PagePrefixIs(hits2, epoch, db, visible, threshold2, added2);
    FilterEqIff(epoch.ids, OnPage(IdSet(hits1), epoch, db, visible), OnPage(IdSet(hits2), epoch, db, visible));
  }

  function LoadAll(db: Database, ids: seq<Id>): (r: seq<Hit>)
    requires forall id :: id in ids ==> id in db
    ensures |r| == |ids|
    ensures forall i :: 0 <= i < |r| ==> r[i] == Hit(RowItem(db[ids[i]], 0.0), 0.0)
  {
    seq(|ids|, i requires 0 <= i < |ids| => Hit(RowItem(db[ids[i]], 0.0), 0.0))
  }

  predicate Everything(row: Row) {
    true
  }

  lemma VisibleEverything(db: Database, id: Id)
    requires id in db
    ensures VisibleIn(db, Everything)(id)
  {
    var row := db[id];
    assert Everything(row);
  }

  // A search with one hit, backfilled with the rest of the epoch.
  lemma OneHitSearch(db: Database, epoch: Epoch, h: Id, rest: seq<Id>)
    requires h in db && forall id :: id in epoch.ids ==> id in db
    requires Distinct(rest) && forall id :: id in rest <==> id in epoch.ids && id != h
    ensures var hits := LoadAll(db, [h]);
      && IdSet(hits) == {h} && Faithful(hits, db) && DistinctIds(hits)
      && IsBackfill(hits, epoch, db, Everything, 0.0, LoadAll(db, rest))
  {
    var (hits, added) := (LoadAll(db, [h]), LoadAll(db, rest));
    assert Ids(hits) == [h] && Ids(added) == rest;
    InIdsIff(hits);
    InIdsIff(added);
    assert IdSet(added) == Missing(hits, epoch, db, Everything);
    assert IdSet(hits) == {h};
  }

  lemma OneHitCompiled(db: Database, epoch: Epoch, h: Id, rest: seq<Id>)
    requires h in db && forall id :: id in epoch.ids ==> id in db
    requires Distinct(rest) && forall id :: id in rest <==> id in epoch.ids && id != h
    ensures Ids(Compiled(LoadAll(db, [h]) + LoadAll(db, rest), epoch)) == epoch.ids
  {
    OneHitSearch(db, epoch, h, rest);
    CompiledSectionIs(LoadAll(db, [h]), epoch, db, Everything, 0.0, LoadAll(db, rest));
    forall id | id in epoch.ids ensures Present(db, Everything, {h})(id) {
      VisibleEverything(db, id);
    }
    FilterAll(epoch.ids, Present(db, Everything, {h}));
  }

  lemma OneHitAppendix(db: Database, epoch: Epoch, h: Id, rest: seq<Id>)
    requires h in db && forall id :: id in epoch.ids ==> id in db
    requires forall id :: id in rest <==> id in epoch.ids && id != h
    ensures |Appendix(LoadAll(db, [h]) + LoadAll(db, rest), epoch)| <= 1
  {
    var (hits, added) := (LoadAll(db, [h]), LoadAll(db, rest));
    FilterConcat(hits, added, OutsideEpoch(epoch.ids));
    forall x | x in added ensures !OutsideEpoch(epoch.ids)(x) {
      var k :| 0 <= k < |added| && added[k] == x;
      assert rest[k] in rest;
    }
    FilterNone(added, OutsideEpoch(epoch.ids));
  }

  lemma OneHitStands(db: Database, epoch: Epoch, h: Id, rest: seq<Id>)
    requires h in db && forall id :: id in epoch.ids ==> id in db
    requires Distinct(rest) && forall id :: id in rest <==> id in epoch.ids && id != h
    requires |epoch.ids| == 4
    ensures !Recompiles(LoadAll(db, [h]) + LoadAll(db, rest), epoch)
  {
    var all := LoadAll(db, [h]) + LoadAll(db, rest);
    OneHitCompiled(db, epoch, h, rest);
    OneHitAppendix(db, epoch, h, rest);
    assert |Compiled(all, epoch)| == |Ids(Compiled(all, epoch))| == 4;
  }

  lemma OneHitPagesDiffer(db: Database, epoch: Epoch, child: Id, parent: Id, other: Id,
                          restOfParent: seq<Id>, restOfOther: seq<Id>)
    requires forall id :: id in epoch.ids ==> id in db
    requires child in epoch.ids && db[child].parent == Some(parent)
    requires parent in db && parent !in epoch.ids && other in epoch.ids
    requires Distinct(restOfParent) && forall id :: id in restOfParent <==> id in epoch.ids && id != parent
    requires Distinct(restOfOther) && forall id :: id in restOfOther <==> id in epoch.ids && id != other
    ensures PagePrefix(LoadAll(db, [other]) + LoadAll(db, restOfOther), epoch)
         != PagePrefix(LoadAll(db, [parent]) + LoadAll(db, restOfParent), epoch)
  {
    OneHitSearch(db, epoch, other, restOfOther);
    OneHitSearch(db, epoch, parent, restOfParent);
    VisibleEverything(db, child);
    assert !OnPage({parent}, epoch, db, Everything)(child);
    assert OnPage({other}, epoch, db, Everything)(child);
    PagePrefixStableIff(LoadAll(db, [other]), LoadAll(db, [parent]), epoch, db, Everything, 0.0, 0.0,
                        LoadAll(db, restOfOther), LoadAll(db, restOfParent));
  }

  /** It does happen, with no recompilation on either side. Take four compiled
      memories, one of them a branch of an uncompiled memory: the query that
      hits the parent loses an entry the query that hits another one shows. */
  lemma PagePrefixDiffers(db: Database, epoch: Epoch, child: Id, parent: Id, other: Id,
                          restOfParent: seq<Id>, restOfOther: seq<Id>)
    requires |epoch.ids| == 4 && Distinct(epoch.ids) && forall id :: id in epoch.ids ==> id in db
    requires child in epoch.ids && db[child].parent == Some(parent)
    requires parent in db && parent !in epoch.ids && other in epoch.ids
    requires Distinct(restOfParent) && forall id :: id in restOfParent <==> id in epoch.ids && id != parent
    requires Distinct(restOfOther) && forall id :: id in restOfOther <==> id in epoch.ids && id != other
    ensures var (all1, all2) := (LoadAll(db, [other]) + LoadAll(db, restOfOther),
                                 LoadAll(db, [parent]) + LoadAll(db, restOfParent));
      && !Recompiles(all1, epoch) && !Recompiles(all2, epoch)
      && PagePrefix(all1, epoch) != PagePrefix(all2, epoch)
  {
    OneHitStands(db, epoch, other, restOfOther);
    OneHitStands(db, epoch, parent, restOfParent);
    OneHitPagesDiffer(db, epoch, child, parent, other, restOfParent, restOfOther);
  }
}
