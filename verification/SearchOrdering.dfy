// Cache-optimized ordering of one search: compiled entries missing from the
// similarity hits are loaded back, then everything is put in epoch order.

module SearchOrdering {
  import opened Memory
  import opened Options
  import opened Sorting
  import opened Compilation

  datatype Flagged = Flagged(hit: Hit, appendix: bool)

  datatype Ordering = Ordering(entries: seq<Flagged>, number: int, appendixCount: nat)

  type Database = db: map<Id, Row> | forall id :: id in db ==> db[id].id == id witness map[]

  function Flag(appendix: bool): Hit -> Flagged {
    (h: Hit) => Flagged(h, appendix)
  }

  function FlagAll(hits: seq<Hit>, appendix: bool): (r: seq<Flagged>)
    ensures |r| == |hits|
    ensures forall i :: 0 <= i < |r| ==> r[i] == Flagged(hits[i], appendix)
  {
    Map(Flag(appendix), hits)
  }

  function HitOf(f: Flagged): Hit {
    f.hit
  }

  function HitsOf(entries: seq<Flagged>): (r: seq<Hit>)
    ensures |r| == |entries|
    ensures forall i :: 0 <= i < |r| ==> r[i] == entries[i].hit
  {
    Map(HitOf, entries)
  }

  // Position of an id in the epoch, one past the end when it is not listed.
  function Rank(ids: seq<Id>, id: Id): (r: nat)
    ensures r <= |ids|
    ensures r < |ids| ==> ids[r] == id
    ensures r == |ids| <==> id !in ids
  {
    if ids == [] then 0
    else
      var n := |ids| - 1;
      assert ids == ids[..n] + [ids[n]];
      if ids[n] == id then n
      else if Rank(ids[..n], id) == n then |ids|
      else Rank(ids[..n], id)
  }

  function RankLe(ids: seq<Id>): (Flagged, Flagged) -> bool {
    (a: Flagged, b: Flagged) => Rank(ids, a.hit.item.id) <= Rank(ids, b.hit.item.id)
  }

  function RankSorted(hits: seq<Hit>, ids: seq<Id>): seq<Flagged> {
    SortBy(FlagAll(hits, false), RankLe(ids))
  }

  // What a search finds in the store: an unreachable store reads as empty.
  function Seen(stored: Option<Epoch>, readOk: bool): Option<Epoch> {
    if readOk then stored else None
  }

  predicate Recompiles(hits: seq<Hit>, epoch: Epoch) {
    ShouldRecompile(|Compiled(hits, epoch)|, |Appendix(hits, epoch)|)
  }

  // The epoch a search compiles, if any.
  function NewEpoch(hits: seq<Hit>, seen: Option<Epoch>): Option<Epoch> {
    match seen
    case None => Some(CompileMemorySet(hits, 1))
    case Some(e) => if Recompiles(hits, e) then Some(CompileMemorySet(hits, e.number + 1)) else None
  }

  function Arranged(compiled: seq<Hit>, appendix: seq<Hit>, number: int): Ordering {
    Ordering(FlagAll(compiled, false) + FlagAll(appendix, true), number, |appendix|)
  }

  function Ordered(hits: seq<Hit>, seen: Option<Epoch>): Ordering {
    match NewEpoch(hits, seen)
    case Some(next) => Ordering(RankSorted(hits, next.ids), next.number, 0)
    case None => Arranged(Compiled(hits, seen.value), Appendix(hits, seen.value), seen.value.number)
  }

  lemma OrderedStarts(hits: seq<Hit>, seen: Option<Epoch>)
    requires NewEpoch(hits, seen).Some?
    ensures var next := NewEpoch(hits, seen).value;
      Ordered(hits, seen) == Ordering(RankSorted(hits, next.ids), next.number, 0)
  {
  }

  lemma OrderedStands(hits: seq<Hit>, epoch: Epoch)
    requires !Recompiles(hits, epoch)
    ensures Ordered(hits, Some(epoch)) == Arranged(Compiled(hits, epoch), Appendix(hits, epoch), epoch.number)
    ensures NewEpoch(hits, Some(epoch)) == None
  {
  }

  function StoredAfter(hits: seq<Hit>, stored: Option<Epoch>, readOk: bool, writeOk: bool): Option<Epoch> {
    Replaced(stored, NewEpoch(hits, Seen(stored, readOk)), writeOk)
  }

  function Replaced(stored: Option<Epoch>, next: Option<Epoch>, writeOk: bool): Option<Epoch> {
    if next.Some? && writeOk then next else stored
  }

  // Compile, try to persist, and sort by position in the new epoch.
  method StartEpoch(hits: seq<Hit>, number: int, stored: Option<Epoch>, writeOk: bool)
    returns (out: Ordering, stored': Option<Epoch>)
    ensures out == Ordering(RankSorted(hits, CompileMemorySet(hits, number).ids), number, 0)
    ensures stored' == if writeOk then Some(CompileMemorySet(hits, number)) else stored
  {
    var next := CompileMemorySet(hits, number);
    stored' := stored;
    if writeOk {
      stored' := Some(next);
    }
    var entries := SortBy(FlagAll(hits, false), RankLe(next.ids));
    out := Ordering(entries, next.number, 0);
  }

  method ApplyCacheOptimizedOrdering(hits: seq<Hit>, stored: Option<Epoch>, readOk: bool, writeOk: bool)
    returns (out: Option<Ordering>, stored': Option<Epoch>)
    ensures hits == [] ==> out == None && stored' == stored
    ensures hits != [] ==> out == Some(Ordered(hits, Seen(stored, readOk)))
    ensures hits != [] ==> stored' == StoredAfter(hits, stored, readOk, writeOk)
  {
    if hits == [] {
      return None, stored;
    }
    var existing := if readOk then stored else None;
    var o: Ordering;
    if existing.None? {
      o, stored' := StartEpoch(hits, 1, stored, writeOk);
      OrderedStarts(hits, None);
    } else {
      o, stored' := OrderByEpoch(hits, existing.value, stored, writeOk);
    }
    out := Some(o);
  }

  // An epoch exists: it stands, or is replaced when the appendix has grown too long.
  method OrderByEpoch(hits: seq<Hit>, epoch: Epoch, stored: Option<Epoch>, writeOk: bool)
    returns (o: Ordering, stored': Option<Epoch>)
    ensures o == Ordered(hits, Some(epoch))
    ensures stored' == Replaced(stored, NewEpoch(hits, Some(epoch)), writeOk)
  {
    var compiled, appendix := ApplyCompilation(hits, epoch);
    if ShouldRecompile(|compiled|, |appendix|) {
      o, stored' := StartEpoch(hits, epoch.number + 1, stored, writeOk);
      OrderedStarts(hits, Some(epoch));
    } else {
      OrderedStands(hits, epoch);
      o := Arranged(compiled, appendix, epoch.number);
      stored' := stored;
    }
  }

  // ----- backfill -----

  function RowItem(row: Row, threshold: real): Item {
    if row.weight >= threshold then RowFull(row) else RowStub(row)
  }

  // The epoch ids the filtered select has to bring back.
  ghost function Missing(hits: seq<Hit>, epoch: Epoch, db: Database, visible: Row -> bool): set<Id> {
    set id | id in epoch.ids && id in db && visible(db[id]) && id !in IdSet(hits)
  }

  ghost predicate IsBackfill(hits: seq<Hit>, epoch: Epoch, db: Database, visible: Row -> bool,
                             threshold: real, added: seq<Hit>)
  {
    && DistinctIds(added)
    && IdSet(added) == Missing(hits, epoch, db, visible)
    && (forall h :: h in added ==> h.item.id in db && h == Hit(RowItem(db[h.item.id], threshold), 0.0))
  }

  // SELECT ... WHERE id IN (wanted) AND filters, in whatever order the database likes.
  method SelectRows(db: Database, wanted: seq<Id>, visible: Row -> bool) returns (rows: seq<Row>)
    ensures forall i, j :: 0 <= i < j < |rows| ==> rows[i].id != rows[j].id
    ensures forall row :: row in rows <==> row.id in wanted && row.id in db && db[row.id] == row && visible(row)
  {
    var todo := set id | id in wanted && id in db && visible(db[id]);
    ghost var all := todo;
    rows := [];
    while todo != {}
      invariant todo <= all
      invariant forall i, j :: 0 <= i < j < |rows| ==> rows[i].id != rows[j].id
      invariant forall row :: row in rows <==> row.id in all && row.id !in todo && db[row.id] == row
      decreases todo
    {
      var id :| id in todo;
      rows := rows + [db[id]];
      todo := todo - {id};
    }
  }

  /** Loads back every visible epoch entry the similarity search left out, and
      nothing else. scopeFilters is None when the caller may see nothing. */
  method BackfillCompiledEntries(hits: seq<Hit>, stored: Option<Epoch>, readOk: bool, db: Database,
                                 scopeFilters: Option<Row -> bool>, threshold: real)
    returns (r: seq<Hit>)
    ensures !readOk || stored.None? || scopeFilters.None? ==> r == hits
    ensures readOk && stored.Some? && scopeFilters.Some? ==>
      |hits| <= |r| && r[..|hits|] == hits
      && IsBackfill(hits, stored.value, db, scopeFilters.value, threshold, r[|hits|..])
  {
    r := hits;
    if !readOk || stored.None? {
      return;
    }
    var epoch := stored.value;
    var present := IdSet(hits);
    var missing: seq<Id> := [];
    for i := 0 to |epoch.ids|
      invariant forall id :: id in missing <==> id in epoch.ids[..i] && id !in present
    {
      if epoch.ids[i] !in present {
        missing := missing + [epoch.ids[i]];
      }
    }
    if scopeFilters.None? {
      return;
    }
    var rows := SelectRows(db, missing, scopeFilters.value);
    var added: seq<Hit> := [];
    for i := 0 to |rows|
      invariant |added| == i
      invariant forall k :: 0 <= k < i ==> added[k] == Hit(RowItem(rows[k], threshold), 0.0)
    {
      if rows[i].weight >= threshold {
        added := added + [Hit(RowFull(rows[i]), 0.0)];
      } else {
        added := added + [Hit(RowStub(rows[i]), 0.0)];
      }
    }
    AddedIsBackfill(hits, epoch, db, scopeFilters.value, threshold, rows, added);
    r := hits + added;
    assert r[|hits|..] == added;
  }

  lemma AddedIsBackfill(hits: seq<Hit>, epoch: Epoch, db: Database, visible: Row -> bool, threshold: real,
                        rows: seq<Row>, added: seq<Hit>)
    requires |added| == |rows|
    requires forall k :: 0 <= k < |rows| ==> added[k] == Hit(RowItem(rows[k], threshold), 0.0)
    requires forall i, j :: 0 <= i < j < |rows| ==> rows[i].id != rows[j].id
    requires forall row :: row in rows <==>
      row.id in epoch.ids && row.id !in IdSet(hits) && row.id in db && db[row.id] == row && visible(row)
    ensures IsBackfill(hits, epoch, db, visible, threshold, added)
  {
    forall id ensures id in IdSet(added) <==> id in Missing(hits, epoch, db, visible) {
      if id in IdSet(added) {
        var h :| h in added && h.item.id == id;
        var k :| 0 <= k < |added| && added[k] == h;
        assert rows[k] in rows;
      }
      if id in Missing(hits, epoch, db, visible) {
        assert db[id] in rows;
        var k :| 0 <= k < |rows| && rows[k] == db[id];
        assert added[k] in added;
      }
    }
    forall h | h in added ensures h.item.id in db && h == Hit(RowItem(db[h.item.id], threshold), 0.0) {
      var k :| 0 <= k < |added| && added[k] == h;
      assert rows[k] in rows;
    }
  }

  // ----- what the ordering guarantees -----

  lemma HitsOfFlagAll(hits: seq<Hit>, appendix: bool)
    ensures HitsOf(FlagAll(hits, appendix)) == hits
  {
  }

  lemma HitsOfArranged(compiled: seq<Hit>, appendix: seq<Hit>, number: int)
    ensures HitsOf(Arranged(compiled, appendix, number).entries) == compiled + appendix
  {
  }

  ghost predicate EpochDistinct(seen: Option<Epoch>) {
    seen.Some? ==> Distinct(seen.value.ids)
  }

  /** Ordering never loses, repeats or invents a result. */
  lemma OrderingIsPermutation(hits: seq<Hit>, seen: Option<Epoch>)
    requires DistinctIds(hits) && EpochDistinct(seen)
    ensures multiset(HitsOf(Ordered(hits, seen).entries)) == multiset(hits)
  {
    if NewEpoch(hits, seen).Some? {
      OrderedStarts(hits, seen);
      MapMultisetSort(HitOf, FlagAll(hits, false), RankLe(NewEpoch(hits, seen).value.ids));
      HitsOfFlagAll(hits, false);
    } else {
      OrderedStands(hits, seen.value);
      HitsOfArranged(Compiled(hits, seen.value), Appendix(hits, seen.value), seen.value.number);
      ApplyIsPartition(hits, seen.value);
    }
  }

  lemma RankOfIndex(ids: seq<Id>, i: nat)
    requires Distinct(ids) && i < |ids|
    ensures Rank(ids, ids[i]) == i
  {
    var r := Rank(ids, ids[i]);
    assert ids[i] in ids;
    assert ids[r] == ids[i];
  }

  predicate IdRankLe(ids: seq<Id>, a: Id, b: Id) {
    Rank(ids, a) <= Rank(ids, b)
  }

  function IdRank(ids: seq<Id>): (Id, Id) -> bool {
    (a: Id, b: Id) => IdRankLe(ids, a, b)
  }

  lemma RankLeIsOrder(ids: seq<Id>)
    ensures TotalPreorder(RankLe(ids))
  {
  }

  lemma HitsIdsMultiset(a: seq<Hit>, b: seq<Hit>)
    requires multiset(a) == multiset(b)
    ensures IdSet(a) == IdSet(b) && |a| == |b|
  {
    MembersOfPermutation(a, b);
  }

  lemma PermutationDistinctIds(a: seq<Hit>, b: seq<Hit>)
    requires multiset(a) == multiset(b) && DistinctIds(a)
    ensures DistinctIds(b)
  {
    MembersOfPermutation(a, b);
    DistinctIdsDistinct(a);
    forall x | x in multiset(b) ensures multiset(b)[x] == 1 {
      DistinctMultiset(a, x);
    }
    MultisetDistinct(b);
    forall i, j | 0 <= i < j < |b| ensures Ids(b)[i] != Ids(b)[j] {
      assert b[i] in a && b[j] in a && b[i] != b[j];
      if b[i].item.id == b[j].item.id {
        SameIdSameHit(a, b[i], b[j]);
      }
    }
  }

  /** Sorting by position in a freshly compiled epoch gives exactly the epoch order. */
  lemma RankSortedIsEpochOrder(hits: seq<Hit>, number: int)
    requires DistinctIds(hits)
    ensures Ids(HitsOf(RankSorted(hits, CompileMemorySet(hits, number).ids))) == CompileMemorySet(hits, number).ids
  {
    var ids := CompileMemorySet(hits, number).ids;
    var entries := RankSorted(hits, ids);
    var order := Ids(HitsOf(entries));
    MapMultisetSort(HitOf, FlagAll(hits, false), RankLe(ids));
    HitsOfFlagAll(hits, false);
    PermutationDistinctIds(hits, HitsOf(entries));
    HitsIdsMultiset(hits, HitsOf(entries));
    CompileDistinct(hits, number);
    InIdsIff(HitsOf(entries));
    SameElementsSameMultiset(order, ids);
    RankLeIsOrder(ids);
    SortBySorted(FlagAll(hits, false), RankLe(ids));
    SortedByRank(order, ids);
    forall i, j | 0 <= i < j < |order| ensures IdRank(ids)(order[i], order[j]) {
      assert RankLe(ids)(entries[i], entries[j]);
    }
    SortedUnique(order, ids, IdRank(ids));
  }

  lemma SortedByRank(order: seq<Id>, ids: seq<Id>)
    requires Distinct(ids) && multiset(order) == multiset(ids)
    ensures Sorted(ids, IdRank(ids))
    ensures forall x, y :: x in order && y in order && IdRank(ids)(x, y) && IdRank(ids)(y, x) ==> x == y
  {
    MembersOfPermutation(order, ids);
    forall i, j | 0 <= i < j < |ids| ensures IdRank(ids)(ids[i], ids[j]) {
      RankOfIndex(ids, i);
      RankOfIndex(ids, j);
    }
  }

  function OrderedIds(o: Ordering): seq<Id> {
    Ids(HitsOf(o.entries))
  }

  /** A cold search and an immediate warm repeat over the same memories answer
      with the same sequence, the same epoch number and no appendix. */
  lemma ColdThenWarm(first: seq<Hit>, second: seq<Hit>)
    requires first != [] && IdSet(first) == IdSet(second)
    requires DistinctIds(first) && DistinctIds(second)
    ensures var cold := Ordered(first, None);
      var warm := Ordered(second, StoredAfter(first, None, true, true));
      OrderedIds(cold) == OrderedIds(warm) && cold.number == warm.number == 1
      && cold.appendixCount == warm.appendixCount == 0
  {
    var epoch := CompileMemorySet(first, 1);
    RankSortedIsEpochOrder(first, 1);
    WarmRepeatIsStable(first, second, 1);
    var warm := Ordered(second, Some(epoch));
    assert warm.entries == FlagAll(Compiled(second, epoch), false);
    HitsOfFlagAll(Compiled(second, epoch), false);
  }

  /** A cold search answers heaviest first, then oldest, then by id. */
  lemma ColdOrder(hits: seq<Hit>, a: Hit, b: Hit)
    requires DistinctIds(hits) && a in hits && b in hits && a != b
    ensures var (born, later) := (match a.item.created case Some(t) => t case None => 0,
                                  match b.item.created case Some(t) => t case None => 0);
      Precedes(OrderedIds(Ordered(hits, None)), a.item.id, b.item.id)
      <==> (|| a.item.weight > b.item.weight
            || (a.item.weight == b.item.weight && born < later)
            || (a.item.weight == b.item.weight && born == later && a.item.id < b.item.id))
  {
    OrderedStarts(hits, None);
    RankSortedIsEpochOrder(hits, 1);
    EpochOrder(hits, 1, a, b);
  }

  /** And so does a search that recompiles. */
  lemma RecompiledOrder(hits: seq<Hit>, epoch: Epoch)
    requires DistinctIds(hits)
    ensures Recompiles(hits, epoch) ==>
      OrderedIds(Ordered(hits, Some(epoch))) == OrderedIds(Ordered(hits, None))
  {
    if Recompiles(hits, epoch) {
      OrderedStarts(hits, Some(epoch));
      OrderedStarts(hits, None);
      RankSortedIsEpochOrder(hits, 1);
      RankSortedIsEpochOrder(hits, epoch.number + 1);
    }
  }

  /** What a row becomes when it is loaded: full exactly when its weight reaches
      the threshold, and then with its text; a stub leaves text and tags out. */
  lemma LoadedRow(row: Row, threshold: real)
    ensures var item := RowItem(row, threshold);
      && (item.Full? <==> row.weight >= threshold)
      && item.id == row.id && item.parent == row.parent && item.weight == row.weight && item.created == Some(row.created)
      && item.stub == row.stub && item.source == row.source && item.trust == row.trust && item.meta == row.meta
      && (item.Full? ==> item.content == row.content && item.domains == row.domains && item.s3 == row.s3
                         && item.contentRef == row.contentRef && item.truncated == row.s3)
      && (item.Stub? ==> item.domains == [] && item.truncated && item.fullAvailable)
  {
  }

  function VisibleIn(db: Database, visible: Row -> bool): Id -> bool {
    (id: Id) => id in db && visible(db[id])
  }

  // Epoch ids a backfilled search brings: those the filter admits, and those the
  // search returned although the filter does not, such as parents of chunks.
  function Present(db: Database, visible: Row -> bool, hitIds: set<Id>): Id -> bool {
    (id: Id) => (id in db && visible(db[id])) || id in hitIds
  }

  lemma BackfilledIds(hits: seq<Hit>, epoch: Epoch, db: Database, visible: Row -> bool, threshold: real, added: seq<Hit>)
    requires DistinctIds(hits) && IsBackfill(hits, epoch, db, visible, threshold, added)
    ensures IdSet(hits + added) == IdSet(hits) + Missing(hits, epoch, db, visible)
    ensures DistinctIds(hits + added)
    ensures forall id :: id in epoch.ids ==> (id in IdSet(hits + added) <==> Present(db, visible, IdSet(hits))(id))
  {
    var all := hits + added;
    IdSetConcat(hits, added);
    forall i, j | 0 <= i < j < |all| ensures Ids(all)[i] != Ids(all)[j] {
      if j < |hits| {
        assert Ids(hits)[i] != Ids(hits)[j];
      } else if |hits| <= i {
        assert Ids(added)[i - |hits|] != Ids(added)[j - |hits|];
      } else {
        assert hits[i] in hits && added[j - |hits|] in added;
        assert hits[i].item.id in IdSet(hits) && added[j - |hits|].item.id in IdSet(added);
      }
    }
  }

  // Epoch ids outside the filter.
  ghost function Outsiders(epoch: Epoch, db: Database, visible: Row -> bool): set<Id> {
    set id | id in epoch.ids && !VisibleIn(db, visible)(id)
  }

  /** The compiled section is the epoch order of what the filter admits or the
      search returned; so it is the visible part of the epoch, whatever was
      searched, exactly when the search returned nothing of the epoch that the
      filter does not admit. */
  lemma CompiledSectionIs(hits: seq<Hit>, epoch: Epoch, db: Database, visible: Row -> bool,
                          threshold: real, added: seq<Hit>)
    requires DistinctIds(hits) && IsBackfill(hits, epoch, db, visible, threshold, added)
    ensures Ids(Compiled(hits + added, epoch)) == Filter(epoch.ids, Present(db, visible, IdSet(hits)))
    ensures Ids(Compiled(hits + added, epoch)) == Filter(epoch.ids, VisibleIn(db, visible))
      <==> IdSet(hits) !! Outsiders(epoch, db, visible)
  {
    BackfilledIds(hits, epoch, db, visible, threshold, added);
    CompiledIds(hits + added, epoch);
    FilterCong(epoch.ids, Listed(IdSet(hits + added)), Present(db, visible, IdSet(hits)));
    FilterEqIff(epoch.ids, Present(db, visible, IdSet(hits)), VisibleIn(db, visible));
  }

  predicate IsCached(f: Flagged) {
    !f.appendix
  }

  // The ids a response shows before its appendix.
  function CachedIds(o: Ordering): seq<Id> {
    Ids(HitsOf(Filter(o.entries, IsCached)))
  }

  lemma {:induction false} CachedOfFlagAll(hits: seq<Hit>, appendix: bool)
    ensures Filter(FlagAll(hits, appendix), IsCached) == if appendix then [] else FlagAll(hits, false)
  {
    if appendix {
      FilterNone(FlagAll(hits, true), IsCached);
    } else {
      FilterAll(FlagAll(hits, false), IsCached);
    }
  }

  lemma CachedIsCompiled(all: seq<Hit>, epoch: Epoch)
    requires !Recompiles(all, epoch)
    ensures CachedIds(Ordered(all, Some(epoch))) == Ids(Compiled(all, epoch))
  {
    var (compiled, appendix) := (Compiled(all, epoch), Appendix(all, epoch));
    OrderedStands(all, epoch);
    FilterConcat(FlagAll(compiled, false), FlagAll(appendix, true), IsCached);
    CachedOfFlagAll(compiled, false);
    CachedOfFlagAll(appendix, true);
    HitsOfFlagAll(compiled, false);
    assert Filter(Arranged(compiled, appendix, epoch.number).entries, IsCached) == FlagAll(compiled, false);
  }

  /** Two whole searches with the same filter, unless one of them recompiles,
      show the same cached section if and only if they agree on every epoch id
      outside the filter, and always number the same epoch. */
  lemma PrefixStableAcrossQueries(hits1: seq<Hit>, hits2: seq<Hit>, epoch: Epoch, db: Database,
                                  visible: Row -> bool, threshold1: real, threshold2: real,
                                  added1: seq<Hit>, added2: seq<Hit>)
    requires DistinctIds(hits1) && IsBackfill(hits1, epoch, db, visible, threshold1, added1)
    requires DistinctIds(hits2) && IsBackfill(hits2, epoch, db, visible, threshold2, added2)
    ensures !Recompiles(hits1 + added1, epoch) && !Recompiles(hits2 + added2, epoch) ==>
      var (o1, o2) := (Ordered(hits1 + added1, Some(epoch)), Ordered(hits2 + added2, Some(epoch)));
      && (CachedIds(o1) == CachedIds(o2)
          <==> IdSet(hits1) * Outsiders(epoch, db, visible) == IdSet(hits2) * Outsiders(epoch, db, visible))
      && CachedIds(o1) <= OrderedIds(o1) && CachedIds(o2) <= OrderedIds(o2)
      && o1.number == o2.number == epoch.number
  {
    if !Recompiles(hits1 + added1, epoch) && !Recompiles(hits2 + added2, epoch) {
      SectionsEqualIff(hits1, hits2, epoch, db, visible, threshold1, threshold2, added1, added2);
      StandingSection(hits1 + added1, epoch);
      StandingSection(hits2 + added2, epoch);
    }
  }

  lemma StandingSection(all: seq<Hit>, epoch: Epoch)
    requires !Recompiles(all, epoch)
    ensures var o := Ordered(all, Some(epoch));
      CachedIds(o) == Ids(Compiled(all, epoch)) && CachedIds(o) <= OrderedIds(o) && o.number == epoch.number
  {
    CachedIsCompiled(all, epoch);
    OrderedPrefix(all, epoch);
    OrderedStands(all, epoch);
  }

  lemma SectionsEqualIff(hits1: seq<Hit>, hits2: seq<Hit>, epoch: Epoch, db: Database,
                         visible: Row -> bool, threshold1: real, threshold2: real,
                         added1: seq<Hit>, added2: seq<Hit>)
    requires DistinctIds(hits1) && IsBackfill(hits1, epoch, db, visible, threshold1, added1)
    requires DistinctIds(hits2) && IsBackfill(hits2, epoch, db, visible, threshold2, added2)
    ensures Ids(Compiled(hits1 + added1, epoch)) == Ids(Compiled(hits2 + added2, epoch))
      <==> IdSet(hits1) * Outsiders(epoch, db, visible) == IdSet(hits2) * Outsiders(epoch, db, visible)
  {
    CompiledSectionIs(hits1, epoch, db, visible, threshold1, added1);
    CompiledSectionIs(hits2, epoch, db, visible, threshold2, added2);
    FilterEqIff(epoch.ids, Present(db, visible, IdSet(hits1)), Present(db, visible, IdSet(hits2)));
    var outside := Outsiders(epoch, db, visible);
    if IdSet(hits1) * outside == IdSet(hits2) * outside {
      forall id | id in epoch.ids
        ensures Present(db, visible, IdSet(hits1))(id) == Present(db, visible, IdSet(hits2))(id)
      {
        assert id in IdSet(hits1) * outside <==> id in IdSet(hits2) * outside;
      }
    } else {
      var id :| id in outside && (id in IdSet(hits1) <==> id !in IdSet(hits2));
      assert id in epoch.ids && !VisibleIn(db, visible)(id);
    }
  }

  // The row of id as the backfill loads it.
  function Loaded(db: Database, id: Id, threshold: real): Hit
    requires id in db
  {
    Hit(RowItem(db[id], threshold), 0.0)
  }

  lemma TwoIds(a: Hit, b: Hit)
    ensures IdSet([a]) == {a.item.id} && DistinctIds([a])
    ensures IdSet([a, b]) == {a.item.id, b.item.id}
    ensures a.item.id != b.item.id ==> DistinctIds([a, b])
  {
    assert a in [a] && a in [a, b] && b in [a, b];
    assert Ids([a, b]) == [a.item.id, b.item.id];
  }

  lemma NothingMissing(hits: seq<Hit>, epoch: Epoch, db: Database, visible: Row -> bool, threshold: real)
    requires forall id :: id in epoch.ids && VisibleIn(db, visible)(id) ==> id in IdSet(hits)
    ensures IsBackfill(hits, epoch, db, visible, threshold, []) && hits + [] == hits
  {
    assert Missing(hits, epoch, db, visible) == {};
    assert IdSet([]) == {};
  }

  lemma CompleteDoesNotRecompile(all: seq<Hit>, epoch: Epoch)
    requires Compiled(all, epoch) != [] && forall id :: id in IdSet(all) ==> id in epoch.ids
    ensures !Recompiles(all, epoch)
  {
    forall h | h in all ensures !OutsideEpoch(epoch.ids)(h) {
      assert h.item.id in IdSet(all);
    }
    FilterNone(all, OutsideEpoch(epoch.ids));
    NoNewsNoRecompile(|Compiled(all, epoch)|);
  }

  /** It happens: a compiled memory that the filter hides, and that one of two
      searches reaches through a chunk, is in the section of that search only. */
  lemma HiddenHitShiftsSection(db: Database, epoch: Epoch, seen: Id, hidden: Id, visible: Row -> bool, threshold: real)
    requires seen in db && hidden in db && visible(db[seen]) && !visible(db[hidden])
    requires epoch.ids == [seen, hidden]
    ensures var (both, one) := ([Loaded(db, seen, threshold), Loaded(db, hidden, threshold)], [Loaded(db, seen, threshold)]);
      && IsBackfill(both, epoch, db, visible, threshold, []) && IsBackfill(one, epoch, db, visible, threshold, [])
      && !Recompiles(both, epoch) && !Recompiles(one, epoch)
      && CachedIds(Ordered(both, Some(epoch))) != CachedIds(Ordered(one, Some(epoch)))
  {
    var (s, h) := (Loaded(db, seen, threshold), Loaded(db, hidden, threshold));
    TwoIds(s, h);
    NothingMissing([s, h], epoch, db, visible, threshold);
    NothingMissing([s], epoch, db, visible, threshold);
    SectionHas([s, h], epoch, s);
    SectionHas([s], epoch, s);
    CompleteDoesNotRecompile([s, h], epoch);
    CompleteDoesNotRecompile([s], epoch);
    assert hidden in Outsiders(epoch, db, visible);
    assert hidden in IdSet([s, h]) * Outsiders(epoch, db, visible);
    assert hidden !in IdSet([s]) * Outsiders(epoch, db, visible);
    PrefixStableAcrossQueries([s, h], [s], epoch, db, visible, threshold, threshold, [], []);
  }

  lemma SectionHas(hits: seq<Hit>, epoch: Epoch, h: Hit)
    requires DistinctIds(hits) && h in hits && h.item.id in epoch.ids
    ensures Compiled(hits, epoch) != []
  {
    InCompiledIff(hits, epoch, h);
  }

  lemma OrderedPrefix(all: seq<Hit>, epoch: Epoch)
    requires !Recompiles(all, epoch)
    ensures var o := Ordered(all, Some(epoch));
      var compiled := Ids(Compiled(all, epoch));
      && compiled <= OrderedIds(o)
      && (forall i :: 0 <= i < |o.entries| ==> o.entries[i].appendix == (i >= |compiled|))
  {
  }

  /** A recompilation after a working backfill leaves no appendix, raises the
      number by one, loses no visible id of the old epoch and lists exactly the
      ids of this response. */
  lemma RecompileKeepsVisible(hits: seq<Hit>, epoch: Epoch, db: Database, visible: Row -> bool,
                              threshold: real, added: seq<Hit>)
    requires DistinctIds(hits) && IsBackfill(hits, epoch, db, visible, threshold, added)
    ensures Recompiles(hits + added, epoch) ==>
      var o := Ordered(hits + added, Some(epoch));
      var stored := StoredAfter(hits + added, Some(epoch), true, true);
      && o.appendixCount == 0 && o.number == epoch.number + 1 == stored.value.number
      && OrderedIds(o) == stored.value.ids
      && (forall id :: id in epoch.ids && VisibleIn(db, visible)(id) ==> id in stored.value.ids)
      && (forall id :: id in stored.value.ids <==> id in IdSet(hits + added))
  {
    BackfilledIds(hits, epoch, db, visible, threshold, added);
    RankSortedIsEpochOrder(hits + added, epoch.number + 1);
    CompileDistinct(hits + added, epoch.number + 1);
  }

  // A visible id of the old epoch that the new one does not list.
  ghost predicate LosesVisible(epoch: Epoch, after: Epoch, db: Database, visible: Row -> bool) {
    exists id :: id in epoch.ids && VisibleIn(db, visible)(id) && id !in after.ids
  }

  /** The backfill and the ordering read the store separately, and each read can
      fail on its own. A search makes the stored epoch forget a visible memory if
      and only if the backfill's read failed, the search missed such a memory,
      and the ordering replaced the epoch and could write it. */
  lemma VisibleIdLostIff(hits: seq<Hit>, epoch: Epoch, db: Database, visible: Row -> bool, threshold: real,
                         added: seq<Hit>, backfillRead: bool, orderRead: bool, writeOk: bool)
    requires DistinctIds(hits) && IsBackfill(hits, epoch, db, visible, threshold, added)
    ensures var all := if backfillRead then hits + added else hits;
      LosesVisible(epoch, StoredAfter(all, Some(epoch), orderRead, writeOk).value, db, visible)
      <==> !backfillRead && Missing(hits, epoch, db, visible) != {}
           && writeOk && (!orderRead || Recompiles(hits, epoch))
  {
    var all := if backfillRead then hits + added else hits;
    BackfilledIds(hits, epoch, db, visible, threshold, added);
    CompileDistinct(all, 1);
    CompileDistinct(all, epoch.number + 1);
    var after := StoredAfter(all, Some(epoch), orderRead, writeOk).value;
    if NewEpoch(all, Seen(Some(epoch), orderRead)).Some? && writeOk {
      assert forall id :: id in after.ids <==> id in IdSet(all);
      if !backfillRead && Missing(hits, epoch, db, visible) != {} {
        var id :| id in Missing(hits, epoch, db, visible);
        assert id in epoch.ids && VisibleIn(db, visible)(id) && id !in after.ids;
      }
    }
  }

  lemma EmptySectionRecompiles(hits: seq<Hit>, epoch: Epoch)
    requires IdSet(hits) !! (set id | id in epoch.ids)
    ensures Recompiles(hits, epoch)
  {
    CompiledIds(hits, epoch);
    assert Ids(Compiled(hits, epoch)) == [] by {
      FilterNone(epoch.ids, Listed(IdSet(hits)));
    }
    assert |Compiled(hits, epoch)| == |Ids(Compiled(hits, epoch))|;
  }

  /** It happens with a good second read: one hit outside the epoch, after a
      failed backfill read, and the epoch forgets the memory it listed. */
  lemma FailedBackfillForgets(db: Database, hit: Id, listed: Id, number: int, threshold: real, visible: Row -> bool)
    requires hit in db && listed in db && hit != listed && visible(db[listed])
    ensures var (hits, epoch) := ([Loaded(db, hit, threshold)], Epoch(number, [listed]));
      LosesVisible(epoch, StoredAfter(hits, Some(epoch), true, true).value, db, visible)
  {
    var (h, epoch) := (Loaded(db, hit, threshold), Epoch(number, [listed]));
    var added := [Loaded(db, listed, threshold)];
    OneMissing(db, hit, listed, number, threshold, visible, h);
    TwoIds(h, h);
    EmptySectionRecompiles([h], epoch);
    VisibleIdLostIff([h], epoch, db, visible, threshold, added, false, true, true);
  }

  /** The stored epoch number goes backwards exactly when the store could not
      be read but could be written, and had moved past the first epoch. */
  lemma NumberDropsIff(hits: seq<Hit>, epoch: Epoch, readOk: bool, writeOk: bool)
    ensures StoredAfter(hits, Some(epoch), readOk, writeOk).value.number < epoch.number
      <==> !readOk && writeOk && epoch.number > 1
  {
  }

  /** The backfill filters by scope, owner and content type, but not by entity,
      source or temporal status. When `wanted` is the whole filter of a search
      and `visible` what the backfill applies of it, every result is wanted
      exactly when every hit is, and every visible memory of the epoch. */
  lemma BackfillRespectsFilterIff(hits: seq<Hit>, epoch: Epoch, db: Database, visible: Row -> bool, wanted: Row -> bool,
                                  threshold: real, added: seq<Hit>)
    requires IsBackfill(hits, epoch, db, visible, threshold, added)
    ensures (forall id :: id in IdSet(hits + added) ==> VisibleIn(db, wanted)(id))
      <==> (forall id :: id in IdSet(hits) ==> VisibleIn(db, wanted)(id))
           && (forall id :: id in epoch.ids && VisibleIn(db, visible)(id) ==> VisibleIn(db, wanted)(id))
  {
    IdSetConcat(hits, added);
  }

  /** An epoch left by an unrestricted search: the next search, restricted to
      another source, brings back what it excludes. */
  lemma BackfillBringsUnwanted(db: Database, hit: Id, listed: Id, number: int, threshold: real,
                               visible: Row -> bool, wanted: Row -> bool)
    requires hit in db && listed in db && hit != listed
    requires wanted(db[hit]) && visible(db[listed]) && !wanted(db[listed])
    ensures var (hits, added) := ([Loaded(db, hit, threshold)], [Loaded(db, listed, threshold)]);
      && IsBackfill(hits, Epoch(number, [listed]), db, visible, threshold, added)
      && (forall id :: id in IdSet(hits) ==> VisibleIn(db, wanted)(id))
      && !(forall id :: id in IdSet(hits + added) ==> VisibleIn(db, wanted)(id))
  {
    var (hits, added, epoch) := ([Loaded(db, hit, threshold)], [Loaded(db, listed, threshold)], Epoch(number, [listed]));
    OneMissing(db, hit, listed, number, threshold, visible, hits[0]);
    TwoIds(hits[0], added[0]);
    BackfillRespectsFilterIff(hits, epoch, db, visible, wanted, threshold, added);
    assert listed in epoch.ids && VisibleIn(db, visible)(listed) && !VisibleIn(db, wanted)(listed);
  }

  // One hit, and one visible epoch memory for the backfill to load.
  lemma OneMissing(db: Database, hit: Id, listed: Id, number: int, threshold: real, visible: Row -> bool, h: Hit)
    requires listed in db && hit != listed && visible(db[listed]) && h.item.id == hit
    ensures Missing([h], Epoch(number, [listed]), db, visible) == {listed}
    ensures IsBackfill([h], Epoch(number, [listed]), db, visible, threshold, [Loaded(db, listed, threshold)])
  {
    TwoIds(h, h);
    TwoIds(Loaded(db, listed, threshold), h);
    assert listed in [listed];
  }

  lemma IdSetConcat(a: seq<Hit>, b: seq<Hit>)
    ensures IdSet(a + b) == IdSet(a) + IdSet(b)
  {
    forall id ensures id in IdSet(a + b) <==> id in IdSet(a) || id in IdSet(b) {
      if id in IdSet(a) || id in IdSet(b) {
        var h :| (h in a || h in b) && h.item.id == id;
        assert h in a + b;
      }
    }
  }

  /** mode='index' asks for stubs only, but stubbing runs before the backfill:
      the response is all stubs exactly when every row loaded back is lighter
      than the threshold. */
  lemma IndexModeStubsIff(hits: seq<Hit>, epoch: Epoch, db: Database, visible: Row -> bool,
                          threshold: real, added: seq<Hit>)
    requires forall h :: h in hits ==> h.item.Stub?
    requires IsBackfill(hits, epoch, db, visible, threshold, added)
    ensures (forall h :: h in hits + added ==> h.item.Stub?)
      <==> (forall id :: id in Missing(hits, epoch, db, visible) ==> db[id].weight < threshold)
  {
    if forall h :: h in hits + added ==> h.item.Stub? {
      forall id | id in Missing(hits, epoch, db, visible) ensures db[id].weight < threshold {
        var h :| h in added && h.item.id == id;
        assert h in hits + added;
      }
    }
    if forall id :: id in Missing(hits, epoch, db, visible) ==> db[id].weight < threshold {
      forall h | h in hits + added ensures h.item.Stub? {
        if h in added {
          assert h.item.id in IdSet(added);
        }
      }
    }
  }

  /** One heavy compiled memory the search missed is enough. */
  lemma IndexModeAnswersFull(db: Database, hit: Id, listed: Id, number: int, threshold: real, visible: Row -> bool)
    requires hit in db && listed in db && hit != listed && visible(db[listed]) && db[listed].weight >= threshold
    ensures var hits := [Hit(Stubbed(RowItem(db[hit], threshold)), 1.0)];
      var added := [Loaded(db, listed, threshold)];
      && IsBackfill(hits, Epoch(number, [listed]), db, visible, threshold, added)
      && (forall h :: h in hits ==> h.item.Stub?) && !(forall h :: h in hits + added ==> h.item.Stub?)
  {
    var hits := [Hit(Stubbed(RowItem(db[hit], threshold)), 1.0)];
    OneMissing(db, hit, listed, number, threshold, visible, hits[0]);
    IndexModeStubsIff(hits, Epoch(number, [listed]), db, visible, threshold, [Loaded(db, listed, threshold)]);
  }
}
