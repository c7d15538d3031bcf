// Compilation epochs: the frozen order of memory ids behind the cache-stable
// prefix, and the split of a result set into that prefix and an appendix.

module Compilation {
  import opened Memory
  import opened Options
  import opened Sorting

  // The hash of an epoch is a function of ids alone and is left out.
  datatype Epoch = Epoch(number: int, ids: seq<Id>)

  datatype SortKey = SortKey(weight: real, created: nat, id: Id)

  const MIN_APPENDIX := 5
  const THRESHOLD := 0.3

  // A missing created_at sorts as the earliest instant.
  function CreatedOrMin(item: Item): nat {
    if item.created.Some? then item.created.value else 0
  }

  function KeyOf(item: Item): SortKey {
    SortKey(item.weight, CreatedOrMin(item), item.id)
  }

  // Weight descending, then created ascending, then id ascending.
  predicate KeyLe(a: SortKey, b: SortKey) {
    || a.weight > b.weight
    || (a.weight == b.weight && (a.created < b.created || (a.created == b.created && a.id <= b.id)))
  }

  predicate CanonicalLe(a: Item, b: Item) {
    KeyLe(KeyOf(a), KeyOf(b))
  }

  predicate AppendixLe(a: Hit, b: Hit) {
    var (ca, cb) := (CreatedOrMin(a.item), CreatedOrMin(b.item));
    ca < cb || (ca == cb && a.item.id <= b.item.id)
  }

  function ItemOf(h: Hit): Item {
    h.item
  }

  function KeyId(k: SortKey): Id {
    k.id
  }

  function ItemId(item: Item): Id {
    item.id
  }

  function CompileMemorySet(hits: seq<Hit>, number: int): Epoch {
    Epoch(number, Map(ItemId, SortBy(Map(ItemOf, hits), CanonicalLe)))
  }

  predicate ShouldRecompile(compiledCount: nat, appendixCount: nat) {
    if compiledCount == 0 then true
    else if appendixCount >= MIN_APPENDIX then true
    else compiledCount < MIN_APPENDIX && appendixCount as real / compiledCount as real > THRESHOLD
  }

  function Listed(s: set<Id>): Id -> bool {
    (id: Id) => id in s
  }

  function OutsideEpoch(ids: seq<Id>): Hit -> bool {
    (h: Hit) => h.item.id !in ids
  }

  // The last hit wins when an id repeats, as in a dict comprehension.
  function Lookup(hits: seq<Hit>): (m: map<Id, Hit>)
    ensures m.Keys == IdSet(hits)
    ensures forall id :: id in m ==> m[id].item.id == id && m[id] in hits
  {
    if hits == [] then map[]
    else
      var n := |hits| - 1;
      assert hits == hits[..n] + [hits[n]];
      Lookup(hits[..n])[hits[n].item.id := hits[n]]
  }

  function Picked(lookup: map<Id, Hit>, id: Id): seq<Hit> {
    if id in lookup then [lookup[id]] else []
  }

  function CompiledFrom(lookup: map<Id, Hit>, ids: seq<Id>): (r: seq<Hit>)
    ensures forall h :: h in r ==> h in lookup.Values
  {
    if ids == [] then []
    else
      var n := |ids| - 1;
      CompiledFrom(lookup, ids[..n]) + Picked(lookup, ids[n])
  }

  function Compiled(hits: seq<Hit>, epoch: Epoch): seq<Hit> {
    CompiledFrom(Lookup(hits), epoch.ids)
  }

  function Appendix(hits: seq<Hit>, epoch: Epoch): seq<Hit> {
    SortBy(Filter(hits, OutsideEpoch(epoch.ids)), AppendixLe)
  }

  /** Splits hits into the compiled section, in epoch order, and the appendix. */
  method ApplyCompilation(hits: seq<Hit>, epoch: Epoch) returns (compiled: seq<Hit>, appendix: seq<Hit>)
    ensures compiled == Compiled(hits, epoch)
    ensures appendix == Appendix(hits, epoch)
  {
    var lookup := BuildLookup(hits);
    var seen;
    compiled, seen := PickCompiled(lookup, epoch.ids);
    var pairs := Unseen(hits, epoch.ids, seen);
    appendix := SortBy(pairs, AppendixLe);
  }

  method BuildLookup(hits: seq<Hit>) returns (lookup: map<Id, Hit>)
    ensures lookup == Lookup(hits)
  {
    lookup := map[];
    for i := 0 to |hits|
      invariant lookup == Lookup(hits[..i])
    {
      assert hits[..i + 1][..i] == hits[..i];
      lookup := lookup[hits[i].item.id := hits[i]];
    }
    assert hits[..|hits|] == hits;
  }

  method PickCompiled(lookup: map<Id, Hit>, ids: seq<Id>) returns (compiled: seq<Hit>, seen: set<Id>)
    ensures compiled == CompiledFrom(lookup, ids)
    ensures seen == set id | id in ids && id in lookup
  {
    compiled, seen := [], {};
    for i := 0 to |ids|
      invariant compiled == CompiledFrom(lookup, ids[..i])
      invariant seen == set id | id in ids[..i] && id in lookup
    {
      assert ids[..i + 1][..i] == ids[..i];
      if ids[i] in lookup {
        compiled := compiled + [lookup[ids[i]]];
        seen := seen + {ids[i]};
      }
    }
    assert ids[..|ids|] == ids;
  }

  // The hits that were not picked, in search order.
  method Unseen(hits: seq<Hit>, ids: seq<Id>, seen: set<Id>) returns (pairs: seq<Hit>)
    requires seen == set id | id in ids && id in IdSet(hits)
    ensures pairs == Filter(hits, OutsideEpoch(ids))
  {
    pairs := [];
    for i := 0 to |hits|
      invariant pairs == Filter(hits[..i], OutsideEpoch(ids))
    {
      assert hits[..i + 1] == hits[..i] + [hits[i]];
      FilterSnoc(hits[..i], hits[i], OutsideEpoch(ids));
      assert hits[i].item.id in IdSet(hits);
      if hits[i].item.id !in seen {
        pairs := pairs + [hits[i]];
      }
    }
    assert hits[..|hits|] == hits;
  }

  lemma AppendixOrder()
    ensures TotalPreorder(AppendixLe)
  {
  }

  lemma CanonicalOrder()
    ensures TotalPreorder(CanonicalLe) && TotalPreorder(KeyLe)
  {
  }

  lemma {:induction false} CompiledFromIds(lookup: map<Id, Hit>, ids: seq<Id>)
    requires forall id :: id in lookup ==> lookup[id].item.id == id
    ensures Ids(CompiledFrom(lookup, ids)) == Filter(ids, Listed(lookup.Keys))
  {
    if ids != [] {
      var (rest, last) := (ids[..|ids| - 1], ids[|ids| - 1]);
      assert ids == rest + [last];
      CompiledFromIds(lookup, rest);
      FilterSnoc(rest, last, Listed(lookup.Keys));
      IdsConcat(CompiledFrom(lookup, rest), Picked(lookup, last));
    }
  }

  lemma IdsConcat(a: seq<Hit>, b: seq<Hit>)
    ensures Ids(a + b) == Ids(a) + Ids(b)
  {
  }

  /** The compiled section is the epoch order restricted to the ids present. */
  lemma CompiledIds(hits: seq<Hit>, epoch: Epoch)
    ensures Ids(Compiled(hits, epoch)) == Filter(epoch.ids, Listed(IdSet(hits)))
    ensures forall h :: h in Compiled(hits, epoch) ==> h in hits
  {
    CompiledFromIds(Lookup(hits), epoch.ids);
  }

  /** The appendix is every hit the epoch does not list, oldest first, ids breaking ties. */
  lemma AppendixIsTheRest(hits: seq<Hit>, epoch: Epoch)
    ensures Sorted(Appendix(hits, epoch), AppendixLe)
    ensures forall h :: h in Appendix(hits, epoch) <==> h in hits && h.item.id !in epoch.ids
  {
    var rest := Filter(hits, OutsideEpoch(epoch.ids));
    AppendixOrder();
    SortBySorted(rest, AppendixLe);
    MembersOfPermutation(Appendix(hits, epoch), rest);
  }

  /** Nothing is lost, invented or repeated by the split. */
  lemma ApplyIsPartition(hits: seq<Hit>, epoch: Epoch)
    requires DistinctIds(hits) && Distinct(epoch.ids)
    ensures multiset(Compiled(hits, epoch) + Appendix(hits, epoch)) == multiset(hits)
  {
    CompiledIds(hits, epoch);
    FilterDistinct(epoch.ids, Listed(IdSet(hits)));
    forall h ensures multiset(Compiled(hits, epoch) + Appendix(hits, epoch))[h] == multiset(hits)[h] {
      SplitCount(hits, epoch, h);
    }
  }

  lemma SplitCount(hits: seq<Hit>, epoch: Epoch, h: Hit)
    requires DistinctIds(hits) && DistinctIds(Compiled(hits, epoch))
    ensures multiset(Compiled(hits, epoch))[h] + multiset(Appendix(hits, epoch))[h] == multiset(hits)[h]
  {
    DistinctIdsDistinct(hits);
    DistinctIdsDistinct(Compiled(hits, epoch));
    DistinctMultiset(Compiled(hits, epoch), h);
    DistinctMultiset(hits, h);
    FilterMultiset(hits, OutsideEpoch(epoch.ids), h);
    InCompiledIff(hits, epoch, h);
  }

  lemma InCompiledIff(hits: seq<Hit>, epoch: Epoch, h: Hit)
    requires DistinctIds(hits)
    ensures h in Compiled(hits, epoch) <==> h in hits && h.item.id in epoch.ids
  {
    var compiled := Compiled(hits, epoch);
    CompiledIds(hits, epoch);
    if h in hits && h.item.id in epoch.ids {
      assert h.item.id in Ids(compiled);
      var i :| 0 <= i < |compiled| && Ids(compiled)[i] == h.item.id;
      SameIdSameHit(hits, compiled[i], h);
    }
    if h in compiled {
      var i :| 0 <= i < |compiled| && compiled[i] == h;
      assert Ids(compiled)[i] in epoch.ids;
    }
  }

  function SortKeys(hits: seq<Hit>): seq<SortKey> {
    Map(KeyOf, Map(ItemOf, hits))
  }

  lemma CompileViaKeys(hits: seq<Hit>, number: int)
    ensures CompileMemorySet(hits, number).ids == Map(KeyId, SortBy(SortKeys(hits), KeyLe))
  {
    MapSort(KeyOf, Map(ItemOf, hits), CanonicalLe, KeyLe);
  }

  /** Compiling depends only on the set of sort keys: not on the order the
      search returned, not on the scores, not on full or stub form. */
  lemma CompileIgnoresOrderAndForm(a: seq<Hit>, b: seq<Hit>, number: int)
    requires multiset(SortKeys(a)) == multiset(SortKeys(b))
    ensures CompileMemorySet(a, number) == CompileMemorySet(b, number)
  {
    var (ka, kb) := (SortKeys(a), SortKeys(b));
    CompileViaKeys(a, number);
    CompileViaKeys(b, number);
    CanonicalOrder();
    SortBySorted(ka, KeyLe);
    SortBySorted(kb, KeyLe);
    SortedUnique(SortBy(ka, KeyLe), SortBy(kb, KeyLe), KeyLe);
  }

  /** A new epoch lists every id of the result set exactly as often as the set does. */
  lemma CompileIsPermutation(hits: seq<Hit>, number: int)
    ensures multiset(CompileMemorySet(hits, number).ids) == multiset(Ids(hits))
    ensures |CompileMemorySet(hits, number).ids| == |hits|
  {
    MapMultisetSort(ItemId, Map(ItemOf, hits), CanonicalLe);
    assert Map(ItemId, Map(ItemOf, hits)) == Ids(hits);
  }

  lemma CompileDistinct(hits: seq<Hit>, number: int)
    requires DistinctIds(hits)
    ensures Distinct(CompileMemorySet(hits, number).ids)
    ensures forall id :: id in CompileMemorySet(hits, number).ids <==> id in IdSet(hits)
  {
    var ids := CompileMemorySet(hits, number).ids;
    CompileIsPermutation(hits, number);
    MembersOfPermutation(ids, Ids(hits));
    forall x | x in multiset(ids) ensures multiset(ids)[x] == 1 {
      DistinctMultiset(Ids(hits), x);
    }
    MultisetDistinct(ids);
    InIdsIff(hits);
  }

  lemma InIdsIff(hits: seq<Hit>)
    ensures forall id :: id in Ids(hits) <==> id in IdSet(hits)
  {
    forall id ensures id in Ids(hits) <==> id in IdSet(hits) {
      if id in Ids(hits) {
        var i :| 0 <= i < |hits| && Ids(hits)[i] == id;
        assert hits[i] in hits;
      }
      if id in IdSet(hits) {
        var h :| h in hits && h.item.id == id;
        var i :| 0 <= i < |hits| && hits[i] == h;
        assert Ids(hits)[i] == id;
      }
    }
  }

  lemma CompleteEpoch(hits: seq<Hit>, epoch: Epoch)
    requires forall id :: id in epoch.ids <==> id in IdSet(hits)
    ensures Ids(Compiled(hits, epoch)) == epoch.ids
    ensures Appendix(hits, epoch) == []
  {
    CompiledIds(hits, epoch);
    FilterAll(epoch.ids, Listed(IdSet(hits)));
    forall h | h in hits ensures !OutsideEpoch(epoch.ids)(h) {
      assert h.item.id in IdSet(hits);
    }
    FilterNone(hits, OutsideEpoch(epoch.ids));
  }

  lemma NoNewsNoRecompile(compiledCount: nat)
    requires compiledCount > 0
    ensures !ShouldRecompile(compiledCount, 0)
  {
  }

  /** A second query over the same memories finds the epoch complete: every id
      in epoch order, an empty appendix, and no recompilation. */
  lemma WarmRepeatIsStable(first: seq<Hit>, second: seq<Hit>, number: int)
    requires first != [] && IdSet(second) == IdSet(first)
    requires DistinctIds(first) && DistinctIds(second)
    ensures var epoch := CompileMemorySet(first, number);
      && Ids(Compiled(second, epoch)) == epoch.ids
      && Appendix(second, epoch) == []
      && !ShouldRecompile(|Compiled(second, epoch)|, |Appendix(second, epoch)|)
  {
    var epoch := CompileMemorySet(first, number);
    CompileDistinct(first, number);
    CompileIsPermutation(first, number);
    CompleteEpoch(second, epoch);
    assert |Compiled(second, epoch)| == |Ids(Compiled(second, epoch))| == |first|;
    NoNewsNoRecompile(|first|);
  }

  // ----- the orders and the rule, on the fields themselves -----

  predicate Precedes(ids: seq<Id>, x: Id, y: Id) {
    exists i, j :: 0 <= i < j < |ids| && ids[i] == x && ids[j] == y
  }

  lemma PrecedesOneWay(ids: seq<Id>, x: Id, y: Id)
    requires Distinct(ids) && Precedes(ids, x, y)
    ensures !Precedes(ids, y, x)
  {
    var i, j :| 0 <= i < j < |ids| && ids[i] == x && ids[j] == y;
    forall k, l | 0 <= k < l < |ids| ensures !(ids[k] == y && ids[l] == x) {
      assert ids[k] == y ==> k == j;
    }
  }

  lemma HitPosition(hits: seq<Hit>, number: int, h: Hit) returns (i: nat)
    requires h in hits
    ensures var s := SortBy(Map(ItemOf, hits), CanonicalLe);
      i < |s| && s[i] == h.item && |CompileMemorySet(hits, number).ids| == |s| && CompileMemorySet(hits, number).ids[i] == h.item.id
  {
    var items := Map(ItemOf, hits);
    var k :| 0 <= k < |hits| && hits[k] == h;
    assert items[k] == h.item && h.item in items;
    MembersOfPermutation(SortBy(items, CanonicalLe), items);
    i :| 0 <= i < |SortBy(items, CanonicalLe)| && SortBy(items, CanonicalLe)[i] == h.item;
  }

  lemma LighterNeverFirst(hits: seq<Hit>, number: int, a: Hit, b: Hit)
    requires DistinctIds(hits) && a in hits && b in hits && a != b
    requires !CanonicalLe(b.item, a.item)
    ensures Precedes(CompileMemorySet(hits, number).ids, a.item.id, b.item.id)
    ensures !Precedes(CompileMemorySet(hits, number).ids, b.item.id, a.item.id)
  {
    var (items, ids) := (Map(ItemOf, hits), CompileMemorySet(hits, number).ids);
    var i := HitPosition(hits, number, a);
    var j := HitPosition(hits, number, b);
    CanonicalOrder();
    SortBySorted(items, CanonicalLe);
    CompileDistinct(hits, number);
    if a.item.id == b.item.id {
      SameIdSameHit(hits, a, b);
    }
    assert i != j;
    PrecedesOneWay(ids, a.item.id, b.item.id);
  }

  /** The order of an epoch: a memory comes before another exactly when it is
      heavier, or as heavy and created earlier, or as heavy and as old and of the
      smaller id; a memory without a creation time counts as the oldest. */
  lemma EpochOrder(hits: seq<Hit>, number: int, a: Hit, b: Hit)
    requires DistinctIds(hits) && a in hits && b in hits && a != b
    ensures var (born, later) := (match a.item.created case Some(t) => t case None => 0,
                                  match b.item.created case Some(t) => t case None => 0);
      Precedes(CompileMemorySet(hits, number).ids, a.item.id, b.item.id)
      <==> (|| a.item.weight > b.item.weight
            || (a.item.weight == b.item.weight && born < later)
            || (a.item.weight == b.item.weight && born == later && a.item.id < b.item.id))
  {
    if a.item.id == b.item.id {
      SameIdSameHit(hits, a, b);
    }
    if CanonicalLe(b.item, a.item) {
      LighterNeverFirst(hits, number, b, a);
    } else {
      LighterNeverFirst(hits, number, a, b);
    }
  }

  lemma AppendixPosition(hits: seq<Hit>, epoch: Epoch, h: Hit) returns (i: nat)
    requires h in hits && h.item.id !in epoch.ids
    ensures i < |Appendix(hits, epoch)| && Appendix(hits, epoch)[i] == h && Ids(Appendix(hits, epoch))[i] == h.item.id
  {
    AppendixIsTheRest(hits, epoch);
    i :| 0 <= i < |Appendix(hits, epoch)| && Appendix(hits, epoch)[i] == h;
  }

  lemma AppendixDistinct(hits: seq<Hit>, epoch: Epoch)
    requires DistinctIds(hits)
    ensures DistinctIds(Appendix(hits, epoch))
  {
    var appendix := Appendix(hits, epoch);
    DistinctIdsDistinct(hits);
    AppendixIsTheRest(hits, epoch);
    forall h | h in multiset(appendix) ensures multiset(appendix)[h] == 1 {
      FilterMultiset(hits, OutsideEpoch(epoch.ids), h);
      DistinctMultiset(hits, h);
    }
    MultisetDistinct(appendix);
    forall i, j | 0 <= i < j < |appendix| ensures Ids(appendix)[i] != Ids(appendix)[j] {
      assert appendix[i] in hits && appendix[j] in hits && appendix[i] != appendix[j];
      if appendix[i].item.id == appendix[j].item.id {
        SameIdSameHit(hits, appendix[i], appendix[j]);
      }
    }
  }

  lemma YoungerNeverFirst(hits: seq<Hit>, epoch: Epoch, a: Hit, b: Hit)
    requires DistinctIds(hits) && a in hits && b in hits && a != b
    requires a.item.id !in epoch.ids && b.item.id !in epoch.ids && !AppendixLe(b, a)
    ensures Precedes(Ids(Appendix(hits, epoch)), a.item.id, b.item.id)
    ensures !Precedes(Ids(Appendix(hits, epoch)), b.item.id, a.item.id)
  {
    var i := AppendixPosition(hits, epoch, a);
    var j := AppendixPosition(hits, epoch, b);
    AppendixIsTheRest(hits, epoch);
    AppendixDistinct(hits, epoch);
    assert i != j;
    PrecedesOneWay(Ids(Appendix(hits, epoch)), a.item.id, b.item.id);
  }

  /** The order of the appendix: older first, the smaller id breaking ties; a
      memory without a creation time counts as the oldest. */
  lemma AppendixInAgeOrder(hits: seq<Hit>, epoch: Epoch, a: Hit, b: Hit)
    requires DistinctIds(hits) && a in hits && b in hits && a != b
    requires a.item.id !in epoch.ids && b.item.id !in epoch.ids
    ensures var (born, later) := (match a.item.created case Some(t) => t case None => 0,
                                  match b.item.created case Some(t) => t case None => 0);
      Precedes(Ids(Appendix(hits, epoch)), a.item.id, b.item.id)
      <==> born < later || (born == later && a.item.id < b.item.id)
  {
    if a.item.id == b.item.id {
      SameIdSameHit(hits, a, b);
    }
    if AppendixLe(b, a) {
      YoungerNeverFirst(hits, epoch, b, a);
    } else {
      YoungerNeverFirst(hits, epoch, a, b);
    }
  }

  lemma RatioRule(compiled: nat, appendix: nat)
    requires 0 < compiled < 5
    ensures appendix as real / compiled as real > 0.3 <==> 10 * appendix > 3 * compiled
  {
    var q := appendix as real / compiled as real;
    assert q * compiled as real == appendix as real;
    if compiled == 1 {
    } else if compiled == 2 {
    } else if compiled == 3 {
    } else {
      assert compiled == 4;
    }
  }

  /** The rule in counts: nothing compiled; five new memories; one new memory
      against at most three compiled ones; or two against four. */
  lemma RecompileRule(compiled: nat, appendix: nat)
    ensures ShouldRecompile(compiled, appendix)
      <==> compiled == 0 || appendix >= 5 || (compiled <= 3 && appendix >= 1) || (compiled == 4 && appendix >= 2)
  {
    if 0 < compiled < 5 {
      RatioRule(compiled, appendix);
    }
  }
}
