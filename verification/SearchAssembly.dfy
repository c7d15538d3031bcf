// The cache-optimized response of one search, end to end: backfill, ordering,
// branch split, clamp, packing.

module SearchAssembly {
  import opened Options
  import opened Memory
  import opened Sorting
  import opened Compilation
  import opened SearchOrdering
  import opened BranchSplit
  import opened Packing

  function SlotIds(slots: seq<Slot>): (r: seq<Id>)
    ensures |r| == |slots|
    ensures forall i :: 0 <= i < |r| ==> r[i] == slots[i].item.id
  {
    seq(|slots|, i requires 0 <= i < |slots| => slots[i].item.id)
  }

  // The cached form of a nested branch leaves its score out.
  function CachedBranch(h: Hit): Branch {
    Branch(h.item, None)
  }

  function SlotFor(f: Flagged, branches: seq<Hit>): Slot {
    Slot(f.hit.item, Map(CachedBranch, branches), Section(f.appendix))
  }

  function Min(a: nat, b: nat): nat {
    if a <= b then a else b
  }

  // The page before packing: the ordered results without branches, cut to size.
  function Clamped(all: seq<Hit>, ordered: seq<Flagged>, maxResults: nat): seq<Flagged> {
    var entries := TopEntries(all, ordered);
    entries[..Min(maxResults, |entries|)]
  }

  function Page(all: seq<Hit>, seen: Option<Epoch>, maxResults: nat): seq<Flagged> {
    Clamped(all, Ordered(all, seen).entries, maxResults)
  }

  function PageSlots(all: seq<Hit>, seen: Option<Epoch>, includeBranches: bool, maxResults: nat): (r: seq<Slot>)
    ensures var page := Page(all, seen, maxResults);
      && |r| == |page|
      && forall i :: 0 <= i < |r| ==>
           r[i] == SlotFor(page[i], if includeBranches then Children(all, page[i].hit.item.id) else [])
  {
    var page := Page(all, seen, maxResults);
    seq(|page|, i requires 0 <= i < |page| =>
      SlotFor(page[i], if includeBranches then Children(all, page[i].hit.item.id) else []))
  }

  function PageIds(all: seq<Hit>, seen: Option<Epoch>, maxResults: nat): seq<Id> {
    Ids(HitsOf(Page(all, seen, maxResults)))
  }

  // The packed entries of a response.
  function Response(all: seq<Hit>, seen: Option<Epoch>, includeBranches: bool, maxResults: nat,
                    maxTokens: nat, fullOnly: bool, store: Option<ContentStore>, chars: Slot -> nat): seq<Slot>
  {
    Packed(PageSlots(all, seen, includeBranches, maxResults), maxTokens, fullOnly, store, chars)
  }

  // The appendix count is recomputed only when the page is clamped.
  function ReportedCount(all: seq<Hit>, o: Ordering, maxResults: nat): nat {
    if |TopEntries(all, o.entries)| > maxResults then FlaggedCount(Clamped(all, o.entries, maxResults))
    else o.appendixCount
  }

  /** One response. `all` is the backfilled result set. The backfill and the
      ordering read the store separately. Packing changes the form of entries,
      never which memories are shown or in what order. */
  method Assemble(hits: seq<Hit>, stored: Option<Epoch>, backfillRead: bool, orderRead: bool, writeOk: bool,
                  db: Database, scopeFilters: Option<Row -> bool>, threshold: real,
                  includeBranches: bool, maxResults: nat,
                  maxTokens: nat, fullOnly: bool, store: Option<ContentStore>, chars: Slot -> nat)
    returns (all: seq<Hit>, out: seq<Slot>, number: int, appendixCount: nat, stored': Option<Epoch>)
    requires hits != []
    ensures hits <= all
    ensures backfillRead && stored.Some? && scopeFilters.Some? ==>
      IsBackfill(hits, stored.value, db, scopeFilters.value, threshold, all[|hits|..])
    ensures !backfillRead || stored.None? || scopeFilters.None? ==> all == hits
    ensures out == Response(all, Seen(stored, orderRead), includeBranches, maxResults, maxTokens, fullOnly, store, chars)
    ensures SlotIds(out) == PageIds(all, Seen(stored, orderRead), maxResults)
    ensures |out| <= maxResults
    ensures number == Ordered(all, Seen(stored, orderRead)).number
    ensures appendixCount == ReportedCount(all, Ordered(all, Seen(stored, orderRead)), maxResults)
    ensures stored' == StoredAfter(all, stored, orderRead, writeOk)
  {
    all := BackfillCompiledEntries(hits, stored, backfillRead, db, scopeFilters, threshold);
    assert all[..|hits|] == hits && all != [];
    var ordering;
    ordering, stored' := ApplyCacheOptimizedOrdering(all, stored, orderRead, writeOk);
    OrderedIsResults(all, Seen(stored, orderRead));
    var page, kept := CutPage(all, ordering.value, includeBranches, maxResults);
    number, appendixCount := page.number, page.appendixCount;
    ghost var slots := PageSlots(all, Seen(stored, orderRead), includeBranches, maxResults);
    out := PackPage(page.entries, kept, slots, maxTokens, fullOnly, store, chars);
  }

  // Branch split and clamp: the page, and the branches under its entries.
  method CutPage(all: seq<Hit>, o: Ordering, includeBranches: bool, maxResults: nat)
    returns (page: Ordering, kept: map<Id, seq<Hit>>)
    requires forall f :: f in o.entries ==> f.hit in all
    ensures page == Ordering(Clamped(all, o.entries, maxResults), o.number, ReportedCount(all, o, maxResults))
    ensures forall f :: f in page.entries ==>
      Under(kept, f.hit.item.id) == if includeBranches then Children(all, f.hit.item.id) else []
  {
    var top, nested := SplitBranches(all, includeBranches);
    page, kept := FilterAndClamp(all, top, nested, o, maxResults);
    ClampedIsResults(all, o.entries, maxResults);
    KeptBranches(all, includeBranches, nested, kept, page.entries);
  }

  lemma KeptBranches(all: seq<Hit>, includeBranches: bool, nested: map<Id, seq<Hit>>, kept: map<Id, seq<Hit>>, entries: seq<Flagged>)
    requires !includeBranches ==> nested == map[]
    requires includeBranches ==> forall pid :: pid in IdSet(all) ==> Under(nested, pid) == Children(all, pid)
    requires kept == nested
      || (kept.Keys == nested.Keys * IdSet(HitsOf(entries)) && forall pid :: pid in kept ==> kept[pid] == nested[pid])
    requires forall f :: f in entries ==> f.hit.item.id in IdSet(all)
    ensures forall f :: f in entries ==>
      Under(kept, f.hit.item.id) == if includeBranches then Children(all, f.hit.item.id) else []
  {
    forall f | f in entries ensures Under(kept, f.hit.item.id) == Under(nested, f.hit.item.id) {
      InHits(entries, f);
    }
  }

  lemma InHits(entries: seq<Flagged>, f: Flagged)
    requires f in entries
    ensures f.hit.item.id in IdSet(HitsOf(entries))
  {
    var i :| 0 <= i < |entries| && entries[i] == f;
    assert HitsOf(entries)[i] in HitsOf(entries);
  }

  lemma InFlagAll(hits: seq<Hit>, appendix: bool)
    ensures forall f :: f in FlagAll(hits, appendix) ==> f.hit in hits
  {
  }

  // Every ordered entry is one of the results.
  lemma OrderedIsResults(all: seq<Hit>, seen: Option<Epoch>)
    ensures forall f :: f in Ordered(all, seen).entries ==> f.hit in all
  {
    if NewEpoch(all, seen).Some? {
      OrderedStarts(all, seen);
      MembersOfPermutation(Ordered(all, seen).entries, FlagAll(all, false));
      InFlagAll(all, false);
    } else {
      OrderedStands(all, seen.value);
      CompiledIds(all, seen.value);
      AppendixIsTheRest(all, seen.value);
      InFlagAll(Compiled(all, seen.value), false);
      InFlagAll(Appendix(all, seen.value), true);
    }
  }

  lemma ClampedIsResults(all: seq<Hit>, ordered: seq<Flagged>, maxResults: nat)
    requires forall f :: f in ordered ==> f.hit in all
    ensures forall f :: f in Clamped(all, ordered, maxResults) ==> f.hit.item.id in IdSet(all)
  {
    forall f | f in Clamped(all, ordered, maxResults) ensures f.hit.item.id in IdSet(all) {
      assert f in TopEntries(all, ordered);
      assert f.hit in all;
    }
  }

  method PackPage(entries: seq<Flagged>, nested: map<Id, seq<Hit>>, ghost slots: seq<Slot>, maxTokens: nat, fullOnly: bool,
                  store: Option<ContentStore>, chars: Slot -> nat)
    returns (out: seq<Slot>)
    requires |slots| == |entries|
    requires forall i :: 0 <= i < |entries| ==> slots[i] == SlotFor(entries[i], Under(nested, entries[i].hit.item.id))
    ensures out == Packed(slots, maxTokens, fullOnly, store, chars)
    ensures SlotIds(out) == Ids(HitsOf(entries))
  {
    var built: seq<Slot> := [];
    for i := 0 to |entries|
      invariant built == slots[..i]
    {
      built := built + [SlotFor(entries[i], Under(nested, entries[i].hit.item.id))];
    }
    assert built == slots;
    var budget, fetched;
    out, budget, fetched := PackResponse(built, maxTokens, fullOnly, store, chars);
  }

  lemma FilterFlagAll(hits: seq<Hit>, appendix: bool, ids: set<Id>)
    ensures Filter(FlagAll(hits, appendix), KeepOutside(ids)) == FlagAll(Filter(hits, KeepHit(ids)), appendix)
  {
    MapFilter(Flag(appendix), hits, KeepHit(ids), KeepOutside(ids));
  }

  // The compiled results that survive the branch filter.
  function PrefixHits(all: seq<Hit>, epoch: Epoch): seq<Hit> {
    Filter(Compiled(all, epoch), KeepHit(BranchIds(all)))
  }

  lemma TopOpensWithPrefix(all: seq<Hit>, epoch: Epoch)
    requires !Recompiles(all, epoch)
    ensures FlagAll(PrefixHits(all, epoch), false) <= TopEntries(all, Ordered(all, Some(epoch)).entries)
  {
    var (compiled, appendix) := (Compiled(all, epoch), Appendix(all, epoch));
    OrderedStands(all, epoch);
    FilterConcat(FlagAll(compiled, false), FlagAll(appendix, true), KeepOutside(BranchIds(all)));
    FilterFlagAll(compiled, false, BranchIds(all));
  }

  /** While the epoch stands, a response opens with the cached prefix of its
      result set, as far as the page reaches, none of it flagged as appendix. */
  lemma ResponseOpensWithPrefix(all: seq<Hit>, epoch: Epoch, maxResults: nat)
    requires !Recompiles(all, epoch)
    ensures var n := Min(maxResults, |PrefixHits(all, epoch)|);
      var page := Page(all, Some(epoch), maxResults);
      && n <= |page|
      && forall i :: 0 <= i < n ==> page[i] == Flagged(PrefixHits(all, epoch)[i], false)
  {
    TopOpensWithPrefix(all, epoch);
  }

  // ----- what a search is, before ordering -----

  // The form of a hit: by weight, or a stub whatever its weight in index mode.
  function HitForm(row: Row, threshold: real, index: bool): Item {
    if index then Stubbed(RowItem(row, threshold)) else RowItem(row, threshold)
  }

  ghost predicate ServiceForm(hits: seq<Hit>, db: Database, threshold: real, index: bool) {
    forall h :: h in hits ==> h.item.id in db && h.item == HitForm(db[h.item.id], threshold, index)
  }

  // Distinct rows of the database, and what the backfill adds to them. The
  // filter need not admit the hits.
  ghost predicate Searched(hits: seq<Hit>, epoch: Epoch, db: Database, visible: Row -> bool, threshold: real, index: bool,
                           added: seq<Hit>)
  {
    && DistinctIds(hits) && ServiceForm(hits, db, threshold, index)
    && IsBackfill(hits, epoch, db, visible, threshold, added)
  }

  lemma ServiceFaithful(hits: seq<Hit>, db: Database, threshold: real, index: bool)
    requires ServiceForm(hits, db, threshold, index)
    ensures Faithful(hits, db)
  {
  }

  function RowForm(row: Row, threshold: real, full: bool): Item {
    if full then RowFull(row) else Stubbed(RowItem(row, threshold))
  }

  // A full or stub form of a row: nothing but the row and the form decides it.
  predicate HasForm(item: Item, db: Database, threshold: real) {
    && item.id in db && item == RowForm(db[item.id], threshold, item.Full?)
    && (item.Full? ==> db[item.id].weight >= threshold)
  }

  // Full exactly when heavy and not stubbed by index mode, which only stubs hits.
  predicate ShownFull(id: Id, hitIds: set<Id>, db: Database, threshold: real, index: bool)
    requires id in db
  {
    db[id].weight >= threshold && !(index && id in hitIds)
  }

  lemma ResultForms(hits: seq<Hit>, epoch: Epoch, db: Database, visible: Row -> bool, threshold: real, index: bool,
                    added: seq<Hit>)
    requires Searched(hits, epoch, db, visible, threshold, index, added)
    ensures forall h :: h in hits + added ==> HasForm(h.item, db, threshold)
    ensures forall h :: h in hits + added ==> h.item.Full? == ShownFull(h.item.id, IdSet(hits), db, threshold, index)
  {
    forall h | h in hits + added
      ensures HasForm(h.item, db, threshold)
      ensures h.item.Full? == ShownFull(h.item.id, IdSet(hits), db, threshold, index)
    {
      if h in hits {
        assert h.item.id in IdSet(hits);
      } else {
        assert h in added && h.item.id in IdSet(added);
      }
    }
  }

  // ----- what an entry shows -----

  datatype Form = Form(id: Id, full: bool)

  datatype Shape = Shape(entry: Form, branches: seq<Form>)

  function BranchForm(kept: bool): Branch -> Form {
    (b: Branch) => Form(b.item.id, kept && b.item.Full?)
  }

  // The ids and forms an entry shows, everything being a stub when it is not kept.
  function OutShape(slot: Slot, kept: bool): Shape {
    Shape(Form(slot.item.id, kept && slot.item.Full?), Map(BranchForm(kept), slot.branches))
  }

  // An entry of the cached section before packing, and after.
  predicate Formed(slot: Slot, db: Database, threshold: real) {
    && HasForm(slot.item, db, threshold) && slot.tag == Section(false)
    && (forall b :: b in slot.branches ==> HasForm(b.item, db, threshold) && b.score == None)
  }

  function Delivered(store: Option<ContentStore>, hydrates: bool, item: Item): Item {
    if store.Some? && hydrates then HydratedItem(store.value, item) else item
  }

  predicate DeliveredForm(item: Item, hydrates: bool, db: Database, threshold: real, store: Option<ContentStore>) {
    item.id in db && item == Delivered(store, hydrates, RowForm(db[item.id], threshold, item.Full?))
  }

  predicate PackedForm(slot: Slot, db: Database, threshold: real, store: Option<ContentStore>) {
    && DeliveredForm(slot.item, slot.item.Full?, db, threshold, store) && slot.tag == Section(false)
    && (forall b :: b in slot.branches ==>
          DeliveredForm(b.item, slot.item.Full?, db, threshold, store) && b.score == None)
  }

  lemma HydratedForm(slot: Slot, db: Database, threshold: real, store: Option<ContentStore>)
    requires Formed(slot, db, threshold)
    ensures PackedForm(Hydrated(store, slot), db, threshold, store)
    ensures OutShape(Hydrated(store, slot), true) == OutShape(slot, true)
  {
    var h := Hydrated(store, slot);
    forall i | 0 <= i < |slot.branches|
      ensures BranchForm(true)(h.branches[i]) == BranchForm(true)(slot.branches[i])
      ensures DeliveredForm(h.branches[i].item, h.item.Full?, db, threshold, store) && h.branches[i].score == None
    {
      assert slot.branches[i] in slot.branches;
    }
    assert Map(BranchForm(true), h.branches) == Map(BranchForm(true), slot.branches);
  }

  lemma StubbedForm(slot: Slot, db: Database, threshold: real, store: Option<ContentStore>)
    requires Formed(slot, db, threshold)
    ensures PackedForm(StubbedSlot(slot), db, threshold, store)
    ensures OutShape(StubbedSlot(slot), true) == OutShape(slot, false)
  {
    var s := StubbedSlot(slot);
    forall i | 0 <= i < |slot.branches|
      ensures BranchForm(true)(s.branches[i]) == BranchForm(false)(slot.branches[i])
      ensures DeliveredForm(s.branches[i].item, false, db, threshold, store) && s.branches[i].score == None
    {
      assert slot.branches[i] in slot.branches;
    }
    assert Map(BranchForm(true), s.branches) == Map(BranchForm(false), slot.branches);
  }

  lemma SameBranches(a: seq<Branch>, b: seq<Branch>)
    requires Map(BranchForm(true), a) == Map(BranchForm(true), b)
    ensures |a| == |b|
    ensures forall i :: 0 <= i < |a| ==> a[i].item.id == b[i].item.id && a[i].item.Full? == b[i].item.Full?
  {
    assert |Map(BranchForm(true), a)| == |Map(BranchForm(true), b)|;
    forall i | 0 <= i < |a| ensures a[i].item.id == b[i].item.id && a[i].item.Full? == b[i].item.Full? {
      assert Map(BranchForm(true), a)[i] == Map(BranchForm(true), b)[i];
    }
  }

  lemma ShapeDecides(a: Slot, b: Slot, db: Database, threshold: real, store: Option<ContentStore>)
    requires PackedForm(a, db, threshold, store) && PackedForm(b, db, threshold, store)
    ensures a == b <==> OutShape(a, true) == OutShape(b, true)
  {
    if OutShape(a, true) == OutShape(b, true) {
      SameBranches(a.branches, b.branches);
      forall i | 0 <= i < |a.branches| ensures a.branches[i] == b.branches[i] {
        assert a.branches[i] in a.branches && b.branches[i] in b.branches;
      }
    }
  }

  // The budget leaves entry i as it is.
  predicate Kept(slots: seq<Slot>, i: nat, maxTokens: nat, fullOnly: bool, store: Option<ContentStore>, chars: Slot -> nat) {
    fullOnly || maxTokens == 0 || i < Cut(slots, store, chars, maxTokens)
  }

  lemma PackedShape(slots: seq<Slot>, i: nat, db: Database, threshold: real, maxTokens: nat, fullOnly: bool,
                    store: Option<ContentStore>, chars: Slot -> nat)
    requires i < |slots| && Formed(slots[i], db, threshold)
    ensures var out := Packed(slots, maxTokens, fullOnly, store, chars)[i];
      && PackedForm(out, db, threshold, store)
      && OutShape(out, true) == OutShape(slots[i], Kept(slots, i, maxTokens, fullOnly, store, chars))
  {
    HydratedForm(slots[i], db, threshold, store);
    StubbedForm(slots[i], db, threshold, store);
  }

  /** At every budget, packed entries that come from database rows are equal if
      and only if they show the same ids in the same order, each one full in both
      or in neither once the cut is taken into account. */
  lemma PackedEqualIff(a: seq<Slot>, b: seq<Slot>, n: nat, db: Database, threshold: real, maxTokens: nat, fullOnly: bool,
                       store: Option<ContentStore>, chars: Slot -> nat)
    requires n <= |a| && n <= |b|
    requires forall i :: 0 <= i < n ==> Formed(a[i], db, threshold) && Formed(b[i], db, threshold)
    ensures Packed(a, maxTokens, fullOnly, store, chars)[..n] == Packed(b, maxTokens, fullOnly, store, chars)[..n]
      <==> forall i :: 0 <= i < n ==>
        OutShape(a[i], Kept(a, i, maxTokens, fullOnly, store, chars)) == OutShape(b[i], Kept(b, i, maxTokens, fullOnly, store, chars))
  {
    var (outA, outB) := (Packed(a, maxTokens, fullOnly, store, chars), Packed(b, maxTokens, fullOnly, store, chars));
    forall i | 0 <= i < n
      ensures outA[i] == outB[i] <==>
        OutShape(a[i], Kept(a, i, maxTokens, fullOnly, store, chars)) == OutShape(b[i], Kept(b, i, maxTokens, fullOnly, store, chars))
    {
      PackedShape(a, i, db, threshold, maxTokens, fullOnly, store, chars);
      PackedShape(b, i, db, threshold, maxTokens, fullOnly, store, chars);
      ShapeDecides(outA[i], outB[i], db, threshold, store);
    }
    PrefixEqualIff(outA, outB, n);
  }

  lemma PrefixEqualIff<T>(a: seq<T>, b: seq<T>, n: nat)
    requires n <= |a| && n <= |b|
    ensures a[..n] == b[..n] <==> forall i :: 0 <= i < n ==> a[i] == b[i]
  {
    if a[..n] == b[..n] {
      forall i | 0 <= i < n ensures a[i] == b[i] {
        assert a[..n][i] == b[..n][i];
      }
    }
  }

  // ----- the cached prefix of one response -----

  // Full in the response: heavy, not a hit of an index-mode search, and before the cut.
  predicate FullIn(id: Id, hitIds: set<Id>, kept: bool, db: Database, threshold: real, index: bool) {
    kept && id in db && ShownFull(id, hitIds, db, threshold, index)
  }

  function IdForm(hitIds: set<Id>, kept: bool, db: Database, threshold: real, index: bool): Id -> Form {
    (id: Id) => Form(id, FullIn(id, hitIds, kept, db, threshold, index))
  }

  function EntryShape(id: Id, nested: seq<Id>, hitIds: set<Id>, kept: bool, db: Database, threshold: real, index: bool): Shape {
    Shape(IdForm(hitIds, kept, db, threshold, index)(id), Map(IdForm(hitIds, kept, db, threshold, index), nested))
  }

  // The branches nested under id, in the order of the results.
  function NestedIds(all: seq<Hit>, id: Id, includeBranches: bool): seq<Id> {
    if includeBranches then Ids(Children(all, id)) else []
  }

  // The first n entries of a page, which is cut from `all`, are the compiled
  // memories `ids`.
  ghost predicate Opening(slots: seq<Slot>, ids: seq<Id>, all: seq<Hit>, hitIds: set<Id>, db: Database, threshold: real,
                          index: bool, includeBranches: bool, n: nat)
  {
    && n <= |slots| && n <= |ids|
    && forall i :: 0 <= i < n ==>
         Formed(slots[i], db, threshold) && IsEntry(slots[i], ids[i], NestedIds(all, ids[i], includeBranches), hitIds, db, threshold, index)
  }

  ghost predicate IsEntry(slot: Slot, id: Id, nested: seq<Id>, hitIds: set<Id>, db: Database, threshold: real, index: bool) {
    forall kept: bool :: OutShape(slot, kept) == EntryShape(id, nested, hitIds, kept, db, threshold, index)
  }

  // Results in their final form.
  ghost predicate FormedResults(all: seq<Hit>, hitIds: set<Id>, db: Database, threshold: real, index: bool) {
    forall h :: h in all ==>
      HasForm(h.item, db, threshold) && h.item.Full? == ShownFull(h.item.id, hitIds, db, threshold, index)
  }

  lemma SlotIsEntry(h: Hit, all: seq<Hit>, branches: seq<Hit>, hitIds: set<Id>, db: Database, threshold: real, index: bool)
    requires FormedResults(all, hitIds, db, threshold, index)
    requires h in all && forall b :: b in branches ==> b in all
    ensures var slot := SlotFor(Flagged(h, false), branches);
      Formed(slot, db, threshold) && IsEntry(slot, h.item.id, Ids(branches), hitIds, db, threshold, index)
  {
    var slot := SlotFor(Flagged(h, false), branches);
    forall i | 0 <= i < |branches|
      ensures HasForm(branches[i].item, db, threshold)
      ensures branches[i].item.Full? == ShownFull(branches[i].item.id, hitIds, db, threshold, index)
    {
      assert branches[i] in branches;
    }
    forall kept: bool ensures OutShape(slot, kept) == EntryShape(h.item.id, Ids(branches), hitIds, kept, db, threshold, index) {
      assert Map(BranchForm(kept), slot.branches) == Map(IdForm(hitIds, kept, db, threshold, index), Ids(branches));
    }
  }

  lemma PrefixSlots(hits: seq<Hit>, epoch: Epoch, db: Database, visible: Row -> bool, threshold: real, index: bool,
                    added: seq<Hit>, includeBranches: bool, maxResults: nat, n: nat)
    requires Searched(hits, epoch, db, visible, threshold, index, added)
    requires ShowsPrefix(hits + added, epoch, maxResults, n)
    ensures Opening(PageSlots(hits + added, Some(epoch), includeBranches, maxResults), PagePrefix(hits + added, epoch),
                    hits + added, IdSet(hits), db, threshold, index, includeBranches, n)
  {
    var all := hits + added;
    var slots := PageSlots(all, Some(epoch), includeBranches, maxResults);
    ResponseOpensWithPrefix(all, epoch, maxResults);
    ResultForms(hits, epoch, db, visible, threshold, index, added);
    PrefixIsResults(all, epoch);
    forall i | 0 <= i < n
      ensures var id := PagePrefix(all, epoch)[i];
        && Formed(slots[i], db, threshold)
        && IsEntry(slots[i], id, NestedIds(all, id, includeBranches), IdSet(hits), db, threshold, index)
    {
      var h := PrefixHits(all, epoch)[i];
      assert h in PrefixHits(all, epoch);
      var branches := if includeBranches then Children(all, h.item.id) else [];
      assert slots[i] == SlotFor(Flagged(h, false), branches);
      assert Ids(branches) == NestedIds(all, h.item.id, includeBranches);
      SlotIsEntry(h, all, branches, IdSet(hits), db, threshold, index);
    }
  }

  lemma PrefixIsResults(all: seq<Hit>, epoch: Epoch)
    ensures forall h :: h in PrefixHits(all, epoch) ==> h in all
  {
    CompiledIds(all, epoch);
  }

  // ----- two responses -----

  // The epoch stands, and the page takes its first n entries from the prefix.
  predicate ShowsPrefix(all: seq<Hit>, epoch: Epoch, maxResults: nat, n: nat) {
    !Recompiles(all, epoch) && n <= Min(maxResults, |PagePrefix(all, epoch)|)
  }

  // Two entries show the same memory and the same branches in the same order,
  // and each of them is full in both responses or in neither.
  ghost predicate EntriesAgree(id1: Id, id2: Id, nested1: seq<Id>, nested2: seq<Id>, hitIds1: set<Id>, hitIds2: set<Id>,
                               kept1: bool, kept2: bool, db: Database, threshold: real, index: bool)
  {
    && id1 == id2 && FullIn(id1, hitIds1, kept1, db, threshold, index) == FullIn(id1, hitIds2, kept2, db, threshold, index)
    && nested1 == nested2
    && (forall b :: b in nested1 ==>
          FullIn(b, hitIds1, kept1, db, threshold, index) == FullIn(b, hitIds2, kept2, db, threshold, index))
  }

  lemma EntryShapesEqualIff(id1: Id, id2: Id, nested1: seq<Id>, nested2: seq<Id>, hitIds1: set<Id>, hitIds2: set<Id>,
                            kept1: bool, kept2: bool, db: Database, threshold: real, index: bool)
    ensures EntryShape(id1, nested1, hitIds1, kept1, db, threshold, index) == EntryShape(id2, nested2, hitIds2, kept2, db, threshold, index)
      <==> EntriesAgree(id1, id2, nested1, nested2, hitIds1, hitIds2, kept1, kept2, db, threshold, index)
  {
    var (f1, f2) := (IdForm(hitIds1, kept1, db, threshold, index), IdForm(hitIds2, kept2, db, threshold, index));
    if Map(f1, nested1) == Map(f2, nested2) {
      assert |nested1| == |Map(f1, nested1)| == |nested2|;
      forall i | 0 <= i < |nested1| ensures nested1[i] == nested2[i] && f1(nested1[i]) == f2(nested2[i]) {
        assert Map(f1, nested1)[i] == Map(f2, nested2)[i];
      }
    }
    if nested1 == nested2 && forall b :: b in nested1 ==> f1(b) == f2(b) {
      assert Map(f1, nested1) == Map(f2, nested2);
    }
  }

  // The first n entries of two pages agree, the cut taken into account.
  ghost predicate PagesAgree(slots1: seq<Slot>, slots2: seq<Slot>, ids1: seq<Id>, ids2: seq<Id>, all1: seq<Hit>, all2: seq<Hit>,
                             hitIds1: set<Id>, hitIds2: set<Id>, db: Database, threshold: real, index: bool,
                             includeBranches: bool, n: nat, maxTokens: nat, fullOnly: bool,
                             store: Option<ContentStore>, chars: Slot -> nat)
  {
    && n <= |ids1| && n <= |ids2|
    && forall i :: 0 <= i < n ==>
         EntriesAgree(ids1[i], ids2[i], NestedIds(all1, ids1[i], includeBranches), NestedIds(all2, ids2[i], includeBranches),
                      hitIds1, hitIds2, Kept(slots1, i, maxTokens, fullOnly, store, chars),
                      Kept(slots2, i, maxTokens, fullOnly, store, chars), db, threshold, index)
  }

  lemma OpeningsEqualIff(slots1: seq<Slot>, slots2: seq<Slot>, ids1: seq<Id>, ids2: seq<Id>, all1: seq<Hit>, all2: seq<Hit>,
                         hitIds1: set<Id>, hitIds2: set<Id>, db: Database, threshold: real, index: bool, includeBranches: bool,
                         n: nat, maxTokens: nat, fullOnly: bool, store: Option<ContentStore>, chars: Slot -> nat)
    requires Opening(slots1, ids1, all1, hitIds1, db, threshold, index, includeBranches, n)
    requires Opening(slots2, ids2, all2, hitIds2, db, threshold, index, includeBranches, n)
    ensures Packed(slots1, maxTokens, fullOnly, store, chars)[..n] == Packed(slots2, maxTokens, fullOnly, store, chars)[..n]
      <==> PagesAgree(slots1, slots2, ids1, ids2, all1, all2, hitIds1, hitIds2, db, threshold, index, includeBranches, n,
                      maxTokens, fullOnly, store, chars)
  {
    PackedEqualIff(slots1, slots2, n, db, threshold, maxTokens, fullOnly, store, chars);
    forall i | 0 <= i < n
      ensures var (k1, k2) := (Kept(slots1, i, maxTokens, fullOnly, store, chars), Kept(slots2, i, maxTokens, fullOnly, store, chars));
        OutShape(slots1[i], k1) == OutShape(slots2[i], k2) <==>
        EntriesAgree(ids1[i], ids2[i], NestedIds(all1, ids1[i], includeBranches), NestedIds(all2, ids2[i], includeBranches),
                     hitIds1, hitIds2, k1, k2, db, threshold, index)
    {
      EntryShapesEqualIff(ids1[i], ids2[i], NestedIds(all1, ids1[i], includeBranches), NestedIds(all2, ids2[i], includeBranches),
                          hitIds1, hitIds2, Kept(slots1, i, maxTokens, fullOnly, store, chars),
                          Kept(slots2, i, maxTokens, fullOnly, store, chars), db, threshold, index);
    }
  }

  /** The cached prefix down to the packed entries. Take two searches with the
      same filter, threshold, mode, token budget and content store, and any
      queries and page sizes, while the epoch stands; and any n entries that both
      pages take from their cached prefix. They are identical if and only if each
      shows the same memory and the same branches in the same order, and each of
      these is full in both responses or in neither: full means heavy, not hit by
      an index-mode search, and before the cut of its response. */
  lemma ResponsesShareEntriesIff(hits1: seq<Hit>, hits2: seq<Hit>, epoch: Epoch, db: Database, visible: Row -> bool,
                                 threshold: real, index: bool, added1: seq<Hit>, added2: seq<Hit>, includeBranches: bool,
                                 max1: nat, max2: nat, n: nat, maxTokens: nat, fullOnly: bool,
                                 store: Option<ContentStore>, chars: Slot -> nat)
    requires Searched(hits1, epoch, db, visible, threshold, index, added1)
    requires Searched(hits2, epoch, db, visible, threshold, index, added2)
    ensures var (all1, all2) := (hits1 + added1, hits2 + added2);
      ShowsPrefix(all1, epoch, max1, n) && ShowsPrefix(all2, epoch, max2, n) ==>
      var out1 := Response(all1, Some(epoch), includeBranches, max1, maxTokens, fullOnly, store, chars);
      var out2 := Response(all2, Some(epoch), includeBranches, max2, maxTokens, fullOnly, store, chars);
      && n <= |out1| && n <= |out2|
      && (out1[..n] == out2[..n] <==>
            PagesAgree(PageSlots(all1, Some(epoch), includeBranches, max1), PageSlots(all2, Some(epoch), includeBranches, max2),
                       PagePrefix(all1, epoch), PagePrefix(all2, epoch), all1, all2, IdSet(hits1), IdSet(hits2),
                       db, threshold, index, includeBranches, n, maxTokens, fullOnly, store, chars))
  {
    var (all1, all2) := (hits1 + added1, hits2 + added2);
    if ShowsPrefix(all1, epoch, max1, n) && ShowsPrefix(all2, epoch, max2, n) {
      PrefixSlots(hits1, epoch, db, visible, threshold, index, added1, includeBranches, max1, n);
      PrefixSlots(hits2, epoch, db, visible, threshold, index, added2, includeBranches, max2, n);
      OpeningsEqualIff(PageSlots(all1, Some(epoch), includeBranches, max1), PageSlots(all2, Some(epoch), includeBranches, max2),
                       PagePrefix(all1, epoch), PagePrefix(all2, epoch), all1, all2, IdSet(hits1), IdSet(hits2),
                       db, threshold, index, includeBranches, n, maxTokens, fullOnly, store, chars);
    }
  }

  lemma SamePacking(slots1: seq<Slot>, slots2: seq<Slot>, n: nat, maxTokens: nat, fullOnly: bool,
                    store: Option<ContentStore>, chars: Slot -> nat)
    requires n <= |slots1| && n <= |slots2| && slots1[..n] == slots2[..n]
    ensures Packed(slots1, maxTokens, fullOnly, store, chars)[..n] == Packed(slots2, maxTokens, fullOnly, store, chars)[..n]
  {
    PackedPrefix(slots1, n, maxTokens, fullOnly, store, chars);
    PackedPrefix(slots2, n, maxTokens, fullOnly, store, chars);
  }

  // The same before packing: every entry counts as kept.
  ghost predicate PrefixesAgree(ids1: seq<Id>, ids2: seq<Id>, all1: seq<Hit>, all2: seq<Hit>, hitIds1: set<Id>, hitIds2: set<Id>,
                                db: Database, threshold: real, index: bool, includeBranches: bool, n: nat)
  {
    && n <= |ids1| && n <= |ids2|
    && forall i :: 0 <= i < n ==>
         EntriesAgree(ids1[i], ids2[i], NestedIds(all1, ids1[i], includeBranches), NestedIds(all2, ids2[i], includeBranches),
                      hitIds1, hitIds2, true, true, db, threshold, index)
  }

  lemma EqualBeforePacking(slots1: seq<Slot>, slots2: seq<Slot>, ids1: seq<Id>, ids2: seq<Id>, all1: seq<Hit>, all2: seq<Hit>,
                           hitIds1: set<Id>, hitIds2: set<Id>, db: Database, threshold: real, index: bool, includeBranches: bool,
                           n: nat)
    requires Opening(slots1, ids1, all1, hitIds1, db, threshold, index, includeBranches, n)
    requires Opening(slots2, ids2, all2, hitIds2, db, threshold, index, includeBranches, n)
    requires PrefixesAgree(ids1, ids2, all1, all2, hitIds1, hitIds2, db, threshold, index, includeBranches, n)
    ensures slots1[..n] == slots2[..n]
  {
    forall i | 0 <= i < n ensures slots1[i] == slots2[i] {
      EntryShapesEqualIff(ids1[i], ids2[i], NestedIds(all1, ids1[i], includeBranches), NestedIds(all2, ids2[i], includeBranches),
                          hitIds1, hitIds2, true, true, db, threshold, index);
      HydratedForm(slots1[i], db, threshold, None);
      HydratedForm(slots2[i], db, threshold, None);
      ShapeDecides(slots1[i], slots2[i], db, threshold, None);
    }
    PrefixEqualIff(slots1, slots2, n);
  }

  lemma AgreeingOpeningsPackAlike(slots1: seq<Slot>, slots2: seq<Slot>, ids1: seq<Id>, ids2: seq<Id>, all1: seq<Hit>, all2: seq<Hit>,
                                  hitIds1: set<Id>, hitIds2: set<Id>, db: Database, threshold: real, index: bool,
                                  includeBranches: bool, n: nat, maxTokens: nat, fullOnly: bool,
                                  store: Option<ContentStore>, chars: Slot -> nat)
    requires Opening(slots1, ids1, all1, hitIds1, db, threshold, index, includeBranches, n)
    requires Opening(slots2, ids2, all2, hitIds2, db, threshold, index, includeBranches, n)
    ensures PrefixesAgree(ids1, ids2, all1, all2, hitIds1, hitIds2, db, threshold, index, includeBranches, n) ==>
      Packed(slots1, maxTokens, fullOnly, store, chars)[..n] == Packed(slots2, maxTokens, fullOnly, store, chars)[..n]
  {
    if PrefixesAgree(ids1, ids2, all1, all2, hitIds1, hitIds2, db, threshold, index, includeBranches, n) {
      EqualBeforePacking(slots1, slots2, ids1, ids2, all1, all2, hitIds1, hitIds2, db, threshold, index, includeBranches, n);
      SamePacking(slots1, slots2, n, maxTokens, fullOnly, store, chars);
    }
  }

  /** So the budget never separates them: entries that agree before packing, in
      whatever the searches returned, are packed alike at every budget. */
  lemma AgreementSurvivesPacking(hits1: seq<Hit>, hits2: seq<Hit>, epoch: Epoch, db: Database, visible: Row -> bool,
                                 threshold: real, index: bool, added1: seq<Hit>, added2: seq<Hit>, includeBranches: bool,
                                 max1: nat, max2: nat, n: nat, maxTokens: nat, fullOnly: bool,
                                 store: Option<ContentStore>, chars: Slot -> nat)
    requires Searched(hits1, epoch, db, visible, threshold, index, added1)
    requires Searched(hits2, epoch, db, visible, threshold, index, added2)
    ensures var (all1, all2) := (hits1 + added1, hits2 + added2);
      ShowsPrefix(all1, epoch, max1, n) && ShowsPrefix(all2, epoch, max2, n) ==>
      var out1 := Response(all1, Some(epoch), includeBranches, max1, maxTokens, fullOnly, store, chars);
      var out2 := Response(all2, Some(epoch), includeBranches, max2, maxTokens, fullOnly, store, chars);
      && n <= |out1| && n <= |out2|
      && (PrefixesAgree(PagePrefix(all1, epoch), PagePrefix(all2, epoch), all1, all2, IdSet(hits1), IdSet(hits2),
                        db, threshold, index, includeBranches, n)
          ==> out1[..n] == out2[..n])
  {
    var (all1, all2) := (hits1 + added1, hits2 + added2);
    if ShowsPrefix(all1, epoch, max1, n) && ShowsPrefix(all2, epoch, max2, n) {
      PrefixSlots(hits1, epoch, db, visible, threshold, index, added1, includeBranches, max1, n);
      PrefixSlots(hits2, epoch, db, visible, threshold, index, added2, includeBranches, max2, n);
      AgreeingOpeningsPackAlike(
        PageSlots(all1, Some(epoch), includeBranches, max1), PageSlots(all2, Some(epoch), includeBranches, max2),
        PagePrefix(all1, epoch), PagePrefix(all2, epoch), all1, all2, IdSet(hits1), IdSet(hits2),
        db, threshold, index, includeBranches, n, maxTokens, fullOnly, store, chars);
    }
  }

  // ----- two ways the prefix follows the query -----

  // With the budget off, first entries that do not agree are different.
  lemma FirstEntryDiffers(hits1: seq<Hit>, hits2: seq<Hit>, epoch: Epoch, db: Database, visible: Row -> bool, threshold: real,
                          index: bool, added1: seq<Hit>, added2: seq<Hit>, includeBranches: bool, chars: Slot -> nat, id: Id)
    requires Searched(hits1, epoch, db, visible, threshold, index, added1) && ShowsPrefix(hits1 + added1, epoch, 10, 1)
    requires Searched(hits2, epoch, db, visible, threshold, index, added2) && ShowsPrefix(hits2 + added2, epoch, 10, 1)
    requires PagePrefix(hits1 + added1, epoch)[0] == PagePrefix(hits2 + added2, epoch)[0] == id
    requires !EntriesAgree(id, id, NestedIds(hits1 + added1, id, includeBranches), NestedIds(hits2 + added2, id, includeBranches),
                           IdSet(hits1), IdSet(hits2), true, true, db, threshold, index)
    ensures var out1 := Response(hits1 + added1, Some(epoch), includeBranches, 10, 0, false, None, chars);
      var out2 := Response(hits2 + added2, Some(epoch), includeBranches, 10, 0, false, None, chars);
      1 <= |out1| && 1 <= |out2| && out1[..1] != out2[..1]
  {
    ResponsesShareEntriesIff(hits1, hits2, epoch, db, visible, threshold, index, added1, added2,
                             includeBranches, 10, 10, 1, 0, false, None, chars);
  }

  lemma HitByOne(id: Id, hitIds1: set<Id>, hitIds2: set<Id>, db: Database, threshold: real)
    requires id in db && db[id].weight >= threshold && id in hitIds1 && id !in hitIds2
    ensures !EntriesAgree(id, id, [], [], hitIds1, hitIds2, true, true, db, threshold, true)
  {
  }

  lemma OtherBranches(id: Id, nested1: seq<Id>, nested2: seq<Id>, hitIds: set<Id>, db: Database, threshold: real)
    requires nested1 != nested2
    ensures !EntriesAgree(id, id, nested1, nested2, hitIds, hitIds, true, true, db, threshold, false)
  {
  }

  // An index-mode search of two compiled memories that hits one of them.
  function IndexHits(db: Database, hit: Id, threshold: real): (r: seq<Hit>)
    requires hit in db
    ensures |r| == 1 && r[0].item.id == hit
  {
    [Hit(HitForm(db[hit], threshold, true), 1.0)]
  }

  lemma IndexSearch(db: Database, epoch: Epoch, hit: Id, other: Id, threshold: real, visible: Row -> bool)
    requires hit in db && other in db && hit != other && visible(db[hit]) && visible(db[other])
    requires epoch.ids == [hit, other] || epoch.ids == [other, hit]
    ensures var hits := IndexHits(db, hit, threshold);
      Searched(hits, epoch, db, visible, threshold, true, [Loaded(db, other, threshold)]) && IdSet(hits) == {hit}
  {
    var h := IndexHits(db, hit, threshold)[0];
    var l := Loaded(db, other, threshold);
    TwoIds(h, l);
    TwoIds(l, h);
    assert IndexHits(db, hit, threshold) == [h];
    assert hit in epoch.ids && other in epoch.ids;
    assert Missing([h], epoch, db, visible) == {other};
  }

  lemma IndexStands(db: Database, epoch: Epoch, hit: Id, other: Id, threshold: real)
    requires hit in db && other in db && hit != other
    requires epoch.ids == [hit, other] || epoch.ids == [other, hit]
    ensures !Recompiles(IndexHits(db, hit, threshold) + [Loaded(db, other, threshold)], epoch)
  {
    var h := IndexHits(db, hit, threshold)[0];
    var l := Loaded(db, other, threshold);
    var all := IndexHits(db, hit, threshold) + [l];
    assert all == [h, l];
    TwoIds(h, l);
    SectionHas(all, epoch, h);
    CompleteDoesNotRecompile(all, epoch);
  }

  lemma IndexPrefix(db: Database, epoch: Epoch, hit: Id, other: Id, threshold: real, visible: Row -> bool)
    requires hit in db && other in db && hit != other && visible(db[hit]) && visible(db[other])
    requires db[hit].parent.None? && db[other].parent.None?
    requires epoch.ids == [hit, other] || epoch.ids == [other, hit]
    ensures PagePrefix(IndexHits(db, hit, threshold) + [Loaded(db, other, threshold)], epoch) == epoch.ids
  {
    var hits := IndexHits(db, hit, threshold);
    IndexSearch(db, epoch, hit, other, threshold, visible);
    ServiceFaithful(hits, db, threshold, true);
    PagePrefixIs(hits, epoch, db, visible, threshold, [Loaded(db, other, threshold)]);
    FilterAll(epoch.ids, OnPage({hit}, epoch, db, visible));
  }

  /** In index mode the same compiled memory is a stub for the query that hit it
      and full for the query that did not. */
  lemma IndexEntriesDiffer(db: Database, epoch: Epoch, heavy: Id, other: Id, threshold: real, visible: Row -> bool,
                           chars: Slot -> nat)
    requires heavy in db && other in db && heavy != other && visible(db[heavy]) && visible(db[other])
    requires db[heavy].weight >= threshold && db[heavy].parent.None? && db[other].parent.None?
    requires epoch.ids == [heavy, other]
    ensures var all1 := IndexHits(db, heavy, threshold) + [Loaded(db, other, threshold)];
      var all2 := IndexHits(db, other, threshold) + [Loaded(db, heavy, threshold)];
      var out1 := Response(all1, Some(epoch), false, 10, 0, false, None, chars);
      var out2 := Response(all2, Some(epoch), false, 10, 0, false, None, chars);
      1 <= |out1| && 1 <= |out2| && out1[..1] != out2[..1]
  {
    IndexSearch(db, epoch, heavy, other, threshold, visible);
    IndexSearch(db, epoch, other, heavy, threshold, visible);
    IndexStands(db, epoch, heavy, other, threshold);
    IndexStands(db, epoch, other, heavy, threshold);
    IndexPrefix(db, epoch, heavy, other, threshold, visible);
    IndexPrefix(db, epoch, other, heavy, threshold, visible);
    HitByOne(heavy, {heavy}, {other}, db, threshold);
    FirstEntryDiffers(IndexHits(db, heavy, threshold), IndexHits(db, other, threshold), epoch, db, visible, threshold,
                      true, [Loaded(db, other, threshold)], [Loaded(db, heavy, threshold)], false, chars, heavy);
  }

  // A search that hits a memory and then two of its branches.
  function FamilyHits(db: Database, p: Id, x: Id, y: Id, threshold: real): (r: seq<Hit>)
    requires p in db && x in db && y in db
    ensures |r| == 3 && r[0].item.id == p && r[1].item.id == x && r[2].item.id == y
  {
    [Loaded(db, p, threshold), Loaded(db, x, threshold), Loaded(db, y, threshold)]
  }

  ghost predicate Family(db: Database, p: Id, x: Id, y: Id) {
    && p in db && x in db && y in db && Distinct([p, x, y])
    && db[p].parent.None? && db[x].parent == db[y].parent == Some(p)
  }

  lemma FamilyIds(db: Database, p: Id, x: Id, y: Id, threshold: real)
    requires Family(db, p, x, y)
    ensures var hits := FamilyHits(db, p, x, y, threshold); IdSet(hits) == {p, x, y} && DistinctIds(hits)
  {
    var hits := FamilyHits(db, p, x, y, threshold);
    assert Ids(hits) == [p, x, y];
    InIdsIff(hits);
  }

  lemma FamilySearch(db: Database, epoch: Epoch, p: Id, x: Id, y: Id, threshold: real, visible: Row -> bool)
    requires Family(db, p, x, y) && forall id :: id in epoch.ids ==> id in {p, x, y}
    ensures var hits := FamilyHits(db, p, x, y, threshold);
      Searched(hits, epoch, db, visible, threshold, false, []) && hits + [] == hits
  {
    FamilyIds(db, p, x, y, threshold);
    NothingMissing(FamilyHits(db, p, x, y, threshold), epoch, db, visible, threshold);
  }

  lemma FamilyStands(db: Database, epoch: Epoch, p: Id, x: Id, y: Id, threshold: real)
    requires Family(db, p, x, y) && p in epoch.ids && x in epoch.ids && y in epoch.ids
    ensures !Recompiles(FamilyHits(db, p, x, y, threshold), epoch)
  {
    var hits := FamilyHits(db, p, x, y, threshold);
    FamilyIds(db, p, x, y, threshold);
    SectionHas(hits, epoch, hits[0]);
    CompleteDoesNotRecompile(hits, epoch);
  }

  lemma FamilyPrefix(db: Database, epoch: Epoch, p: Id, x: Id, y: Id, threshold: real, visible: Row -> bool)
    requires Family(db, p, x, y) && forall id :: id in epoch.ids ==> id in {p, x, y}
    requires epoch.ids != [] && epoch.ids[0] == p
    ensures var prefix := PagePrefix(FamilyHits(db, p, x, y, threshold), epoch);
      |prefix| > 0 && prefix[0] == p
  {
    var hits := FamilyHits(db, p, x, y, threshold);
    FamilyIds(db, p, x, y, threshold);
    FamilySearch(db, epoch, p, x, y, threshold, visible);
    ServiceFaithful(hits, db, threshold, false);
    PagePrefixIs(hits, epoch, db, visible, threshold, []);
    FilterHead(epoch.ids, OnPage({p, x, y}, epoch, db, visible));
  }

  lemma FilterHead(s: seq<Id>, q: Id -> bool)
    requires s != [] && q(s[0])
    ensures |Filter(s, q)| > 0 && Filter(s, q)[0] == s[0]
  {
  }

  lemma FilterTail(x: Hit, rest: seq<Hit>, q: Hit -> bool)
    requires !q(x) && forall h :: h in rest ==> q(h)
    ensures Filter([x] + rest, q) == rest
  {
    FilterCons(x, rest, q);
    FilterAll(rest, q);
  }

  lemma ChildrenOfThree(p: Hit, a: Hit, b: Hit)
    requires a.item.parent == b.item.parent == Some(p.item.id) && p.item.parent != Some(p.item.id)
    ensures Ids(Children([p, a, b], p.item.id)) == [a.item.id, b.item.id]
  {
    assert [p, a, b] == [p] + [a, b];
    FilterTail(p, [a, b], ChildOf(p.item.id));
  }

  lemma FamilyBranches(db: Database, p: Id, x: Id, y: Id, threshold: real)
    requires Family(db, p, x, y)
    ensures NestedIds(FamilyHits(db, p, x, y, threshold), p, true) == [x, y]
  {
    ChildrenOfThree(Loaded(db, p, threshold), Loaded(db, x, threshold), Loaded(db, y, threshold));
  }

  lemma FamilyShows(db: Database, epoch: Epoch, p: Id, x: Id, y: Id, threshold: real, visible: Row -> bool)
    requires Family(db, p, x, y) && epoch.ids != [] && epoch.ids[0] == p && forall id :: id in epoch.ids <==> id in {p, x, y}
    ensures var hits := FamilyHits(db, p, x, y, threshold);
      && Searched(hits, epoch, db, visible, threshold, false, []) && hits + [] == hits && IdSet(hits) == {p, x, y}
      && ShowsPrefix(hits, epoch, 10, 1) && PagePrefix(hits, epoch)[0] == p && NestedIds(hits, p, true) == [x, y]
  {
    FamilyIds(db, p, x, y, threshold);
    FamilySearch(db, epoch, p, x, y, threshold, visible);
    FamilyStands(db, epoch, p, x, y, threshold);
    FamilyPrefix(db, epoch, p, x, y, threshold, visible);
    FamilyBranches(db, p, x, y, threshold);
  }

  /** Branches are nested in the order the search ranked them, so two queries
      that rank two branches differently answer with different cached entries. */
  lemma BranchOrderFollowsQuery(db: Database, epoch: Epoch, p: Id, x: Id, y: Id, threshold: real, visible: Row -> bool,
                                chars: Slot -> nat)
    requires Family(db, p, x, y) && epoch.ids == [p, x, y]
    ensures var (hits1, hits2) := (FamilyHits(db, p, x, y, threshold), FamilyHits(db, p, y, x, threshold));
      var out1 := Response(hits1, Some(epoch), true, 10, 0, false, None, chars);
      var out2 := Response(hits2, Some(epoch), true, 10, 0, false, None, chars);
      && Searched(hits1, epoch, db, visible, threshold, false, []) && Searched(hits2, epoch, db, visible, threshold, false, [])
      && ShowsPrefix(hits1, epoch, 10, 1) && ShowsPrefix(hits2, epoch, 10, 1)
      && 1 <= |out1| && 1 <= |out2| && out1[..1] != out2[..1]
  {
    var (hits1, hits2) := (FamilyHits(db, p, x, y, threshold), FamilyHits(db, p, y, x, threshold));
    assert Family(db, p, y, x);
    FamilyShows(db, epoch, p, x, y, threshold, visible);
    FamilyShows(db, epoch, p, y, x, threshold, visible);
    assert [x, y][0] != [y, x][0];
    OtherBranches(p, [x, y], [y, x], {p, x, y}, db, threshold);
    FirstEntryDiffers(hits1, hits2, epoch, db, visible, threshold, false, [], [], true, chars, p);
  }
}
