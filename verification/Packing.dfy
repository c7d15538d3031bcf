// Token-budget packing: entries are walked in order, hydrated lazily while
// they fit, and degraded to stubs from the first one that does not.

module Packing {
  import opened Memory
  import opened Options

  datatype Tag = Relevance(score: real) | Section(appendix: bool)

  // A nested branch. Only the raw-results mode shows its score.
  datatype Branch = Branch(item: Item, score: Option<real>)

  // One response entry: an item, the branches nested under it, and the extra
  // field the response mode adds.
  datatype Slot = Slot(item: Item, branches: seq<Branch>, tag: Tag)

  // Fetching a content reference may fail.
  type ContentStore = string -> Option<string>

  const CHARS_PER_TOKEN := 4

  // The token estimate of an entry, given the length of its JSON text.
  function Cost(chars: Slot -> nat, slot: Slot): nat {
    var n := chars(slot) / CHARS_PER_TOKEN;
    if n < 1 then 1 else n
  }

  predicate Fetchable(item: Item) {
    item.Full? && item.s3 && item.contentRef.Some? && item.contentRef.value != ""
  }

  function HydratedItem(store: ContentStore, item: Item): Item {
    if Fetchable(item) && store(item.contentRef.value).Some? then
      item.(content := store(item.contentRef.value).value, truncated := false, fullAvailable := false)
    else item
  }

  function HydratedBranches(store: ContentStore, branches: seq<Branch>): (r: seq<Branch>)
    ensures |r| == |branches|
    ensures forall i :: 0 <= i < |r| ==> r[i] == branches[i].(item := HydratedItem(store, branches[i].item))
  {
    seq(|branches|, i requires 0 <= i < |branches| => branches[i].(item := HydratedItem(store, branches[i].item)))
  }

  // content_mode="stub" has no store; a stub item hydrates nothing, not even its branches.
  predicate Hydrates(store: Option<ContentStore>, slot: Slot) {
    store.Some? && slot.item.Full?
  }

  function Hydrated(store: Option<ContentStore>, slot: Slot): Slot {
    if Hydrates(store, slot) then
      Slot(HydratedItem(store.value, slot.item), HydratedBranches(store.value, slot.branches), slot.tag)
    else slot
  }

  function StubbedBranches(branches: seq<Branch>): (r: seq<Branch>)
    ensures |r| == |branches|
    ensures forall i :: 0 <= i < |r| ==> r[i] == branches[i].(item := Stubbed(branches[i].item))
  {
    seq(|branches|, i requires 0 <= i < |branches| => branches[i].(item := Stubbed(branches[i].item)))
  }

  function StubbedSlot(slot: Slot): Slot {
    Slot(Stubbed(slot.item), StubbedBranches(slot.branches), slot.tag)
  }

  // ----- the specification: one cut -----

  // Total cost of the first n entries in hydrated form.
  function Spent(slots: seq<Slot>, store: Option<ContentStore>, chars: Slot -> nat, n: nat): nat
    requires n <= |slots|
  {
    if n == 0 then 0 else Spent(slots, store, chars, n - 1) + Cost(chars, Hydrated(store, slots[n - 1]))
  }

  // Entry i still fits after the entries before it were packed in full: a full
  // item must fit before hydration too, or it is never fetched.
  predicate Fits(slots: seq<Slot>, store: Option<ContentStore>, chars: Slot -> nat, max: nat, i: nat)
    requires i < |slots|
  {
    && (slots[i].item.Full? ==> Spent(slots, store, chars, i) + Cost(chars, slots[i]) <= max)
    && Spent(slots, store, chars, i + 1) <= max
  }

  ghost predicate IsCut(slots: seq<Slot>, store: Option<ContentStore>, chars: Slot -> nat, max: nat, k: nat) {
    && k <= |slots|
    && (forall i :: 0 <= i < k ==> Fits(slots, store, chars, max, i))
    && (k < |slots| ==> !Fits(slots, store, chars, max, k))
  }

  function CutFrom(slots: seq<Slot>, store: Option<ContentStore>, chars: Slot -> nat, max: nat, i: nat): (k: nat)
    requires i <= |slots|
    requires forall j :: 0 <= j < i ==> Fits(slots, store, chars, max, j)
    ensures IsCut(slots, store, chars, max, k)
    decreases |slots| - i
  {
    if i < |slots| && Fits(slots, store, chars, max, i) then CutFrom(slots, store, chars, max, i + 1) else i
  }

  function Cut(slots: seq<Slot>, store: Option<ContentStore>, chars: Slot -> nat, max: nat): (k: nat)
    ensures IsCut(slots, store, chars, max, k)
  {
    CutFrom(slots, store, chars, max, 0)
  }

  lemma CutIsUnique(slots: seq<Slot>, store: Option<ContentStore>, chars: Slot -> nat, max: nat, k: nat)
    requires IsCut(slots, store, chars, max, k)
    ensures k == Cut(slots, store, chars, max)
  {
  }

  // The response entries: hydrated before the cut, stubs from it on. There is
  // no cut when the budget is disabled.
  function Packed(slots: seq<Slot>, max: nat, fullOnly: bool, store: Option<ContentStore>, chars: Slot -> nat): (r: seq<Slot>)
    ensures |r| == |slots|
    ensures forall i :: 0 <= i < |r| ==>
      r[i] == (if fullOnly || max == 0 || i < Cut(slots, store, chars, max) then Hydrated(store, slots[i]) else StubbedSlot(slots[i]))
  {
    var k := if fullOnly || max == 0 then |slots| else Cut(slots, store, chars, max);
    seq(|slots|, i requires 0 <= i < |slots| => if i < k then Hydrated(store, slots[i]) else StubbedSlot(slots[i]))
  }

  // ----- the packing loop -----

  method HydrateFullEntry(store: Option<ContentStore>, slot: Slot) returns (r: Slot, changed: bool)
    ensures r == Hydrated(store, slot)
    ensures DeliversEntry(store, slot, r)
    ensures !changed ==> r == slot
  {
    HydratedDelivers(store, slot);
    if store.None? || slot.item.Stub? {
      return slot, false;
    }
    var item := HydratedItem(store.value, slot.item);
    changed := Fetchable(slot.item) && store.value(slot.item.contentRef.value).Some?;
    var branches: seq<Branch> := [];
    for i := 0 to |slot.branches|
      invariant branches == HydratedBranches(store.value, slot.branches)[..i]
      invariant !changed ==> item == slot.item && branches == slot.branches[..i]
    {
      var b := slot.branches[i];
      if Fetchable(b.item) && store.value(b.item.contentRef.value).Some? {
        changed := true;
      }
      branches := branches + [b.(item := HydratedItem(store.value, b.item))];
    }
    r := Slot(item, branches, slot.tag);
  }

  function Remaining(budget: nat, cost: nat): nat {
    if cost <= budget then budget - cost else 0
  }

  /** Full or stub for one entry. fetched says whether hydration was attempted. */
  method PackEntry(slot: Slot, budget: nat, exhausted: bool, skipBudget: bool,
                   store: Option<ContentStore>, chars: Slot -> nat)
    returns (entry: Slot, budget': nat, exhausted': bool, fetched: bool)
    ensures budget' == Remaining(budget, Cost(chars, entry))
    ensures !skipBudget && exhausted ==>
      entry == StubbedSlot(slot) && exhausted' && !fetched
    ensures skipBudget ==> entry == Hydrated(store, slot) && exhausted' == exhausted
    ensures skipBudget ==> fetched == Hydrates(store, slot)
    ensures !skipBudget && !exhausted ==>
      var full := Hydrated(store, slot);
      var enters := slot.item.Full? ==> Cost(chars, slot) <= budget;
      && fetched == (enters && Hydrates(store, slot))
      && exhausted' == !(enters && Cost(chars, full) <= budget)
      && entry == (if exhausted' then StubbedSlot(slot) else full)
  {
    fetched := false;
    if !skipBudget && exhausted {
      entry := StubbedSlot(slot);
      return entry, Remaining(budget, Cost(chars, entry)), exhausted, false;
    }
    var cost := Cost(chars, slot);
    if !(skipBudget || slot.item.Stub? || cost <= budget) {
      entry := StubbedSlot(slot);
      return entry, Remaining(budget, Cost(chars, entry)), true, false;
    }
    fetched := store.Some? && slot.item.Full?;
    var full, changed := HydrateFullEntry(store, slot);
    if changed {
      cost := Cost(chars, full);
    }
    if skipBudget || cost <= budget {
      return full, Remaining(budget, cost), exhausted, fetched;
    }
    // the stub is built from the hydrated item; the stub projection drops content
    StubOfHydrated(store, slot);
    entry := StubbedSlot(full);
    return entry, Remaining(budget, Cost(chars, entry)), true, fetched;
  }

  lemma StubOfHydrated(store: Option<ContentStore>, slot: Slot)
    ensures StubbedSlot(Hydrated(store, slot)) == StubbedSlot(slot)
  {
    assert StubbedBranches(Hydrated(store, slot).branches) == StubbedBranches(slot.branches);
  }

  // What hydration makes of one item: the fetched text for a full item that is
  // stored under a key, nothing else changed; the item itself otherwise.
  ghost predicate Delivers(store: ContentStore, before: Item, after: Item) {
    if before.Full? && before.s3 && before.contentRef.Some? && before.contentRef.value != "" then
      match store(before.contentRef.value)
      case Some(text) =>
        && after.Full? && after.content == text && !after.truncated && !after.fullAvailable
        && after.id == before.id && after.parent == before.parent && after.weight == before.weight
        && after.created == before.created && after.stub == before.stub && after.domains == before.domains
        && after.source == before.source && after.trust == before.trust && after.meta == before.meta
        && after.s3 == before.s3 && after.contentRef == before.contentRef
      case None => after == before
    else after == before
  }

  // What it makes of an entry: a full one is delivered with its branches, a stub
  // is left as it is, branches included, and so is everything without a store.
  ghost predicate DeliversEntry(store: Option<ContentStore>, before: Slot, after: Slot) {
    if store.None? || before.item.Stub? then after == before
    else
      && Delivers(store.value, before.item, after.item) && after.tag == before.tag
      && |after.branches| == |before.branches|
      && forall i :: 0 <= i < |before.branches| ==>
           Delivers(store.value, before.branches[i].item, after.branches[i].item)
           && after.branches[i].score == before.branches[i].score
  }

  lemma HydratedDelivers(store: Option<ContentStore>, slot: Slot)
    ensures DeliversEntry(store, slot, Hydrated(store, slot))
  {
  }

  /** The text of an entry the budget keeps is the stored one. */
  lemma KeptEntriesAreDelivered(slots: seq<Slot>, maxTokens: nat, fullOnly: bool, store: Option<ContentStore>,
                                chars: Slot -> nat, i: nat)
    requires i < |slots| && (fullOnly || maxTokens == 0 || i < Cut(slots, store, chars, maxTokens))
    ensures DeliversEntry(store, slots[i], Packed(slots, maxTokens, fullOnly, store, chars)[i])
  {
    HydratedDelivers(store, slots[i]);
  }

  // The boundary entry is fetched in vain only when its truncated form still fit.
  predicate FetchedAtCut(slots: seq<Slot>, store: Option<ContentStore>, chars: Slot -> nat, max: nat, k: nat)
    requires k < |slots|
  {
    Hydrates(store, slots[k]) && Spent(slots, store, chars, k) + Cost(chars, slots[k]) <= max
  }

  // Total cost of the stubs from the cut k up to the n-th entry.
  function StubSpent(slots: seq<Slot>, chars: Slot -> nat, k: nat, n: nat): nat
    requires n <= |slots|
  {
    if n <= k then 0 else StubSpent(slots, chars, k, n - 1) + Cost(chars, StubbedSlot(slots[n - 1]))
  }

  // The budget after n entries, k of them before the cut.
  ghost predicate Accounts(slots: seq<Slot>, store: Option<ContentStore>, chars: Slot -> nat, max: nat,
                           k: nat, n: nat, budget: nat)
    requires k <= n <= |slots|
  {
    && (forall i :: 0 <= i < k ==> Fits(slots, store, chars, max, i))
    && (k < n ==> !Fits(slots, store, chars, max, k))
    && Spent(slots, store, chars, k) <= max
    && budget == Remaining(max, Spent(slots, store, chars, k) + StubSpent(slots, chars, k, n))
  }

  lemma AccountsStep(slots: seq<Slot>, store: Option<ContentStore>, chars: Slot -> nat, max: nat,
                     k: nat, n: nat, budget: nat, k': nat, budget': nat)
    requires k <= n < |slots| && Accounts(slots, store, chars, max, k, n, budget)
    requires k < n ==> k' == k && budget' == Remaining(budget, Cost(chars, StubbedSlot(slots[n])))
    requires k == n ==>
      if (slots[n].item.Full? ==> Cost(chars, slots[n]) <= budget) && Cost(chars, Hydrated(store, slots[n])) <= budget
      then k' == n + 1 && budget' == Remaining(budget, Cost(chars, Hydrated(store, slots[n])))
      else k' == k && budget' == Remaining(budget, Cost(chars, StubbedSlot(slots[n])))
    ensures k' <= n + 1 && Accounts(slots, store, chars, max, k', n + 1, budget')
  {
  }

  // n entries emitted: k hydrated ones, then stubs.
  ghost predicate Emitted(slots: seq<Slot>, store: Option<ContentStore>, k: nat, n: nat, out: seq<Slot>)
    requires k <= n <= |slots|
  {
    |out| == n
    && forall i :: 0 <= i < n ==> out[i] == (if i < k then Hydrated(store, slots[i]) else StubbedSlot(slots[i]))
  }

  lemma EmittedStep(slots: seq<Slot>, store: Option<ContentStore>, k: nat, n: nat, out: seq<Slot>, k': nat, entry: Slot)
    requires k <= n < |slots| && Emitted(slots, store, k, n, out)
    requires (k' == k && entry == StubbedSlot(slots[n])) || (k == n && k' == n + 1 && entry == Hydrated(store, slots[n]))
    ensures Emitted(slots, store, k', n + 1, out + [entry])
  {
  }

  // Where a fetch was attempted: before the cut, never after it, and at the cut
  // only if the truncated form fitted.
  ghost predicate Fetches(slots: seq<Slot>, store: Option<ContentStore>, chars: Slot -> nat, max: nat, budgeted: bool,
                          k: nat, n: nat, fetched: seq<bool>)
    requires k <= n <= |slots|
  {
    && |fetched| == n
    && (forall i :: 0 <= i < k ==> fetched[i] == Hydrates(store, slots[i]))
    && (forall i :: k < i < n ==> !fetched[i])
    && (budgeted && k < n ==> fetched[k] == FetchedAtCut(slots, store, chars, max, k))
  }

  lemma FetchesStep(slots: seq<Slot>, store: Option<ContentStore>, chars: Slot -> nat, max: nat, budgeted: bool,
                    k: nat, n: nat, fetched: seq<bool>, k': nat, f: bool)
    requires k <= n < |slots| && Fetches(slots, store, chars, max, budgeted, k, n, fetched)
    requires k' == k || (k == n && k' == n + 1)
    requires k < n ==> !f
    requires k' == n + 1 ==> f == Hydrates(store, slots[n])
    requires budgeted && k == n && k' == k ==> f == FetchedAtCut(slots, store, chars, max, n)
    ensures Fetches(slots, store, chars, max, budgeted, k', n + 1, fetched + [f])
  {
  }

  /** The whole loop: every entry is emitted, hydrated before the cut and
      stubbed from it on; with the budget disabled there is no cut. The budget
      pays for the hydrated entries in full, and for the stubs as far as it goes. */
  method PackResponse(slots: seq<Slot>, maxTokens: nat, fullOnly: bool,
                      store: Option<ContentStore>, chars: Slot -> nat)
    returns (out: seq<Slot>, budget: nat, fetched: seq<bool>)
    ensures out == Packed(slots, maxTokens, fullOnly, store, chars)
    ensures forall i :: 0 <= i < Edge(slots, maxTokens, fullOnly || maxTokens == 0, store, chars) ==>
      DeliversEntry(store, slots[i], out[i])
    ensures fullOnly || maxTokens == 0 ==> Fetches(slots, store, chars, maxTokens, false, |slots|, |slots|, fetched)
    ensures !fullOnly && maxTokens > 0 ==>
      var k := Cut(slots, store, chars, maxTokens);
      && Fetches(slots, store, chars, maxTokens, true, k, |slots|, fetched)
      && Spent(slots, store, chars, k) <= maxTokens
      && budget == Remaining(maxTokens, Spent(slots, store, chars, k) + StubSpent(slots, chars, k, |slots|))
  {
    out, budget, fetched := PackEntries(slots, maxTokens, fullOnly || maxTokens == 0, store, chars);
    forall i | 0 <= i < Edge(slots, maxTokens, fullOnly || maxTokens == 0, store, chars)
      ensures DeliversEntry(store, slots[i], out[i])
    {
      KeptEntriesAreDelivered(slots, maxTokens, fullOnly, store, chars, i);
    }
  }

  // How many entries stay as they are.
  function Edge(slots: seq<Slot>, maxTokens: nat, skipBudget: bool, store: Option<ContentStore>, chars: Slot -> nat): (k: nat)
    ensures k <= |slots|
  {
    if skipBudget then |slots| else Cut(slots, store, chars, maxTokens)
  }

  method PackEntries(slots: seq<Slot>, maxTokens: nat, skipBudget: bool, store: Option<ContentStore>, chars: Slot -> nat)
    returns (out: seq<Slot>, budget: nat, fetched: seq<bool>)
    ensures var k := Edge(slots, maxTokens, skipBudget, store, chars);
      && Emitted(slots, store, k, |slots|, out)
      && Fetches(slots, store, chars, maxTokens, !skipBudget, k, |slots|, fetched)
      && (!skipBudget ==> Accounts(slots, store, chars, maxTokens, k, |slots|, budget))
  {
    budget := maxTokens;
    var exhausted := false;
    out, fetched := [], [];
    ghost var k := 0;
    for n := 0 to |slots|
      invariant k <= n && (exhausted <==> k < n) && (skipBudget ==> !exhausted)
      invariant Emitted(slots, store, k, n, out)
      invariant Fetches(slots, store, chars, maxTokens, !skipBudget, k, n, fetched)
      invariant !skipBudget ==> Accounts(slots, store, chars, maxTokens, k, n, budget)
    {
      ghost var (before, kept) := (budget, k);
      var entry, f;
      entry, budget, exhausted, f := PackEntry(slots[n], budget, exhausted, skipBudget, store, chars);
      if !exhausted {
        k := n + 1;
      }
      if !skipBudget {
        AccountsStep(slots, store, chars, maxTokens, kept, n, before, k, budget);
      }
      EmittedStep(slots, store, kept, n, out, k, entry);
      FetchesStep(slots, store, chars, maxTokens, !skipBudget, kept, n, fetched, k, f);
      out, fetched := out + [entry], fetched + [f];
    }
    if !skipBudget {
      CutIsUnique(slots, store, chars, maxTokens, k);
    }
  }

  // ----- consequences -----

  function TotalChars(out: seq<Slot>, chars: Slot -> nat): nat {
    if out == [] then 0 else chars(out[0]) + TotalChars(out[1..], chars)
  }

  lemma TotalCharsSnoc(out: seq<Slot>, last: Slot, chars: Slot -> nat)
    ensures TotalChars(out + [last], chars) == TotalChars(out, chars) + chars(last)
  {
    if out == [] {
      assert out + [last] == [last] && [last][1..] == [];
    } else {
      assert (out + [last])[1..] == out[1..] + [last];
      TotalCharsSnoc(out[1..], last, chars);
    }
  }

  function HydratedPrefix(slots: seq<Slot>, store: Option<ContentStore>, n: nat): (r: seq<Slot>)
    requires n <= |slots|
    ensures |r| == n && forall i :: 0 <= i < n ==> r[i] == Hydrated(store, slots[i])
  {
    seq(n, i requires 0 <= i < n => Hydrated(store, slots[i]))
  }

  lemma {:induction false} CharsWithinSeven(slots: seq<Slot>, store: Option<ContentStore>, chars: Slot -> nat, n: nat)
    requires n <= |slots|
    ensures TotalChars(HydratedPrefix(slots, store, n), chars) <= 7 * Spent(slots, store, chars, n)
  {
    if n > 0 {
      CharsWithinSeven(slots, store, chars, n - 1);
      var last := Hydrated(store, slots[n - 1]);
      assert HydratedPrefix(slots, store, n) == HydratedPrefix(slots, store, n - 1) + [last];
      TotalCharsSnoc(HydratedPrefix(slots, store, n - 1), last, chars);
      assert chars(last) <= 7 * Cost(chars, last);
    }
  }

  /** The undegraded entries respect a hard bound: their estimated costs sum to
      at most the cap, and their JSON text to at most seven characters a token. */
  lemma UndegradedWithinBudget(slots: seq<Slot>, store: Option<ContentStore>, chars: Slot -> nat, max: nat)
    ensures var k := Cut(slots, store, chars, max);
      && Spent(slots, store, chars, k) <= max
      && TotalChars(HydratedPrefix(slots, store, k), chars) <= 7 * max
  {
    var k := Cut(slots, store, chars, max);
    CharsWithinSeven(slots, store, chars, k);
    if k > 0 {
      assert Fits(slots, store, chars, max, k - 1);
    }
  }

  /** A larger cap never degrades an entry a smaller cap kept. */
  lemma LargerCapCutsLater(slots: seq<Slot>, store: Option<ContentStore>, chars: Slot -> nat, small: nat, large: nat)
    requires small <= large
    ensures Cut(slots, store, chars, small) <= Cut(slots, store, chars, large)
  {
    var k := Cut(slots, store, chars, small);
    forall i | 0 <= i < k ensures Fits(slots, store, chars, large, i) {
      assert Fits(slots, store, chars, small, i);
    }
  }

  /** The estimate: a quarter of the characters, rounded down, and at least one. */
  lemma CostIs(chars: Slot -> nat, slot: Slot)
    ensures chars(slot) < 4 * (Cost(chars, slot) + 1)
    ensures chars(slot) >= 4 ==> 4 * Cost(chars, slot) <= chars(slot)
    ensures chars(slot) < 4 ==> Cost(chars, slot) == 1
  {
  }

  /** Without a content store the cut is the largest number of entries that fit
      the cap together. */
  lemma CutIsLargestFit(slots: seq<Slot>, chars: Slot -> nat, max: nat, n: nat)
    requires n <= |slots|
    ensures Spent(slots, None, chars, n) <= max <==> n <= Cut(slots, None, chars, max)
  {
    var k := Cut(slots, None, chars, max);
    if n <= k {
      if n > 0 {
        assert Fits(slots, None, chars, max, n - 1);
      }
    } else {
      SpentMonotone(slots, None, chars, k + 1, n);
      assert !Fits(slots, None, chars, max, k);
    }
  }

  lemma {:induction false} SpentMonotone(slots: seq<Slot>, store: Option<ContentStore>, chars: Slot -> nat, m: nat, n: nat)
    requires m <= n <= |slots|
    ensures Spent(slots, store, chars, m) <= Spent(slots, store, chars, n)
  {
    if m < n {
      SpentMonotone(slots, store, chars, m, n - 1);
    }
  }

  lemma {:induction false} SpentOfPrefix(slots: seq<Slot>, store: Option<ContentStore>, chars: Slot -> nat, n: nat, i: nat)
    requires i <= n <= |slots|
    ensures Spent(slots[..n], store, chars, i) == Spent(slots, store, chars, i)
  {
    if i > 0 {
      SpentOfPrefix(slots, store, chars, n, i - 1);
    }
  }

  /** Packing never looks ahead: how the first n entries are packed does not
      depend on the entries after them. */
  lemma PackedPrefix(slots: seq<Slot>, n: nat, max: nat, fullOnly: bool, store: Option<ContentStore>, chars: Slot -> nat)
    requires n <= |slots|
    ensures Packed(slots[..n], max, fullOnly, store, chars) == Packed(slots, max, fullOnly, store, chars)[..n]
  {
    var k := Cut(slots, store, chars, max);
    forall i | 0 <= i < n ensures Fits(slots[..n], store, chars, max, i) == Fits(slots, store, chars, max, i) {
      SpentOfPrefix(slots, store, chars, n, i);
      SpentOfPrefix(slots, store, chars, n, i + 1);
    }
    CutIsUnique(slots[..n], store, chars, max, if k < n then k else n);
  }

  // What a reader of one entry sees of its provenance warning.
  predicate ShowsTaint(slot: Slot) {
    Tainted(slot.item)
  }

  /** From the cut on every entry and every nested branch is a stub with the
      identity and score of the original, and an entry that carried a taint
      warning shows it exactly when it was a stub to begin with. */
  lemma DegradedForm(slot: Slot)
    ensures var s := StubbedSlot(slot);
      && s.item.Stub? && (forall b :: b in s.branches ==> b.item.Stub?)
      && s.item.id == slot.item.id && s.tag == slot.tag && |s.branches| == |slot.branches|
      && (forall i :: 0 <= i < |s.branches| ==>
            s.branches[i].item.id == slot.branches[i].item.id && s.branches[i].score == slot.branches[i].score)
      && (ShowsTaint(slot) ==> (ShowsTaint(s) <==> slot.item.Stub?))
  {
    StubKeepsTaintIff(slot.item);
  }
}
