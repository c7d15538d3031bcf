// Memories as the search tool sees them: a database row, its full form and
// its stub form, and the scored hits that flow through one search.

module Memory {

  import opened Options
  import opened Sorting

  // A UUID. Ids are compared as canonical strings, which is the order of the
  // 128-bit integers they spell.
  type Id = nat

  // Fields every form carries unchanged.
  datatype Meta = Meta(
    scope: string,
    branchType: Option<string>,
    hasChildren: bool,
    hasRationale: bool,
    contentType: Option<string>)

  // One row of memory_nodes. Instants count from the earliest datetime.
  datatype Row = Row(
    id: Id,
    parent: Option<Id>,
    weight: real,
    created: nat,
    stub: string,
    content: string,
    domains: seq<string>,
    source: string,
    trust: string,
    meta: Meta,
    s3: bool,
    contentRef: Option<string>)

  datatype Item =
    | Full(
        id: Id, parent: Option<Id>, weight: real, created: Option<nat>, stub: string,
        domains: seq<string>, source: string, trust: string, meta: Meta,
        truncated: bool, fullAvailable: bool,
        content: string, s3: bool, contentRef: Option<string>)
    | Stub(
        id: Id, parent: Option<Id>, weight: real, created: Option<nat>, stub: string,
        domains: seq<string>, source: string, trust: string, meta: Meta,
        truncated: bool, fullAvailable: bool)

  datatype Hit = Hit(item: Item, score: real)

  const TRUSTED := "trusted"

  /** The stub projection. It names every carried field except the upstream
      trust level and the two honesty flags, which fall back to the schema
      defaults. */
  function ToStub(item: Item): Item {
    Stub(item.id, item.parent, item.weight, item.created, item.stub,
         item.domains, item.source, TRUSTED, item.meta, true, true)
  }

  function Stubbed(item: Item): Item {
    if item.Full? then ToStub(item) else item
  }

  predicate Tainted(item: Item) {
    item.trust == "untrusted" || item.trust == "mixed"
  }

  // node_to_read
  function RowFull(row: Row): Item {
    Full(row.id, row.parent, row.weight, Some(row.created), row.stub,
         row.domains, row.source, row.trust, row.meta,
         row.s3, row.s3 && row.contentRef.Some?, row.content, row.s3, row.contentRef)
  }

  // The service layer's stub of a row: it keeps the trust level and drops the
  // domain tags.
  function RowStub(row: Row): Item {
    Stub(row.id, row.parent, row.weight, Some(row.created), row.stub,
         [], row.source, row.trust, row.meta, true, true)
  }

  function IdOf(h: Hit): Id {
    h.item.id
  }

  function Ids(hits: seq<Hit>): (r: seq<Id>)
    ensures |r| == |hits|
    ensures forall i :: 0 <= i < |r| ==> r[i] == hits[i].item.id
  {
    Map(IdOf, hits)
  }

  function IdSet(hits: seq<Hit>): set<Id> {
    set h | h in hits :: h.item.id
  }

  ghost predicate Distinct<T(!new)>(s: seq<T>) {
    forall i, j :: 0 <= i < j < |s| ==> s[i] != s[j]
  }

  ghost predicate DistinctIds(hits: seq<Hit>) {
    Distinct(Ids(hits))
  }

  lemma DistinctIdsDistinct(hits: seq<Hit>)
    requires DistinctIds(hits)
    ensures Distinct(hits)
  {
    forall i, j | 0 <= i < j < |hits| ensures hits[i] != hits[j] {
      assert Ids(hits)[i] != Ids(hits)[j];
    }
  }

  lemma SameIdSameHit(hits: seq<Hit>, a: Hit, b: Hit)
    requires DistinctIds(hits) && a in hits && b in hits && a.item.id == b.item.id
    ensures a == b
  {
    var i :| 0 <= i < |hits| && hits[i] == a;
    var j :| 0 <= j < |hits| && hits[j] == b;
    assert Ids(hits)[i] == Ids(hits)[j];
  }

  /** Trimming an entry to its stub keeps the taint warning exactly when the
      item was a stub already or carried no taint: a full item whose upstream is
      untrusted or mixed becomes a stub that says it is trusted. */
  lemma StubKeepsTaintIff(item: Item)
    ensures Tainted(item) <==> item.trust in {"untrusted", "mixed"}
    ensures Stubbed(item).Stub? && Stubbed(item).trust == (if item.Full? then "trusted" else item.trust)
    ensures item.Full? ==> Stubbed(item).truncated && Stubbed(item).fullAvailable && Stubbed(item).stub == item.stub
    ensures item.Stub? ==> Stubbed(item) == item
    ensures Tainted(Stubbed(item)) == Tainted(item) <==> (item.Stub? || !Tainted(item))
    ensures Stubbed(item).id == item.id && Stubbed(item).parent == item.parent
    ensures Stubbed(item).weight == item.weight && Stubbed(item).created == item.created
    ensures Stubbed(item).source == item.source && Stubbed(item).domains == item.domains
    ensures Stubbed(item).meta == item.meta
  {
  }

  lemma DistinctCardinality<T(!new)>(s: seq<T>, elems: set<T>)
    requires Distinct(s) && forall x :: x in elems <==> x in s
    ensures |elems| == |s|
  {
    if s == [] {
      assert elems == {};
    } else {
      var (rest, last) := (s[..|s| - 1], s[|s| - 1]);
      assert s == rest + [last];
      DistinctCardinality(rest, elems - {last});
    }
  }

  lemma DistinctMultiset<T(!new)>(s: seq<T>, x: T)
    requires Distinct(s)
    ensures multiset(s)[x] == if x in s then 1 else 0
  {
    if s != [] {
      var rest := s[..|s| - 1];
      DistinctMultiset(rest, x);
      assert s == rest + [s[|s| - 1]];
    }
  }

  lemma MultisetDistinct<T(!new)>(s: seq<T>)
    requires forall x :: x in multiset(s) ==> multiset(s)[x] == 1
    ensures Distinct(s)
  {
    forall i, j | 0 <= i < j < |s| ensures s[i] != s[j] {
      var before := s[..j];
      assert s == before + [s[j]] + s[j + 1..];
      assert s[j] in multiset(s);
      assert multiset(before)[s[j]] == 0;
      assert s[j] !in before;
      assert before[i] == s[i];
    }
  }

  // Two duplicate-free sequences over the same elements are permutations of each other.
  lemma SameElementsSameMultiset<T(!new)>(a: seq<T>, b: seq<T>)
    requires Distinct(a) && Distinct(b)
    requires forall x :: x in a <==> x in b
    ensures multiset(a) == multiset(b)
  {
    forall x ensures multiset(a)[x] == multiset(b)[x] {
      DistinctMultiset(a, x);
      DistinctMultiset(b, x);
    }
  }
}
