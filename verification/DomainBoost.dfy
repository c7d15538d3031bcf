// Domain boost: results sharing domain tags with the query score higher and
// the list is re-sorted by the boosted score.

module DomainBoost {
  import opened Memory
  import opened Sorting

  const BOOST_PER_MATCH := 0.15
  const BOOST_CAP := 0.30

  function Lowered(tags: seq<string>, lower: string -> string): set<string> {
    set d | d in tags :: lower(d)
  }

  function Overlap(item: Item, query: set<string>, lower: string -> string): nat {
    |Lowered(item.domains, lower) * query|
  }

  function Boost(item: Item, query: set<string>, lower: string -> string): real {
    var b := Overlap(item, query, lower) as real * BOOST_PER_MATCH;
    if b < BOOST_CAP then b else BOOST_CAP
  }

  function Scaled(score: real, boost: real): real {
    score * (1.0 + boost)
  }

  function BoostedScore(score: real, boost: real): real {
    if boost > 0.0 then
      if 1.0 < Scaled(score, boost) then 1.0 else Scaled(score, boost)
    else score
  }

  // A boosted hit remembers the hit it came from.
  datatype Boosted = Boosted(origin: Hit, boost: real, score: real)

  function BoostHit(h: Hit, query: set<string>, lower: string -> string): Boosted {
    var b := Boost(h.item, query, lower);
    Boosted(h, b, BoostedScore(h.score, b))
  }

  function BoostAll(hits: seq<Hit>, query: set<string>, lower: string -> string): (r: seq<Boosted>)
    ensures |r| == |hits|
    ensures forall i :: 0 <= i < |r| ==> r[i] == BoostHit(hits[i], query, lower)
  {
    seq(|hits|, i requires 0 <= i < |hits| => BoostHit(hits[i], query, lower))
  }

  // sort(reverse=True): higher scores first, ties in input order
  predicate HigherFirst(a: Boosted, b: Boosted) {
    a.score >= b.score
  }

  function BoostedOrder(hits: seq<Hit>, query: set<string>, lower: string -> string): seq<Boosted> {
    SortBy(BoostAll(hits, query, lower), HigherFirst)
  }

  method ApplyDomainBoost(hits: seq<Hit>, queryDomains: seq<string>, lower: string -> string)
    returns (r: seq<Boosted>)
    ensures r == BoostedOrder(hits, Lowered(queryDomains, lower), lower)
  {
    var query := set d | d in queryDomains :: lower(d);
    var boosted: seq<Boosted> := [];
    for i := 0 to |hits|
      invariant |boosted| == i
      invariant forall k :: 0 <= k < i ==> boosted[k] == BoostHit(hits[k], query, lower)
    {
      var b := BoostOne(hits[i], query, lower);
      boosted := boosted + [b];
    }
    assert boosted == BoostAll(hits, query, lower);
    r := SortBy(boosted, HigherFirst);
  }

  // The loop body: the boost and the cap.
  method BoostOne(h: Hit, query: set<string>, lower: string -> string) returns (b: Boosted)
    ensures b == BoostHit(h, query, lower)
  {
    var score := h.score;
    var overlap := Overlap(h.item, query, lower);
    var boost := 0.0;
    if overlap > 0 {
      assert overlap as real >= 1.0;
      boost := overlap as real * BOOST_PER_MATCH;
      if BOOST_CAP < boost {
        boost := BOOST_CAP;
      }
      score := Scaled(score, boost);
      if 1.0 < score {
        score := 1.0;
      }
    }
    b := Boosted(h, boost, score);
  }

  lemma HigherFirstOrder()
    ensures TotalPreorder(HigherFirst)
  {
  }

  /** A boost never lowers a score, never exceeds 1 or 1.3 times the score, and
      leaves unmatched results alone. */
  lemma BoostBounds(h: Hit, query: set<string>, lower: string -> string)
    requires 0.0 <= h.score <= 1.0
    ensures var b := BoostHit(h, query, lower);
      && h.score <= b.score <= 1.0 && b.score <= 1.3 * h.score
      && (Lowered(h.item.domains, lower) !! query ==> b.score == h.score)
  {
    var b := Boost(h.item, query, lower);
    ScaleBounds(h.score, b);
    if Lowered(h.item.domains, lower) !! query {
      assert Lowered(h.item.domains, lower) * query == {};
    }
  }

  lemma Product(x: real, y: real)
    requires x >= 0.0 && y >= 0.0
    ensures x * y >= 0.0
  {
  }

  lemma ScaleBounds(score: real, boost: real)
    requires 0.0 <= score && 0.0 <= boost <= 0.3
    ensures score <= Scaled(score, boost) <= 1.3 * score
  {
    assert score * (1.0 + boost) == score + score * boost;
    Product(score, boost);
    Product(score, 0.3 - boost);
    assert score * (0.3 - boost) == score * 0.3 - score * boost;
  }

  lemma ScaleMonotone(a: real, b: real, boost: real)
    requires a >= b && boost >= 0.0
    ensures Scaled(a, boost) >= Scaled(b, boost)
  {
    Product(a - b, boost);
    calc {
      Scaled(a, boost) - Scaled(b, boost);
      a * (1.0 + boost) - b * (1.0 + boost);
      (a - b) * (1.0 + boost);
      (a - b) + (a - b) * boost;
    }
  }

  lemma BoostMonotone(a: real, b: real, boost: real)
    requires a >= b && boost >= 0.0
    ensures BoostedScore(a, boost) >= BoostedScore(b, boost)
  {
    ScaleMonotone(a, b, boost);
  }

  function SameBoost(boost: real): Boosted -> bool {
    (b: Boosted) => b.boost == boost
  }

  /** Nothing is filtered, and the result is ordered by boosted score. */
  lemma BoostKeepsEverything(hits: seq<Hit>, query: set<string>, lower: string -> string)
    ensures multiset(BoostedOrder(hits, query, lower)) == multiset(BoostAll(hits, query, lower))
    ensures var r := BoostedOrder(hits, query, lower); forall i, j :: 0 <= i < j < |r| ==> r[i].score >= r[j].score
  {
    HigherFirstOrder();
    SortBySorted(BoostAll(hits, query, lower), HigherFirst);
  }

  /** From a descending list, results with the same boost keep their order, even
      when the cap at 1.0 ties their scores. */
  lemma SameBoostKeepsOrder(hits: seq<Hit>, query: set<string>, lower: string -> string, boost: real)
    requires forall i, j :: 0 <= i < j < |hits| ==> hits[i].score >= hits[j].score
    ensures Filter(BoostedOrder(hits, query, lower), SameBoost(boost))
         == Filter(BoostAll(hits, query, lower), SameBoost(boost))
  {
    var all := BoostAll(hits, query, lower);
    HigherFirstOrder();
    FilterSort(all, HigherFirst, SameBoost(boost));
    assert Descending(all);
    SameBoostSorted(all, boost);
    SortFixed(Filter(all, SameBoost(boost)), HigherFirst);
  }

  ghost predicate Descending(all: seq<Boosted>) {
    && (forall i, j :: 0 <= i < j < |all| ==> all[i].origin.score >= all[j].origin.score)
    && (forall b :: b in all ==> b.boost >= 0.0 && b.score == BoostedScore(b.origin.score, b.boost))
  }

  lemma {:induction false} SameBoostSorted(all: seq<Boosted>, boost: real)
    requires Descending(all)
    ensures Sorted(Filter(all, SameBoost(boost)), HigherFirst)
  {
    if all != [] {
      assert forall b :: b in all[1..] ==> b in all;
      SameBoostSorted(all[1..], boost);
      var rest := Filter(all[1..], SameBoost(boost));
      forall k | 0 <= k < |rest| && all[0].boost == boost ensures HigherFirst(all[0], rest[k]) {
        assert rest[k] in all[1..];
        var m :| 0 <= m < |all[1..]| && all[1..][m] == rest[k];
        BoostMonotone(all[0].origin.score, all[m + 1].origin.score, boost);
      }
    }
  }

  /** A result with one matching tag gains 15 percent, with two or more 30, capped
      at 1; tags are compared in lower case and count once. */
  lemma BoostByMatches(h: Hit, queryDomains: seq<string>, lower: string -> string)
    ensures var matches := |set d, q | d in h.item.domains && q in queryDomains && lower(d) == lower(q) :: lower(d)|;
      var b := BoostHit(h, Lowered(queryDomains, lower), lower);
      && b.origin == h
      && (matches == 0 ==> b.score == h.score)
      && (matches == 1 ==> b.score == if 1.0 < h.score * 1.15 then 1.0 else h.score * 1.15)
      && (matches >= 2 ==> b.score == if 1.0 < h.score * 1.3 then 1.0 else h.score * 1.3)
  {
    var query := Lowered(queryDomains, lower);
    var matching := set d, q | d in h.item.domains && q in queryDomains && lower(d) == lower(q) :: lower(d);
    assert matching == Lowered(h.item.domains, lower) * query;
    BoostSteps(|matching|);
  }

  lemma BoostSteps(matches: nat)
    ensures matches == 0 ==> matches as real * 0.15 == 0.0
    ensures matches == 1 ==> matches as real * 0.15 == 0.15
    ensures matches >= 2 ==> matches as real * 0.15 >= 0.30
  {
    assert matches >= 2 ==> matches as real >= 2.0;
  }
}
