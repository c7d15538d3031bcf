// Chunks are found in place of the long memories they were cut from. Before a
// search answers, each chunk is replaced by its parent, which is loaded by id
// alone: no scope, status or type filter is applied to it.

module ChunkExpansion {
  import opened Memory
  import opened Options
  import opened Sorting
  import opened SearchOrdering

  datatype Scored = Scored(row: Row, score: real)

  const CHUNK := "chunk"

  predicate IsChunk(row: Row) {
    row.meta.branchType == Some(CHUNK) && row.parent.Some?
  }

  // The memory a scored row stands for. A chunk whose parent is gone stands for none.
  function Target(s: Scored, db: Database): Option<Row> {
    if !IsChunk(s.row) then Some(s.row)
    else if s.row.parent.value in db then Some(db[s.row.parent.value])
    else None
  }

  // Dictionary update: a better score replaces an entry where it stands.
  function Put(best: seq<Scored>, row: Row, score: real): seq<Scored> {
    if best == [] then [Scored(row, score)]
    else if best[0].row.id == row.id then [if score > best[0].score then Scored(row, score) else best[0]] + best[1..]
    else [best[0]] + Put(best[1..], row, score)
  }

  function Best(scored: seq<Scored>, db: Database): seq<Scored> {
    if scored == [] then []
    else
      var (rest, last) := (scored[..|scored| - 1], scored[|scored| - 1]);
      var t := Target(last, db);
      if t.None? then Best(rest, db) else Put(Best(rest, db), t.value, last.score)
  }

  predicate HigherScore(a: Scored, b: Scored) {
    a.score >= b.score
  }

  method ExpandChunks(scored: seq<Scored>, db: Database) returns (r: seq<Scored>)
    ensures (forall s :: s in scored ==> !IsChunk(s.row)) ==> r == scored
    ensures (exists s :: s in scored && IsChunk(s.row)) ==>
      && r == SortBy(Best(scored, db), HigherScore)
      && forall i, j :: 0 <= i < j < |r| ==> r[i].score >= r[j].score
  {
    if forall s :: s in scored ==> !IsChunk(s.row) {
      return scored;
    }
    var best: seq<Scored> := [];
    for i := 0 to |scored|
      invariant best == Best(scored[..i], db)
    {
      assert scored[..i + 1][..i] == scored[..i];
      var t := Target(scored[i], db);
      if t.Some? {
        best := Put(best, t.value, scored[i].score);
      }
    }
    assert scored[..|scored|] == scored;
    ExpandedDescends(scored, db);
    r := SortBy(best, HigherScore);
  }

  // Rows as the query returns them.
  ghost predicate FromDatabase(scored: seq<Scored>, db: Database) {
    forall s :: s in scored ==> s.row.id in db && s.row == db[s.row.id]
  }

  ghost predicate StandsFor(s: Scored, db: Database, id: Id) {
    Target(s, db).Some? && Target(s, db).value.id == id
  }

  // The entry for id holds the best score of the rows that stand for it.
  ghost predicate IsBest(p: Scored, scored: seq<Scored>, db: Database) {
    && p.row.id in db && p.row == db[p.row.id]
    && (exists s :: s in scored && StandsFor(s, db, p.row.id) && s.score == p.score)
    && (forall s :: s in scored && StandsFor(s, db, p.row.id) ==> s.score <= p.score)
  }

  ghost predicate DistinctRows(best: seq<Scored>) {
    forall i, j :: 0 <= i < j < |best| ==> best[i].row.id != best[j].row.id
  }

  ghost predicate Lists(best: seq<Scored>, id: Id) {
    exists p :: p in best && p.row.id == id
  }

  lemma {:induction false} PutEffect(best: seq<Scored>, row: Row, score: real)
    requires DistinctRows(best)
    ensures var r := Put(best, row, score);
      && DistinctRows(r)
      && (forall id :: Lists(r, id) <==> Lists(best, id) || id == row.id)
      && (forall p :: p in r && p.row.id != row.id ==> p in best)
      && (forall p :: p in r && p.row.id == row.id ==>
            (p == Scored(row, score) && forall q :: q in best && q.row.id == row.id ==> q.score < score)
            || (p in best && score <= p.score))
  {
    if best != [] {
      var (first, rest) := (best[0], best[1..]);
      assert best == [first] + rest;
      if first.row.id == row.id {
        PutHere(best, row, score);
      } else {
        PutEffect(rest, row, score);
        PutThere(first, rest, Put(rest, row, score), row.id);
      }
    } else {
      var one := Scored(row, score);
      assert one in [one];
    }
  }

  lemma PutHere(best: seq<Scored>, row: Row, score: real)
    requires DistinctRows(best) && best != [] && best[0].row.id == row.id
    ensures var r := Put(best, row, score);
      && DistinctRows(r)
      && (forall id :: Lists(r, id) <==> Lists(best, id) || id == row.id)
      && (forall p :: p in r && p.row.id != row.id ==> p in best)
      && (forall p :: p in best && p.row.id == row.id ==> p == best[0])
      && (forall p :: p in r && p.row.id == row.id ==> p == r[0])
  {
    var r := Put(best, row, score);
    assert |r| == |best| && r[1..] == best[1..];
    forall k | 0 <= k < |r| ensures r[k].row.id == best[k].row.id && (k > 0 ==> r[k] == best[k]) {
      assert k > 0 ==> r[k] == r[1..][k - 1] && best[k] == best[1..][k - 1];
    }
    SameIdsSameLists(r, best);
    SameIdsSameLists(best, r);
    assert best[0] in best && Lists(best, row.id);
  }

  lemma SameIdsSameLists(a: seq<Scored>, b: seq<Scored>)
    requires |a| == |b| && forall k :: 0 <= k < |a| ==> a[k].row.id == b[k].row.id
    ensures forall id :: Lists(a, id) ==> Lists(b, id)
  {
    forall id | Lists(a, id) ensures Lists(b, id) {
      var p :| p in a && p.row.id == id;
      var k :| 0 <= k < |a| && a[k] == p;
      assert b[k] in b && b[k].row.id == id;
    }
  }

  lemma PutThere(first: Scored, rest: seq<Scored>, tail: seq<Scored>, id: Id)
    requires first.row.id != id && DistinctRows([first] + rest) && DistinctRows(tail)
    requires forall x :: Lists(tail, x) <==> Lists(rest, x) || x == id
    ensures DistinctRows([first] + tail)
    ensures forall x :: Lists([first] + tail, x) <==> Lists([first] + rest, x) || x == id
  {
    var (r, best) := ([first] + tail, [first] + rest);
    forall k | 0 <= k < |rest| ensures rest[k].row.id != first.row.id {
      assert best[k + 1] == rest[k] && best[0] == first;
    }
    assert !Lists(rest, first.row.id);
    forall k | 0 <= k < |tail| ensures tail[k].row.id != first.row.id {
      assert tail[k] in tail;
    }
    forall x ensures Lists(r, x) <==> x == first.row.id || Lists(tail, x) {
      ListsCons(first, tail, x);
    }
    forall x ensures Lists(best, x) <==> x == first.row.id || Lists(rest, x) {
      ListsCons(first, rest, x);
    }
  }

  lemma ListsCons(first: Scored, rest: seq<Scored>, id: Id)
    ensures Lists([first] + rest, id) <==> id == first.row.id || Lists(rest, id)
  {
    var s := [first] + rest;
    assert first in s;
    if Lists(rest, id) {
      var p :| p in rest && p.row.id == id;
      assert p in s;
    }
  }

  /** Expansion keeps one entry for every memory some row stands for, with the
      best of their scores, and nothing else. */
  lemma {:induction false} BestIsBest(scored: seq<Scored>, db: Database)
    requires FromDatabase(scored, db)
    ensures DistinctRows(Best(scored, db))
    ensures forall p :: p in Best(scored, db) ==> IsBest(p, scored, db)
    ensures forall s :: s in scored && Target(s, db).Some? ==> Lists(Best(scored, db), Target(s, db).value.id)
  {
    if scored != [] {
      var (rest, last) := (scored[..|scored| - 1], scored[|scored| - 1]);
      assert scored == rest + [last];
      BestIsBest(rest, db);
      var best := Best(rest, db);
      var t := Target(last, db);
      if t.Some? {
        PutEffect(best, t.value, last.score);
        forall p | p in Best(scored, db) ensures IsBest(p, scored, db) {
          PutIsBest(rest, last, db, best, p);
        }
      } else {
        forall p | p in best ensures IsBest(p, scored, db) {
          BestGrows(rest, last, db, p);
        }
      }
    }
  }

  lemma BestGrows(rest: seq<Scored>, last: Scored, db: Database, p: Scored)
    requires IsBest(p, rest, db) && (StandsFor(last, db, p.row.id) ==> last.score <= p.score)
    ensures IsBest(p, rest + [last], db)
  {
    var s :| s in rest && StandsFor(s, db, p.row.id) && s.score == p.score;
    assert s in rest + [last];
  }

  lemma PutIsBest(rest: seq<Scored>, last: Scored, db: Database, best: seq<Scored>, p: Scored)
    requires FromDatabase(rest + [last], db) && DistinctRows(best)
    requires forall q :: q in best ==> IsBest(q, rest, db)
    requires forall s :: s in rest && Target(s, db).Some? ==> Lists(best, Target(s, db).value.id)
    requires Target(last, db).Some? && p in Put(best, Target(last, db).value, last.score)
    ensures IsBest(p, rest + [last], db)
  {
    var row := Target(last, db).value;
    PutEffect(best, row, last.score);
    assert last in rest + [last];
    if p in best && (p.row.id != row.id || last.score <= p.score) {
      BestGrows(rest, last, db, p);
    } else {
      assert p == Scored(row, last.score);
      forall s | s in rest + [last] && StandsFor(s, db, row.id) ensures s.score <= p.score {
        if s in rest {
          var q :| q in best && q.row.id == row.id;
          assert IsBest(q, rest, db);
        }
      }
    }
  }

  /** Expansion can leave the filter. When every row found passes it, every
      memory returned passes it exactly when the parent of each chunk found does. */
  lemma ExpansionStaysInsideIff(scored: seq<Scored>, db: Database, visible: Row -> bool)
    requires FromDatabase(scored, db) && forall s :: s in scored ==> visible(s.row)
    ensures (forall p :: p in Best(scored, db) ==> visible(p.row))
      <==> (forall s :: s in scored && IsChunk(s.row) && s.row.parent.value in db ==> visible(db[s.row.parent.value]))
  {
    BestIsBest(scored, db);
    forall s | s in scored && IsChunk(s.row) && s.row.parent.value in db
      ensures Lists(Best(scored, db), s.row.parent.value)
    {
      assert Target(s, db) == Some(db[s.row.parent.value]);
    }
    forall p | p in Best(scored, db)
      ensures p.row.id in db && p.row == db[p.row.id] && (visible(p.row) || ParentOfChunk(scored, db, p.row.id))
    {
      BestIsFoundOrParent(scored, db, visible, p);
    }
  }

  ghost predicate ParentOfChunk(scored: seq<Scored>, db: Database, id: Id) {
    exists s :: s in scored && IsChunk(s.row) && s.row.parent.value in db && s.row.parent.value == id
  }

  lemma BestIsFoundOrParent(scored: seq<Scored>, db: Database, visible: Row -> bool, p: Scored)
    requires FromDatabase(scored, db) && forall s :: s in scored ==> visible(s.row)
    requires IsBest(p, scored, db)
    ensures visible(p.row) || ParentOfChunk(scored, db, p.row.id)
  {
    var s :| s in scored && StandsFor(s, db, p.row.id);
  }

  /** One active chunk of a memory the filter hides brings that memory back. */
  lemma HiddenParentReturns(db: Database, chunk: Id, score: real, visible: Row -> bool)
    requires chunk in db && db[chunk].meta.branchType == Some("chunk") && visible(db[chunk])
    requires db[chunk].parent.Some? && db[chunk].parent.value in db && !visible(db[db[chunk].parent.value])
    ensures Best([Scored(db[chunk], score)], db) == [Scored(db[db[chunk].parent.value], score)]
  {
    assert [Scored(db[chunk], score)][..0] == [];
  }

  /** Only chunks are replaced, by the row of their parent; a chunk of a deleted
      memory is dropped. */
  lemma OnlyChunksReplaced(s: Scored, db: Database)
    ensures s.row.meta.branchType != Some("chunk") || s.row.parent.None? ==> Target(s, db) == Some(s.row)
    ensures s.row.meta.branchType == Some("chunk") && s.row.parent.Some? ==>
      Target(s, db) == if s.row.parent.value in db then Some(db[s.row.parent.value]) else None
  {
  }

  /** The expanded list is in descending order of score. */
  lemma ExpandedDescends(scored: seq<Scored>, db: Database)
    ensures var r := SortBy(Best(scored, db), HigherScore);
      && multiset(r) == multiset(Best(scored, db))
      && (forall i, j :: 0 <= i < j < |r| ==> r[i].score >= r[j].score)
  {
    assert TotalPreorder(HigherScore);
    SortBySorted(Best(scored, db), HigherScore);
  }
}
