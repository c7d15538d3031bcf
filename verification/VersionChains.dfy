// Backfill of logical_id over version chains: current rows, then everything a
// recursive query reaches from them, then the rows nothing reached.

module VersionChains {
  import opened Options

  type Id = nat

  datatype Node = Node(prev: Option<Id>, current: bool)

  type Rows = map<Id, Node>

  // previous_version_id, when that row still exists
  function Prev(rows: Rows, id: Id): Option<Id>
    requires id in rows
  {
    if rows[id].prev.Some? && rows[id].prev.value in rows then rows[id].prev else None
  }

  // The k-th ancestor version of h.
  function At(rows: Rows, h: Id, k: nat): (r: Option<Id>)
    requires h in rows
    ensures r.Some? ==> r.value in rows
  {
    if k == 0 then Some(h)
    else
      var below := At(rows, h, k - 1);
      if below.Some? then Prev(rows, below.value) else None
  }

  function Currents(rows: Rows): set<Id> {
    set id | id in rows && rows[id].current
  }

  // Chains from current rows end; longer than the table means never.
  ghost predicate Ends(rows: Rows) {
    forall h :: h in Currents(rows) ==> At(rows, h, |rows|).None?
  }

  // The rows the recursion emits at one level, as (row, head) pairs.
  ghost function Level(rows: Rows, k: nat): set<(Id, Id)> {
    set h | h in Currents(rows) && At(rows, h, k).Some? :: (At(rows, h, k).value, h)
  }

  // Current rows whose chain passes through id.
  ghost function Heads(rows: Rows, id: Id): set<Id> {
    set h | h in Currents(rows) && exists k :: 0 <= k <= |rows| && At(rows, h, k) == Some(id)
  }

  // ----- chains end within the size of the table, or never -----

  lemma {:induction false} AtShift(rows: Rows, h: Id, a: nat, b: nat, t: nat)
    requires h in rows && At(rows, h, a) == At(rows, h, b)
    ensures At(rows, h, a + t) == At(rows, h, b + t)
  {
    if t > 0 {
      AtShift(rows, h, a, b, t - 1);
    }
  }

  lemma {:induction false} AtPrefix(rows: Rows, h: Id, a: nat, b: nat)
    requires h in rows && a <= b && At(rows, h, b).Some?
    ensures At(rows, h, a).Some?
  {
    if a < b {
      AtPrefix(rows, h, a, b - 1);
    }
  }

  ghost function Visited(rows: Rows, h: Id, n: nat): set<Id>
    requires h in rows && (n > 0 ==> At(rows, h, n - 1).Some?)
  {
    if n == 0 then {}
    else
      AtPrefix(rows, h, if n == 1 then 0 else n - 2, n - 1);
      Visited(rows, h, n - 1) + {At(rows, h, n - 1).value}
  }

  lemma {:induction false} VisitedMembers(rows: Rows, h: Id, n: nat)
    requires h in rows && (n > 0 ==> At(rows, h, n - 1).Some?)
    ensures Visited(rows, h, n) <= rows.Keys
    ensures forall id :: id in Visited(rows, h, n) ==> AncestorWithin(rows, h, n, id)
  {
    if n > 0 {
      AtPrefix(rows, h, if n == 1 then 0 else n - 2, n - 1);
      VisitedMembers(rows, h, n - 1);
      forall x | x in Visited(rows, h, n) ensures AncestorWithin(rows, h, n, x) {
        if x == At(rows, h, n - 1).value {
          assert At(rows, h, n - 1) == Some(x);
        }
      }
    }
  }

  ghost predicate AncestorWithin(rows: Rows, h: Id, n: nat, id: Id)
    requires h in rows
  {
    exists k: nat :: k < n && At(rows, h, k) == Some(id)
  }

  // Either the first n ancestors are all different, or two of them coincide.
  lemma {:induction false} VisitedSize(rows: Rows, h: Id, n: nat) returns (i: nat, j: nat)
    requires h in rows && (n > 0 ==> At(rows, h, n - 1).Some?)
    ensures |Visited(rows, h, n)| == n || (i < j < n && At(rows, h, i) == At(rows, h, j))
  {
    i, j := 0, 0;
    if n > 0 {
      AtPrefix(rows, h, if n == 1 then 0 else n - 2, n - 1);
      i, j := VisitedSize(rows, h, n - 1);
      var id := At(rows, h, n - 1).value;
      if |Visited(rows, h, n - 1)| == n - 1 && id in Visited(rows, h, n - 1) {
        VisitedMembers(rows, h, n - 1);
        assert AncestorWithin(rows, h, n - 1, id);
        i :| i < n - 1 && At(rows, h, i) == Some(id);
        j := n - 1;
      }
    }
  }

  lemma {:induction false} CycleNeverEnds(rows: Rows, h: Id, i: nat, j: nat, k: nat)
    requires h in rows && i < j && At(rows, h, j).Some? && At(rows, h, i) == At(rows, h, j)
    ensures At(rows, h, k).Some?
    decreases k
  {
    if k <= j {
      AtPrefix(rows, h, k, j);
    } else {
      AtShift(rows, h, i, j, k - j);
      CycleNeverEnds(rows, h, i, j, i + (k - j));
    }
  }

  ghost predicate ChainEnds(rows: Rows, h: Id)
    requires h in rows
  {
    exists k: nat :: At(rows, h, k).None?
  }

  /** A chain that ends at all ends within as many steps as the table has rows:
      the recursion stops exactly when no current row leads into a cycle. */
  lemma EndsIff(rows: Rows)
    ensures Ends(rows) <==> forall h :: h in Currents(rows) ==> ChainEnds(rows, h)
  {
    forall h | h in Currents(rows) ensures At(rows, h, |rows|).None? <==> ChainEnds(rows, h) {
      if ChainEnds(rows, h) && At(rows, h, |rows|).Some? {
        var k: nat :| At(rows, h, k).None?;
        LongChainNeverEnds(rows, h, k);
      }
    }
  }

  lemma LongChainNeverEnds(rows: Rows, h: Id, k: nat)
    requires h in rows && At(rows, h, |rows|).Some?
    ensures At(rows, h, k).Some?
  {
    var i, j := LongChainRepeats(rows, h);
    AtPrefix(rows, h, j, |rows|);
    CycleNeverEnds(rows, h, i, j, k);
  }

  lemma AtEnded(rows: Rows, h: Id, a: nat, b: nat)
    requires h in rows && a <= b && At(rows, h, a).None?
    ensures At(rows, h, b).None?
  {
    if a < b {
      AtEnded(rows, h, a, b - 1);
    }
  }

  lemma SubsetSize(a: set<Id>, b: set<Id>)
    requires a <= b
    ensures |a| <= |b|
  {
    assert b == a + (b - a);
  }

  // ----- heads, on the stored field -----

  // y is the version stored right after x.
  predicate Supersedes(rows: Rows, y: Id, x: Id) {
    x in rows && y in rows && rows[y].prev == Some(x)
  }

  lemma SupersededIsAncestor(rows: Rows, h: Id, k: nat, y: Id, x: Id)
    requires h in rows && At(rows, h, k) == Some(y) && Supersedes(rows, y, x)
    ensures At(rows, h, k + 1) == Some(x)
  {
  }

  lemma CycleBack(rows: Rows, h: Id, i: nat, j: nat, n: nat)
    requires h in rows && i < j <= n && At(rows, h, i) == At(rows, h, j)
    ensures At(rows, h, n - (j - i)) == At(rows, h, n)
  {
    AtShift(rows, h, i, j, n - j);
  }

  lemma LongChainRepeats(rows: Rows, h: Id) returns (i: nat, j: nat)
    requires h in rows && At(rows, h, |rows|).Some?
    ensures i < j <= |rows| && At(rows, h, i) == At(rows, h, j)
  {
    i, j := VisitedSize(rows, h, |rows| + 1);
    VisitedMembers(rows, h, |rows| + 1);
    SubsetSize(Visited(rows, h, |rows| + 1), rows.Keys);
  }

  // An ancestor one step beyond the bound is also within it, on a cycle.
  lemma WithinTable(rows: Rows, h: Id, id: Id)
    requires h in rows && At(rows, h, |rows| + 1) == Some(id)
    ensures exists k :: 0 <= k <= |rows| && At(rows, h, k) == Some(id)
  {
    AtPrefix(rows, h, |rows|, |rows| + 1);
    var i, j := LongChainRepeats(rows, h);
    CycleBack(rows, h, i, j, |rows| + 1);
  }

  lemma HeadOfSuccessor(rows: Rows, x: Id, y: Id, h: Id)
    requires Supersedes(rows, y, x) && h in Heads(rows, y)
    ensures h in Heads(rows, x)
  {
    var k :| 0 <= k <= |rows| && At(rows, h, k) == Some(y);
    SupersededIsAncestor(rows, h, k, y, x);
    if k == |rows| {
      WithinTable(rows, h, x);
    }
  }

  /** The heads of a row are itself, when it is current, and the heads of every
      version stored as its successor; no others. */
  lemma HeadsAre(rows: Rows, x: Id, h: Id)
    requires x in rows
    ensures h in Heads(rows, x)
      <==> (h == x && rows[x].current) || exists y :: Supersedes(rows, y, x) && h in Heads(rows, y)
  {
    if h in Heads(rows, x) {
      var k :| 0 <= k <= |rows| && At(rows, h, k) == Some(x);
      if k > 0 {
        var y := At(rows, h, k - 1).value;
        assert Supersedes(rows, y, x) && h in Heads(rows, y);
      }
    }
    if h == x && rows[x].current {
      OwnHead(rows, x);
    }
    if y :| Supersedes(rows, y, x) && h in Heads(rows, y) {
      HeadOfSuccessor(rows, x, y, h);
    }
  }

  // No row is the stored predecessor of two, and none that is one is current.
  ghost predicate Unforked(rows: Rows) {
    && (forall x, y, z :: Supersedes(rows, y, x) && Supersedes(rows, z, x) ==> y == z)
    && (forall x, y :: Supersedes(rows, y, x) ==> !rows[x].current)
  }

  lemma UnforkedIsWellFormed(rows: Rows)
    requires Unforked(rows)
    ensures WellFormed(rows)
  {
    forall x, y | x in rows && y in rows && Prev(rows, x).Some? && Prev(rows, x) == Prev(rows, y) ensures x == y {
      var p := Prev(rows, x).value;
      assert Supersedes(rows, x, p) && Supersedes(rows, y, p);
    }
    forall x | x in rows && Prev(rows, x).Some? ensures !rows[Prev(rows, x).value].current {
      assert Supersedes(rows, x, Prev(rows, x).value);
    }
  }

  // Every version has the logical id of the one stored after it, on a live chain.
  ghost predicate FollowsSuccessors(rows: Rows, logical: map<Id, Id>)
    requires logical.Keys == rows.Keys
  {
    forall x, y :: Supersedes(rows, y, x) ==>
      (Heads(rows, y) != {} ==> logical[x] == logical[y]) && (rows[y].current ==> logical[x] == logical[y] == y)
  }

  lemma SuccessorsFollowed(rows: Rows, logical: map<Id, Id>)
    requires IsBackfill(rows, logical)
    ensures Unforked(rows) ==> FollowsSuccessors(rows, logical)
  {
    if Unforked(rows) {
      forall x, y | Supersedes(rows, y, x)
        ensures (Heads(rows, y) != {} ==> logical[x] == logical[y]) && (rows[y].current ==> logical[x] == logical[y] == y)
      {
        SuccessorSharesLogicalId(rows, logical, x, y);
      }
    }
  }

  /** A version shares its logical id with the version stored after it, if that
      one belongs to a live chain; when that one is current, it is the logical id. */
  lemma SuccessorSharesLogicalId(rows: Rows, logical: map<Id, Id>, x: Id, y: Id)
    requires Unforked(rows) && IsBackfill(rows, logical) && Supersedes(rows, y, x)
    ensures Heads(rows, y) != {} ==> logical[x] == logical[y]
    ensures rows[y].current ==> logical[x] == logical[y] == y
  {
    UnforkedIsWellFormed(rows);
    if rows[y].current {
      OwnHead(rows, y);
      HeadIsUnique(rows, y, y, logical[y]);
    }
    if Heads(rows, y) != {} {
      HeadOfSuccessor(rows, x, y, logical[y]);
      HeadIsUnique(rows, x, logical[x], logical[y]);
    }
  }

  // ----- the migration -----

  // What the backfill may leave behind: where several heads reach a row, UPDATE
  // ... FROM takes an unspecified one of them.
  ghost predicate IsBackfill(rows: Rows, logical: map<Id, Id>) {
    && logical.Keys == rows.Keys
    && forall id {:trigger Heads(rows, id)} :: id in rows ==>
         if Heads(rows, id) == {} then logical[id] == id else logical[id] in Heads(rows, id)
  }

  type Column = map<Id, Option<Id>>

  // UPDATE ... SET logical_id = id WHERE logical_id IS NULL
  function FillNulls(column: Column): Column {
    map id | id in column :: if column[id].None? then Some(id) else column[id]
  }

  function Values(column: Column): map<Id, Id> {
    map id | id in column && column[id].Some? :: column[id].value
  }

  lemma FilledIsBackfill(rows: Rows, column: Column)
    requires column.Keys == rows.Keys
    requires forall id :: id in rows ==>
      if Heads(rows, id) == {} then column[id].None? else column[id].Some? && column[id].value in Heads(rows, id)
    ensures FillNulls(column).Keys == rows.Keys == Values(FillNulls(column)).Keys
    ensures IsBackfill(rows, Values(FillNulls(column)))
  {
  }

  ghost predicate Reached(chain: set<(Id, Id)>, id: Id) {
    exists h :: (id, h) in chain
  }

  lemma ReachedIff(rows: Rows, chain: set<(Id, Id)>, id: Id)
    requires forall id, h :: (id, h) in chain <==> id in rows && h in Heads(rows, id)
    requires id in rows
    ensures Reached(chain, id) <==> Heads(rows, id) != {}
  {
    if Heads(rows, id) != {} {
      var h :| h in Heads(rows, id);
      assert (id, h) in chain;
    }
  }

  // The pairs of a row and a current row whose chain passes through it.
  ghost predicate PairsHeads(rows: Rows, chain: set<(Id, Id)>) {
    forall id, h :: (id, h) in chain <==> id in rows && h in Heads(rows, id)
  }

  // Each reached row takes the head of one matching pair, other rows keep theirs.
  ghost predicate TakesFromChain(chain: set<(Id, Id)>, before: Column, after: Column) {
    && after.Keys == before.Keys
    && forall id :: id in after ==>
         if Reached(chain, id) then after[id].Some? && (id, after[id].value) in chain else after[id] == before[id]
  }

  class MemoryNodes {
    const rows: Rows
    var logicalId: Column

    constructor (rows: Rows)
      ensures this.rows == rows
    {
      this.rows := rows;
      logicalId := map id | id in rows :: None;
    }

    // The recursive query: level after level until a level is empty.
    method Chain() returns (chain: set<(Id, Id)>)
      requires Ends(rows)
      ensures PairsHeads(rows, chain)
      ensures forall h :: h in rows && rows[h].current ==> (h, h) in chain
      ensures forall x: Id, y: Id, h: Id :: Supersedes(rows, y, x) && (y, h) in chain ==> (x, h) in chain
    {
      var working := set h | h in Currents(rows) :: (h, h);
      chain := {};
      ghost var k := 0;
      assert working == Level(rows, 0);
      while working != {}
        invariant working == Level(rows, k) && k <= |rows|
        invariant forall p :: p in chain <==> exists j :: 0 <= j < k && p in Level(rows, j)
        decreases |rows| - k
      {
        chain := chain + working;
        working := set p | p in working && Prev(rows, p.0).Some? :: (Prev(rows, p.0).value, p.1);
        NextLevel(rows, k);
        k := k + 1;
      }
      LevelsAreHeads(rows, k, chain);
      forall h | h in rows && rows[h].current ensures (h, h) in chain {
        OwnHead(rows, h);
      }
      forall x: Id, y: Id, h: Id | Supersedes(rows, y, x) && (y, h) in chain ensures (x, h) in chain {
        HeadOfSuccessor(rows, x, y, h);
      }
    }

    // UPDATE ... FROM chain: each reached row takes the head of one matching chain row.
    method UpdateFromChain(chain: set<(Id, Id)>)
      requires forall id, h :: (id, h) in chain ==> id in logicalId
      modifies this
      ensures TakesFromChain(chain, old(logicalId), logicalId)
    {
      var reached := set p | p in chain :: p.0;
      forall id ensures id in reached <==> Reached(chain, id) {
        if id in reached {
          var p :| p in chain && p.0 == id;
          assert (id, p.1) in chain;
        }
        if Reached(chain, id) {
          var h :| (id, h) in chain;
          assert (id, h).0 in reached;
        }
      }
      var todo := reached;
      while todo != {}
        invariant todo <= reached && logicalId.Keys == old(logicalId).Keys
        invariant forall id :: id in logicalId && (id !in reached || id in todo) ==> logicalId[id] == old(logicalId)[id]
        invariant forall id :: id in reached - todo ==>
          id in logicalId && logicalId[id].Some? && (id, logicalId[id].value) in chain
        decreases todo
      {
        var id :| id in todo;
        var p :| p in chain && p.0 == id;
        assert p == (id, p.1);
        logicalId := logicalId[id := Some(p.1)];
        todo := todo - {id};
      }
    }

    /** The three updates leave no null, and only what the specification allows. */
    method Upgrade()
      requires Ends(rows)
      modifies this
      ensures logicalId.Keys == rows.Keys == Values(logicalId).Keys
      ensures IsBackfill(rows, Values(logicalId))
      ensures Unforked(rows) ==> FollowsSuccessors(rows, Values(logicalId))
    {
      logicalId := map id | id in rows :: None;
      logicalId := map id | id in rows :: if rows[id].current then Some(id) else logicalId[id];
      assert logicalId == CurrentIds(rows);
      var chain := Chain();
      UpdateFromChain(chain);
      UpdatesAreBackfill(rows, chain, logicalId);
      logicalId := FillNulls(logicalId);
    }
  }

  // The column after the first update.
  function CurrentIds(rows: Rows): Column {
    map id | id in rows :: if rows[id].current then Some(id) else None
  }

  lemma UpdatesAreBackfill(rows: Rows, chain: set<(Id, Id)>, column: Column)
    requires PairsHeads(rows, chain) && TakesFromChain(chain, CurrentIds(rows), column)
    ensures FillNulls(column).Keys == rows.Keys == Values(FillNulls(column)).Keys
    ensures IsBackfill(rows, Values(FillNulls(column)))
    ensures Unforked(rows) ==> FollowsSuccessors(rows, Values(FillNulls(column)))
  {
    forall id | id in rows
      ensures if Heads(rows, id) == {} then column[id].None? else column[id].Some? && column[id].value in Heads(rows, id)
    {
      ReachedIff(rows, chain, id);
      if rows[id].current {
        OwnHead(rows, id);
      }
    }
    FilledIsBackfill(rows, column);
    SuccessorsFollowed(rows, Values(FillNulls(column)));
  }

  lemma OwnHead(rows: Rows, id: Id)
    requires id in Currents(rows)
    ensures id in Heads(rows, id)
  {
    assert At(rows, id, 0) == Some(id);
  }

  lemma NextLevel(rows: Rows, k: nat)
    ensures forall p :: p in Level(rows, k) ==> p.0 in rows
    ensures Level(rows, k + 1)
      == set p | p in Level(rows, k) && p.0 in rows && Prev(rows, p.0).Some? :: (Prev(rows, p.0).value, p.1)
  {
    forall h | h in Currents(rows) && At(rows, h, k + 1).Some?
      ensures (At(rows, h, k).value, h) in Level(rows, k)
    {
    }
  }

  lemma LevelsAreHeads(rows: Rows, k: nat, chain: set<(Id, Id)>)
    requires Ends(rows) && Level(rows, k) == {} && k <= |rows|
    requires forall p :: p in chain <==> exists j :: 0 <= j < k && p in Level(rows, j)
    ensures forall id, h :: (id, h) in chain <==> id in rows && h in Heads(rows, id)
  {
    forall id, h ensures (id, h) in chain <==> id in rows && h in Heads(rows, id) {
      if (id, h) in chain {
        var j :| 0 <= j < k && (id, h) in Level(rows, j);
        assert At(rows, h, j) == Some(id);
      }
      if id in rows && h in Heads(rows, id) {
        var j :| 0 <= j <= |rows| && At(rows, h, j) == Some(id);
        assert At(rows, h, k).None? by {
          assert forall p :: p in Level(rows, k) ==> p.1 != h;
        }
        if k <= j {
          AtEnded(rows, h, k, j);
        }
        assert (id, h) in Level(rows, j);
      }
    }
  }

  // ----- what the result means -----

  // Chains do not fork, and a superseded version is not current.
  ghost predicate WellFormed(rows: Rows) {
    && (forall x, y :: x in rows && y in rows && Prev(rows, x).Some? && Prev(rows, x) == Prev(rows, y) ==> x == y)
    && (forall x :: x in rows && Prev(rows, x).Some? ==> !rows[Prev(rows, x).value].current)
  }

  lemma {:induction false} WalkUp(rows: Rows, h: Id, k: nat, h': Id, k': nat, t: nat)
    requires WellFormed(rows) && h in rows && h' in rows && t <= k && t <= k'
    requires At(rows, h, k).Some? && At(rows, h, k) == At(rows, h', k')
    ensures At(rows, h, k - t).Some? && At(rows, h, k - t) == At(rows, h', k' - t)
  {
    if t > 0 {
      WalkUp(rows, h, k, h', k', t - 1);
      AtPrefix(rows, h, k - t, k - t + 1);
      AtPrefix(rows, h', k' - t, k' - t + 1);
    }
  }

  lemma HeadIsFirst(rows: Rows, h: Id, k: nat, h': Id, k': nat)
    requires WellFormed(rows) && h in Currents(rows) && h' in Currents(rows) && k <= k'
    requires At(rows, h, k).Some? && At(rows, h, k) == At(rows, h', k')
    ensures h == h'
  {
    WalkUp(rows, h, k, h', k', k);
  }

  /** On well-formed chains every row has at most one head. */
  lemma HeadIsUnique(rows: Rows, id: Id, h: Id, h': Id)
    requires WellFormed(rows) && h in Heads(rows, id) && h' in Heads(rows, id)
    ensures h == h'
  {
    var k: nat :| k <= |rows| && At(rows, h, k) == Some(id);
    var k': nat :| k' <= |rows| && At(rows, h', k') == Some(id);
    if k <= k' {
      HeadIsFirst(rows, h, k, h', k');
    } else {
      HeadIsFirst(rows, h', k', h, k);
    }
  }

  /** Logical ids are equal exactly when the head is shared: the backfill
      partitions the rows into chains, headless rows standing alone. */
  lemma LogicalIdsPartition(rows: Rows, logical: map<Id, Id>, a: Id, b: Id)
    requires WellFormed(rows) && IsBackfill(rows, logical) && a in rows && b in rows
    ensures logical[a] == logical[b] <==> a == b || Heads(rows, a) * Heads(rows, b) != {}
  {
    if logical[a] == logical[b] {
      if Heads(rows, a) == {} && Heads(rows, b) != {} {
        OwnHead(rows, logical[b]);
      } else if Heads(rows, a) != {} && Heads(rows, b) == {} {
        OwnHead(rows, logical[a]);
      } else if Heads(rows, a) != {} {
        assert logical[a] in Heads(rows, a) * Heads(rows, b);
      }
    } else if Heads(rows, a) * Heads(rows, b) != {} {
      var h :| h in Heads(rows, a) * Heads(rows, b);
      HeadIsUnique(rows, a, h, logical[a]);
      HeadIsUnique(rows, b, h, logical[b]);
    }
  }

  // read_memory's resolve_current: the current rows with the node's logical id.
  ghost function Resolve(rows: Rows, logical: map<Id, Id>, id: Id): set<Id>
    requires logical.Keys == rows.Keys && id in rows
  {
    set c | c in Currents(rows) && logical[c] == logical[id]
  }

  /** resolve_current finds exactly one row for any version of a live chain, its
      head, and none for a headless row. */
  lemma ResolveFindsTheHead(rows: Rows, logical: map<Id, Id>, id: Id)
    requires WellFormed(rows) && IsBackfill(rows, logical) && id in rows
    ensures Resolve(rows, logical, id) == Heads(rows, id)
    ensures |Resolve(rows, logical, id)| == if Heads(rows, id) == {} then 0 else 1
  {
    forall c ensures c in Resolve(rows, logical, id) <==> c in Heads(rows, id) {
      if c in Currents(rows) {
        OwnHead(rows, c);
        HeadIsUnique(rows, c, c, logical[c]);
        LogicalIdsPartition(rows, logical, c, id);
        if c in Heads(rows, id) {
          assert c in Heads(rows, c) * Heads(rows, id);
        } else if Heads(rows, id) != {} {
          assert logical[id] in Heads(rows, id);
        }
      }
    }
    if Heads(rows, id) != {} {
      var h := logical[id];
      assert forall x :: x in Heads(rows, id) ==> x == h by {
        forall x | x in Heads(rows, id) ensures x == h {
          HeadIsUnique(rows, id, x, h);
        }
      }
      assert Heads(rows, id) == {h};
    }
  }

  ghost function Pick(rows: Rows, id: Id): (r: Id)
    ensures if Heads(rows, id) == {} then r == id else r in Heads(rows, id)
  {
    if Heads(rows, id) == {} then id else var h :| h in Heads(rows, id); h
  }

  // An outcome that gives id the head h.
  ghost function Choosing(rows: Rows, id: Id, h: Id): (l: map<Id, Id>)
    requires id in rows && h in Heads(rows, id)
    ensures IsBackfill(rows, l) && l[id] == h
  {
    map x | x in rows :: if x == id then h else Pick(rows, x)
  }

  /** Without well-formedness the migration still fills every row, but its
      outcome is determined exactly when no row is reached by two heads. */
  lemma OutcomeDeterminedIff(rows: Rows)
    ensures (forall l, l' :: IsBackfill(rows, l) && IsBackfill(rows, l') ==> l == l')
      <==> (forall id, h, h' :: id in rows && h in Heads(rows, id) && h' in Heads(rows, id) ==> h == h')
  {
    if id, h, h' :| id in rows && h in Heads(rows, id) && h' in Heads(rows, id) && h != h' {
      var (l, l') := (Choosing(rows, id, h), Choosing(rows, id, h'));
      assert IsBackfill(rows, l) && IsBackfill(rows, l') && l[id] != l'[id];
    } else {
      forall l, l' | IsBackfill(rows, l) && IsBackfill(rows, l') ensures l == l' {
        forall id | id in rows ensures l[id] == l'[id] {
          var heads := Heads(rows, id);
        }
      }
    }
  }
}
