/**
  The audit trail row by row: what is hashed, which row heads the chain, which root is walked, what is reported, and what a
  batch of new rows looks like.
 */
module AuditRows {
  import opened Common
  import opened Sorting
  import opened AuditChain
  import opened AuditChainTheorems
  import opened AuditWriters

  // ---------------------------------------------------------------- findings

  /** The hash of the second version covers identity and content, older ones cover the content alone. */
  predicate HashMatches(r: Row) {
    r.hash == Some(Sha256(if r.version == Some(2) then Some(r.id) else None, r.body))
  }

  lemma IntactIff(r: Row)
    ensures PayloadIntact(r) <==> HashMatches(r)
  {
  }

  lemma {:induction false} TamperedNamesRow(rows: seq<Row>, r: Row)
    requires DistinctIds(rows) && r in rows
    ensures multiset(Tampered(rows))[r.id] == if HashMatches(r) then 0 else 1
  {
    TamperedStep(rows, r.id);
    RestIsApart(rows);
    var k :| 0 <= k < |rows| && rows[k] == r;
    if k > 0 {
      assert rows[1..][k - 1] == r;
      TamperedNamesRow(rows[1..], r);
    } else {
      OthersNotTampered(rows[1..], r.id);
    }
  }

  lemma RestIsApart(rows: seq<Row>)
    requires DistinctIds(rows) && rows != []
    ensures DistinctIds(rows[1..]) && forall k :: 0 <= k < |rows[1..]| ==> rows[1..][k].id != rows[0].id
  {
  }

  lemma TamperedStep(rows: seq<Row>, id: nat)
    requires rows != []
    ensures multiset(Tampered(rows))[id]
         == (if rows[0].id == id && !HashMatches(rows[0]) then 1 else 0) + multiset(Tampered(rows[1..]))[id]
  {
    IntactIff(rows[0]);
    CountBoth(if PayloadIntact(rows[0]) then [] else [rows[0].id], Tampered(rows[1..]), id);
  }

  lemma {:induction false} OthersNotTampered(rows: seq<Row>, id: nat)
    requires forall k :: 0 <= k < |rows| ==> rows[k].id != id
    ensures multiset(Tampered(rows))[id] == 0
  {
    if rows != [] {
      OthersNotTampered(rows[1..], id);
      TamperedStep(rows, id);
    }
  }

  /** How often a hashed row is named: once if its hash does not match, and once if the walk did not reach it. */
  lemma HashedRowIsNamed(rows: seq<Row>, r: Row)
    requires DistinctIds(rows) && AllHashed(rows) && r in rows
    ensures multiset(Verify(rows))[r.id] == (if HashMatches(r) then 0 else 1) + (if r.id in Visited(rows) then 0 else 1)
  {
    HashedOfHashed(rows);
    TamperedNamesRow(rows, r);
    EachRowVisitedOrReportedOnce(rows, r);
    CountBoth(Tampered(rows), LinkIssues(rows), r.id);
  }

  // ---------------------------------------------------------------- roots

  /** Of several rows without a predecessor the one with the least identity is walked, and the others are reported. */
  lemma LeastRootIsWalked(rows: seq<Row>, r: Row)
    requires DistinctIds(rows) && AllHashed(rows) && r in rows && r.prev == None
    ensures r.id in Visited(rows) <==> forall x :: x in rows && x.prev == None ==> r.id <= x.id
  {
    var roots := Roots(rows);
    var key := (row: Row) => row.id;
    assert r in roots;
    var path := WalkedFromRoot(rows);
    HeadIsMember(roots);
    forall x | x in rows && x.prev == None ensures roots[0].id <= x.id {
      assert x in roots;
      var k :| 0 <= k < |roots| && roots[k] == x;
      OrderedPairs(key, roots, 0, k);
    }
    if r == roots[0] {
      assert path[0] in path;
    } else {
      RootBesidePath(rows, path, roots[0], r);
      SameId(rows, r, roots[0]);
    }
  }

  // ---------------------------------------------------------------- the head

  /** A row with a hash that no row points to. */
  predicate IsHead(rows: seq<Row>, k: nat)
    requires k < |rows|
  {
    rows[k].hash.Some? && forall j :: 0 <= j < |rows| ==> rows[j].prev != rows[k].hash
  }

  lemma {:induction false} HeadsFrom(rows: seq<Row>, all: seq<Row>, n: nat)
    requires n <= |all| && rows == all[n..]
    ensures |Heads(rows, all)| > 0 <==> exists i :: n <= i < |all| && IsHead(all, i)
    ensures |Heads(rows, all)| > 1 <==> exists i, j :: n <= i < j < |all| && IsHead(all, i) && IsHead(all, j)
    ensures |Heads(rows, all)| > 0 ==> exists i :: n <= i < |all| && IsHead(all, i) && Heads(rows, all)[0] == all[i]
    decreases |all| - n
  {
    if n < |all| {
      assert rows[1..] == all[n + 1..];
      assert rows[0].hash.Some? && !HasSuccessor(rows[0], all) <==> IsHead(all, n);
      HeadsFrom(rows[1..], all, n + 1);
      var rest := Heads(rows[1..], all);
      if IsHead(all, n) {
        assert Heads(rows, all) == [rows[0]] + rest;
      } else {
        assert Heads(rows, all) == rest;
      }
    }
  }

  /** Looking for the head fails exactly when two rows are heads; it finds the hash of the one there is. */
  lemma HeadIsTheOnlyOne(visible: seq<Row>)
    ensures LastChainHash(visible).Err? <==> exists i, j :: 0 <= i < j < |visible| && IsHead(visible, i) && IsHead(visible, j)
    ensures LastChainHash(visible) == Ok(None) <==> forall i :: 0 <= i < |visible| ==> !IsHead(visible, i)
    ensures LastChainHash(visible).Ok? && LastChainHash(visible).value.Some? ==>
      exists i :: 0 <= i < |visible| && IsHead(visible, i) && visible[i].hash == LastChainHash(visible).value
  {
    assert visible[0..] == visible;
    HeadsFrom(visible, visible, 0);
    var heads := Heads(visible, visible);
    HeadIsMember(heads);
  }

  // ---------------------------------------------------------------- a batch

  /** Row k is the stamped draft k, linked to the row before it or to the tail. */
  predicate ChainedAfter(drafts: seq<Draft>, tail: Option<Digest>, rows: seq<Row>, k: nat)
    requires k < |drafts| == |rows|
  {
    && rows[k].id == drafts[k].id && rows[k].body == drafts[k].body
    && rows[k].version == Some(2) && HashMatches(rows[k])
    && rows[k].prev == if k == 0 then tail else rows[k - 1].hash
  }

  lemma {:induction false} StampedRows(drafts: seq<Draft>, tail: Option<Digest>, k: nat)
    requires k < |drafts|
    ensures ChainedAfter(drafts, tail, StampAll(drafts, tail), k)
  {
    if k > 0 { StampedRows(drafts[1..], Stamp(drafts[0], tail).hash, k - 1); }
  }

  /**
    The rows of a flush are stamped in the order of their ids, none lost or added, each with a hash of the second version and
    linked to the one before, the first one to the tail.
   */
  lemma BatchIsChainedInOrder(pending: seq<Draft>, tail: Option<Digest>)
    ensures var rows := StampAll(SortDrafts(pending), tail);
            && multiset(SortDrafts(pending)) == multiset(pending) && |rows| == |SortDrafts(pending)|
            && (forall k :: 0 <= k < |rows| ==> ChainedAfter(SortDrafts(pending), tail, rows, k))
            && forall k :: 0 < k < |rows| ==> rows[k - 1].id <= rows[k].id
  {
    var sorted := SortDrafts(pending);
    var rows := StampAll(sorted, tail);
    forall k | 0 <= k < |rows| ensures ChainedAfter(sorted, tail, rows, k) {
      StampedRows(sorted, tail, k);
    }
    forall k | 0 < k < |rows| ensures rows[k - 1].id <= rows[k].id {
      assert ChainedAfter(sorted, tail, rows, k) && ChainedAfter(sorted, tail, rows, k - 1);
      OrderedPairs((draft: Draft) => draft.id, sorted, k - 1, k);
    }
  }
}
