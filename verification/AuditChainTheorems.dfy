/** What an empty verification report means, and which manipulations of the table it exposes. */
module AuditChainTheorems {
  import opened Common
  import opened AuditChain

  /** Each row points at the one before it and the first points at nothing. */
  ghost predicate ChainOrder(order: seq<Row>) {
    && (order != [] ==> order[0].prev == None)
    && forall i :: 0 < i < |order| ==> order[i].prev == order[i - 1].hash
  }

  ghost predicate OrdersAs(rows: seq<Row>, order: seq<Row>) {
    multiset(order) == multiset(rows) && ChainOrder(order)
  }

  /** The rows can be arranged into one chain. */
  ghost predicate Linear(rows: seq<Row>) {
    exists order :: OrdersAs(rows, order)
  }

  // ---------------------------------------------------------------- permutations and multiplicities

  lemma CountHead<T>(s: seq<T>, x: T)
    requires s != []
    ensures multiset(s)[x] == (if s[0] == x then 1 else 0) + multiset(s[1..])[x]
  {
    assert s == [s[0]] + s[1..];
  }

  lemma {:induction false} AtMostOnce(rows: seq<Row>)
    requires DistinctIds(rows)
    ensures forall r :: multiset(rows)[r] <= 1
  {
    if rows != [] {
      var last := rows[|rows| - 1];
      var front := rows[..|rows| - 1];
      assert rows == front + [last];
      AtMostOnce(front);
      assert last !in front;
    }
  }

  lemma SameRows(a: seq<Row>, b: seq<Row>)
    requires DistinctIds(a) && DistinctIds(b)
    requires forall r :: r in a <==> r in b
    ensures multiset(a) == multiset(b)
  {
    AtMostOnce(a);
    AtMostOnce(b);
    assert forall r :: r in multiset(a) <==> r in a;
    assert forall r :: r in multiset(b) <==> r in b;
  }

  lemma MemberOfPermutation(a: seq<Row>, b: seq<Row>)
    requires multiset(a) == multiset(b)
    ensures forall r :: r in a <==> r in b
  {
    assert forall r :: r in a <==> r in multiset(a);
    assert forall r :: r in b <==> r in multiset(b);
  }

  lemma PermutationIsDistinct(a: seq<Row>, b: seq<Row>)
    requires DistinctIds(a) && multiset(a) == multiset(b)
    ensures DistinctIds(b)
  {
    MemberOfPermutation(a, b);
    AtMostOnce(a);
    forall i, j | 0 <= i < j < |b|
      ensures b[i].id != b[j].id
    {
      if b[i].id == b[j].id {
        assert b[i] in a && b[j] in a;
        assert b[i] == b[j];
        TwiceInSeq(b, i, j);
      }
    }
  }

  lemma TwiceInSeq(b: seq<Row>, i: nat, j: nat)
    requires i < j < |b| && b[i] == b[j]
    ensures multiset(b)[b[i]] >= 2
  {
    assert b == b[..i] + [b[i]] + b[i + 1..j] + [b[j]] + b[j + 1..];
  }

  lemma DistinctHashesByMember(rows: seq<Row>, r: Row, s: Row)
    requires DistinctHashes(rows) && r in rows && s in rows && r.hash == s.hash
    ensures r == s
  {
  }

  lemma {:induction false} ChildrenOnce(rows: seq<Row>, key: Option<Digest>, r: Row)
    ensures multiset(Children(rows, key))[r] <= multiset(rows)[r]
  {
    if rows != [] {
      assert rows == rows[..|rows| - 1] + [rows[|rows| - 1]];
      ChildrenOnce(rows[..|rows| - 1], key, r);
    }
  }

  lemma OnlyMember(s: seq<Row>, x: Row)
    requires forall r :: r in s <==> r == x
    requires multiset(s)[x] <= 1
    ensures s == [x]
  {
    if |s| >= 2 {
      assert s[0] in s && s[1] in s;
      TwiceInSeq(s, 0, 1);
    }
    assert x in s;
  }

  // ---------------------------------------------------------------- the walk

  /** Along a chain order the walk visits everything that is left and meets no fork. */
  lemma {:induction false} WalkFollowsOrder(rows: seq<Row>, order: seq<Row>, i: nat)
    requires DistinctIds(rows) && DistinctHashes(rows) && AllHashed(rows) && OrdersAs(rows, order)
    requires i < |order|
    ensures order[i] in rows
    ensures Walk(rows, order[i], Ids(order[..i])) == (Ids(order), [])
    decreases |order| - i
  {
    MemberOfPermutation(rows, order);
    PermutationIsDistinct(rows, order);
    IdsOfPrefix(order, i);
    NextInOrder(rows, order, i);
    if i + 1 < |order| {
      WalkFollowsOrder(rows, order, i + 1);
    } else {
      assert order[..i + 1] == order;
    }
  }

  lemma IdsOfPrefix(order: seq<Row>, i: nat)
    requires DistinctIds(order) && i < |order|
    ensures order[i].id !in Ids(order[..i]) && Ids(order[..i + 1]) == Ids(order[..i]) + {order[i].id}
  {
    assert order[..i + 1] == order[..i] + [order[i]];
  }

  lemma NextInOrder(rows: seq<Row>, order: seq<Row>, i: nat)
    requires DistinctIds(rows) && DistinctHashes(rows) && AllHashed(rows) && OrdersAs(rows, order)
    requires i < |order|
    ensures Children(rows, order[i].hash) == if i + 1 < |order| then [order[i + 1]] else []
  {
    MemberOfPermutation(rows, order);
    PermutationIsDistinct(rows, order);
    var successors := Children(rows, order[i].hash);
    forall r | r in successors
      ensures i + 1 < |order| && r == order[i + 1]
    {
      var j :| 0 <= j < |order| && order[j] == r;
      assert order[i] in rows && j != 0;
      assert order[j - 1].hash == order[i].hash;
      assert order[j - 1] in rows;
      DistinctHashesByMember(rows, order[j - 1], order[i]);
    }
    if i + 1 < |order| {
      assert order[i + 1] in successors;
      AtMostOnce(rows);
      ChildrenOnce(rows, order[i].hash, order[i + 1]);
      OnlyMember(successors, order[i + 1]);
    } else {
      HeadIsMember(successors);
    }
  }

  /** Whatever the rows are, the walk follows a linked path of fresh rows and stops at an unvisited fork. */
  lemma {:induction false} WalkTrace(rows: seq<Row>, current: Row, visited: set<nat>) returns (path: seq<Row>)
    requires current in rows
    ensures Walk(rows, current, visited).0 == visited + Ids(path)
    ensures DistinctIds(path) && forall p :: p in path ==> p in rows && p.id !in visited
    ensures forall i :: 0 < i < |path| ==> path[i].prev == path[i - 1].hash
    ensures if current.id in visited then path == [] else path != [] && path[0] == current
    ensures forall r :: r in Walk(rows, current, visited).1 ==>
              r in rows && r.id !in visited + Ids(path) && exists p :: p in path && r.prev == p.hash
    decreases Ids(rows) - visited
  {
    if current.id in visited {
      path := [];
    } else {
      assert current.id in Ids(rows);
      var seen := visited + {current.id};
      var successors := Children(rows, current.hash);
      if |successors| != 1 {
        path := [current];
      } else {
        assert successors[0] in successors;
        var rest := WalkTrace(rows, successors[0], seen);
        path := [current] + rest;
        PathGrows(rows, current, visited, rest);
      }
    }
  }

  lemma PathGrows(rows: seq<Row>, current: Row, visited: set<nat>, rest: seq<Row>)
    requires DistinctIds(rest) && forall p :: p in rest ==> p in rows && p.id !in visited + {current.id}
    requires forall i :: 0 < i < |rest| ==> rest[i].prev == rest[i - 1].hash
    requires current in rows && current.id !in visited && (rest != [] ==> rest[0].prev == current.hash)
    ensures var path := [current] + rest;
            && Ids(path) == {current.id} + Ids(rest)
            && DistinctIds(path) && (forall p :: p in path ==> p in rows && p.id !in visited)
            && (forall i :: 0 < i < |path| ==> path[i].prev == path[i - 1].hash)
            && (forall p :: p in rest ==> p in path)
  {
    var path := [current] + rest;
    forall i | 0 < i < |path| ensures path[i].prev == path[i - 1].hash && path[i] in rest {
      assert path[i] == rest[i - 1];
    }
  }

  // ---------------------------------------------------------------- the report

  /** No link finding exactly when the rows form one chain. */
  lemma EmptyReportIffLinear(rows: seq<Row>)
    requires DistinctIds(rows) && DistinctHashes(rows) && AllHashed(rows)
    ensures LinkIssues(rows) == [] <==> Linear(rows)
  {
    if LinkIssues(rows) == [] {
      SilentMeansLinear(rows);
    }
    if order :| OrdersAs(rows, order) {
      LinearMeansSilent(rows, order);
    }
  }

  lemma LinearMeansSilent(rows: seq<Row>, order: seq<Row>)
    requires DistinctIds(rows) && DistinctHashes(rows) && AllHashed(rows) && OrdersAs(rows, order)
    ensures LinkIssues(rows) == [] && Visited(rows) == Ids(rows)
  {
    MemberOfPermutation(rows, order);
    MainBranchOfOrder(rows, order);
    var rest := Leftover(rows, Ids(rows), []);
    HeadIsMember(rest);
  }

  lemma MainBranchOfOrder(rows: seq<Row>, order: seq<Row>)
    requires DistinctIds(rows) && DistinctHashes(rows) && AllHashed(rows) && OrdersAs(rows, order)
    ensures MainBranch(rows, Roots(rows)) == (Ids(rows), []) && |Roots(rows)| <= 1
  {
    MemberOfPermutation(rows, order);
    HeadIsMember(Roots(rows));
    HeadIsMember(rows);
    if rows == [] {
      assert Ids(rows) == {};
    } else {
      RootOfOrder(rows, order);
      WalkFollowsOrder(rows, order, 0);
      assert Ids(order[..0]) == {};
      assert Ids(order) == Ids(rows);
    }
  }

  lemma RootOfOrder(rows: seq<Row>, order: seq<Row>)
    requires DistinctIds(rows) && AllHashed(rows) && OrdersAs(rows, order) && order != []
    ensures Roots(rows) == [order[0]]
  {
    MemberOfPermutation(rows, order);
    forall r | r in Roots(rows)
      ensures r == order[0]
    {
      var j :| 0 <= j < |order| && order[j] == r;
      assert j > 0 ==> order[j].prev == order[j - 1].hash;
    }
    assert order[0] in Roots(rows);
    AtMostOnce(rows);
    ChildrenOnce(rows, None, order[0]);
    OnlyMember(Roots(rows), order[0]);
  }

  lemma SilentMeansLinear(rows: seq<Row>)
    requires DistinctIds(rows) && AllHashed(rows) && LinkIssues(rows) == []
    ensures Linear(rows)
  {
    var roots := Roots(rows);
    if rows == [] {
      assert OrdersAs(rows, []);
    } else {
      assert forall r :: r in rows ==> r.id in Visited(rows) by {
        AllVisited(rows);
      }
      assert rows[0] in rows;
      assert roots != [] && roots[0] in roots;
      var path := WalkTrace(rows, roots[0], {});
      WholeWalkIsOrder(rows, path);
    }
  }

  lemma WholeWalkIsOrder(rows: seq<Row>, path: seq<Row>)
    requires DistinctIds(rows) && DistinctIds(path) && path != [] && path[0].prev == None
    requires forall p :: p in path ==> p in rows
    requires forall i :: 0 < i < |path| ==> path[i].prev == path[i - 1].hash
    requires forall r :: r in rows ==> r.id in Ids(path)
    ensures OrdersAs(rows, path)
  {
    forall r | r in rows
      ensures r in path
    {
      var p :| p in path && p.id == r.id;
      assert p in rows;
    }
    SameRows(path, rows);
  }

  lemma AllVisited(rows: seq<Row>)
    requires LinkIssues(rows) == []
    ensures forall r :: r in rows ==> r.id in Visited(rows)
  {
    var (visited, branches) := MainBranch(rows, Roots(rows));
    assert Leftover(rows, visited, []) == [];
    forall r | r in rows
      ensures r.id in visited
    {
      assert r.id in visited || r.id in Leftover(rows, visited, []);
    }
  }

  /** Every row is either on the walked branch or reported exactly once, and never both. */
  lemma EachRowVisitedOrReportedOnce(rows: seq<Row>, r: Row)
    requires DistinctIds(rows) && AllHashed(rows) && r in rows
    ensures multiset(LinkIssues(rows))[r.id] == if r.id in Visited(rows) then 0 else 1
  {
    var roots := Roots(rows);
    var (visited, branches) := MainBranch(rows, roots);
    var extra := IdList(ExtraRoots(rows));
    var reported := extra + IdList(branches);
    assert LinkIssues(rows) == reported + Leftover(rows, visited, reported);
    ExtraRootsOnce(rows, r);
    BranchesOnce(rows, r);
    LeftoverOnce(rows, visited, reported, r.id);
    CountBoth(extra, IdList(branches), r.id);
    CountBoth(reported, Leftover(rows, visited, reported), r.id);
  }

  lemma CountBoth(a: seq<nat>, b: seq<nat>, x: nat)
    ensures multiset(a + b)[x] == multiset(a)[x] + multiset(b)[x]
    ensures x in a <==> multiset(a)[x] > 0
    ensures x in b <==> multiset(b)[x] > 0
  {
    assert x in a <==> x in multiset(a);
    assert x in b <==> x in multiset(b);
  }

  lemma RootsOnce(rows: seq<Row>)
    requires DistinctIds(rows)
    ensures forall x :: multiset(Roots(rows))[x] <= 1
  {
    AtMostOnce(rows);
    forall x
      ensures multiset(Roots(rows))[x] <= 1
    {
      ChildrenOnce(rows, None, x);
    }
  }

  function ExtraRoots(rows: seq<Row>): seq<Row> {
    if Roots(rows) == [] then [] else Roots(rows)[1..]
  }

  lemma ExtraRootsOnce(rows: seq<Row>, r: Row)
    requires DistinctIds(rows) && AllHashed(rows) && r in rows
    ensures multiset(IdList(ExtraRoots(rows)))[r.id] <= 1
    ensures r.id in IdList(ExtraRoots(rows)) ==> r.prev == None && r.id !in Visited(rows)
  {
    var roots := Roots(rows);
    var extra := ExtraRoots(rows);
    if roots != [] {
      RootsOnce(rows);
      forall x
        ensures multiset(extra)[x] <= 1
      {
        CountHead(roots, x);
      }
      assert forall x :: x in extra ==> x in roots;
      IdListOnce(rows, extra, r.id);
      if r.id in IdList(extra) {
        ExtraRootNotWalked(rows, r);
      }
    }
  }

  lemma ExtraRootNotWalked(rows: seq<Row>, r: Row)
    requires DistinctIds(rows) && AllHashed(rows) && r in rows && r.id in IdList(ExtraRoots(rows))
    requires forall x :: multiset(Roots(rows))[x] <= 1
    ensures r.prev == None && r.id !in Visited(rows)
  {
    var roots := Roots(rows);
    var k :| 0 < k < |roots| && roots[k].id == r.id;
    assert roots[0] in roots && roots[k] in roots;
    SameId(rows, roots[k], r);
    if roots[0] == roots[k] {
      TwiceInSeq(roots, 0, k);
      assert false;
    }
    var path := WalkedFromRoot(rows);
    RootBesidePath(rows, path, roots[0], r);
  }

  /** A second root lies on no path from the first. */
  lemma RootBesidePath(rows: seq<Row>, path: seq<Row>, first: Row, r: Row)
    requires DistinctIds(rows) && AllHashed(rows) && r in rows && r.prev == None && r != first
    requires path != [] && path[0] == first && forall p :: p in path ==> p in rows
    requires forall i :: 0 < i < |path| ==> path[i].prev == path[i - 1].hash
    ensures r.id !in Ids(path)
  {
    forall p | p in path
      ensures p.id != r.id
    {
      var i :| 0 <= i < |path| && path[i] == p;
      HashedPredecessor(rows, path, i);
      SameId(rows, p, r);
    }
  }

  lemma HashedPredecessor(rows: seq<Row>, path: seq<Row>, i: nat)
    requires AllHashed(rows) && i < |path| && forall p :: p in path ==> p in rows
    requires forall j :: 0 < j < |path| ==> path[j].prev == path[j - 1].hash
    ensures i > 0 ==> path[i].prev.Some?
  {
    if i > 0 { assert path[i - 1] in path; }
  }

  lemma SameId(rows: seq<Row>, a: Row, b: Row)
    requires DistinctIds(rows) && a in rows && b in rows
    ensures a.id == b.id ==> a == b
  {
  }

  lemma WalkedFromRoot(rows: seq<Row>) returns (path: seq<Row>)
    requires Roots(rows) != []
    ensures path != [] && path[0] == Roots(rows)[0] && Visited(rows) == Ids(path)
    ensures forall p :: p in path ==> p in rows
    ensures forall i :: 0 < i < |path| ==> path[i].prev == path[i - 1].hash
  {
    assert Roots(rows)[0] in Roots(rows);
    path := WalkTrace(rows, Roots(rows)[0], {});
  }

  lemma BranchesOnce(rows: seq<Row>, r: Row)
    requires DistinctIds(rows) && AllHashed(rows) && r in rows
    ensures var branches := IdList(MainBranch(rows, Roots(rows)).1);
            && multiset(branches)[r.id] <= 1
            && (r.id in branches ==> r.prev.Some? && r.id !in Visited(rows))
  {
    var roots := Roots(rows);
    var branches := MainBranch(rows, roots).1;
    if roots != [] {
      HeadIsMember(roots);
      BranchRowsOnce(rows, roots[0]);
      IdListOnce(rows, branches, r.id);
      if r.id in IdList(branches) {
        var k :| 0 <= k < |branches| && branches[k].id == r.id;
        BranchRowFacts(rows, roots[0], branches[k]);
        assert branches[k] == r;
      }
    }
  }

  lemma BranchRowsOnce(rows: seq<Row>, root: Row)
    requires DistinctIds(rows) && root in rows
    ensures forall b :: b in Walk(rows, root, {}).1 ==> b in rows
    ensures forall x :: multiset(Walk(rows, root, {}).1)[x] <= 1
  {
    var path := WalkTrace(rows, root, {});
    AtMostOnce(rows);
    forall x ensures multiset(Walk(rows, root, {}).1)[x] <= 1 {
      ForkOnce(rows, root, {}, x);
    }
  }

  lemma BranchRowFacts(rows: seq<Row>, root: Row, b: Row)
    requires AllHashed(rows) && root in rows && b in Walk(rows, root, {}).1
    ensures b in rows && b.prev.Some? && b.id !in Walk(rows, root, {}).0
  {
    var path := WalkTrace(rows, root, {});
  }

  lemma {:induction false} ForkOnce(rows: seq<Row>, current: Row, visited: set<nat>, x: Row)
    requires current in rows
    ensures multiset(Walk(rows, current, visited).1)[x] <= multiset(rows)[x]
    decreases Ids(rows) - visited
  {
    if current.id !in visited {
      assert current.id in Ids(rows);
      var seen := visited + {current.id};
      var successors := Children(rows, current.hash);
      ChildrenOnce(rows, current.hash, x);
      if |successors| != 1 {
        UnvisitedOnce(successors, seen, x);
      } else {
        assert successors[0] in successors;
        ForkOnce(rows, successors[0], seen, x);
      }
    }
  }

  lemma {:induction false} UnvisitedOnce(rows: seq<Row>, visited: set<nat>, x: Row)
    ensures multiset(Unvisited(rows, visited))[x] <= multiset(rows)[x]
  {
    if rows != [] {
      assert rows == [rows[0]] + rows[1..];
      UnvisitedOnce(rows[1..], visited, x);
    }
  }

  lemma {:induction false} IdListOnce(rows: seq<Row>, part: seq<Row>, id: nat)
    requires DistinctIds(rows)
    requires forall x :: x in part ==> x in rows
    requires forall x :: multiset(part)[x] <= 1
    ensures multiset(IdList(part))[id] <= 1
  {
    if part != [] {
      var rest := part[1..];
      forall x
        ensures multiset(rest)[x] <= 1
      {
        CountHead(part, x);
      }
      IdListOnce(rows, rest, id);
      assert IdList(part)[1..] == IdList(rest);
      CountHead(IdList(part), id);
      if part[0].id == id {
        HeadRepeats(rows, part);
      }
    }
  }

  lemma HeadRepeats(rows: seq<Row>, part: seq<Row>)
    requires DistinctIds(rows) && part != []
    requires forall x :: x in part ==> x in rows
    requires forall x :: multiset(part)[x] <= 1
    ensures multiset(IdList(part[1..]))[part[0].id] == 0
  {
    var rest := part[1..];
    if part[0].id in IdList(rest) {
      var k :| 0 <= k < |rest| && rest[k].id == part[0].id;
      assert part[0] in part && part[k + 1] in part;
      TwiceInSeq(part, 0, k + 1);
      assert false;
    }
  }

  lemma {:induction false} LeftoverOnce(rows: seq<Row>, visited: set<nat>, reported: seq<nat>, id: nat)
    requires DistinctIds(rows)
    ensures multiset(Leftover(rows, visited, reported))[id] <= 1
  {
    if rows != [] {
      var front := rows[..|rows| - 1];
      LeftoverOnce(front, visited, reported, id);
      var tail := Leftover(front, visited, reported);
      assert id in tail <==> id in multiset(tail);
    }
  }

  // ---------------------------------------------------------------- verification and manipulation

  /** Every hashed row carries the identity of the row in its hash. */
  ghost predicate AllVersion2(rows: seq<Row>) {
    forall r :: r in rows ==> r.version == Some(CHAIN_HASH_VERSION)
  }

  ghost predicate AllIntact(rows: seq<Row>) {
    forall r :: r in rows ==> PayloadIntact(r)
  }

  lemma IntactHashesDiffer(rows: seq<Row>)
    requires DistinctIds(rows) && AllVersion2(rows) && AllIntact(rows)
    ensures DistinctHashes(rows) && AllHashed(rows)
  {
    forall i, j | 0 <= i < j < |rows|
      ensures rows[i].hash != rows[j].hash
    {
      assert rows[i] in rows && rows[j] in rows;
    }
  }

  lemma {:induction false} HashedIsDistinct(rows: seq<Row>)
    requires DistinctIds(rows)
    ensures DistinctIds(Hashed(rows))
  {
    if rows != [] {
      HashedIsDistinct(rows[1..]);
      forall r | r in Hashed(rows[1..])
        ensures r.id != rows[0].id
      {
        var k :| 0 <= k < |rows[1..]| && rows[1..][k] == r;
        assert rows[k + 1] == r;
      }
    }
  }

  /** An empty report means exactly: every payload matches its hash and the hashed rows form one chain. */
  lemma VerifyIsEmptyIff(rows: seq<Row>)
    requires DistinctIds(rows) && AllVersion2(Hashed(rows))
    ensures Verify(rows) == [] <==> AllIntact(Hashed(rows)) && Linear(Hashed(rows))
  {
    var hashed := Hashed(rows);
    HashedIsDistinct(rows);
    if AllIntact(hashed) {
      IntactHashesDiffer(hashed);
      EmptyReportIffLinear(hashed);
    }
  }

  lemma {:induction false} HashedOfHashed(rows: seq<Row>)
    requires AllHashed(rows)
    ensures Hashed(rows) == rows
  {
    if rows != [] {
      assert rows[0] in rows;
      HashedOfHashed(rows[1..]);
    }
  }

  /** Rows of one chain: a link target exists for every link, and no two rows share one. */
  lemma LinksOfChain(rows: seq<Row>, r: Row, s: Row)
    requires DistinctHashes(rows) && AllHashed(rows) && Linear(rows)
    requires r in rows && s in rows
    ensures r.prev.Some? ==> exists p :: p in rows && p.hash == r.prev
    ensures r.prev == s.prev ==> r == s
  {
    var order :| OrdersAs(rows, order);
    MemberOfPermutation(rows, order);
    var i :| 0 <= i < |order| && order[i] == r;
    var j :| 0 <= j < |order| && order[j] == s;
    if i > 0 {
      assert order[i - 1] in rows;
    }
    if j > 0 {
      assert order[j - 1] in rows;
    }
    if i > 0 && j > 0 && r.prev == s.prev {
      DistinctHashesByMember(rows, order[i - 1], order[j - 1]);
      assert order[i - 1] == order[j - 1];
      PredecessorIsUnique(rows, order, i, j);
    }
  }

  lemma PredecessorIsUnique(rows: seq<Row>, order: seq<Row>, i: nat, j: nat)
    requires DistinctHashes(rows) && multiset(rows) == multiset(order)
    requires 0 < i < |order| && 0 < j < |order| && order[i - 1] == order[j - 1]
    ensures order[i] == order[j]
  {
    if i < j {
      TwiceInSeq(order, i - 1, j - 1);
      HashesOnce(rows, order[i - 1]);
      assert false;
    }
    if j < i {
      TwiceInSeq(order, j - 1, i - 1);
      HashesOnce(rows, order[i - 1]);
      assert false;
    }
  }

  lemma {:induction false} HashesOnce(rows: seq<Row>, r: Row)
    requires DistinctHashes(rows)
    ensures multiset(rows)[r] <= 1
  {
    if rows != [] {
      var last := rows[|rows| - 1];
      var front := rows[..|rows| - 1];
      assert rows == front + [last];
      HashesOnce(front, r);
      assert last !in front;
    }
  }

  /** A table whose rows are all chained with the current format and verifies clean. */
  ghost predicate IntactChain(rows: seq<Row>) {
    DistinctIds(rows) && AllHashed(rows) && AllVersion2(rows) && Verify(rows) == []
  }

  lemma IntactChainFacts(rows: seq<Row>)
    requires IntactChain(rows)
    ensures AllIntact(rows) && Linear(rows) && DistinctHashes(rows)
  {
    HashedOfHashed(rows);
    VerifyIsEmptyIff(rows);
    IntactHashesDiffer(rows);
  }

  /** Rewriting a hashed column and keeping the stored hash is reported. */
  lemma EditIsDetected(rows: seq<Row>, k: nat, body: Body)
    requires IntactChain(rows) && k < |rows| && body != rows[k].body
    ensures Verify(rows[k := rows[k].(body := body)]) != []
  {
    IntactChainFacts(rows);
    var forged := rows[k].(body := body);
    assert rows[k] in rows;
    assert rows[k := forged][k] == forged;
    TamperedIsReported(rows[k := forged], forged);
  }

  lemma TamperedIsReported(rows: seq<Row>, r: Row)
    requires r in rows && r.hash.Some? && !PayloadIntact(r)
    ensures Verify(rows) != []
  {
    assert r in Hashed(rows);
  }

  /** A row whose link has no target, or shares its target with another row, is reported. */
  lemma BadLinkIsDetected(rows: seq<Row>, r: Row, s: Row)
    requires DistinctIds(rows) && AllHashed(rows) && AllVersion2(rows) && r in rows && s in rows
    requires (r.prev.Some? && forall p :: p in rows ==> p.hash != r.prev) || (r != s && r.prev == s.prev)
    ensures Verify(rows) != []
  {
    if Verify(rows) == [] {
      IntactChainFacts(rows);
      LinksOfChain(rows, r, s);
      assert false;
    }
  }

  function Rehashed(row: Row, body: Body): Row {
    row.(body := body, hash := Some(ComputePayloadHash(row.id, body, row.version)))
  }

  /** Rewriting a row and recomputing its hash is reported as soon as another row links to it. */
  lemma RehashIsDetected(rows: seq<Row>, k: nat, body: Body, j: nat)
    requires IntactChain(rows) && k < |rows| && body != rows[k].body
    requires j < |rows| && rows[j].prev == rows[k].hash
    ensures Verify(rows[k := Rehashed(rows[k], body)]) != []
  {
    IntactChainFacts(rows);
    assert rows[k] in rows;
    var edited := rows[k := Rehashed(rows[k], body)];
    EditedRows(rows, k, Rehashed(rows[k], body));
    HashGone(rows, k, Rehashed(rows[k], body));
    BadLinkIsDetected(edited, edited[j], edited[j]);
  }

  /** The chain with the rewritten row in the place of the last one. */
  lemma LastRowRehashed(rows: seq<Row>, k: nat, forged: Row)
    requires Linear(rows) && k < |rows| && forged.prev == rows[k].prev
    requires forall j :: 0 <= j < |rows| ==> rows[j].prev != rows[k].hash
    ensures Linear(rows[k := forged])
  {
    var order :| OrdersAs(rows, order);
    MemberOfPermutation(rows, order);
    assert rows[k] in rows;
    var i :| 0 <= i < |order| && order[i] == rows[k];
    var next := if i + 1 < |order| then i + 1 else i;
    assert order[next] in rows;
    var other := order[i := forged];
    assert multiset(other) == multiset(rows[k := forged]);
    assert OrdersAs(rows[k := forged], other);
  }

  /** Rewriting a row and recomputing its hash goes unreported exactly when no row links to it. */
  lemma RehashIsSilentIff(rows: seq<Row>, k: nat, body: Body)
    requires IntactChain(rows) && k < |rows| && body != rows[k].body
    ensures Verify(rows[k := Rehashed(rows[k], body)]) == [] <==> forall j :: 0 <= j < |rows| ==> rows[j].prev != rows[k].hash
  {
    if j :| 0 <= j < |rows| && rows[j].prev == rows[k].hash {
      RehashIsDetected(rows, k, body, j);
    } else {
      IntactChainFacts(rows);
      var forged := Rehashed(rows[k], body);
      var edited := rows[k := forged];
      EditedRows(rows, k, forged);
      LastRowRehashed(rows, k, forged);
      EditedIsIntact(rows, k, forged);
      HashedOfHashed(edited);
      VerifyIsEmptyIff(edited);
    }
  }

  lemma EditedIsIntact(rows: seq<Row>, k: nat, forged: Row)
    requires AllIntact(rows) && k < |rows| && PayloadIntact(forged)
    ensures AllIntact(rows[k := forged])
  {
    forall r | r in rows[k := forged] ensures PayloadIntact(r) {
      var i :| 0 <= i < |rows| && rows[k := forged][i] == r;
      assert rows[i] in rows;
    }
  }

  /** Replacing a row by one with another hash leaves nobody with the old hash. */
  lemma HashGone(rows: seq<Row>, k: nat, forged: Row)
    requires DistinctHashes(rows) && k < |rows| && forged.hash != rows[k].hash
    ensures forall p :: p in rows[k := forged] ==> p.hash != rows[k].hash
  {
    forall p | p in rows[k := forged]
      ensures p.hash != rows[k].hash
    {
      var i :| 0 <= i < |rows| && rows[k := forged][i] == p;
      assert i != k ==> rows[i].hash != rows[k].hash;
    }
  }

  lemma EditedRows(rows: seq<Row>, k: nat, forged: Row)
    requires DistinctIds(rows) && AllHashed(rows) && AllVersion2(rows) && k < |rows|
    requires forged.id == rows[k].id && forged.hash.Some? && forged.version == rows[k].version
    ensures DistinctIds(rows[k := forged]) && AllHashed(rows[k := forged]) && AllVersion2(rows[k := forged])
  {
    assert rows[k] in rows;
    forall r | r in rows[k := forged]
      ensures r.hash.Some? && r.version == Some(CHAIN_HASH_VERSION)
    {
      var i :| 0 <= i < |rows| && rows[k := forged][i] == r;
      assert rows[i] in rows;
    }
  }

  /** A row added beside an existing one, whether as a second root or as a second successor, is reported. */
  lemma AddedRowIsDetected(rows: seq<Row>, added: Row, sibling: Row)
    requires IntactChain(rows) && sibling in rows
    requires added.prev == sibling.prev && added.hash.Some? && added.version == Some(CHAIN_HASH_VERSION)
    requires forall r :: r in rows ==> r.id != added.id
    ensures Verify(rows + [added]) != []
  {
    var grown := rows + [added];
    GrownRows(rows, added);
    assert grown[|rows|] == added && sibling in grown;
    BadLinkIsDetected(grown, added, sibling);
  }

  lemma GrownRows(rows: seq<Row>, added: Row)
    requires DistinctIds(rows) && AllHashed(rows) && AllVersion2(rows)
    requires added.hash.Some? && added.version == Some(CHAIN_HASH_VERSION) && forall r :: r in rows ==> r.id != added.id
    ensures DistinctIds(rows + [added]) && AllHashed(rows + [added]) && AllVersion2(rows + [added])
  {
    forall i, j | 0 <= i < j < |rows + [added]|
      ensures (rows + [added])[i].id != (rows + [added])[j].id
    {
      assert (rows + [added])[i] in rows;
    }
  }

  /** Deleting rows goes unreported exactly when what remains is an initial part of the chain. */
  lemma DeletionIsSilentIffPrefix(rows: seq<Row>, order: seq<Row>, kept: seq<Row>)
    requires IntactChain(rows) && OrdersAs(rows, order)
    requires DistinctIds(kept) && forall r :: r in kept ==> r in rows
    ensures Verify(kept) == [] <==> exists n :: 0 <= n <= |order| && multiset(kept) == multiset(order[..n])
  {
    IntactChainFacts(rows);
    MemberOfPermutation(rows, order);
    HashedOfHashed(kept);
    VerifyIsEmptyIff(kept);
    if n :| 0 <= n <= |order| && multiset(kept) == multiset(order[..n]) {
      PrefixIsLinear(rows, order, kept, n);
    }
    if part :| OrdersAs(kept, part) {
      SilentRemainder(rows, order, kept, part);
    }
  }

  lemma PrefixIsLinear(rows: seq<Row>, order: seq<Row>, kept: seq<Row>, n: nat)
    requires OrdersAs(rows, order) && n <= |order| && multiset(kept) == multiset(order[..n])
    ensures Linear(kept)
  {
    assert OrdersAs(kept, order[..n]);
  }

  lemma SilentRemainder(rows: seq<Row>, order: seq<Row>, kept: seq<Row>, part: seq<Row>)
    requires DistinctHashes(rows) && AllHashed(rows) && OrdersAs(rows, order) && OrdersAs(kept, part)
    requires forall r :: r in kept ==> r in rows
    ensures |part| <= |order| && multiset(kept) == multiset(order[..|part|])
  {
    MemberOfPermutation(kept, part);
    SubchainIsPrefix(rows, order, part, |part|);
    assert part[..|part|] == part;
  }

  lemma {:induction false} SubchainIsPrefix(rows: seq<Row>, order: seq<Row>, part: seq<Row>, n: nat)
    requires DistinctHashes(rows) && AllHashed(rows) && OrdersAs(rows, order)
    requires ChainOrder(part) && n <= |part| && forall r :: r in part ==> r in rows
    ensures n <= |order| && part[..n] == order[..n]
  {
    if n > 0 {
      SubchainIsPrefix(rows, order, part, n - 1);
      MemberOfPermutation(rows, order);
      var r := part[n - 1];
      assert Linear(rows);
      assert r in part;
      var i :| 0 <= i < |order| && order[i] == r;
      if n == 1 {
        assert order[0] in order;
        LinksOfChain(rows, r, order[0]);
      } else {
        assert part[n - 2] == part[..n - 1][n - 2] == order[n - 2];
        assert order[n - 2] in order;
        assert i > 0;
        assert order[i - 1] in order;
        DistinctHashesByMember(rows, order[i - 1], order[n - 2]);
        SuccessorPosition(rows, order, i, n - 1);
      }
      assert part[..n] == part[..n - 1] + [r];
      assert order[..n] == order[..n - 1] + [order[n - 1]];
    }
  }

  lemma SuccessorPosition(rows: seq<Row>, order: seq<Row>, i: nat, m: nat)
    requires DistinctHashes(rows) && multiset(rows) == multiset(order)
    requires 0 < i < |order| && 0 < m <= |order| && order[i - 1] == order[m - 1]
    ensures i == m
  {
    HashesOnce(rows, order[i - 1]);
    if i < m {
      TwiceInSeq(order, i - 1, m - 1);
      assert false;
    }
    if m < i {
      TwiceInSeq(order, m - 1, i - 1);
      assert false;
    }
  }
}
