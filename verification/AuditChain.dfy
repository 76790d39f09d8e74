/**
  The hash chain over the audit trail: how a row's payload is hashed, and the verifier that groups the
  rows by the hash they point back to, walks one branch from the root and reports everything else.
 */
module AuditChain {
  import opened Common
  import opened Sorting

  /** The canonical columns of an audit row, serialised; two rows agree on it exactly when every column agrees. */
  type Body = string

  /** SHA-256 of a canonical payload, as a free (hence injective) function of what is hashed. */
  datatype Digest = Sha256(id: Option<nat>, body: Body)

  datatype Row = Row(id: nat, body: Body, version: Option<nat>, prev: Option<Digest>, hash: Option<Digest>)

  const CHAIN_HASH_VERSION := 2

  /** Version 2 binds the identity of the row to its content; older rows hash their content alone. */
  function ComputePayloadHash(id: nat, body: Body, version: Option<nat>): Digest {
    if version == Some(CHAIN_HASH_VERSION) then Sha256(Some(id), body) else Sha256(None, body)
  }

  ghost predicate AllHashed(rows: seq<Row>) {
    forall r :: r in rows ==> r.hash.Some?
  }

  ghost predicate DistinctIds(rows: seq<Row>) {
    forall i, j :: 0 <= i < j < |rows| ==> rows[i].id != rows[j].id
  }

  ghost predicate DistinctHashes(rows: seq<Row>) {
    forall i, j :: 0 <= i < j < |rows| ==> rows[i].hash != rows[j].hash
  }

  function Ids(rows: seq<Row>): set<nat> {
    set r | r in rows :: r.id
  }

  function IdList(rows: seq<Row>): (ids: seq<nat>)
    ensures |ids| == |rows|
    ensures forall i :: 0 <= i < |rows| ==> ids[i] == rows[i].id
  {
    seq(|rows|, i requires 0 <= i < |rows| => rows[i].id)
  }

  // ---------------------------------------------------------------- the verifier

  /** The rows that point back to `key`, in table order. */
  function Children(rows: seq<Row>, key: Option<Digest>): (found: seq<Row>)
    ensures forall r :: r in found <==> r in rows && r.prev == key
  {
    if rows == [] then []
    else
      var last := rows[|rows| - 1];
      assert rows == rows[..|rows| - 1] + [last];
      Children(rows[..|rows| - 1], key) + if last.prev == key then [last] else []
  }

  function Unvisited(rows: seq<Row>, visited: set<nat>): (found: seq<Row>)
    ensures forall r :: r in found <==> r in rows && r.id !in visited
  {
    if rows == [] then []
    else (if rows[0].id in visited then [] else [rows[0]]) + Unvisited(rows[1..], visited)
  }

  /** Walk one branch; a fork or a dead end stops it and the unvisited rows of the fork are returned. */
  function Walk(rows: seq<Row>, current: Row, visited: set<nat>): (result: (set<nat>, seq<Row>))
    requires current in rows
    decreases Ids(rows) - visited
  {
    if current.id in visited then (visited, [])
    else
      assert current.id in Ids(rows);
      var seen := visited + {current.id};
      var successors := Children(rows, current.hash);
      if |successors| != 1 then (seen, Unvisited(successors, seen))
      else
        assert successors[0] in successors;
        Walk(rows, successors[0], seen)
  }

  function SortById(rows: seq<Row>): (r: seq<Row>)
    ensures multiset(r) == multiset(rows) && Ordered((row: Row) => row.id, r)
  {
    Sort((row: Row) => row.id, rows)
  }

  /** Ids of the rows neither visited nor already reported. */
  function Leftover(rows: seq<Row>, visited: set<nat>, reported: seq<nat>): (ids: seq<nat>)
    ensures forall k :: k in ids <==> exists r :: r in rows && r.id == k && k !in visited && k !in reported
  {
    if rows == [] then []
    else
      var last := rows[|rows| - 1];
      assert rows == rows[..|rows| - 1] + [last];
      Leftover(rows[..|rows| - 1], visited, reported)
        + if last.id !in visited && last.id !in reported then [last.id] else []
  }

  /** The branch walked from the first root, and the rows that fork off it. */
  function MainBranch(rows: seq<Row>, roots: seq<Row>): (set<nat>, seq<Row>)
    requires forall r :: r in roots ==> r in rows
  {
    if roots == [] then ({}, [])
    else assert roots[0] in roots; Walk(rows, roots[0], {})
  }

  function Roots(rows: seq<Row>): (roots: seq<Row>)
    ensures forall r :: r in roots <==> r in rows && r.prev == None
    ensures Ordered((row: Row) => row.id, roots)
  {
    var found := Children(rows, None);
    assert forall r :: r in SortById(found) <==> r in multiset(found);
    SortById(found)
  }

  /** Rows visited along the main branch. */
  function Visited(rows: seq<Row>): set<nat> {
    MainBranch(rows, Roots(rows)).0
  }

  /** Extra roots, then forks of the main branch, then everything the walk never reached. */
  function LinkIssues(rows: seq<Row>): seq<nat> {
    var roots := Roots(rows);
    var (visited, branches) := MainBranch(rows, roots);
    var extra := if roots == [] then [] else IdList(roots[1..]);
    var reported := extra + IdList(branches);
    reported + Leftover(rows, visited, reported)
  }

  predicate PayloadIntact(row: Row) {
    row.hash == Some(ComputePayloadHash(row.id, row.body, row.version))
  }

  function Hashed(rows: seq<Row>): (found: seq<Row>)
    ensures forall r :: r in found <==> r in rows && r.hash.Some?
  {
    if rows == [] then [] else (if rows[0].hash.Some? then [rows[0]] else []) + Hashed(rows[1..])
  }

  function Tampered(rows: seq<Row>): (ids: seq<nat>)
    ensures ids == [] <==> forall r :: r in rows ==> PayloadIntact(r)
  {
    if rows == [] then []
    else
      assert rows[0] in rows;
      (if PayloadIntact(rows[0]) then [] else [rows[0].id]) + Tampered(rows[1..])
  }

  /** Every finding of a verification run; rows older than the mechanism (no hash) are skipped. */
  function Verify(rows: seq<Row>): seq<nat> {
    var hashed := Hashed(rows);
    Tampered(hashed) + LinkIssues(hashed)
  }

  // ---------------------------------------------------------------- the loops of the program

  ghost predicate IndexOf(children: map<Option<Digest>, seq<Row>>, rows: seq<Row>) {
    forall key: Option<Digest> ::
      Children(rows, key) == if key in children then children[key] else []
  }

  /** The walk loop computes Walk. */
  method WalkChain(ghost rows: seq<Row>, root: Row, children: map<Option<Digest>, seq<Row>>)
    returns (visited: set<nat>, branches: seq<Row>)
    requires root in rows && IndexOf(children, rows)
    ensures (visited, branches) == Walk(rows, root, {})
  {
    visited, branches := {}, [];
    var current := root;
    while current.id !in visited
      invariant current in rows
      invariant Walk(rows, current, visited) == Walk(rows, root, {})
      decreases Ids(rows) - visited
    {
      ghost var before := visited;
      assert current.id in Ids(rows);
      visited := visited + {current.id};
      var successors := if current.hash in children then children[current.hash] else [];
      assert successors == Children(rows, current.hash);
      if |successors| != 1 {
        branches := Unvisited(successors, visited);
        return;
      }
      assert successors[0] in successors;
      current := successors[0];
    }
  }

  lemma ChildrenSnoc(rows: seq<Row>, row: Row, key: Option<Digest>)
    ensures Children(rows + [row], key) == Children(rows, key) + if row.prev == key then [row] else []
  {
    assert (rows + [row])[..|rows|] == rows;
  }

  function Appended(children: map<Option<Digest>, seq<Row>>, row: Row): map<Option<Digest>, seq<Row>> {
    children[row.prev := (if row.prev in children then children[row.prev] else []) + [row]]
  }

  lemma AppendedIndexes(children: map<Option<Digest>, seq<Row>>, rows: seq<Row>, row: Row)
    requires IndexOf(children, rows)
    ensures IndexOf(Appended(children, row), rows + [row])
  {
    forall key: Option<Digest>
      ensures Children(rows + [row], key)
           == if key in Appended(children, row) then Appended(children, row)[key] else []
    {
      ChildrenSnoc(rows, row, key);
      assert Children(rows, key) == if key in children then children[key] else [];
    }
  }

  /** The grouping loop: every row lands in the list of the hash it points back to, in table order. */
  method GroupByPrev(rows: seq<Row>) returns (children: map<Option<Digest>, seq<Row>>)
    ensures IndexOf(children, rows)
  {
    children := map[];
    for i := 0 to |rows|
      invariant IndexOf(children, rows[..i])
    {
      AppendedIndexes(children, rows[..i], rows[i]);
      assert rows[..i + 1] == rows[..i] + [rows[i]];
      children := Appended(children, rows[i]);
    }
    assert rows[..|rows|] == rows;
  }

  /** The last loop of the report. */
  method CollectLeftover(rows: seq<Row>, visited: set<nat>, reported: seq<nat>) returns (rest: seq<nat>)
    ensures rest == Leftover(rows, visited, reported)
  {
    rest := [];
    for i := 0 to |rows|
      invariant rest == Leftover(rows[..i], visited, reported)
    {
      assert rows[..i + 1][..i] == rows[..i];
      if rows[i].id !in visited && rows[i].id !in reported {
        rest := rest + [rows[i].id];
      }
    }
    assert rows[..|rows|] == rows;
  }

  /** The whole link report, proved to be LinkIssues. */
  method ChainLinkIssues(rows: seq<Row>) returns (issues: seq<nat>)
    ensures issues == LinkIssues(rows)
  {
    var children := GroupByPrev(rows);
    assert Children(rows, None) == if None in children then children[None] else [];
    var roots := SortById(if None in children then children[None] else []);
    assert roots == Roots(rows);
    issues := if roots == [] then [] else IdList(roots[1..]);
    var visited: set<nat> := {};
    var branches: seq<Row> := [];
    if roots != [] {
      assert roots[0] in roots;
      visited, branches := WalkChain(rows, roots[0], children);
    }
    issues := issues + IdList(branches);
    var rest := CollectLeftover(rows, visited, issues);
    issues := issues + rest;
  }

}
