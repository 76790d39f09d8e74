/**
  Writers of the audit trail. A transaction takes the advisory lock, reads the head of the chain, and
  stamps batches of ORM rows and single Core rows over several flushes; the tail it has reserved is
  cached on the connection together with the transaction it belongs to. The state machine below
  interleaves any number of such transactions.
 */
module AuditWriters {
  import opened Common
  import opened Sorting
  import opened AuditChain
  import opened AuditChainTheorems

  /** A row about to be written: its identity is already assigned. */
  datatype Draft = Draft(id: nat, body: Body)

  /** The tail reserved by a transaction, cached on its connection. */
  datatype PendingTail = PendingTail(txn: nat, tail: Option<Digest>)

  function Stamp(draft: Draft, tail: Option<Digest>): Row {
    var version := Some(CHAIN_HASH_VERSION);
    Row(draft.id, draft.body, version, tail, Some(ComputePayloadHash(draft.id, draft.body, version)))
  }

  function StampAll(drafts: seq<Draft>, tail: Option<Digest>): (rows: seq<Row>)
    ensures |rows| == |drafts|
  {
    if drafts == [] then [] else [Stamp(drafts[0], tail)] + StampAll(drafts[1..], Stamp(drafts[0], tail).hash)
  }

  function Tail(rows: seq<Row>, start: Option<Digest>): Option<Digest> {
    if rows == [] then start else rows[|rows| - 1].hash
  }

  function SortDrafts(drafts: seq<Draft>): (r: seq<Draft>)
    ensures multiset(r) == multiset(drafts) && Ordered((draft: Draft) => draft.id, r)
  {
    Sort((draft: Draft) => draft.id, drafts)
  }

  predicate HasSuccessor(row: Row, all: seq<Row>) {
    exists i :: 0 <= i < |all| && row.hash.Some? && all[i].prev == row.hash
  }

  /** Rows with a hash that no other row points back to. */
  function Heads(rows: seq<Row>, all: seq<Row>): (heads: seq<Row>)
    ensures forall r :: r in heads <==> r in rows && r.hash.Some? && !HasSuccessor(r, all)
  {
    if rows == [] then []
    else (if rows[0].hash.Some? && !HasSuccessor(rows[0], all) then [rows[0]] else []) + Heads(rows[1..], all)
  }

  /** The terminal hash by link topology; two heads are an error. */
  function LastChainHash(visible: seq<Row>): Result<Option<Digest>> {
    var heads := Heads(visible, visible);
    if |heads| > 1 then Err("La cadena de auditoria tiene mas de una cabeza terminal.")
    else if heads == [] then Ok(None)
    else Ok(heads[0].hash)
  }

  lemma StampTurn(chained: seq<Row>, drafts: seq<Draft>, i: nat, tail: Option<Digest>)
    requires i < |drafts|
    ensures var row := Stamp(drafts[i], tail);
            chained + StampAll(drafts[i..], tail) == (chained + [row]) + StampAll(drafts[i + 1..], row.hash)
  {
    assert drafts[i..][1..] == drafts[i + 1..];
  }

  // ---------------------------------------------------------------- the connection, step by step

  predicate CacheValid(info: Option<PendingTail>, txn: nat) {
    info.Some? && info.value.txn == txn
  }

  function PendingChainTail(info: Option<PendingTail>, txn: nat, visible: seq<Row>): Result<Option<Digest>> {
    if CacheValid(info, txn) then Ok(info.value.tail) else LastChainHash(visible)
  }

  /** A database connection inside one transaction, with the bag of information kept on it. */
  class Connection {
    const txn: nat
    var info: Option<PendingTail>

    constructor (txn: nat, leftBehind: Option<PendingTail>)
      ensures this.txn == txn && info == leftBehind
    {
      this.txn := txn;
      info := leftBehind;
    }

    /** The tail reserved so far, reading the head of the chain only when no valid tail is cached. */
    method ReserveTail(visible: seq<Row>) returns (tail: Result<Option<Digest>>)
      modifies this
      ensures tail == PendingChainTail(old(info), txn, visible)
      ensures tail.Ok? ==> info == Some(PendingTail(txn, tail.value))
      ensures tail.Err? ==> info == old(info)
    {
      if info.Some? && info.value.txn == txn {
        return Ok(info.value.tail);
      }
      tail := LastChainHash(visible);
      if tail.Ok? {
        info := Some(PendingTail(txn, tail.value));
      }
    }

    /** Chain one row, whether a Core insert or an ORM row the batch did not cover. */
    method StampOne(draft: Draft, visible: seq<Row>) returns (row: Result<Row>)
      modifies this
      ensures row.Ok? <==> PendingChainTail(old(info), txn, visible).Ok?
      ensures row.Ok? ==>
                && row.value == Stamp(draft, PendingChainTail(old(info), txn, visible).value)
                && info == Some(PendingTail(txn, row.value.hash))
      ensures row.Err? ==> info == old(info)
    {
      var tail := ReserveTail(visible);
      if tail.Err? {
        return Err(tail.error);
      }
      var stamped := Stamp(draft, tail.value);
      info := Some(PendingTail(txn, stamped.hash));
      row := Ok(stamped);
    }

    /** Chain the pending rows of a flush, in id order, onto the head visible when the flush starts. */
    method ChainPendingRows(pending: seq<Draft>, visible: seq<Row>) returns (rows: Result<seq<Row>>)
      modifies this
      ensures pending == [] ==> rows == Ok([]) && info == None
      ensures pending != [] ==> (rows.Ok? <==> LastChainHash(visible).Ok?)
      ensures pending != [] && rows.Ok? ==>
                && rows.value == StampAll(SortDrafts(pending), LastChainHash(visible).value)
                && info == Some(PendingTail(txn, Tail(rows.value, LastChainHash(visible).value)))
      ensures rows.Err? ==> info == None
    {
      info := None;
      if pending == [] {
        return Ok([]);
      }
      var head := LastChainHash(visible);
      if head.Err? {
        return Err(head.error);
      }
      var sorted := SortDrafts(pending);
      var tail := head.value;
      var chained: seq<Row> := [];
      ghost var whole := StampAll(sorted, tail);
      assert sorted[0..] == sorted && [] + whole == whole;
      for i := 0 to |sorted|
        invariant chained + StampAll(sorted[i..], tail) == whole
        invariant tail == Tail(chained, head.value)
      {
        var row := Stamp(sorted[i], tail);
        StampTurn(chained, sorted, i, tail);
        chained := chained + [row];
        tail := row.hash;
      }
      assert sorted[|sorted|..] == [] && chained + [] == chained;
      info := Some(PendingTail(txn, tail));
      rows := Ok(chained);
    }
  }

  // ---------------------------------------------------------------- interleaved transactions

  /**
    A session: the serial number of its transaction, whether it is open, the rows it has inserted but
    not committed, the rows stamped in the current flush but not inserted yet, and the connection's
    cache, which outlives transactions. `stamped` records the order in which rows were chained.
   */
  datatype Session = Session(txn: nat, open: bool, inserted: seq<Row>, queued: seq<Row>,
                             info: Option<PendingTail>, stamped: seq<Row>)

  /** The committed table, the chaining order of its rows, the holder of the advisory lock, the sessions. */
  datatype Store = Store(committed: seq<Row>, chain: seq<Row>, lock: Option<nat>,
                         sessions: map<nat, Session>, nextTxn: nat)

  datatype Step =
    | Begin(c: nat)
    | StartFlush(c: nat, pending: seq<Draft>)   // chain_pending_rows
    | CoreInsert(c: nat, draft: Draft)          // stamp_audit_values and its INSERT
    | StampEntry(c: nat, draft: Draft)          // stamp_audit_entry; the INSERT comes later in the flush
    | InsertQueued(c: nat)
    | Commit(c: nat)
    | Rollback(c: nat)

  /** READ COMMITTED: what a statement of session c sees. */
  function Visible(s: Store, c: nat): seq<Row>
    requires c in s.sessions
  {
    s.committed + s.sessions[c].inserted
  }

  predicate LockFree(s: Store, c: nat) {
    s.lock == None || s.lock == Some(c)
  }

  ghost predicate DistinctDrafts(drafts: seq<Draft>) {
    forall i, j :: 0 <= i < j < |drafts| ==> drafts[i].id != drafts[j].id
  }

  ghost predicate NewTo(drafts: seq<Draft>, rows: seq<Row>) {
    forall d, r :: d in drafts && r in rows ==> d.id != r.id
  }

  ghost predicate FreshIds(s: Store, drafts: seq<Draft>) {
    && DistinctDrafts(drafts) && NewTo(drafts, s.chain)
    && forall c :: c in s.sessions ==> NewTo(drafts, s.sessions[c].stamped)
  }

  function With(s: Store, c: nat, session: Session): Store {
    s.(sessions := s.sessions[c := session])
  }

  /** One step of one session; a reader of the head waits until the lock is free and then holds it. */
  ghost predicate Next(s: Store, step: Step, t: Store) {
    && step.c in s.sessions
    && var me := s.sessions[step.c];
       match step
       case Begin(c) =>
         !me.open && t == With(s, c, me.(txn := s.nextTxn, open := true)).(nextTxn := s.nextTxn + 1)
       case StartFlush(c, pending) =>
         && me.open && me.queued == []
         && if pending == [] then t == With(s, c, me.(info := None))
            else
              && LockFree(s, c) && FreshIds(s, pending) && LastChainHash(Visible(s, c)).Ok?
              && var rows := StampAll(SortDrafts(pending), LastChainHash(Visible(s, c)).value);
                 var tail := Tail(rows, LastChainHash(Visible(s, c)).value);
                 t == With(s, c, me.(queued := rows, stamped := me.stamped + rows,
                                     info := Some(PendingTail(me.txn, tail)))).(lock := Some(c))
       case CoreInsert(c, draft) =>
         && CanStamp(s, c, draft)
         && var row := Stamp(draft, PendingChainTail(me.info, me.txn, Visible(s, c)).value);
            t == With(s, c, me.(inserted := me.inserted + [row], stamped := me.stamped + [row],
                                info := Some(PendingTail(me.txn, row.hash)))).(lock := Some(c))
       case StampEntry(c, draft) =>
         && CanStamp(s, c, draft)
         && var row := Stamp(draft, PendingChainTail(me.info, me.txn, Visible(s, c)).value);
            t == With(s, c, me.(queued := me.queued + [row], stamped := me.stamped + [row],
                                info := Some(PendingTail(me.txn, row.hash)))).(lock := Some(c))
       case InsertQueued(c) =>
         me.open && me.queued != []
         && t == With(s, c, me.(inserted := me.inserted + [me.queued[0]], queued := me.queued[1..]))
       case Commit(c) =>
         && me.open && me.queued == []
         && t == With(s, c, me.(open := false, inserted := [], stamped := []))
                 .(committed := s.committed + me.inserted, chain := s.chain + me.stamped,
                   lock := if s.lock == Some(c) then None else s.lock)
       case Rollback(c) =>
         me.open
         && t == With(s, c, me.(open := false, inserted := [], queued := [], stamped := []))
                 .(lock := if s.lock == Some(c) then None else s.lock)
  }

  ghost predicate CanStamp(s: Store, c: nat, draft: Draft) {
    && c in s.sessions && s.sessions[c].open && FreshIds(s, [draft])
    && (CacheValid(s.sessions[c].info, s.sessions[c].txn) || LockFree(s, c))
    && PendingChainTail(s.sessions[c].info, s.sessions[c].txn, Visible(s, c)).Ok?
  }

  // ---------------------------------------------------------------- the invariant

  /** Rows exactly as the writers stamp them, each onto the previous one. */
  ghost predicate Stamped(rows: seq<Row>) {
    forall i :: 0 <= i < |rows| ==> StampedAt(rows, i)
  }

  ghost predicate StampedAt(rows: seq<Row>, i: nat)
    requires i < |rows|
  {
    && PayloadIntact(rows[i]) && rows[i].version == Some(CHAIN_HASH_VERSION)
    && rows[i].prev == if i == 0 then None else rows[i - 1].hash
  }

  ghost predicate GoodChain(rows: seq<Row>) {
    Stamped(rows) && DistinctIds(rows)
  }

  ghost predicate Idle(session: Session) {
    session.inserted == [] && session.queued == [] && session.stamped == []
  }

  ghost predicate HolderOk(chain: seq<Row>, me: Session) {
    && me.open && GoodChain(chain + me.stamped)
    && multiset(me.stamped) == multiset(me.inserted) + multiset(me.queued)
    && (CacheValid(me.info, me.txn) ==> me.info.value.tail == Tail(chain + me.stamped, None))
    && (me.queued != [] ==> CacheValid(me.info, me.txn))
  }

  /** The lock holder extends the chain; every other session has nothing of its own, and no tail it could reuse. */
  ghost predicate SessionOk(s: Store, c: nat)
    requires c in s.sessions
  {
    var me := s.sessions[c];
    && me.txn < s.nextTxn && (me.info.Some? ==> me.info.value.txn < s.nextTxn)
    && if s.lock == Some(c) then HolderOk(s.chain, me)
       else Idle(me) && (me.open ==> !CacheValid(me.info, me.txn))
  }

  ghost predicate Inv(s: Store) {
    && GoodChain(s.chain) && multiset(s.committed) == multiset(s.chain)
    && (s.lock.Some? ==> s.lock.value in s.sessions)
    && forall c :: c in s.sessions ==> SessionOk(s, c)
  }

  /** No transaction is open and the table holds one chain (possibly empty). */
  ghost predicate Init(s: Store) {
    && GoodChain(s.chain) && s.committed == s.chain && s.lock == None
    && forall c :: c in s.sessions ==>
         var me := s.sessions[c];
         Idle(me) && !me.open && me.txn < s.nextTxn && (me.info.Some? ==> me.info.value.txn < s.nextTxn)
  }

  // ---------------------------------------------------------------- the head of a chain

  lemma ChainIsOrdered(rows: seq<Row>)
    requires GoodChain(rows)
    ensures ChainOrder(rows) && AllHashed(rows) && AllVersion2(rows) && AllIntact(rows) && DistinctHashes(rows)
  {
    assert rows != [] ==> StampedAt(rows, 0);
    forall i | 0 <= i < |rows|
      ensures PayloadIntact(rows[i]) && rows[i].version == Some(CHAIN_HASH_VERSION)
      ensures i > 0 ==> rows[i].prev == rows[i - 1].hash
    {
      assert StampedAt(rows, i);
    }
    IntactHashesDiffer(rows);
  }

  /** The query for the head returns the last row stamped, and never two rows. */
  lemma HeadOfChain(visible: seq<Row>, order: seq<Row>)
    requires GoodChain(order) && multiset(visible) == multiset(order)
    ensures LastChainHash(visible) == Ok(Tail(order, None))
  {
    ChainIsOrdered(order);
    MemberOfPermutation(visible, order);
    var heads := Heads(visible, visible);
    forall r | r in heads
      ensures order != [] && r == order[|order| - 1]
    {
      OnlyLastIsHead(visible, order, r);
    }
    HeadIsMember(heads);
    if order != [] {
      LastHasNoSuccessor(visible, order);
      var last := order[|order| - 1];
      assert last in order && last in heads;
      PermutationIsDistinct(order, visible);
      AtMostOnce(visible);
      HeadsOnce(visible, visible, last);
      OnlyMember(heads, last);
    }
  }

  lemma OnlyLastIsHead(visible: seq<Row>, order: seq<Row>, r: Row)
    requires GoodChain(order) && multiset(visible) == multiset(order)
    requires r in visible && !HasSuccessor(r, visible)
    ensures order != [] && r == order[|order| - 1]
  {
    MemberOfPermutation(visible, order);
    var i :| 0 <= i < |order| && order[i] == r;
    if i + 1 < |order| {
      InnerRowHasSuccessor(visible, order, i);
      assert false;
    }
  }

  lemma InnerRowHasSuccessor(visible: seq<Row>, order: seq<Row>, i: nat)
    requires GoodChain(order) && multiset(visible) == multiset(order) && i + 1 < |order|
    ensures HasSuccessor(order[i], visible)
  {
    MemberOfPermutation(visible, order);
    assert order[i + 1] in visible;
    var k :| 0 <= k < |visible| && visible[k] == order[i + 1];
    assert StampedAt(order, i) && StampedAt(order, i + 1);
  }

  lemma LastHasNoSuccessor(visible: seq<Row>, order: seq<Row>)
    requires GoodChain(order) && multiset(visible) == multiset(order) && order != []
    ensures !HasSuccessor(order[|order| - 1], visible)
  {
    ChainIsOrdered(order);
    MemberOfPermutation(visible, order);
    forall k | 0 <= k < |visible|
      ensures visible[k].prev != order[|order| - 1].hash
    {
      assert visible[k] in order;
      var j :| 0 <= j < |order| && order[j] == visible[k];
      assert StampedAt(order, j) && StampedAt(order, |order| - 1);
      assert j > 0 ==> order[j - 1].hash != order[|order| - 1].hash;
    }
  }

  lemma {:induction false} HeadsOnce(rows: seq<Row>, all: seq<Row>, r: Row)
    ensures multiset(Heads(rows, all))[r] <= multiset(rows)[r]
  {
    if rows != [] {
      HeadsOnce(rows[1..], all, r);
      assert rows == [rows[0]] + rows[1..];
    }
  }

  // ---------------------------------------------------------------- growing a chain

  lemma StampExtends(chain: seq<Row>, draft: Draft)
    requires GoodChain(chain) && forall r :: r in chain ==> r.id != draft.id
    ensures GoodChain(chain + [Stamp(draft, Tail(chain, None))])
  {
    var grown := chain + [Stamp(draft, Tail(chain, None))];
    forall i | 0 <= i < |grown|
      ensures StampedAt(grown, i)
    {
      if i < |chain| {
        assert StampedAt(chain, i);
      }
    }
    forall i, j | 0 <= i < j < |grown|
      ensures grown[i].id != grown[j].id
    {
      assert grown[i] == chain[i] && chain[i] in chain;
    }
  }

  lemma {:induction false} StampAllExtends(chain: seq<Row>, drafts: seq<Draft>)
    requires GoodChain(chain) && DistinctDrafts(drafts) && NewTo(drafts, chain)
    ensures GoodChain(chain + StampAll(drafts, Tail(chain, None)))
    ensures Tail(StampAll(drafts, Tail(chain, None)), Tail(chain, None))
         == Tail(chain + StampAll(drafts, Tail(chain, None)), None)
    decreases |drafts|
  {
    if drafts == [] {
      assert chain + [] == chain;
    } else {
      var row := Stamp(drafts[0], Tail(chain, None));
      assert drafts[0] in drafts;
      StampExtends(chain, drafts[0]);
      RestIsNew(chain, drafts, row);
      StampAllExtends(chain + [row], drafts[1..]);
      var rest := StampAll(drafts[1..], row.hash);
      assert Tail(chain + [row], None) == row.hash;
      assert chain + ([row] + rest) == (chain + [row]) + rest;
    }
  }

  lemma RestIsNew(chain: seq<Row>, drafts: seq<Draft>, row: Row)
    requires DistinctDrafts(drafts) && NewTo(drafts, chain) && drafts != [] && row.id == drafts[0].id
    ensures DistinctDrafts(drafts[1..]) && NewTo(drafts[1..], chain + [row])
  {
    forall d, r | d in drafts[1..] && r in chain + [row]
      ensures d.id != r.id
    {
      var k :| 0 <= k < |drafts[1..]| && drafts[1..][k] == d;
      assert drafts[k + 1] == d;
    }
  }

  lemma SortedDraftsStayFresh(drafts: seq<Draft>, chain: seq<Row>)
    requires DistinctDrafts(drafts) && NewTo(drafts, chain)
    ensures DistinctDrafts(SortDrafts(drafts)) && NewTo(SortDrafts(drafts), chain)
  {
    var sorted := SortDrafts(drafts);
    forall d | d in sorted
      ensures d in drafts
    {
      assert d in multiset(sorted);
    }
    forall i, j | 0 <= i < j < |sorted|
      ensures sorted[i].id != sorted[j].id
    {
      assert sorted[i] in drafts && sorted[j] in drafts;
      DraftsDiffer(drafts, sorted, i, j);
    }
  }

  lemma DraftsDiffer(drafts: seq<Draft>, sorted: seq<Draft>, i: nat, j: nat)
    requires DistinctDrafts(drafts) && multiset(sorted) == multiset(drafts) && i < j < |sorted|
    ensures sorted[i] != sorted[j]
  {
    DraftOnce(drafts, sorted[i]);
    assert sorted == sorted[..i] + [sorted[i]] + sorted[i + 1..j] + [sorted[j]] + sorted[j + 1..];
  }

  lemma {:induction false} DraftOnce(drafts: seq<Draft>, d: Draft)
    requires DistinctDrafts(drafts)
    ensures multiset(drafts)[d] <= 1
  {
    if drafts != [] {
      DraftOnce(drafts[1..], d);
      CountHead(drafts, d);
      if drafts[0] == d {
        assert d !in drafts[1..];
      }
    }
  }

  // ---------------------------------------------------------------- every step keeps the invariant

  /** What a session that may read the head sees is the chain followed by its own rows. */
  lemma HeadAsSeen(s: Store, c: nat)
    requires Inv(s) && c in s.sessions && s.sessions[c].queued == []
    ensures LastChainHash(Visible(s, c)) == Ok(Tail(s.chain + s.sessions[c].stamped, None))
  {
    var me := s.sessions[c];
    if s.lock != Some(c) {
      assert s.chain + me.stamped == s.chain;
    }
    HeadOfChain(Visible(s, c), s.chain + me.stamped);
  }

  lemma ReservedTail(s: Store, c: nat, draft: Draft)
    requires Inv(s) && CanStamp(s, c, draft)
    ensures PendingChainTail(s.sessions[c].info, s.sessions[c].txn, Visible(s, c))
         == Ok(Tail(s.chain + s.sessions[c].stamped, None))
    ensures s.lock == None || s.lock == Some(c)
  {
    var me := s.sessions[c];
    if !CacheValid(me.info, me.txn) {
      HeadAsSeen(s, c);
    }
  }

  lemma OthersUntouched(s: Store, t: Store, c: nat)
    requires Inv(s) && c in s.sessions && LockFree(s, c)
    requires t.chain == s.chain && t.committed == s.committed && t.nextTxn == s.nextTxn
    requires c in t.sessions && t.sessions == s.sessions[c := t.sessions[c]] && t.lock == Some(c)
    requires HolderOk(t.chain, t.sessions[c]) && t.sessions[c].txn == s.sessions[c].txn
    requires t.sessions[c].info.Some? ==> t.sessions[c].info.value.txn < t.nextTxn
    ensures Inv(t)
  {
  }

  lemma HolderBefore(s: Store, c: nat)
    requires Inv(s) && c in s.sessions && LockFree(s, c)
    ensures GoodChain(s.chain + s.sessions[c].stamped)
    ensures multiset(s.sessions[c].stamped) == multiset(s.sessions[c].inserted) + multiset(s.sessions[c].queued)
  {
    if s.lock != Some(c) {
      assert s.chain + s.sessions[c].stamped == s.chain;
    }
  }

  lemma FreshForChain(s: Store, drafts: seq<Draft>, c: nat)
    requires FreshIds(s, drafts) && c in s.sessions
    ensures NewTo(drafts, s.chain + s.sessions[c].stamped)
  {
    assert NewTo(drafts, s.sessions[c].stamped);
  }

  /** The holder chains more rows: they land in its inserted or queued rows, and the cache names the new tail. */
  lemma HolderGrows(chain: seq<Row>, me: Session, me': Session, rows: seq<Row>)
    requires me'.open && rows != [] && GoodChain(chain + me.stamped + rows)
    requires multiset(me.stamped) == multiset(me.inserted) + multiset(me.queued)
    requires me'.stamped == me.stamped + rows
    requires multiset(me'.inserted) + multiset(me'.queued)
          == multiset(me.inserted) + multiset(me.queued) + multiset(rows)
    requires me'.info == Some(PendingTail(me'.txn, rows[|rows| - 1].hash))
    ensures HolderOk(chain, me')
  {
    assert chain + me'.stamped == chain + me.stamped + rows;
  }

  /** A batch chained in id order extends the chain. */
  lemma BatchExtends(order: seq<Row>, pending: seq<Draft>)
    requires GoodChain(order) && DistinctDrafts(pending) && NewTo(pending, order) && pending != []
    ensures var rows := StampAll(SortDrafts(pending), Tail(order, None));
            rows != [] && GoodChain(order + rows) && Tail(rows, Tail(order, None)) == Tail(order + rows, None)
  {
    var sorted := SortDrafts(pending);
    assert |multiset(sorted)| == |multiset(pending)|;
    SortedDraftsStayFresh(pending, order);
    StampAllExtends(order, sorted);
  }

  lemma StartFlushKeepsInv(s: Store, c: nat, pending: seq<Draft>, t: Store)
    requires Inv(s) && Next(s, StartFlush(c, pending), t)
    ensures Inv(t)
  {
    var me := s.sessions[c];
    if pending != [] {
      HeadAsSeen(s, c);
      HolderBefore(s, c);
      FreshForChain(s, pending, c);
      BatchExtends(s.chain + me.stamped, pending);
      HolderGrows(s.chain, me, t.sessions[c], StampAll(SortDrafts(pending), Tail(s.chain + me.stamped, None)));
      OthersUntouched(s, t, c);
    } else {
      ForgettingKeepsInv(s, c, t);
    }
  }

  /** An empty flush drops the cached tail. */
  lemma ForgettingKeepsInv(s: Store, c: nat, t: Store)
    requires Inv(s) && c in s.sessions && s.sessions[c].queued == []
    requires t == With(s, c, s.sessions[c].(info := None))
    ensures Inv(t)
  {
    assert SessionOk(s, c);
    forall k | k in t.sessions ensures SessionOk(t, k) {
      assert SessionOk(s, k);
    }
  }

  lemma CoreInsertKeepsInv(s: Store, c: nat, draft: Draft, t: Store)
    requires Inv(s) && Next(s, CoreInsert(c, draft), t)
    ensures Inv(t)
  {
    StampedRow(s, c, draft);
    var row := Stamp(draft, Tail(s.chain + s.sessions[c].stamped, None));
    HolderGrows(s.chain, s.sessions[c], t.sessions[c], [row]);
    OthersUntouched(s, t, c);
  }

  lemma StampEntryKeepsInv(s: Store, c: nat, draft: Draft, t: Store)
    requires Inv(s) && Next(s, StampEntry(c, draft), t)
    ensures Inv(t)
  {
    StampedRow(s, c, draft);
    var row := Stamp(draft, Tail(s.chain + s.sessions[c].stamped, None));
    HolderGrows(s.chain, s.sessions[c], t.sessions[c], [row]);
    OthersUntouched(s, t, c);
  }

  lemma StampedRow(s: Store, c: nat, draft: Draft)
    requires Inv(s) && CanStamp(s, c, draft)
    ensures LockFree(s, c)
    ensures var me := s.sessions[c];
            var row := Stamp(draft, Tail(s.chain + me.stamped, None));
            && PendingChainTail(me.info, me.txn, Visible(s, c)) == Ok(Tail(s.chain + me.stamped, None))
            && GoodChain(s.chain + me.stamped + [row])
            && multiset(me.stamped) == multiset(me.inserted) + multiset(me.queued)
  {
    ReservedTail(s, c, draft);
    HolderBefore(s, c);
    FreshForChain(s, [draft], c);
    assert draft in [draft];
    StampExtends(s.chain + s.sessions[c].stamped, draft);
  }

  lemma InsertKeepsInv(s: Store, c: nat, t: Store)
    requires Inv(s) && Next(s, InsertQueued(c), t)
    ensures Inv(t)
  {
    var me := s.sessions[c];
    assert me.queued == [me.queued[0]] + me.queued[1..];
    OthersUntouched(s, t, c);
  }

  lemma CommittedTables(s: Store, c: nat)
    requires Inv(s) && c in s.sessions && s.sessions[c].queued == []
    ensures var me := s.sessions[c];
            GoodChain(s.chain + me.stamped) && multiset(s.committed + me.inserted) == multiset(s.chain + me.stamped)
  {
    if s.lock != Some(c) {
      assert s.chain + s.sessions[c].stamped == s.chain && s.committed + s.sessions[c].inserted == s.committed;
    }
  }

  lemma CommitKeepsInv(s: Store, c: nat, t: Store)
    requires Inv(s) && Next(s, Commit(c), t)
    ensures Inv(t)
  {
    CommittedTables(s, c);
    assert SessionOk(s, c);
    if s.lock != Some(c) { assert t.chain == s.chain; }
    forall k | k in t.sessions ensures SessionOk(t, k) {
      assert SessionOk(s, k);
    }
  }

  lemma RollbackKeepsInv(s: Store, c: nat, t: Store)
    requires Inv(s) && Next(s, Rollback(c), t)
    ensures Inv(t)
  {
    assert SessionOk(s, c);
    forall k | k in t.sessions ensures SessionOk(t, k) {
      assert SessionOk(s, k);
    }
  }

  lemma StepKeepsInv(s: Store, step: Step, t: Store)
    requires Inv(s) && Next(s, step, t)
    ensures Inv(t) && s.chain <= t.chain
  {
    match step
    case Begin(c) =>
    case StartFlush(c, pending) => StartFlushKeepsInv(s, c, pending, t);
    case CoreInsert(c, draft) => CoreInsertKeepsInv(s, c, draft, t);
    case StampEntry(c, draft) => StampEntryKeepsInv(s, c, draft, t);
    case InsertQueued(c) => InsertKeepsInv(s, c, t);
    case Commit(c) => CommitKeepsInv(s, c, t);
    case Rollback(c) => RollbackKeepsInv(s, c, t);
  }

  // ---------------------------------------------------------------- whole runs

  ghost predicate Run(states: seq<Store>, steps: seq<Step>) {
    && |states| == |steps| + 1 && Init(states[0])
    && forall i :: 0 <= i < |steps| ==> Next(states[i], steps[i], states[i + 1])
  }

  lemma {:induction false} RunKeepsInv(states: seq<Store>, steps: seq<Step>, i: nat)
    requires Run(states, steps) && i < |states|
    ensures Inv(states[i])
  {
    if i > 0 {
      RunKeepsInv(states, steps, i - 1);
      StepKeepsInv(states[i - 1], steps[i - 1], states[i]);
    }
  }

  /** At every moment of every interleaving the committed rows verify clean. */
  lemma CommittedChainVerifies(states: seq<Store>, steps: seq<Step>, i: nat)
    requires Run(states, steps) && i < |states|
    ensures Linear(states[i].committed) && Verify(states[i].committed) == []
  {
    RunKeepsInv(states, steps, i);
    var s := states[i];
    ChainIsOrdered(s.chain);
    MemberOfPermutation(s.committed, s.chain);
    PermutationIsDistinct(s.chain, s.committed);
    assert OrdersAs(s.committed, s.chain);
    HashedOfHashed(s.committed);
    VerifyIsEmptyIff(s.committed);
  }

  /** A session looks for the head when it starts a flush, having inserted its rows, or stamps without a cached tail. */
  predicate ReadsHead(me: Session) {
    me.queued == [] || !CacheValid(me.info, me.txn)
  }

  /** A session that looks for the head never finds two, and finds the last row it can link to. */
  lemma NeverTwoHeads(states: seq<Store>, steps: seq<Step>, i: nat, c: nat)
    requires Run(states, steps) && i < |states| && c in states[i].sessions && ReadsHead(states[i].sessions[c])
    ensures LastChainHash(Visible(states[i], c)) == Ok(Tail(states[i].chain + states[i].sessions[c].stamped, None))
  {
    RunKeepsInv(states, steps, i);
    HeadAsSeen(states[i], c);
  }

  /** Committed evidence is only ever appended to, in chaining order. */
  lemma CommittedChainOnlyGrows(states: seq<Store>, steps: seq<Step>, i: nat, j: nat)
    requires Run(states, steps) && i <= j < |states|
    ensures states[i].chain <= states[j].chain
    ensures multiset(states[i].committed) <= multiset(states[j].committed)
  {
    ChainOnlyGrows(states, steps, i, j);
    RunKeepsInv(states, steps, i);
    RunKeepsInv(states, steps, j);
    assert states[j].chain == states[i].chain + states[j].chain[|states[i].chain|..];
  }

  lemma {:induction false} ChainOnlyGrows(states: seq<Store>, steps: seq<Step>, i: nat, j: nat)
    requires Run(states, steps) && i <= j < |states|
    ensures states[i].chain <= states[j].chain
    decreases j - i
  {
    if i < j {
      ChainOnlyGrows(states, steps, i, j - 1);
      RunKeepsInv(states, steps, j - 1);
      StepKeepsInv(states[j - 1], steps[j - 1], states[j]);
    }
  }
}
