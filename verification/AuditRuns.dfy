/**
  What writers of the audit trail can do: from any state in which no transaction is open, each kind of transaction runs to
  its end, and leaves in the trail exactly what it chained.
 */
module AuditRuns {
  import opened Common
  import opened AuditChain
  import opened AuditWriters

  /** Steps that lead from one state to another. */
  ghost predicate Leads(s: Store, steps: seq<Step>, t: Store)
    decreases |steps|
  {
    if steps == [] then s == t else exists m: Store :: Next(s, steps[0], m) && Leads(m, steps[1..], t)
  }

  lemma OneStep(s: Store, steps: seq<Step>, m: Store, t: Store)
    requires steps != [] && Next(s, steps[0], m) && Leads(m, steps[1..], t)
    ensures Leads(s, steps, t)
  {
  }

  /** They are the steps of a run. */
  lemma {:induction false} StatesOnTheWay(s: Store, steps: seq<Step>, t: Store) returns (states: seq<Store>)
    requires Leads(s, steps, t)
    ensures |states| == |steps| + 1 && states[0] == s && states[|steps|] == t
    ensures forall i :: 0 <= i < |steps| ==> Next(states[i], steps[i], states[i + 1])
    decreases |steps|
  {
    states := [s];
    if steps != [] {
      var m: Store :| Next(s, steps[0], m) && Leads(m, steps[1..], t);
      var rest := StatesOnTheWay(m, steps[1..], t);
      states := [s] + rest;
      forall i | 0 <= i < |steps| ensures Next(states[i], steps[i], states[i + 1]) {
        if i > 0 { assert Next(rest[i - 1], steps[1..][i - 1], rest[i]); }
      }
    }
  }

  /** The session after its queued rows have been inserted. */
  function Drained(s: Store, c: nat): Store
    requires c in s.sessions
  {
    var me := s.sessions[c];
    s.(sessions := s.sessions[c := me.(inserted := me.inserted + me.queued, queued := [])])
  }

  function Inserts(c: nat, n: nat): seq<Step> {
    if n == 0 then [] else [InsertQueued(c)] + Inserts(c, n - 1)
  }

  /** The session after its first queued row has been inserted. */
  function Inserted(s: Store, c: nat): Store
    requires c in s.sessions && s.sessions[c].queued != []
  {
    var me := s.sessions[c];
    With(s, c, me.(inserted := me.inserted + [me.queued[0]], queued := me.queued[1..]))
  }

  lemma OneInserted(s: Store, c: nat)
    requires c in s.sessions && s.sessions[c].open && s.sessions[c].queued != []
    ensures Next(s, InsertQueued(c), Inserted(s, c))
  {
  }

  lemma DrainedAfterOne(s: Store, c: nat)
    requires c in s.sessions && s.sessions[c].queued != []
    ensures Drained(Inserted(s, c), c) == Drained(s, c)
  {
    var me := s.sessions[c];
    assert (me.inserted + [me.queued[0]]) + me.queued[1..] == me.inserted + me.queued;
  }

  lemma NothingToDrain(s: Store, c: nat)
    requires c in s.sessions && s.sessions[c].queued == []
    ensures Drained(s, c) == s
  {
    var me := s.sessions[c];
    assert me.inserted + me.queued == me.inserted && s.sessions[c := me] == s.sessions;
  }

  lemma FirstInsert(c: nat, n: nat, steps: seq<Step>)
    ensures n == 0 ==> Inserts(c, n) + steps == steps
    ensures n > 0 ==> var all := Inserts(c, n) + steps; all != [] && all[0] == InsertQueued(c) && all[1..] == Inserts(c, n - 1) + steps
  {
    if n > 0 { assert ([InsertQueued(c)] + Inserts(c, n - 1)) + steps == [InsertQueued(c)] + (Inserts(c, n - 1) + steps); }
  }

  lemma InsertAndGoOn(s: Store, c: nat, n: nat, steps: seq<Step>, t: Store)
    requires c in s.sessions && s.sessions[c].open && s.sessions[c].queued != [] && n > 0
    requires Leads(Inserted(s, c), Inserts(c, n - 1) + steps, t)
    ensures Leads(s, Inserts(c, n) + steps, t)
  {
    FirstInsert(c, n, steps);
    OneInserted(s, c);
    OneStep(s, Inserts(c, n) + steps, Inserted(s, c), t);
  }

  /** The rows of a flush can be inserted one after the other, before whatever comes next. */
  lemma {:induction false} QueueDrains(s: Store, c: nat, n: nat, steps: seq<Step>, t: Store)
    requires c in s.sessions && s.sessions[c].open && |s.sessions[c].queued| == n && Leads(Drained(s, c), steps, t)
    ensures Leads(s, Inserts(c, n) + steps, t)
    decreases n
  {
    if n == 0 {
      FirstInsert(c, n, steps);
      NothingToDrain(s, c);
    } else {
      DrainedAfterOne(s, c);
      QueueDrains(Inserted(s, c), c, n - 1, steps, t);
      InsertAndGoOn(s, c, n, steps, t);
    }
  }

  /** The state when a transaction of session c is over; nothing else has changed. */
  predicate Over(s: Store, c: nat, committed: seq<Row>, chain: seq<Row>, t: Store) {
    && t.committed == committed && t.chain == chain && t.lock == None
    && t.sessions.Keys == s.sessions.Keys && (forall o :: o in s.sessions && o != c ==> t.sessions[o] == s.sessions[o])
    && c in t.sessions && !t.sessions[c].open && t.sessions[c].inserted == [] && t.sessions[c].queued == []
  }

  /** Session c after it has begun. */
  function Begun(s: Store, c: nat): Store
    requires c in s.sessions
  {
    s.(sessions := s.sessions[c := s.sessions[c].(txn := s.nextTxn, open := true)], nextTxn := s.nextTxn + 1)
  }

  lemma BeginningIsPossible(s: Store, c: nat)
    requires Init(s) && c in s.sessions
    ensures Next(s, Begin(c), Begun(s, c)) && Visible(Begun(s, c), c) == s.committed
    ensures LastChainHash(s.committed) == Ok(Tail(s.chain, None))
    ensures PendingChainTail(Begun(s, c).sessions[c].info, s.nextTxn, s.committed) == Ok(Tail(s.chain, None))
  {
    HeadOfChain(s.committed, s.chain);
  }

  /** Session c with rows of its own, and the lock. */
  function Holding(s: Store, c: nat, inserted: seq<Row>, queued: seq<Row>, tail: Option<Digest>): Store
    requires c in s.sessions
  {
    var me := Begun(s, c).sessions[c];
    var holder := me.(inserted := inserted, queued := queued, stamped := inserted + queued, info := Some(PendingTail(me.txn, tail)));
    Begun(s, c).(sessions := s.sessions[c := holder], lock := Some(c))
  }

  /** The state after its transaction. */
  function Ended(s: Store, c: nat, tail: Option<Digest>, rows: seq<Row>): Store
    requires c in s.sessions
  {
    var me := Holding(s, c, [], [], tail).sessions[c];
    Begun(s, c).(sessions := s.sessions[c := me.(open := false)], committed := s.committed + rows, chain := s.chain + rows, lock := None)
  }

  lemma CommitIsPossible(s: Store, c: nat, tail: Option<Digest>, rows: seq<Row>)
    requires Init(s) && c in s.sessions
    ensures Leads(Holding(s, c, rows, [], tail), [Commit(c)], Ended(s, c, tail, rows))
  {
    var none: seq<Row> := [];
    assert rows + none == rows && none + none == none;
    OneStep(Holding(s, c, rows, [], tail), [Commit(c)], Ended(s, c, tail, rows), Ended(s, c, tail, rows));
  }

  lemma RollbackIsPossible(s: Store, c: nat, tail: Option<Digest>, rows: seq<Row>)
    requires Init(s) && c in s.sessions
    ensures Leads(Holding(s, c, rows, [], tail), [Rollback(c)], Ended(s, c, tail, []))
  {
    var none: seq<Row> := [];
    assert none + none == none && rows + none == rows && s.committed + none == s.committed && s.chain + none == s.chain;
    OneStep(Holding(s, c, rows, [], tail), [Rollback(c)], Ended(s, c, tail, []), Ended(s, c, tail, []));
  }

  lemma FlushStep(s: Store, c: nat, pending: seq<Draft>, head: Option<Digest>, rows: seq<Row>, t: Store)
    requires c in s.sessions && s.sessions[c].open && s.sessions[c].queued == [] && pending != []
    requires LockFree(s, c) && FreshIds(s, pending) && LastChainHash(Visible(s, c)) == Ok(head)
    requires rows == StampAll(SortDrafts(pending), head)
    requires var me := s.sessions[c];
             t == With(s, c, me.(queued := rows, stamped := me.stamped + rows,
                                 info := Some(PendingTail(me.txn, Tail(rows, head))))).(lock := Some(c))
    ensures Next(s, StartFlush(c, pending), t)
  {
  }

  lemma HoldingQueued(s: Store, c: nat, rows: seq<Row>, tail: Option<Digest>)
    requires c in s.sessions && s.sessions[c].inserted == [] && s.sessions[c].stamped == []
    ensures var me := Begun(s, c).sessions[c];
            Holding(s, c, [], rows, tail)
            == With(Begun(s, c), c, me.(queued := rows, stamped := me.stamped + rows, info := Some(PendingTail(me.txn, tail))))
               .(lock := Some(c))
  {
    assert [] + rows == rows;
  }

  lemma FreshAfterBegin(s: Store, c: nat, pending: seq<Draft>)
    requires c in s.sessions && FreshIds(s, pending)
    ensures FreshIds(Begun(s, c), pending)
  {
  }

  lemma FlushIsPossible(s: Store, c: nat, pending: seq<Draft>, rows: seq<Row>)
    requires Init(s) && c in s.sessions && pending != [] && FreshIds(s, pending)
    requires rows == StampAll(SortDrafts(pending), Tail(s.chain, None))
    ensures Next(Begun(s, c), StartFlush(c, pending), Holding(s, c, [], rows, Tail(rows, Tail(s.chain, None))))
  {
    BeginningIsPossible(s, c);
    HoldingQueued(s, c, rows, Tail(rows, Tail(s.chain, None)));
    FreshAfterBegin(s, c, pending);
    FlushStep(Begun(s, c), c, pending, Tail(s.chain, None), rows, Holding(s, c, [], rows, Tail(rows, Tail(s.chain, None))));
  }

  lemma DrainedHolding(s: Store, c: nat, rows: seq<Row>, tail: Option<Digest>)
    requires c in s.sessions
    ensures Drained(Holding(s, c, [], rows, tail), c) == Holding(s, c, rows, [], tail)
    ensures Holding(s, c, [], rows, tail).sessions[c].open && Holding(s, c, [], rows, tail).sessions[c].queued == rows
  {
    assert [] + rows == rows && rows + [] == rows;
  }

  lemma EndedIsOver(s: Store, c: nat, tail: Option<Digest>, rows: seq<Row>)
    requires c in s.sessions
    ensures Over(s, c, s.committed + rows, s.chain + rows, Ended(s, c, tail, rows))
  {
  }

  /** A transaction that flushes any new rows and commits. */
  lemma FlushIsCommitted(s: Store, c: nat, pending: seq<Draft>) returns (t: Store)
    requires Init(s) && c in s.sessions && pending != [] && FreshIds(s, pending)
    ensures Leads(s, [Begin(c), StartFlush(c, pending)] + (Inserts(c, |pending|) + [Commit(c)]), t)
    ensures var rows := StampAll(SortDrafts(pending), Tail(s.chain, None)); Over(s, c, s.committed + rows, s.chain + rows, t)
  {
    var rows := StampAll(SortDrafts(pending), Tail(s.chain, None));
    assert |rows| == |pending| by {
      assert |SortDrafts(pending)| == |multiset(SortDrafts(pending))| == |multiset(pending)|;
    }
    var tail := Tail(rows, Tail(s.chain, None));
    var flushed := Holding(s, c, [], rows, tail);
    DrainedHolding(s, c, rows, tail);
    t := Ended(s, c, tail, rows);
    EndedIsOver(s, c, tail, rows);
    CommitIsPossible(s, c, tail, rows);
    QueueDrains(flushed, c, |pending|, [Commit(c)], t);
    FlushIsPossible(s, c, pending, rows);
    BeginningIsPossible(s, c);
    BeginThenStep(s, c, StartFlush(c, pending), flushed, Inserts(c, |pending|) + [Commit(c)], t);
  }

  lemma BeginThenStep(s: Store, c: nat, step: Step, m: Store, steps: seq<Step>, t: Store)
    requires c in s.sessions && Next(s, Begin(c), Begun(s, c)) && Next(Begun(s, c), step, m) && Leads(m, steps, t)
    ensures Leads(s, [Begin(c), step] + steps, t)
  {
    var all := [Begin(c), step] + steps;
    assert all[1..] == [step] + steps && ([step] + steps)[1..] == steps;
    OneStep(Begun(s, c), [step] + steps, m, t);
    OneStep(s, all, Begun(s, c), t);
  }

  lemma StampIsPossible(s: Store, c: nat, draft: Draft)
    requires Init(s) && c in s.sessions && FreshIds(s, [draft])
    ensures var row := Stamp(draft, Tail(s.chain, None));
            && Next(Begun(s, c), CoreInsert(c, draft), Holding(s, c, [row], [], row.hash))
            && Next(Begun(s, c), StampEntry(c, draft), Holding(s, c, [], [row], row.hash))
  {
    BeginningIsPossible(s, c);
    var row := Stamp(draft, Tail(s.chain, None));
    FreshAfterBegin(s, c, [draft]);
    assert CanStamp(Begun(s, c), c, draft);
    assert [] + [row] == [row] && [row] + [] == [row];
  }

  /** One that writes a single row by a Core insert and commits. */
  lemma CoreRowIsCommitted(s: Store, c: nat, draft: Draft) returns (t: Store)
    requires Init(s) && c in s.sessions && FreshIds(s, [draft])
    ensures Leads(s, [Begin(c), CoreInsert(c, draft)] + [Commit(c)], t)
    ensures var row := Stamp(draft, Tail(s.chain, None)); Over(s, c, s.committed + [row], s.chain + [row], t)
  {
    var row := Stamp(draft, Tail(s.chain, None));
    t := Ended(s, c, row.hash, [row]);
    EndedIsOver(s, c, row.hash, [row]);
    BeginningIsPossible(s, c);
    StampIsPossible(s, c, draft);
    CommitIsPossible(s, c, row.hash, [row]);
    BeginThenStep(s, c, CoreInsert(c, draft), Holding(s, c, [row], [], row.hash), [Commit(c)], t);
  }

  /** One whose row was stamped during the flush and inserted, and that is rolled back: the trail is as before. */
  lemma RolledBackRowIsGone(s: Store, c: nat, draft: Draft) returns (t: Store)
    requires Init(s) && c in s.sessions && FreshIds(s, [draft])
    ensures Leads(s, [Begin(c), StampEntry(c, draft)] + (Inserts(c, 1) + [Rollback(c)]), t)
    ensures Over(s, c, s.committed, s.chain, t)
  {
    var row := Stamp(draft, Tail(s.chain, None));
    var stamped := Holding(s, c, [], [row], row.hash);
    DrainedHolding(s, c, [row], row.hash);
    t := Ended(s, c, row.hash, []);
    EndedIsOver(s, c, row.hash, []);
    assert s.committed + [] == s.committed && s.chain + [] == s.chain;
    BeginningIsPossible(s, c);
    StampIsPossible(s, c, draft);
    RollbackIsPossible(s, c, row.hash, [row]);
    QueueDrains(stamped, c, 1, [Rollback(c)], t);
    BeginThenStep(s, c, StampEntry(c, draft), stamped, Inserts(c, 1) + [Rollback(c)], t);
  }
}
