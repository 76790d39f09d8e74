/**
  What writes leave in the tables, row by row, and a document's way from draft to cancelled, which the guards let through.
 */
module DocumentRuns {
  import opened Common
  import opened DocumentStore
  import opened ImmutabilityMonitor
  import opened FrozenColumns

  // ---------------------------------------------------------------- rows after a write

  /** The row k of a table after a flush: inserted, modified, deleted, or as before. */
  ghost predicate Written<T>(before: map<nat, T>, inserted: map<nat, T>, dirty: map<nat, Edit<T>>, deleted: set<nat>,
      after: map<nat, T>, k: nat)
  {
    if k in inserted then k in after && after[k] == inserted[k]
    else if k !in before || k in deleted then k !in after
    else k in after && after[k] == if k in dirty then dirty[k].after else before[k]
  }

  lemma FlushWrites(db: Db, f: Flush, k: nat)
    ensures var t := ApplyFlush(db, f);
            && Written(db.headers, f.newHeaders, f.dirtyHeaders, f.deletedHeaders, t.headers, k)
            && Written(db.lines, f.newLines, f.dirtyLines, f.deletedLines, t.lines, k)
            && Written(db.flows, f.newFlows, f.dirtyFlows, f.deletedFlows, t.flows, k)
  {
  }

  /** A column after an assignment: as bound, as the database computes it for the row, or as before. */
  predicate Assigns<T(==)>(a: Option<Assigned<T>>, row: nat, before: T, after: T) {
    match a
    case None => after == before
    case Some(Bound(value)) => after == value
    case Some(Computed(stored)) => after == if row in stored then stored[row] else before
  }

  function AssignedTo(cols: map<string, Assigned<string>>, column: string): Option<Assigned<string>> {
    if column in cols then Some(cols[column]) else None
  }

  /** An update assigns to every column of the rows it matches, and touches no other row. */
  lemma UpdateWrites(db: Db, ids: set<nat>, docstatus: Option<Assigned<int>>, advance: Option<Assigned<bool>>,
      cols: map<string, Assigned<string>>, setsLinks: bool, k: nat, column: string)
    ensures var t := ApplyStatement(db, UpdateHeaders(ids, docstatus, advance, cols, setsLinks));
            && t.headers.Keys == db.headers.Keys && t.lines == db.lines && t.flows == db.flows
            && (k in db.headers && k !in ids ==> t.headers[k] == db.headers[k])
            && (k in db.headers && k in ids ==>
                  && Assigns(docstatus, k, db.headers[k].docstatus, t.headers[k].docstatus)
                  && Assigns(advance, k, db.headers[k].advance, t.headers[k].advance)
                  && t.headers[k].cols.Keys == db.headers[k].cols.Keys
                  && (column in db.headers[k].cols ==>
                        Assigns(AssignedTo(cols, column), k, db.headers[k].cols[column], t.headers[k].cols[column])))
    ensures var t := ApplyStatement(db, UpdateLines(ids, cols, setsLinks));
            && t.lines.Keys == db.lines.Keys && t.headers == db.headers && t.flows == db.flows
            && (k in db.lines && k !in ids ==> t.lines[k] == db.lines[k])
            && (k in db.lines && k in ids ==>
                  && t.lines[k].links == db.lines[k].links && t.lines[k].table == db.lines[k].table
                  && t.lines[k].cols.Keys == db.lines[k].cols.Keys
                  && (column in db.lines[k].cols ==>
                        Assigns(AssignedTo(cols, column), k, db.lines[k].cols[column], t.lines[k].cols[column])))
  {
  }

  /** A delete removes the rows it matches, an insert adds its own. */
  lemma DeleteAndInsertWrite(db: Db, ids: set<nat>, rows: map<LineId, Line>, k: nat)
    ensures var t := ApplyStatement(db, DeleteHeaders(ids));
            && t.lines == db.lines && t.flows == db.flows && (k in t.headers <==> k in db.headers && k !in ids)
            && (k in t.headers ==> t.headers[k] == db.headers[k])
    ensures var t := ApplyStatement(db, DeleteLines(ids));
            && t.headers == db.headers && t.flows == db.flows && (k in t.lines <==> k in db.lines && k !in ids)
            && (k in t.lines ==> t.lines[k] == db.lines[k])
    ensures var t := ApplyStatement(db, InsertLines(rows));
            && t.headers == db.headers && t.flows == db.flows && (k in t.lines <==> k in db.lines || k in rows)
            && (k in t.lines ==> t.lines[k] == if k in rows then rows[k] else db.lines[k])
  {
  }

  // ---------------------------------------------------------------- from draft to cancelled

  function StatusEdit(d: DocId, after: Header): Flush {
    NoChange().(dirtyHeaders := map[d := Edit({"docstatus"}, {}, after)])
  }

  /** Steps that lead from one state to another and write known plain statuses to a header. */
  ghost predicate Leads(s: State, steps: seq<Step>, t: State, d: DocId)
    decreases |steps|
  {
    if steps == [] then s == t
    else KnownStatuses(steps[0], d) && exists m: State :: Next(s, steps[0], m) && Leads(m, steps[1..], t, d)
  }

  lemma OneStep(s: State, steps: seq<Step>, m: State, t: State, d: DocId)
    requires steps != [] && KnownStatuses(steps[0], d) && Next(s, steps[0], m) && Leads(m, steps[1..], t, d)
    ensures Leads(s, steps, t, d)
  {
  }

  /** Between transactions they are the steps of a run. */
  lemma StatesOnTheWay(s: State, steps: seq<Step>, t: State, d: DocId) returns (states: seq<State>)
    requires Leads(s, steps, t, d) && s.db == s.begun && s.posted == {}
    ensures Run(states, steps, d) && states[0] == s && states[|steps|] == t
  {
    states := AllStates(s, steps, t, d);
  }

  lemma {:induction false} AllStates(s: State, steps: seq<Step>, t: State, d: DocId) returns (states: seq<State>)
    requires Leads(s, steps, t, d)
    ensures |states| == |steps| + 1 && states[0] == s && states[|steps|] == t
    ensures forall i :: 0 <= i < |steps| ==> KnownStatuses(steps[i], d) && Next(states[i], steps[i], states[i + 1])
    decreases |steps|
  {
    states := [s];
    if steps != [] {
      var m: State :| Next(s, steps[0], m) && Leads(m, steps[1..], t, d);
      var rest := AllStates(m, steps[1..], t, d);
      states := [s] + rest;
      forall i | 0 <= i < |steps| ensures KnownStatuses(steps[i], d) && Next(states[i], steps[i], states[i + 1]) {
        if i > 0 {
          assert steps[1..][i - 1] == steps[i];
          assert Next(rest[i - 1], steps[1..][i - 1], rest[i]);
        }
      }
    }
  }

  /** The tables while it is in a status. */
  function Holding(d: DocId, h: Header, l: LineId, line: Line): Db {
    Db(map[d := h], map[l := line], map[])
  }

  /** A plain new status of the header of a draft, or any but draft of a posted one, goes through and is stored. */
  lemma StatusIsWritten(d: DocId, h: Header, status: int, l: LineId, line: Line)
    requires IsPosted(h) ==> status != 0
    ensures var db, f := Holding(d, h, l, line), StatusEdit(d, h.(docstatus := status));
            && WellFormed(db, f) && FlushAllowed(db, {}, f)
            && ApplyFlush(db, f) == Holding(d, h.(docstatus := status), l, line)
            && NewlyPosted(db, f) == if status == 1 && !IsPosted(h) then {d} else {}
  {
    var db, f := Holding(d, h, l, line), StatusEdit(d, h.(docstatus := status));
    assert HeaderEdit(h, f.dirtyHeaders[d]);
    StatusIsApplied(d, h, status, l, line);
  }

  lemma StatusIsApplied(d: DocId, h: Header, status: int, l: LineId, line: Line)
    ensures ApplyFlush(Holding(d, h, l, line), StatusEdit(d, h.(docstatus := status))) == Holding(d, h.(docstatus := status), l, line)
  {
    var t := ApplyFlush(Holding(d, h, l, line), StatusEdit(d, h.(docstatus := status)));
    assert t.headers == map[d := h.(docstatus := status)];
    assert t.lines == map[l := line];
    assert t.flows == map[];
  }

  lemma InsertingStep(d: DocId, draft: Header, l: LineId, line: Line)
    requires draft.docstatus == 0
    ensures var db := Db(map[], map[], map[]);
            Next(State(db, db, {}), DoFlush(NoChange().(newHeaders := map[d := draft], newLines := map[l := line])),
                 State(Holding(d, draft, l, line), db, {}))
  {
    var db := Db(map[], map[], map[]);
    var f := NoChange().(newHeaders := map[d := draft], newLines := map[l := line]);
    assert ApplyFlush(db, f) == Holding(d, draft, l, line);
    assert NewlyPosted(db, f) == {};
  }

  lemma SettlingStep(d: DocId, posted: Header, l: LineId, line: Line, settled: string)
    requires "outstanding_amount" in posted.cols
    ensures var db := Holding(d, posted, l, line);
            Next(State(db, db, {}), Execute(UpdateHeaders({d}, None, None, map["outstanding_amount" := Bound(settled)], false)),
                 State(Holding(d, posted.(cols := posted.cols["outstanding_amount" := settled]), l, line), db, {}))
  {
    var db := Holding(d, posted, l, line);
    var s := UpdateHeaders({d}, None, None, map["outstanding_amount" := Bound(settled)], false);
    assert ChangedColumns(s) == {"outstanding_amount"};
    var paid := posted.cols["outstanding_amount" := settled];
    assert Overwritten(posted.cols, s.cols, d) == paid;
    assert ApplyStatement(db, s).headers == map[d := posted.(cols := paid)];
  }

  function Insert(d: DocId, draft: Header, l: LineId, line: Line): Step {
    DoFlush(NoChange().(newHeaders := map[d := draft], newLines := map[l := line]))
  }

  /** Any draft can be inserted with a line, committed, posted and committed again. */
  lemma PostingIsPossible(d: DocId, draft: Header, l: LineId, line: Line)
    requires draft.docstatus == 0
    ensures var none, posted := Db(map[], map[], map[]), Holding(d, draft.(docstatus := 1), l, line);
            Leads(State(none, none, {}), [Insert(d, draft, l, line), Commit, DoFlush(StatusEdit(d, draft.(docstatus := 1))), Commit],
                  State(posted, posted, {}), d)
  {
    var none, a, b := Db(map[], map[], map[]), Holding(d, draft, l, line), Holding(d, draft.(docstatus := 1), l, line);
    var end := State(b, b, {});
    var steps := [Insert(d, draft, l, line), Commit, DoFlush(StatusEdit(d, draft.(docstatus := 1))), Commit];
    StatusIsWritten(d, draft, 1, l, line);
    InsertingStep(d, draft, l, line);
    OneStep(State(b, a, {d}), steps[3..], end, end, d);
    assert steps[2..][1..] == steps[3..] && steps[1..][1..] == steps[2..];
    OneStep(State(a, a, {}), steps[2..], State(b, a, {d}), end, d);
    OneStep(State(a, none, {}), steps[1..], State(a, a, {}), end, d);
    OneStep(State(none, none, {}), steps, State(a, none, {}), end, d);
  }

  function Settle(d: DocId, value: string): Step {
    Execute(UpdateHeaders({d}, None, None, map["outstanding_amount" := Bound(value)], false))
  }

  /** A posted document can have its balance settled by SQL, be cancelled, and committed: nothing else about it changes. */
  lemma CancellingIsPossible(d: DocId, posted: Header, l: LineId, line: Line, value: string)
    requires posted.docstatus == 1 && "outstanding_amount" in posted.cols
    ensures var before := Holding(d, posted, l, line);
            var cancelled := Header(2, posted.advance, posted.cols["outstanding_amount" := value]);
            var after := Holding(d, cancelled, l, line);
            Leads(State(before, before, {}), [Settle(d, value), DoFlush(StatusEdit(d, cancelled)), Commit], State(after, after, {}), d)
  {
    var paid := posted.(cols := posted.cols["outstanding_amount" := value]);
    var a, b, c := Holding(d, posted, l, line), Holding(d, paid, l, line), Holding(d, paid.(docstatus := 2), l, line);
    var end := State(c, c, {});
    var steps := [Settle(d, value), DoFlush(StatusEdit(d, paid.(docstatus := 2))), Commit];
    StatusIsWritten(d, paid, 2, l, line);
    OneStep(State(c, a, {}), steps[2..], end, end, d);
    assert steps[1..][1..] == steps[2..];
    NextIgnoresBegun(b, a, steps[1].f, c);
    OneStep(State(b, a, {}), steps[1..], State(c, a, {}), end, d);
    SettlingStep(d, posted, l, line, value);
    OneStep(State(a, a, {}), steps, State(b, a, {}), end, d);
  }

  lemma NextIgnoresBegun(db: Db, begun: Db, f: Flush, t: Db)
    requires WellFormed(db, f) && FlushAllowed(db, {}, f) && ApplyFlush(db, f) == t && NewlyPosted(db, f) == {}
    ensures Next(State(db, begun, {}), DoFlush(f), State(t, begun, {}))
  {
  }
}
