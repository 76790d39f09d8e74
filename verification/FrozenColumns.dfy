/**
  Which columns of posted evidence can change, column name by column name: what is accepted on one row, and what stays
  over whole runs.
 */
module FrozenColumns {
  import opened Common
  import opened DocumentStore
  import opened ImmutabilityMonitor

  /** The columns a posted document may change. */
  predicate IsOperational(column: string) {
    || column == "status" || column == "docstatus"
    || column == "modified" || column == "modified_by" || column == "version"
    || column == "cancelled_at" || column == "cancelled_by" || column == "cancel_reason"
    || column == "canceled" || column == "canceled_by" || column == "is_cancelled"
    || column == "outstanding_amount" || column == "base_outstanding_amount"
    || column == "unallocated_amount" || column == "base_unallocated_amount"
    || column == "is_superseded" || column == "supplier_invoice_key"
    || column == "capitalized_by_id" || column == "capitalization_origin_id"
  }

  /** The columns a row of the document flow may change. */
  predicate IsWorkflow(table: string, column: string) {
    || column == "status" || column == "modified" || column == "modified_by"
    || (table == "document_relation"
        && (column == "reversed_at" || column == "reversed_by" || column == "reversal_reason" || column == "cancelled_at"
            || column == "cancelled_by" || column == "metadata_json"))
  }

  predicate PostedOrCancelled(db: Db, d: DocId) {
    d in db.headers && (db.headers[d].docstatus == 1 || db.headers[d].docstatus == 2)
  }

  /** Every column the predicate does not name has kept its value. */
  ghost predicate KeepsAllBut(before: map<string, string>, after: map<string, string>, named: string -> bool) {
    forall k :: k in before && !named(k) ==> k in after && after[k] == before[k]
  }

  // ---------------------------------------------------------------- one header

  lemma OperationalColumns(column: string)
    ensures column in MUTABLE_STATE <==> IsOperational(column)
  {
  }

  /** Editing one column of a posted or cancelled header is accepted exactly when it is one of the nineteen. */
  lemma ColumnEditAllowedIff(h: Header, column: string, value: string)
    requires (h.docstatus == 1 || h.docstatus == 2) && column in h.cols && column != "docstatus" && column != "is_advance"
    ensures var db := Db(map[0 := h], map[], map[]);
            var f := EditOnly({column}, {}, h.(cols := h.cols[column := value]));
            && WellFormed(db, f) && (FlushAllowed(db, {}, f) <==> IsOperational(column))
  {
    OperationalColumns(column);
    EditOnlyAllowedIff(h, {column}, {}, h.(cols := h.cols[column := value]));
  }

  /** So is changing its flag of being an advance payment, which is none of them, never accepted. */
  lemma AdvanceEditRefused(h: Header)
    requires h.docstatus == 1 || h.docstatus == 2
    ensures !FlushAllowed(Db(map[0 := h], map[], map[]), {}, EditOnly({"is_advance"}, {}, h.(advance := !h.advance)))
  {
    OperationalColumns("is_advance");
    EditOnlyAllowedIff(h, {"is_advance"}, {}, h.(advance := !h.advance));
  }

  /** Writing a plain status to it is accepted exactly when the status is not draft. */
  lemma StatusEditAllowedIff(h: Header, status: int)
    requires h.docstatus == 1 || h.docstatus == 2
    ensures FlushAllowed(Db(map[0 := h], map[], map[]), {}, EditOnly({"docstatus"}, {}, h.(docstatus := status))) <==> status != 0
  {
    OperationalColumns("docstatus");
    EditOnlyAllowedIff(h, {"docstatus"}, {}, h.(docstatus := status));
  }

  /** A draft header can be edited at will. */
  lemma DraftEditAllowed(h: Header, changed: set<string>, after: Header)
    requires h.docstatus != 1 && h.docstatus != 2 && HeaderEdit(h, Edit(changed, {}, after))
    ensures FlushAllowed(Db(map[0 := h], map[], map[]), {}, EditOnly(changed, {}, after))
  {
    EditOnlyAllowedIff(h, changed, {}, after);
  }

  /** A Core update of one column of a posted header is accepted exactly for the same names, and not for status draft. */
  lemma ColumnUpdateAllowedIff(db: Db, d: DocId, column: string, value: string)
    requires PostedOrCancelled(db, d)
    ensures StatementAllowed(db, UpdateHeaders({d}, None, None, map[column := Bound(value)], false))
       <==> IsOperational(column) && !(column == "status" && value == "draft")
  {
    OperationalColumns(column);
    var s := UpdateHeaders({d}, None, None, map[column := Bound(value)], false);
    assert ChangedColumns(s) == {column};
    assert Posted(db, d);
  }

  /** A Core update of the status of a posted header is refused exactly when it is bound to draft. */
  lemma StatusUpdateAllowedIff(db: Db, d: DocId, status: int)
    requires PostedOrCancelled(db, d)
    ensures StatementAllowed(db, UpdateHeaders({d}, Some(Bound(status)), None, map[], false)) <==> status != 0
  {
    OperationalColumns("docstatus");
    var s := UpdateHeaders({d}, Some(Bound(status)), None, map[], false);
    assert ChangedColumns(s) == {"docstatus"};
    assert Posted(db, d);
  }

  /** A Core delete of headers is accepted exactly when none of them is posted or cancelled. */
  lemma HeaderDeleteAllowedIff(db: Db, ids: set<nat>)
    ensures StatementAllowed(db, DeleteHeaders(ids)) <==> forall d :: d in ids ==> !PostedOrCancelled(db, d)
  {
    forall d ensures Posted(db, d) <==> PostedOrCancelled(db, d) {
    }
  }

  /** Statements that move links, insert headers or write the document flow are never accepted. */
  lemma NeverAllowed(db: Db, s: Statement)
    requires || (s.UpdateHeaders? && s.setsLinks) || (s.UpdateLines? && s.setsLinks) || s.InsertHeaders? || s.WriteFlows?
             || s == InsertLines(map[])
    ensures !StatementAllowed(db, s)
  {
  }

  /** A header counts as posted here when it is inserted posted, or becomes posted by a plain value without having been. */
  lemma PostedHereIff(db: Db, f: Flush, d: DocId)
    requires f.dirtyHeaders.Keys <= db.headers.Keys
    ensures d in NewlyPosted(db, f) <==>
      || (d in f.newHeaders && f.newHeaders[d].docstatus == 1)
      || (d in f.dirtyHeaders && "docstatus" !in f.dirtyHeaders[d].computed && f.dirtyHeaders[d].after.docstatus == 1
          && !PostedOrCancelled(db, d))
  {
  }

  // ---------------------------------------------------------------- one line

  function NoChange(): Flush {
    Flush(map[], map[], {}, map[], map[], {}, map[], map[], {})
  }

  predicate UnderPosted(db: Db, links: map<string, Option<DocId>>) {
    exists k :: k in links && links[k].Some? && PostedOrCancelled(db, links[k].value)
  }

  lemma UnderPostedParents(db: Db, line: Line)
    ensures UnderPosted(db, line.links) <==> exists d :: d in Parents(line) && Posted(db, d)
  {
    if k :| k in line.links && line.links[k].Some? && PostedOrCancelled(db, line.links[k].value) {
      assert line.links[k].value in Parents(line);
    }
    if d :| d in Parents(line) && Posted(db, d) {
      var k :| k in line.links && line.links[k].Some? && line.links[k].value == d;
      assert PostedOrCancelled(db, line.links[k].value);
    }
  }

  function LineEditOnly(l: LineId, column: string, after: Line): Flush {
    NoChange().(dirtyLines := map[l := Edit({column}, {}, after)])
  }

  /** Editing one column of a line is accepted exactly when no document it hangs on is posted, or the column is operational. */
  lemma LineColumnEditAllowedIff(db: Db, posted: set<DocId>, l: LineId, column: string, value: string)
    requires l in db.lines && column in db.lines[l].cols && column !in db.lines[l].links && db.lines[l].links.Keys !! MUTABLE_STATE
    ensures var f := LineEditOnly(l, column, db.lines[l].(cols := db.lines[l].cols[column := value]));
            && WellFormed(db, f)
            && (FlushAllowed(db, posted, f) <==> !UnderPosted(db, db.lines[l].links) || IsOperational(column))
  {
    OperationalColumns(column);
    var f := LineEditOnly(l, column, db.lines[l].(cols := db.lines[l].cols[column := value]));
    UnderPostedParents(db, db.lines[l]);
    assert Parents(f.dirtyLines[l].after) == Parents(db.lines[l]);
    assert LinesAllowed(db, f) <==> LineAllowed(db, f, l);
    assert l in f.dirtyLines;
  }

  /** Deleting a line is accepted exactly when no document it hangs on is posted. */
  lemma LineDeleteAllowedIff(db: Db, posted: set<DocId>, l: LineId)
    requires l in db.lines
    ensures FlushAllowed(db, posted, NoChange().(deletedLines := {l})) <==> !UnderPosted(db, db.lines[l].links)
  {
    var f := NoChange().(deletedLines := {l});
    UnderPostedParents(db, db.lines[l]);
    assert LinesAllowed(db, f) <==> LineAllowed(db, f, l);
  }

  /** Moving a line by one link is accepted exactly when neither its old nor its new documents are posted. */
  lemma LineMoveAllowedIff(db: Db, posted: set<DocId>, l: LineId, link: string, target: Option<DocId>)
    requires l in db.lines && link in db.lines[l].links && db.lines[l].links.Keys !! MUTABLE_STATE
    ensures var after := db.lines[l].(links := db.lines[l].links[link := target]);
            FlushAllowed(db, posted, LineEditOnly(l, link, after))
            <==> !UnderPosted(db, db.lines[l].links) && !UnderPosted(db, after.links)
  {
    var after := db.lines[l].(links := db.lines[l].links[link := target]);
    var f := LineEditOnly(l, link, after);
    UnderPostedParents(db, db.lines[l]);
    UnderPostedParents(db, after);
    assert LinesAllowed(db, f) <==> LineAllowed(db, f, l);
    assert l in f.dirtyLines && link in f.dirtyLines[l].changed;
  }

  /** May a new line of the table hang on document d? */
  predicate MayGrow(db: Db, posted: set<DocId>, table: string, d: DocId) {
    PostedOrCancelled(db, d) ==>
      && db.headers[d].docstatus == 1
      && if table == "payment_reference" then db.headers[d].advance else d in posted
  }

  lemma NewLineMayGrow(db: Db, posted: set<DocId>, f: Flush, line: Line, d: DocId)
    requires f.dirtyHeaders == map[]
    ensures NewLineAllowed(db, posted, f, line, d) <==> MayGrow(db, posted, line.table, d)
  {
  }

  /**
    A new line is accepted exactly when each document it hangs on is no posted one, or was posted in this very
    transaction, or is a posted advance payment that the line is a reference of.
   */
  lemma NewLineAllowedIff(db: Db, posted: set<DocId>, l: LineId, line: Line)
    ensures FlushAllowed(db, posted, NoChange().(newLines := map[l := line]))
       <==> forall k :: k in line.links && line.links[k].Some? ==> MayGrow(db, posted, line.table, line.links[k].value)
  {
    var f := NoChange().(newLines := map[l := line]);
    forall d ensures NewLineAllowed(db, posted, f, line, d) <==> MayGrow(db, posted, line.table, d) {
      NewLineMayGrow(db, posted, f, line, d);
    }
    forall k | k in line.links && line.links[k].Some? ensures line.links[k].value in Parents(line) {
    }
    assert NewLinesAllowed(db, posted, f) <==> forall d :: d in Parents(line) ==> NewLineAllowed(db, posted, f, line, d) by {
      assert l in f.newLines && f.newLines[l] == line;
    }
  }

  /** A Core insert of one line is accepted exactly for a line of another table under documents none of which is posted. */
  lemma LineInsertAllowedIff(db: Db, l: LineId, line: Line)
    ensures StatementAllowed(db, InsertLines(map[l := line])) <==> line.table != "payment_reference" && !UnderPosted(db, line.links)
  {
    UnderPostedParents(db, line);
    var rows := map[l := line];
    assert l in rows && rows[l] == line;
  }

  lemma PostedParentIff(db: Db, l: LineId)
    requires l in db.lines
    ensures HasPostedParent(db, l) <==> UnderPosted(db, db.lines[l].links)
  {
    UnderPostedParents(db, db.lines[l]);
  }

  /** A Core update of one column of lines, or their deletion, is accepted under the same conditions as on objects. */
  lemma LineStatementsAllowedIff(db: Db, l: LineId, column: string, value: string)
    requires l in db.lines
    ensures StatementAllowed(db, DeleteLines({l})) <==> !UnderPosted(db, db.lines[l].links)
    ensures StatementAllowed(db, UpdateLines({l}, map[column := Bound(value)], false))
       <==> !UnderPosted(db, db.lines[l].links) || (IsOperational(column) && !(column == "status" && value == "draft"))
    ensures !StatementAllowed(db, UpdateLines({l}, map[column := Bound(value)], true))
  {
    OperationalColumns(column);
    PostedParentIff(db, l);
    var cols := map[column := Bound(value)];
    assert cols.Keys == {column};
  }

  // ---------------------------------------------------------------- one row of the document flow

  function FlowEditOnly(r: FlowId, column: string, after: Flow): Flush {
    NoChange().(dirtyFlows := map[r := Edit({column}, {}, after)])
  }

  lemma WorkflowColumns(table: string, column: string)
    ensures {column} - FlowTransitions(table) - FLOW_PROVIDER_STAMPS == {} <==> IsWorkflow(table, column)
  {
    assert {column} - FlowTransitions(table) - FLOW_PROVIDER_STAMPS == {}
      <==> column in FlowTransitions(table) || column in FLOW_PROVIDER_STAMPS by {
      if {column} - FlowTransitions(table) - FLOW_PROVIDER_STAMPS == {} {
        assert column !in {column} - FlowTransitions(table) - FLOW_PROVIDER_STAMPS;
      }
    }
  }

  /** Editing one column of a flow row is accepted exactly when it is a workflow column of its table. */
  lemma FlowColumnEditAllowedIff(db: Db, posted: set<DocId>, r: FlowId, column: string, value: string)
    requires r in db.flows && column != "status"
    ensures FlushAllowed(db, posted, FlowEditOnly(r, column, db.flows[r].(cols := db.flows[r].cols[column := value])))
       <==> IsWorkflow(db.flows[r].table, column)
  {
    var f := FlowEditOnly(r, column, db.flows[r].(cols := db.flows[r].cols[column := value]));
    WorkflowColumns(db.flows[r].table, column);
    assert FlowsAllowed(db, f) <==> FlowAllowed(db.flows[r], f.dirtyFlows[r]) by { assert r in f.dirtyFlows; }
  }

  /** Writing its status is refused exactly when a relation that is not active would become active; deleting it always is. */
  lemma FlowStatusEditAllowedIff(db: Db, posted: set<DocId>, r: FlowId, status: string)
    requires r in db.flows
    ensures FlushAllowed(db, posted, FlowEditOnly(r, "status", db.flows[r].(status := status)))
       <==> !(db.flows[r].table == "document_relation" && db.flows[r].status != "active" && status == "active")
    ensures !FlushAllowed(db, posted, NoChange().(deletedFlows := {r}))
  {
    var f := FlowEditOnly(r, "status", db.flows[r].(status := status));
    WorkflowColumns(db.flows[r].table, "status");
    assert FlowsAllowed(db, f) <==> FlowAllowed(db.flows[r], f.dirtyFlows[r]) by { assert r in f.dirtyFlows; }
    assert r in NoChange().(deletedFlows := {r}).deletedFlows;
  }

  // ---------------------------------------------------------------- whole runs

  lemma SameEvidenceKeepsColumns(before: map<string, string>, after: map<string, string>)
    requires Immutable(after) == Immutable(before)
    ensures KeepsAllBut(before, after, IsOperational)
  {
    forall k | k in before && !IsOperational(k) ensures k in after && after[k] == before[k] {
      OperationalColumns(k);
      assert k in Immutable(before) && k in Immutable(after);
      assert Immutable(after)[k] == Immutable(before)[k];
    }
  }

  /**
    Over every accepted run that writes known plain status values to it, a header committed as posted or cancelled stays
    so, and keeps whether it is an advance payment and every column but the nineteen.
   */
  lemma PostedColumnsStay(states: seq<State>, steps: seq<Step>, i: nat, j: nat, d: DocId)
    requires Run(states, steps, d) && i <= j < |states| && PostedOrCancelled(states[i].begun, d)
    ensures PostedOrCancelled(states[j].db, d)
    ensures states[j].db.headers[d].advance == states[i].begun.headers[d].advance
    ensures KeepsAllBut(states[i].begun.headers[d].cols, states[j].db.headers[d].cols, IsOperational)
  {
    CommittedHeaderIsFrozen(states, steps, i, j, d);
    SameEvidenceKeepsColumns(states[i].begun.headers[d].cols, states[j].db.headers[d].cols);
  }

  /** So does every line that hangs on it, links included. */
  lemma PostedLinesStay(states: seq<State>, steps: seq<Step>, i: nat, j: nat, d: DocId, l: LineId, link: string)
    requires Run(states, steps, d) && i <= j < |states| && PostedOrCancelled(states[i].begun, d) && states[i].db == states[i].begun
    requires l in states[i].begun.lines && link in states[i].begun.lines[l].links
    requires states[i].begun.lines[l].links[link] == Some(d)
    ensures l in states[j].db.lines && states[j].db.lines[l].links == states[i].begun.lines[l].links
    ensures KeepsAllBut(states[i].begun.lines[l].cols, states[j].db.lines[l].cols, IsOperational)
  {
    CommittedLinesAreFrozen(states, steps, i, j, d);
    assert d in Parents(states[i].begun.lines[l]);
    assert LineHolds(states[j].db, l, LineEvidenceOf(states[i].begun.lines[l]));
    SameEvidenceKeepsColumns(states[i].begun.lines[l].cols, states[j].db.lines[l].cols);
  }

  /** And no line is added to it, but references of an advance payment. */
  lemma NoLineIsAdded(states: seq<State>, steps: seq<Step>, i: nat, j: nat, d: DocId, l: LineId, link: string)
    requires Run(states, steps, d) && i <= j < |states| && PostedOrCancelled(states[i].begun, d) && states[i].db == states[i].begun
    requires l in states[j].db.lines && link in states[j].db.lines[l].links && states[j].db.lines[l].links[link] == Some(d)
    ensures l in states[i].begun.lines || (states[j].db.lines[l].table == "payment_reference" && states[i].begun.headers[d].advance)
  {
    CommittedLinesAreFrozen(states, steps, i, j, d);
    CommittedHeaderIsFrozen(states, steps, i, j, d);
    assert d in Parents(states[j].db.lines[l]);
  }

  /** A row of the document flow keeps every column that is no workflow column. */
  lemma FlowColumnsStay(states: seq<State>, steps: seq<Step>, i: nat, j: nat, r: FlowId)
    requires Accepted(states, steps) && forall k :: 0 <= k < |steps| ==> PlainFlowStatuses(steps[k])
    requires i <= j < |states| && r in states[i].begun.flows && states[i].db == states[i].begun
    ensures r in states[j].db.flows
    ensures var table := states[i].begun.flows[r].table;
            KeepsAllBut(states[i].begun.flows[r].cols, states[j].db.flows[r].cols, (k: string) => IsWorkflow(table, k))
    ensures states[i].begun.flows[r].table == "document_relation" && states[i].begun.flows[r].status != "active"
      ==> states[j].db.flows[r].status != "active"
  {
    FlowEvidenceIsFrozen(states, steps, i, j, r);
    var before, after := states[i].begun.flows[r], states[j].db.flows[r];
    forall k | k in before.cols && !IsWorkflow(before.table, k) ensures k in after.cols && after.cols[k] == before.cols[k] {
      WorkflowColumns(before.table, k);
      assert k in FlowFigures(before) && k in FlowFigures(after);
      assert FlowFigures(after)[k] == FlowFigures(before)[k];
    }
  }
}
