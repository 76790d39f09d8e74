/** What the guards keep over every run of flushes, Core statements, commits and rollbacks. */
module ImmutabilityMonitor {
  import opened Common
  import opened DocumentStore

  /** The database as the session sees it, its state when the transaction began, and what was posted in it. */
  datatype State = State(db: Db, begun: Db, posted: set<DocId>)

  datatype Step =
    | DoFlush(f: Flush)
    | Execute(s: Statement)
    | Commit
    | Rollback

  ghost predicate Next(s: State, step: Step, t: State) {
    match step
    case DoFlush(f) =>
      && WellFormed(s.db, f) && FlushAllowed(s.db, s.posted, f)
      && t == State(ApplyFlush(s.db, f), s.begun, s.posted + NewlyPosted(s.db, f))
    case Execute(st) =>
      && StatementAllowed(s.db, st) && (st.InsertLines? ==> st.newLines.Keys !! s.db.lines.Keys)
      && t == s.(db := ApplyStatement(s.db, st))
    case Commit => t == State(s.db, s.db, {})
    case Rollback => t == State(s.begun, s.begun, {})
  }

  predicate Lifecycle(docstatus: int) {
    0 <= docstatus <= 2
  }

  /** A lifecycle value written to an object is a plain value among draft, posted and cancelled. */
  predicate KnownStatus(e: Edit<Header>) {
    "docstatus" in e.changed ==> "docstatus" !in e.computed && Lifecycle(e.after.docstatus)
  }

  /** So is one written by a statement. */
  predicate KnownAssignment(docstatus: Option<Assigned<int>>) {
    docstatus.Some? ==> docstatus.value.Bound? && Lifecycle(docstatus.value.value)
  }

  /** The only lifecycle values the step writes to header d are draft, posted and cancelled, as plain values. */
  predicate KnownStatuses(step: Step, d: DocId) {
    match step
    case DoFlush(f) => d in f.dirtyHeaders ==> KnownStatus(f.dirtyHeaders[d])
    case Execute(st) => st.UpdateHeaders? && d in st.ids ==> KnownAssignment(st.docstatus)
    case _ => true
  }

  // ---------------------------------------------------------------- one header

  /** Header d is persisted as posted or cancelled, with the given evidence. */
  ghost predicate Holds(db: Db, d: DocId, e: HeaderEvidence) {
    Posted(db, d) && EvidenceOf(db.headers[d]) == e
  }

  lemma SameImmutable(before: map<string, string>, after: map<string, string>, changed: set<string>)
    requires SameOutside(before, after, changed) && changed <= MUTABLE_STATE
    ensures Immutable(after) == Immutable(before)
  {
  }

  lemma FlushKeepsHeader(db: Db, posted: set<DocId>, f: Flush, d: DocId, e: HeaderEvidence)
    requires WellFormed(db, f) && FlushAllowed(db, posted, f) && KnownStatuses(DoFlush(f), d)
    requires Holds(db, d, e)
    ensures Holds(ApplyFlush(db, f), d, e)
  {
    assert d !in f.newHeaders;
    if d in f.dirtyHeaders {
      var edit := f.dirtyHeaders[d];
      assert HeaderAllowed(db, f, d) && HeaderEdit(db.headers[d], edit) && KnownStatus(edit);
      SameImmutable(db.headers[d].cols, edit.after.cols, edit.changed);
      assert "is_advance" !in MUTABLE_STATE;
    }
  }

  lemma StatementKeepsHeader(db: Db, s: Statement, d: DocId, e: HeaderEvidence)
    requires StatementAllowed(db, s) && KnownStatuses(Execute(s), d) && Holds(db, d, e)
    ensures Holds(ApplyStatement(db, s), d, e)
  {
    if s.UpdateHeaders? && d in s.ids {
      assert "is_advance" !in MUTABLE_STATE;
      assert "is_advance" !in ChangedColumns(s);
      SameImmutable(db.headers[d].cols, Overwritten(db.headers[d].cols, s.cols, d), s.cols.Keys);
    }
  }

  // ---------------------------------------------------------------- what thaws a header

  /** The status a flush stores keeps a posted header posted: a plain known value, or an expression that comes out posted. */
  predicate FlushStatusHolds(e: Edit<Header>) {
    if "docstatus" in e.computed then IsPosted(e.after) else Lifecycle(e.after.docstatus)
  }

  /** An accepted flush thaws a posted header exactly by a foreign plain value, or by an expression that comes out unposted. */
  lemma FlushThawsIff(db: Db, posted: set<DocId>, f: Flush, d: DocId)
    requires WellFormed(db, f) && FlushAllowed(db, posted, f) && Posted(db, d)
    ensures Posted(ApplyFlush(db, f), d) <==> (d in f.dirtyHeaders ==> FlushStatusHolds(f.dirtyHeaders[d]))
  {
    assert d in f.dirtyHeaders || d in f.deletedHeaders ==> HeaderAllowed(db, f, d);
    assert d !in f.newHeaders;
  }

  /** The status a statement assigns keeps a posted header posted. */
  predicate AssignmentHolds(status: Assigned<int>, d: DocId) {
    match status
    case Bound(value) => Lifecycle(value)
    case Computed(stored) => d in stored ==> stored[d] == 1 || stored[d] == 2
  }

  /** So does an accepted Core statement: a foreign bound value, or an expression the database computes to unposted. */
  lemma StatementThawsIff(db: Db, s: Statement, d: DocId)
    requires StatementAllowed(db, s) && Posted(db, d)
    ensures Posted(ApplyStatement(db, s), d)
       <==> (s.UpdateHeaders? && d in s.ids && s.docstatus.Some? ==> AssignmentHolds(s.docstatus.value, d))
  {
  }

  /** The assignment, if the database computes it to the given values, thaws header d. */
  predicate ThawsWith(status: Assigned<int>, stored: map<nat, int>, d: DocId) {
    !AssignmentHolds(if status.Bound? then status else Computed(stored), d)
  }

  /** A status assignment whose outcome can be told before it is executed never thaws; every other one can. */
  lemma AssignmentCanThawIff(status: Assigned<int>)
    ensures (exists stored: map<nat, int>, d: DocId :: ThawsWith(status, stored, d)) <==> !KnownAssignment(Some(status))
  {
    if !KnownAssignment(Some(status)) {
      assert ThawsWith(status, map[0 := 0], 0);
    }
  }

  /** The statement that subtracts one from the status of the given headers. */
  function StepBack(db: Db, ids: set<nat>): Statement {
    UpdateHeaders(ids, Some(Computed(map d | d in ids && d in db.headers :: db.headers[d].docstatus - 1)), None, map[], false)
  }

  /**
    Subtracting one from the status by an SQL expression is accepted on any headers, and turns posted ones into drafts
    without a status outside draft, posted and cancelled ever being stored.
   */
  lemma StatusExpressionThaws(db: Db, ids: set<nat>, d: DocId)
    requires d in ids && d in db.headers && db.headers[d].docstatus == 1
    ensures StatementAllowed(db, StepBack(db, ids))
    ensures var after := ApplyStatement(db, StepBack(db, ids));
            d in after.headers && after.headers[d] == db.headers[d].(docstatus := 0) && !Posted(after, d)
  {
    var s := StepBack(db, ids);
    assert ChangedColumns(s) == {"docstatus"} && "docstatus" in MUTABLE_STATE;
    assert Overwritten(db.headers[d].cols, map[], d) == db.headers[d].cols;
  }

  /** A flush that edits header 0 and nothing else. */
  function EditOnly(changed: set<string>, computed: set<string>, after: Header): Flush {
    Flush(map[], map[0 := Edit(changed, computed, after)], {}, map[], map[], {}, map[], map[], {})
  }

  /**
    Such a flush is accepted exactly when the header is still a draft, or only operational columns change and the guard
    does not read a return to draft.
   */
  lemma EditOnlyAllowedIff(h: Header, changed: set<string>, computed: set<string>, after: Header)
    requires HeaderEdit(h, Edit(changed, computed, after))
    ensures var db := Db(map[0 := h], map[], map[]);
            var f := EditOnly(changed, computed, after);
            && WellFormed(db, f) && ApplyFlush(db, f) == Db(map[0 := after], map[], map[])
            && (FlushAllowed(db, {}, f) <==>
                  !IsPosted(h) || (("docstatus" in computed || after.docstatus != 0) && changed <= MUTABLE_STATE))
  {
    var db := Db(map[0 := h], map[], map[]);
    assert HeaderAllowed(db, EditOnly(changed, computed, after), 0)
      <==> !IsPosted(h) || (("docstatus" in computed || after.docstatus != 0) && changed <= MUTABLE_STATE);
  }

  /** The guards do not order posted and cancelled: a cancelled document may be set back to posted. */
  lemma CancelledMayBePostedAgain(h: Header)
    requires h.docstatus == 2
    ensures FlushAllowed(Db(map[0 := h], map[], map[]), {}, EditOnly({"docstatus"}, {}, h.(docstatus := 1)))
  {
    EditOnlyAllowedIff(h, {"docstatus"}, {}, h.(docstatus := 1));
    assert "docstatus" in MUTABLE_STATE;
  }

  /**
    A posted header whose status becomes unposted by one accepted flush, through a foreign plain value or an expression
    of any outcome, can be rewritten freely by the next.
   */
  lemma ThawedHeaderIsRewritable(h: Header, status: int, computed: set<string>, after: Header)
    requires IsPosted(h) && computed <= {"docstatus"} && status != 1 && status != 2
    requires computed == {} ==> !Lifecycle(status)
    requires after.docstatus == status && after.cols.Keys == h.cols.Keys
    ensures var db := Db(map[0 := h], map[], map[]);
            var f := EditOnly({"docstatus"}, computed, h.(docstatus := status));
            var g := EditOnly(h.cols.Keys + {"is_advance"}, {}, after);
            && FlushAllowed(db, {}, f) && FlushAllowed(ApplyFlush(db, f), {}, g)
            && ApplyFlush(ApplyFlush(db, f), g).headers == map[0 := after]
  {
    assert "docstatus" in MUTABLE_STATE;
    EditOnlyAllowedIff(h, {"docstatus"}, computed, h.(docstatus := status));
    EditOnlyAllowedIff(h.(docstatus := status), h.cols.Keys + {"is_advance"}, {}, after);
  }

  // ---------------------------------------------------------------- whole runs, headers

  /** Accepted steps from the start of a transaction, whatever they write. */
  ghost predicate Accepted(states: seq<State>, steps: seq<Step>) {
    && |states| == |steps| + 1
    && states[0].db == states[0].begun && states[0].posted == {}
    && forall i :: 0 <= i < |steps| ==> Next(states[i], steps[i], states[i + 1])
  }

  /** A run in which every lifecycle value written to header d is a known plain value. */
  ghost predicate Run(states: seq<State>, steps: seq<Step>, d: DocId) {
    Accepted(states, steps) && forall i :: 0 <= i < |steps| ==> KnownStatuses(steps[i], d)
  }

  lemma StepKeepsHeader(s: State, step: Step, t: State, d: DocId, e: HeaderEvidence)
    requires Next(s, step, t) && KnownStatuses(step, d)
    requires Holds(s.db, d, e) && (step.Rollback? ==> Holds(s.begun, d, e))
    ensures Holds(t.db, d, e)
  {
    match step
    case DoFlush(f) => FlushKeepsHeader(s.db, s.posted, f, d, e);
    case Execute(st) => StatementKeepsHeader(s.db, st, d, e);
    case Commit =>
    case Rollback =>
  }

  /** In every reachable state the posted headers of the transaction's start are still there, unchanged. */
  lemma {:induction false} BegunHeadersHold(states: seq<State>, steps: seq<Step>, j: nat, d: DocId)
    requires Run(states, steps, d) && j < |states| && Posted(states[j].begun, d)
    ensures Holds(states[j].db, d, EvidenceOf(states[j].begun.headers[d]))
  {
    if j > 0 && steps[j - 1] != Commit && steps[j - 1] != Rollback {
      BegunHeadersHold(states, steps, j - 1, d);
      StepKeepsHeader(states[j - 1], steps[j - 1], states[j], d, EvidenceOf(states[j].begun.headers[d]));
    }
  }

  /** Once a header is committed as posted or cancelled it stays so, unchanged, for the rest of the run. */
  lemma {:induction false} CommittedHeaderIsFrozen(states: seq<State>, steps: seq<Step>, i: nat, j: nat, d: DocId)
    requires Run(states, steps, d) && i <= j < |states|
    requires Posted(states[i].begun, d)
    ensures Holds(states[j].begun, d, EvidenceOf(states[i].begun.headers[d]))
    ensures Holds(states[j].db, d, EvidenceOf(states[i].begun.headers[d]))
    decreases j - i
  {
    if i == j {
      BegunHeadersHold(states, steps, i, d);
    } else {
      CommittedHeaderIsFrozen(states, steps, i, j - 1, d);
      StepKeepsHeader(states[j - 1], steps[j - 1], states[j], d, EvidenceOf(states[i].begun.headers[d]));
    }
  }

  /** Within a transaction (no rollback), a header is frozen from the very write that posts it. */
  lemma {:induction false} PersistedHeaderIsFrozen(states: seq<State>, steps: seq<Step>, i: nat, j: nat, d: DocId)
    requires Run(states, steps, d) && i <= j < |states| && Posted(states[i].db, d)
    requires forall k :: i <= k < j ==> steps[k] != Rollback
    ensures Holds(states[j].db, d, EvidenceOf(states[i].db.headers[d]))
    decreases j - i
  {
    if i < j {
      PersistedHeaderIsFrozen(states, steps, i, j - 1, d);
      StepKeepsHeader(states[j - 1], steps[j - 1], states[j], d, EvidenceOf(states[i].db.headers[d]));
    }
  }

  // ---------------------------------------------------------------- the posted-in-transaction set

  /** The set never contains a header that was already posted when the transaction began. */
  lemma {:induction false} PostedSetExcludesOldDocuments(states: seq<State>, steps: seq<Step>, j: nat, d: DocId)
    requires Run(states, steps, d) && j < |states| && Posted(states[j].begun, d)
    ensures d !in states[j].posted
  {
    if j > 0 && steps[j - 1] != Commit && steps[j - 1] != Rollback {
      PostedSetExcludesOldDocuments(states, steps, j - 1, d);
      BegunHeadersHold(states, steps, j - 1, d);
    }
  }

  // ---------------------------------------------------------------- the lines of a posted document

  ghost predicate LineHolds(db: Db, l: LineId, e: LineEvidence) {
    l in db.lines && LineEvidenceOf(db.lines[l]) == e
  }

  lemma SameLinksSameParents(a: Line, b: Line)
    requires a.links == b.links
    ensures Parents(a) == Parents(b)
  {
  }

  /** An accepted flush keeps every line of a document posted before it. */
  lemma FlushKeepsLine(db: Db, posted: set<DocId>, f: Flush, l: LineId, d: DocId)
    requires WellFormed(db, f) && FlushAllowed(db, posted, f) && Posted(db, d)
    requires l in db.lines && d in Parents(db.lines[l])
    ensures LineHolds(ApplyFlush(db, f), l, LineEvidenceOf(db.lines[l]))
  {
    assert l !in f.newLines;
    assert d in LineParentsBothWays(db, f, l);
    if l in f.dirtyLines || l in f.deletedLines {
      assert LineAllowed(db, f, l);
    }
    if l in f.dirtyLines {
      var edit := f.dirtyLines[l];
      assert LineEdit(db.lines[l], edit);
      SameImmutable(db.lines[l].cols, edit.after.cols, edit.changed);
      assert edit.after.links == db.lines[l].links;
    }
  }

  /**
    A line found under an old posted document after an accepted flush was there before, unchanged, or is
    a new reference to an advance payment that the flush leaves posted.
   */
  lemma FlushAddsOnlyReferences(db: Db, posted: set<DocId>, f: Flush, l: LineId, d: DocId)
    requires WellFormed(db, f) && FlushAllowed(db, posted, f) && Posted(db, d) && d !in posted
    requires var after := ApplyFlush(db, f); l in after.lines && d in Parents(after.lines[l])
    ensures var after := ApplyFlush(db, f);
            || (l in db.lines && d in Parents(db.lines[l]) && LineEvidenceOf(after.lines[l]) == LineEvidenceOf(db.lines[l]))
            || (l !in db.lines && after.lines[l].table == PAYMENT_REFERENCE
                && after.headers[d].docstatus == 1 && db.headers[d].advance)
  {
    if l in f.newLines {
      NewLineIsReference(db, posted, f, l, d);
    } else if l in f.dirtyLines {
      EditedLineIsSame(db, f, l, d);
    }
  }

  lemma NewLineIsReference(db: Db, posted: set<DocId>, f: Flush, l: LineId, d: DocId)
    requires WellFormed(db, f) && FlushAllowed(db, posted, f) && Posted(db, d) && d !in posted
    requires l in f.newLines && d in Parents(f.newLines[l])
    ensures f.newLines[l].table == PAYMENT_REFERENCE && db.headers[d].advance
    ensures d in ApplyFlush(db, f).headers && ApplyFlush(db, f).headers[d].docstatus == 1
  {
    assert d !in f.newHeaders;
    assert NewLineAllowed(db, posted, f, f.newLines[l], d);
    assert d in f.dirtyHeaders || d in f.deletedHeaders ==> HeaderAllowed(db, f, d);
    assert d in f.dirtyHeaders ==> HeaderEdit(db.headers[d], f.dirtyHeaders[d]);
    assert "is_advance" !in MUTABLE_STATE;
  }

  lemma EditedLineIsSame(db: Db, f: Flush, l: LineId, d: DocId)
    requires WellFormed(db, f) && LinesAllowed(db, f) && Posted(db, d)
    requires l in f.dirtyLines && d in LineParentsBothWays(db, f, l)
    ensures f.dirtyLines[l].after.links == db.lines[l].links
    ensures LineEvidenceOf(f.dirtyLines[l].after) == LineEvidenceOf(db.lines[l])
  {
    var edit := f.dirtyLines[l];
    assert LineAllowed(db, f, l) && LineEdit(db.lines[l], edit);
    SameImmutable(db.lines[l].cols, edit.after.cols, edit.changed);
    assert edit.after.links == db.lines[l].links;
  }

  lemma StatementKeepsLine(db: Db, s: Statement, l: LineId, d: DocId)
    requires StatementAllowed(db, s) && Posted(db, d) && l in db.lines && d in Parents(db.lines[l])
    requires s.InsertLines? ==> s.newLines.Keys !! db.lines.Keys
    ensures LineHolds(ApplyStatement(db, s), l, LineEvidenceOf(db.lines[l]))
  {
    assert HasPostedParent(db, l);
    if s.UpdateLines? && l in s.ids {
      SameImmutable(db.lines[l].cols, Overwritten(db.lines[l].cols, s.cols, l), s.cols.Keys);
    }
  }

  lemma StatementAddsNoLine(db: Db, s: Statement, l: LineId, d: DocId)
    requires StatementAllowed(db, s) && Posted(db, d)
    requires var after := ApplyStatement(db, s); l in after.lines && d in Parents(after.lines[l])
    requires s.InsertLines? ==> s.newLines.Keys !! db.lines.Keys
    ensures l in db.lines && d in Parents(db.lines[l])
    ensures LineEvidenceOf(ApplyStatement(db, s).lines[l]) == LineEvidenceOf(db.lines[l])
  {
    if s.InsertLines? && l in s.newLines {
      assert false;
    }
    SameLinksSameParents(db.lines[l], ApplyStatement(db, s).lines[l]);
    StatementKeepsLine(db, s, l, d);
  }

  // ---------------------------------------------------------------- whole runs, lines

  /** The lines of d in `now` are those of `then`, unchanged, plus references if d is an advance payment. */
  ghost predicate SameLines(original: Db, now: Db, d: DocId) {
    && (forall l :: l in original.lines && d in Parents(original.lines[l]) ==>
          LineHolds(now, l, LineEvidenceOf(original.lines[l])))
    && (forall l :: l in now.lines && d in Parents(now.lines[l]) ==>
          || (LineHolds(original, l, LineEvidenceOf(now.lines[l])) && d in Parents(original.lines[l]))
          || (now.lines[l].table == PAYMENT_REFERENCE && d in now.headers && now.headers[d].advance))
  }

  lemma SameLinesOneStep(original: Db, s: State, step: Step, t: State, d: DocId, e: HeaderEvidence)
    requires Next(s, step, t) && KnownStatuses(step, d) && step != Rollback
    requires Holds(s.db, d, e) && Holds(t.db, d, e) && d !in s.posted && SameLines(original, s.db, d)
    ensures SameLines(original, t.db, d)
  {
    if step != Commit {
      forall l | l in original.lines && d in Parents(original.lines[l])
        ensures LineHolds(t.db, l, LineEvidenceOf(original.lines[l]))
      {
        SameLinksSameParents(original.lines[l], s.db.lines[l]);
        if step.DoFlush? {
          FlushKeepsLine(s.db, s.posted, step.f, l, d);
        } else {
          StatementKeepsLine(s.db, step.s, l, d);
        }
      }
      forall l | l in t.db.lines && d in Parents(t.db.lines[l])
        ensures || (LineHolds(original, l, LineEvidenceOf(t.db.lines[l])) && d in Parents(original.lines[l]))
                || (t.db.lines[l].table == PAYMENT_REFERENCE && t.db.headers[d].advance)
      {
        if step.DoFlush? {
          FlushAddsOnlyReferences(s.db, s.posted, step.f, l, d);
        } else {
          StatementAddsNoLine(s.db, step.s, l, d);
        }
      }
    }
  }

  /**
    From the end of the transaction that posted d on, its lines are frozen: none is added, deleted,
    re-parented or rewritten, except new references to an advance payment.
   */
  lemma {:induction false} CommittedLinesAreFrozen(states: seq<State>, steps: seq<Step>, i: nat, j: nat, d: DocId)
    requires Run(states, steps, d) && i <= j < |states| && Posted(states[i].begun, d)
    requires states[i].db == states[i].begun
    ensures SameLines(states[i].begun, states[j].begun, d) && SameLines(states[i].begun, states[j].db, d)
    decreases j - i
  {
    if i < j {
      CommittedLinesAreFrozen(states, steps, i, j - 1, d);
      CommittedHeaderIsFrozen(states, steps, i, j - 1, d);
      CommittedHeaderIsFrozen(states, steps, i, j, d);
      PostedSetExcludesOldDocuments(states, steps, j - 1, d);
      SameLinesNext(states, steps, j, states[i].begun, d, EvidenceOf(states[i].begun.headers[d]));
    }
  }

  lemma SameLinesNext(states: seq<State>, steps: seq<Step>, j: nat, original: Db, d: DocId, e: HeaderEvidence)
    requires Run(states, steps, d) && 0 < j < |states|
    requires Holds(states[j - 1].db, d, e) && Holds(states[j].db, d, e) && d !in states[j - 1].posted
    requires SameLines(original, states[j - 1].begun, d) && SameLines(original, states[j - 1].db, d)
    ensures SameLines(original, states[j].begun, d) && SameLines(original, states[j].db, d)
  {
    if steps[j - 1] != Rollback { SameLinesOneStep(original, states[j - 1], steps[j - 1], states[j], d, e); }
  }

  // ---------------------------------------------------------------- flow evidence

  function FlowFigures(r: Flow): map<string, string> {
    map k | k in r.cols && k !in FlowTransitions(r.table) && k !in FLOW_PROVIDER_STAMPS :: r.cols[k]
  }

  ghost predicate FlowHolds(before: Flow, db: Db, r: FlowId) {
    && r in db.flows && db.flows[r].table == before.table && FlowFigures(db.flows[r]) == FlowFigures(before)
    && (before.table == DOCUMENT_RELATION && before.status != "active" ==> db.flows[r].status != "active")
  }

  /** The status of a flow row is written as a plain value. */
  ghost predicate PlainFlowStatuses(step: Step) {
    step.DoFlush? ==> forall r :: r in step.f.dirtyFlows ==> "status" !in step.f.dirtyFlows[r].computed
  }

  /** An accepted flush brings a reverted relation back exactly by an expression that comes out active. */
  lemma RevertedRelationReturnsIff(db: Db, posted: set<DocId>, f: Flush, r: FlowId)
    requires WellFormed(db, f) && FlushAllowed(db, posted, f) && r in db.flows
    requires db.flows[r].table == DOCUMENT_RELATION && db.flows[r].status != "active"
    ensures r in ApplyFlush(db, f).flows
    ensures ApplyFlush(db, f).flows[r].status == "active"
       <==> r in f.dirtyFlows && "status" in f.dirtyFlows[r].computed && f.dirtyFlows[r].after.status == "active"
  {
    assert r in f.dirtyFlows ==> FlowAllowed(db.flows[r], f.dirtyFlows[r]) && FlowEdit(db.flows[r], f.dirtyFlows[r]);
  }

  /** Such a flush is accepted for every reverted relation. */
  lemma RevertedRelationMayReturn(db: Db, posted: set<DocId>, r: FlowId)
    requires r in db.flows && db.flows[r].table == DOCUMENT_RELATION && db.flows[r].status != "active"
    ensures var before := db.flows[r];
            var f := Flush(map[], map[], {}, map[], map[], {}, map[], map[r := Edit({"status"}, {"status"}, before.(status := "active"))], {});
            && WellFormed(db, f) && FlushAllowed(db, posted, f)
            && r in ApplyFlush(db, f).flows && ApplyFlush(db, f).flows[r] == before.(status := "active")
  {
    assert {"status"} - FlowTransitions(DOCUMENT_RELATION) - FLOW_PROVIDER_STAMPS == {};
  }

  lemma StepKeepsFlow(before: Flow, s: State, step: Step, t: State, r: FlowId)
    requires Next(s, step, t) && PlainFlowStatuses(step)
    requires FlowHolds(before, s.db, r) && (step.Rollback? ==> FlowHolds(before, s.begun, r))
    ensures FlowHolds(before, t.db, r)
  {
    if step.DoFlush? && r in step.f.dirtyFlows {
      var edit := step.f.dirtyFlows[r];
      assert FlowAllowed(s.db.flows[r], edit) && FlowEdit(s.db.flows[r], edit);
      AllowedEditKeepsFigures(s.db.flows[r], edit);
    }
  }

  lemma AllowedEditKeepsFigures(before: Flow, edit: Edit<Flow>)
    requires FlowAllowed(before, edit) && FlowEdit(before, edit)
    ensures FlowFigures(edit.after) == FlowFigures(before)
  {
    forall k | k in edit.changed
      ensures k in FlowTransitions(before.table) || k in FLOW_PROVIDER_STAMPS
    {
      assert k !in edit.changed - FlowTransitions(before.table) - FLOW_PROVIDER_STAMPS;
    }
  }

  /**
    Flow evidence is never deleted, keeps its figures, and a reversed relation is never reactivated, while the status of
    flow rows is written as a plain value.
   */
  lemma {:induction false} FlowEvidenceIsFrozen(states: seq<State>, steps: seq<Step>, i: nat, j: nat, r: FlowId)
    requires Accepted(states, steps) && forall k :: 0 <= k < |steps| ==> PlainFlowStatuses(steps[k])
    requires i <= j < |states| && r in states[i].begun.flows
    requires states[i].db == states[i].begun
    ensures FlowHolds(states[i].begun.flows[r], states[j].begun, r)
    ensures FlowHolds(states[i].begun.flows[r], states[j].db, r)
    decreases j - i
  {
    if i < j {
      FlowEvidenceIsFrozen(states, steps, i, j - 1, r);
      StepKeepsFlow(states[i].begun.flows[r], states[j - 1], steps[j - 1], states[j], r);
    }
  }

  // ---------------------------------------------------------------- the listeners make these steps

  /** The listeners of a flush accept exactly the steps of the history, and remember exactly what it says was posted. */
  method GuardedFlush(guard: SessionGuard, ghost s: State, db: Db, f: Flush) returns (ok: bool, ghost t: State)
    requires WellFormed(db, f) && s.db == db && guard.posted == s.posted
    modifies guard
    ensures ok <==> FlushAllowed(db, s.posted, f)
    ensures ok ==> Next(s, DoFlush(f), t)
    ensures !ok ==> t == s
    ensures guard.posted == t.posted
  {
    t := s;
    ok := guard.GuardFlush(db, f);
    if ok {
      guard.RememberPosted(db, f);
      t := State(ApplyFlush(db, f), s.begun, s.posted + NewlyPosted(db, f));
    }
  }

  /** So do they at the end of a transaction, however it ends. */
  method EndTransaction(guard: SessionGuard, ghost s: State, commit: bool) returns (ghost t: State)
    modifies guard
    ensures Next(s, if commit then Commit else Rollback, t) && guard.posted == t.posted
  {
    guard.ClearTransaction();
    t := if commit then State(s.db, s.db, {}) else State(s.begun, s.begun, {});
  }
}
