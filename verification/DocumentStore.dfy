/**
  The rows the internal controls protect (document headers, their lines, and the evidence of the document
  flow), the writes an ORM flush or a Core statement can make, and the guards that accept or refuse them.
 */
module DocumentStore {
  import opened Common

  type DocId = nat
  type LineId = nat
  type FlowId = nat

  /** Columns that are operational state, never a rewrite of financial evidence. */
  const MUTABLE_STATE: set<string> := {
    "status", "docstatus", "modified", "modified_by", "version", "cancelled_at", "cancelled_by",
    "cancel_reason", "canceled", "canceled_by", "is_cancelled", "outstanding_amount",
    "base_outstanding_amount", "unallocated_amount", "base_unallocated_amount", "is_superseded",
    "supplier_invoice_key", "capitalized_by_id", "capitalization_origin_id"
  }

  const PAYMENT_REFERENCE := "payment_reference"
  const DOCUMENT_RELATION := "document_relation"

  /** A document header; `advance` says that it is a payment entry registered as an advance. */
  datatype Header = Header(docstatus: int, advance: bool, cols: map<string, string>)

  /** A line of a document: its links to headers by foreign-key column, and its other columns. */
  datatype Line = Line(table: string, links: map<string, Option<DocId>>, cols: map<string, string>)

  /** A row of inter-voucher flow evidence. */
  datatype Flow = Flow(table: string, status: string, cols: map<string, string>)

  datatype Db = Db(headers: map<DocId, Header>, lines: map<LineId, Line>, flows: map<FlowId, Flow>)

  predicate IsPosted(h: Header) {
    h.docstatus == 1 || h.docstatus == 2
  }

  /** The header exists in the database and is persisted as posted or cancelled. */
  predicate Posted(db: Db, d: DocId) {
    d in db.headers && IsPosted(db.headers[d])
  }

  function Parents(line: Line): set<DocId> {
    set k | k in line.links && line.links[k].Some? :: line.links[k].value
  }

  // ---------------------------------------------------------------- what must not change

  function Immutable(cols: map<string, string>): map<string, string> {
    map k | k in cols && k !in MUTABLE_STATE :: cols[k]
  }

  datatype HeaderEvidence = HeaderEvidence(advance: bool, cols: map<string, string>)
  datatype LineEvidence = LineEvidence(table: string, links: map<string, Option<DocId>>, cols: map<string, string>)

  function EvidenceOf(h: Header): HeaderEvidence {
    HeaderEvidence(h.advance, Immutable(h.cols))
  }

  function LineEvidenceOf(l: Line): LineEvidence {
    LineEvidence(l.table, l.links, Immutable(l.cols))
  }

  // ---------------------------------------------------------------- an ORM flush

  /**
    A modified object: the keys whose history changed, those among them whose new value the guards cannot compare, and
    the values that end up stored. Such a value is an SQL expression, or one of another type that the database converts:
    it equals no value of its column, so every comparison of it counts as false.
   */
  datatype Edit<T> = Edit(changed: set<string>, computed: set<string>, after: T)

  datatype Flush = Flush(
    newHeaders: map<DocId, Header>, dirtyHeaders: map<DocId, Edit<Header>>, deletedHeaders: set<DocId>,
    newLines: map<LineId, Line>, dirtyLines: map<LineId, Edit<Line>>, deletedLines: set<LineId>,
    newFlows: map<FlowId, Flow>, dirtyFlows: map<FlowId, Edit<Flow>>, deletedFlows: set<FlowId>)

  ghost predicate SameOutside(before: map<string, string>, after: map<string, string>, changed: set<string>) {
    && after.Keys == before.Keys
    && forall k :: k in before && k !in changed ==> after[k] == before[k]
  }

  ghost predicate HeaderEdit(before: Header, e: Edit<Header>) {
    && e.computed <= e.changed
    && SameOutside(before.cols, e.after.cols, e.changed)
    && ("docstatus" !in e.changed ==> e.after.docstatus == before.docstatus)
    && ("is_advance" !in e.changed ==> e.after.advance == before.advance)
  }

  /** Foreign-key columns towards headers are none of the operational columns. */
  ghost predicate LineEdit(before: Line, e: Edit<Line>) {
    && e.computed <= e.changed
    && e.after.table == before.table
    && SameOutside(before.cols, e.after.cols, e.changed)
    && e.after.links.Keys == before.links.Keys && before.links.Keys !! MUTABLE_STATE
    && forall k :: k in before.links && k !in e.changed ==> e.after.links[k] == before.links[k]
  }

  ghost predicate FlowEdit(before: Flow, e: Edit<Flow>) {
    && e.computed <= e.changed
    && e.after.table == before.table
    && SameOutside(before.cols, e.after.cols, e.changed)
    && ("status" !in e.changed ==> e.after.status == before.status)
  }

  /** The flush describes changes of rows that exist and inserts rows that do not. */
  ghost predicate WellFormed(db: Db, f: Flush) {
    && f.newHeaders.Keys !! db.headers.Keys && f.newLines.Keys !! db.lines.Keys && f.newFlows.Keys !! db.flows.Keys
    && (forall d :: d in f.dirtyHeaders ==> d in db.headers && HeaderEdit(db.headers[d], f.dirtyHeaders[d]))
    && (forall l :: l in f.dirtyLines ==> l in db.lines && LineEdit(db.lines[l], f.dirtyLines[l]))
    && (forall r :: r in f.dirtyFlows ==> r in db.flows && FlowEdit(db.flows[r], f.dirtyFlows[r]))
  }

  function Edited<T>(rows: map<nat, T>, dirty: map<nat, Edit<T>>): map<nat, T> {
    map k | k in rows :: if k in dirty then dirty[k].after else rows[k]
  }

  function ApplyFlush(db: Db, f: Flush): Db {
    Db((Edited(db.headers, f.dirtyHeaders) - f.deletedHeaders) + f.newHeaders,
       (Edited(db.lines, f.dirtyLines) - f.deletedLines) + f.newLines,
       (Edited(db.flows, f.dirtyFlows) - f.deletedFlows) + f.newFlows)
  }

  // ---------------------------------------------------------------- the guards of a flush

  /** The in-memory state of a header that exists in the database. */
  function Current(db: Db, f: Flush, d: DocId): Header
    requires d in db.headers
  {
    if d in f.dirtyHeaders then f.dirtyHeaders[d].after else db.headers[d]
  }

  /** Does the in-memory status of a header compare equal to posted? */
  predicate SeenPosted(db: Db, f: Flush, d: DocId)
    requires d in db.headers
  {
    !(d in f.dirtyHeaders && "docstatus" in f.dirtyHeaders[d].computed) && Current(db, f, d).docstatus == 1
  }

  /** A later allocation of an advance payment that is still posted. */
  predicate PostedAdvanceReference(db: Db, f: Flush, line: Line, d: DocId)
    requires d in db.headers
  {
    line.table == PAYMENT_REFERENCE && SeenPosted(db, f, d) && Current(db, f, d).advance
  }

  predicate PostedHere(db: Db, posted: set<DocId>, f: Flush, d: DocId)
    requires d in db.headers
  {
    SeenPosted(db, f, d) && d in posted
  }

  predicate NewLineAllowed(db: Db, posted: set<DocId>, f: Flush, line: Line, d: DocId) {
    d !in db.headers || !IsPosted(db.headers[d])
    || PostedAdvanceReference(db, f, line, d)
    || (PostedHere(db, posted, f, d) && line.table != PAYMENT_REFERENCE)
  }

  predicate NewLinesAllowed(db: Db, posted: set<DocId>, f: Flush) {
    forall l :: l in f.newLines ==>
      forall d :: d in Parents(f.newLines[l]) ==> NewLineAllowed(db, posted, f, f.newLines[l], d)
  }

  /** Does the new status of a modified header compare equal to draft? */
  predicate SeenDraft(e: Edit<Header>) {
    "docstatus" !in e.computed && e.after.docstatus == 0
  }

  /** Lifecycle and field guard of an existing header. */
  predicate HeaderAllowed(db: Db, f: Flush, d: DocId)
    requires d in db.headers
  {
    IsPosted(db.headers[d]) ==>
      && d !in f.deletedHeaders
      && (d in f.dirtyHeaders ==> !SeenDraft(f.dirtyHeaders[d]) && f.dirtyHeaders[d].changed <= MUTABLE_STATE)
  }

  predicate HeadersAllowed(db: Db, f: Flush) {
    forall d :: d in db.headers && (d in f.dirtyHeaders || d in f.deletedHeaders) ==> HeaderAllowed(db, f, d)
  }

  function LineParentsBothWays(db: Db, f: Flush, l: LineId): set<DocId>
    requires l in db.lines
  {
    Parents(db.lines[l]) + if l in f.dirtyLines then Parents(f.dirtyLines[l].after) else {}
  }

  /** Looking up a parent through a foreign key that was assigned an expression fails. */
  predicate LineAllowed(db: Db, f: Flush, l: LineId)
    requires l in db.lines
  {
    || (l !in f.deletedLines && (l in f.dirtyLines ==> f.dirtyLines[l].changed <= MUTABLE_STATE))
    || (&& (l in f.dirtyLines ==> f.dirtyLines[l].computed !! db.lines[l].links.Keys)
        && forall d :: d in LineParentsBothWays(db, f, l) ==> !Posted(db, d))
  }

  predicate LinesAllowed(db: Db, f: Flush) {
    forall l :: l in db.lines && (l in f.dirtyLines || l in f.deletedLines) ==> LineAllowed(db, f, l)
  }

  /** Workflow columns of each kind of flow evidence. */
  function FlowTransitions(table: string): set<string> {
    if table == DOCUMENT_RELATION
    then {"status", "reversed_at", "reversed_by", "reversal_reason", "cancelled_at", "cancelled_by", "metadata_json"}
    else {"status"}
  }

  const FLOW_PROVIDER_STAMPS: set<string> := {"modified", "modified_by"}

  predicate FlowAllowed(before: Flow, e: Edit<Flow>) {
    && e.changed - FlowTransitions(before.table) - FLOW_PROVIDER_STAMPS == {}
    && (before.table == DOCUMENT_RELATION && "status" in e.changed ==>
          !(before.status != "active" && "status" !in e.computed && e.after.status == "active"))
  }

  predicate FlowsAllowed(db: Db, f: Flush) {
    && (forall r :: r in f.deletedFlows ==> r !in db.flows)
    && forall r :: r in f.dirtyFlows && r in db.flows ==> FlowAllowed(db.flows[r], f.dirtyFlows[r])
  }

  predicate FlushAllowed(db: Db, posted: set<DocId>, f: Flush) {
    NewLinesAllowed(db, posted, f) && HeadersAllowed(db, f) && LinesAllowed(db, f) && FlowsAllowed(db, f)
  }

  /** Headers the flush inserts as posted, or moves from draft to posted. */
  function NewlyPosted(db: Db, f: Flush): set<DocId> {
    (set d | d in f.newHeaders && f.newHeaders[d].docstatus == 1)
    + (set d | d in f.dirtyHeaders && d in db.headers && SeenPosted(db, f, d) && !IsPosted(db.headers[d]))
  }

  // ---------------------------------------------------------------- Core statements

  /**
    A value a statement assigns: one bound to the statement, or one the guards cannot compare with anything, an SQL
    expression or a bound value of another type, which the database computes or converts for each row.
   */
  datatype Assigned<T> = Bound(value: T) | Computed(stored: map<nat, T>)

  /** What a row holds after the assignment. */
  function Stored<T>(a: Assigned<T>, row: nat, before: T): T {
    match a
    case Bound(value) => value
    case Computed(stored) => if row in stored then stored[row] else before
  }

  predicate Reads<T(==)>(a: Assigned<T>, value: T) {
    a.Bound? && a.value == value
  }

  /** A direct SQL write: the rows its WHERE clause matches and the columns it sets. */
  datatype Statement =
    | UpdateHeaders(ids: set<nat>, docstatus: Option<Assigned<int>>, advance: Option<Assigned<bool>>,
                    cols: map<string, Assigned<string>>, setsLinks: bool)
    | DeleteHeaders(ids: set<nat>)
    | InsertHeaders(rows: map<DocId, Header>)
    | UpdateLines(ids: set<nat>, cols: map<string, Assigned<string>>, setsLinks: bool)
    | DeleteLines(ids: set<nat>)
    | InsertLines(newLines: map<LineId, Line>)
    | WriteFlows(ids: set<nat>)

  predicate HasPostedParent(db: Db, l: LineId) {
    l in db.lines && exists d :: d in Parents(db.lines[l]) && Posted(db, d)
  }

  function ChangedColumns(s: Statement): set<string>
    requires s.UpdateHeaders?
  {
    s.cols.Keys + (if s.docstatus.Some? then {"docstatus"} else {}) + (if s.advance.Some? then {"is_advance"} else {})
  }

  /** Does the guard read a return to draft? */
  predicate SetsDraft(docstatus: Option<Assigned<int>>, cols: map<string, Assigned<string>>) {
    || (docstatus.Some? && Reads(docstatus.value, 0))
    || ("status" in cols && Reads(cols["status"], "draft"))
  }

  predicate StatementAllowed(db: Db, s: Statement) {
    match s
    case UpdateHeaders(m, docstatus, _, cols, setsLinks) =>
      && !setsLinks
      && (|| (ChangedColumns(s) != {} && ChangedColumns(s) <= MUTABLE_STATE && !SetsDraft(docstatus, cols))
          || forall d :: d in m ==> !Posted(db, d))
    case DeleteHeaders(m) => forall d :: d in m ==> !Posted(db, d)
    case InsertHeaders(_) => false
    case UpdateLines(ls, cols, setsLinks) =>
      && !setsLinks
      && (|| (cols.Keys != {} && cols.Keys <= MUTABLE_STATE && !SetsDraft(None, cols))
          || forall l :: l in ls ==> !HasPostedParent(db, l))
    case DeleteLines(ls) => forall l :: l in ls ==> !HasPostedParent(db, l)
    case InsertLines(rows) =>
      rows != map[] && forall l :: l in rows ==>
        rows[l].table != PAYMENT_REFERENCE && forall d :: d in Parents(rows[l]) ==> !Posted(db, d)
    case WriteFlows(_) => false
  }

  function Overwritten(before: map<string, string>, values: map<string, Assigned<string>>, row: nat): map<string, string> {
    map k | k in before :: if k in values then Stored(values[k], row, before[k]) else before[k]
  }

  /** A header row after the assignments. */
  function Reassigned(h: Header, d: DocId, docstatus: Option<Assigned<int>>, advance: Option<Assigned<bool>>,
      cols: map<string, Assigned<string>>): Header
  {
    Header(if docstatus.Some? then Stored(docstatus.value, d, h.docstatus) else h.docstatus,
           if advance.Some? then Stored(advance.value, d, h.advance) else h.advance,
           Overwritten(h.cols, cols, d))
  }

  function ApplyStatement(db: Db, s: Statement): Db {
    match s
    case UpdateHeaders(m, docstatus, advance, cols, _) =>
      db.(headers := map d | d in db.headers ::
            if d in m then Reassigned(db.headers[d], d, docstatus, advance, cols) else db.headers[d])
    case DeleteHeaders(m) => db.(headers := db.headers - m)
    case InsertHeaders(rows) => db.(headers := db.headers + rows)
    case UpdateLines(ls, cols, _) =>
      db.(lines := map l | l in db.lines ::
            if l in ls then db.lines[l].(cols := Overwritten(db.lines[l].cols, cols, l)) else db.lines[l])
    case DeleteLines(ls) => db.(lines := db.lines - ls)
    case InsertLines(rows) => db.(lines := db.lines + rows)
    case WriteFlows(_) => db
  }

  // ---------------------------------------------------------------- the guards as they run

  /** The listeners of one session, with the headers it has posted in the active transaction. */
  class SessionGuard {
    var posted: set<DocId>

    constructor ()
      ensures posted == {}
    {
      posted := {};
    }

    /** Refuse a new line whose header is already posted. */
    method GuardNewLines(db: Db, f: Flush) returns (ok: bool)
      ensures ok <==> NewLinesAllowed(db, posted, f)
    {
      var todo := f.newLines.Keys;
      while todo != {}
        invariant todo <= f.newLines.Keys
        invariant forall l :: l in f.newLines && l !in todo ==>
                    forall d :: d in Parents(f.newLines[l]) ==> NewLineAllowed(db, posted, f, f.newLines[l], d)
      {
        var l :| l in todo;
        var line := f.newLines[l];
        var parents := Parents(line);
        while parents != {}
          invariant parents <= Parents(line)
          invariant forall d :: d in Parents(line) && d !in parents ==> NewLineAllowed(db, posted, f, line, d)
        {
          var d :| d in parents;
          if !NewLineAllowed(db, posted, f, line, d) {
            return false;
          }
          parents := parents - {d};
        }
        todo := todo - {l};
      }
      ok := true;
    }

    /** The dirty and deleted objects, one by one, against the persisted state. */
    method GuardFlush(db: Db, f: Flush) returns (ok: bool)
      ensures ok <==> FlushAllowed(db, posted, f)
    {
      ok := GuardNewLines(db, f);
      if !ok {
        return;
      }
      var headers := (f.dirtyHeaders.Keys + f.deletedHeaders) * db.headers.Keys;
      while headers != {}
        invariant headers <= (f.dirtyHeaders.Keys + f.deletedHeaders) * db.headers.Keys
        invariant forall d :: d in (f.dirtyHeaders.Keys + f.deletedHeaders) * db.headers.Keys && d !in headers ==> HeaderAllowed(db, f, d)
      {
        var d :| d in headers;
        if !HeaderAllowed(db, f, d) {
          return false;
        }
        headers := headers - {d};
      }
      var lines := (f.dirtyLines.Keys + f.deletedLines) * db.lines.Keys;
      while lines != {}
        invariant lines <= (f.dirtyLines.Keys + f.deletedLines) * db.lines.Keys
        invariant forall l :: l in (f.dirtyLines.Keys + f.deletedLines) * db.lines.Keys && l !in lines ==> LineAllowed(db, f, l)
      {
        var l :| l in lines;
        if !LineAllowed(db, f, l) {
          return false;
        }
        lines := lines - {l};
      }
      ok := FlowsAllowed(db, f);
    }

    /** The mapper events that run while the flush is written, one for each inserted and each updated header. */
    method RememberPosted(db: Db, f: Flush)
      requires f.dirtyHeaders.Keys <= db.headers.Keys
      modifies this
      ensures posted == old(posted) + NewlyPosted(db, f)
    {
      var todo := f.newHeaders.Keys;
      while todo != {}
        invariant todo <= f.newHeaders.Keys
        invariant posted == old(posted) + set d | d in f.newHeaders && d !in todo && f.newHeaders[d].docstatus == 1
      {
        var d :| d in todo;
        if f.newHeaders[d].docstatus == 1 { posted := posted + {d}; }
        todo := todo - {d};
      }
      ghost var inserted := posted;
      todo := f.dirtyHeaders.Keys;
      while todo != {}
        invariant todo <= f.dirtyHeaders.Keys
        invariant posted == inserted + set d | d in f.dirtyHeaders && d !in todo && SeenPosted(db, f, d) && !IsPosted(db.headers[d])
      {
        var d :| d in todo;
        if SeenPosted(db, f, d) && !IsPosted(db.headers[d]) { posted := posted + {d}; }
        todo := todo - {d};
      }
    }

    /** The outer transaction ended, by commit or rollback. */
    method ClearTransaction()
      modifies this
      ensures posted == {}
    {
      posted := {};
    }
  }
}
