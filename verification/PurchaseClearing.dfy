/**
  Receipts and invoices posted in any order, each allocation row written when the later document of its pair is posted:
  what is left on the bridge, in expense and in variance after any run.
 */
module PurchaseClearing {
  import opened Common
  import opened Sums
  import opened PurchasePosting
  import opened ReceiptBalance

  /** A posted document line. */
  datatype Posted = Posted(id: nat, amount: real)

  /**
    The ledger, all allocation rows, the posted stock lines and invoice lines, the value taken from pools by unallocated
    receipt lines, and the value of invoice lines routed to the bridge without an allocation.
   */
  datatype Books = Books(ledger: seq<Entry>, rows: seq<Row>, receipts: seq<Posted>, invoices: seq<Posted>,
                         pooled: real, routed: real)

  datatype Step =
    | PostReceipt(goods: seq<ReceiptLine>, rows: seq<Row>, late: Pool, receiptSetup: ReceiptSetup)
    | PostInvoice(bills: seq<InvoiceLine>, rows: seq<Row>, invoiceSetup: InvoiceSetup)

  function Empty(): Books {
    Books([], [], [], [], 0.0, 0.0)
  }

  // ---------------------------------------------------------------- what a document adds

  function AllocationMap(rows: seq<Row>): map<nat, Allocation> {
    map id | id in (set k | 0 <= k < |rows| :: rows[k].receiptLine) :: AllocationOf(rows, OfReceipt, id)
  }

  function StockLines(items: seq<ReceiptLine>): seq<Posted> {
    if items == [] then []
    else (if items[0].stock then [Posted(items[0].id, items[0].amount)] else []) + StockLines(items[1..])
  }

  function InvoiceLines(items: seq<InvoiceLine>): seq<Posted> {
    if items == [] then [] else [Posted(items[0].id, items[0].amount)] + InvoiceLines(items[1..])
  }

  /** Pool value taken by the unallocated lines of a receipt. */
  function Pooled(items: seq<ReceiptLine>, allocs: map<nat, Allocation>, pool: Pool): real {
    if items == [] then 0.0
    else
      var a := Lookup(allocs, items[0].id);
      (if HasAllocation(a) then 0.0 else Moved(items[0], a, pool)) + Pooled(items[1..], allocs, PoolLeft(items[0], a, pool))
  }

  /** Value of the invoice lines routed to the bridge although nothing is allocated to them. */
  function Routed(items: seq<InvoiceLine>, rows: seq<Row>, setup: InvoiceSetup): real {
    if items == [] then 0.0
    else
      (if setup.useBridge && !HasAllocation(AllocationOf(rows, OfInvoice, items[0].id)) then items[0].amount else 0.0)
      + Routed(items[1..], rows, setup)
  }

  /** Post one document; an error posts nothing. */
  function Post(b: Books, s: Step): Result<Books> {
    var rows := b.rows + s.rows;
    match s
    case PostReceipt(items, _, late, setup) =>
      var built :- Receipt(items, AllocationMap(rows), late, setup);
      Ok(Books(b.ledger + built.lines, rows, b.receipts + StockLines(items), b.invoices,
               b.pooled + Pooled(items, AllocationMap(rows), late), b.routed))
    case PostInvoice(items, _, setup) =>
      var lines :- InvoiceEntries(items, rows, setup);
      Ok(Books(b.ledger + lines, rows, b.receipts, b.invoices + InvoiceLines(items), b.pooled, b.routed + Routed(items, rows, setup)))
  }

  // ---------------------------------------------------------------- admissible documents

  predicate Distinct(lines: seq<Posted>) {
    forall i, j :: 0 <= i < j < |lines| ==> lines[i].id != lines[j].id
  }

  predicate Has(lines: seq<Posted>, id: nat) {
    exists k :: 0 <= k < |lines| && lines[k].id == id
  }

  predicate AllAt(rows: seq<Row>, end: End, lines: seq<Posted>) {
    forall k :: 0 <= k < |rows| ==> Has(lines, LineAt(rows[k], end))
  }

  predicate SoundInvoiceLine(item: InvoiceLine, alloc: Allocation, setup: InvoiceSetup) {
    && 0.0 <= alloc.receipt && 0.0 <= alloc.invoice <= item.amount
    && (if setup.useBridge then item.bridgeSet else item.expenseSet)
  }

  /** New lines are new; new rows tie them to lines posted before; allocations are bounded by their lines. */
  predicate Admissible(b: Books, s: Step) {
    var all := b.rows + s.rows;
    match s
    case PostReceipt(items, rows, late, setup) =>
      && !setup.isReturn
      && Distinct(b.receipts + StockLines(items))
      && AllAt(rows, OfReceipt, StockLines(items)) && AllAt(rows, OfInvoice, b.invoices)
      && AllSound(items, AllocationMap(all)) && !NegativePoolMet(items, AllocationMap(all), late)
    case PostInvoice(items, rows, setup) =>
      && Distinct(b.invoices + InvoiceLines(items))
      && AllAt(rows, OfInvoice, InvoiceLines(items)) && AllAt(rows, OfReceipt, b.receipts)
      && (rows != [] ==> setup.useBridge)
      && forall k :: 0 <= k < |items| ==> SoundInvoiceLine(items[k], AllocationOf(all, OfInvoice, items[k].id), setup)
  }

  /** A run posts admissible documents one after the other. */
  ghost predicate Run(steps: seq<Step>, b: Books)
    decreases |steps|
  {
    if steps == [] then b == Empty()
    else
      var last := steps[|steps| - 1];
      exists before: Books :: Run(steps[..|steps| - 1], before) && Admissible(before, last) && Post(before, last) == Ok(b)
  }

  // ---------------------------------------------------------------- sums

  function Worth(lines: seq<Posted>): real {
    Sum((line: Posted) => line.amount, lines)
  }

  function SumRows(rows: seq<Row>, part: Part): real {
    Sum((row: Row) => ValueOf(row, part), rows)
  }

  /** The allocations of the given lines, added up line by line. */
  function SumOver(lines: seq<Posted>, rows: seq<Row>, end: End, part: Part): real {
    if lines == [] then 0.0 else Allocated(rows, end, lines[0].id, part) + SumOver(lines[1..], rows, end, part)
  }

  lemma {:induction false} AllocatedOfConcat(a: seq<Row>, b: seq<Row>, end: End, id: nat, part: Part)
    ensures Allocated(a + b, end, id, part) == Allocated(a, end, id, part) + Allocated(b, end, id, part)
  {
    if a == [] {
      assert a + b == b;
    } else {
      AllocatedOfConcat(a[1..], b, end, id, part);
      assert (a + b)[1..] == a[1..] + b;
    }
  }

  lemma {:induction false} NothingAllocated(rows: seq<Row>, end: End, id: nat, part: Part)
    requires forall k :: 0 <= k < |rows| ==> LineAt(rows[k], end) != id
    ensures Allocated(rows, end, id, part) == 0.0
  {
    if rows != [] { NothingAllocated(rows[1..], end, id, part); }
  }

  lemma AllocationMapLookup(rows: seq<Row>, id: nat)
    ensures Lookup(AllocationMap(rows), id) == AllocationOf(rows, OfReceipt, id)
  {
    if forall k :: 0 <= k < |rows| ==> LineAt(rows[k], OfReceipt) != id {
      NothingAllocated(rows, OfReceipt, id, ReceiptValue);
      NothingAllocated(rows, OfReceipt, id, InvoiceValue);
    }
  }

  lemma HasTail(lines: seq<Posted>, id: nat)
    requires lines != [] && Distinct(lines)
    ensures Has(lines, id) <==> lines[0].id == id || Has(lines[1..], id)
    ensures lines[0].id == id ==> !Has(lines[1..], id)
    ensures Distinct(lines[1..])
  {
    forall k | 0 <= k < |lines[1..]| ensures lines[1..][k] == lines[k + 1] {
    }
  }

  /** One more row adds its value to the one line it belongs to. */
  lemma {:induction false} SumOverOneMoreRow(lines: seq<Posted>, rows: seq<Row>, end: End, part: Part)
    requires rows != [] && Distinct(lines)
    ensures SumOver(lines, rows, end, part)
         == SumOver(lines, rows[1..], end, part) + if Has(lines, LineAt(rows[0], end)) then ValueOf(rows[0], part) else 0.0
  {
    if lines != [] {
      HasTail(lines, LineAt(rows[0], end));
      SumOverOneMoreRow(lines[1..], rows, end, part);
    }
  }

  lemma {:induction false} SumOverNoRows(lines: seq<Posted>, end: End, part: Part)
    ensures SumOver(lines, [], end, part) == 0.0
  {
    if lines != [] { SumOverNoRows(lines[1..], end, part); }
  }

  /** Counting allocations by line or by row gives the same sum when every row belongs to one of the lines. */
  lemma {:induction false} CountTwice(lines: seq<Posted>, rows: seq<Row>, end: End, part: Part)
    requires Distinct(lines) && AllAt(rows, end, lines)
    ensures SumOver(lines, rows, end, part) == SumRows(rows, part)
  {
    if rows == [] {
      SumOverNoRows(lines, end, part);
    } else {
      assert Has(lines, LineAt(rows[0], end));
      forall k | 0 <= k < |rows[1..]| ensures Has(lines, LineAt(rows[1..][k], end)) {
        assert rows[1..][k] == rows[k + 1];
      }
      SumOverOneMoreRow(lines, rows, end, part);
      CountTwice(lines, rows[1..], end, part);
    }
  }

  // ---------------------------------------------------------------- one receipt

  lemma StockLinesTail(items: seq<ReceiptLine>)
    requires items != []
    ensures items[0].stock ==> StockLines(items) != [] && StockLines(items)[0] == Posted(items[0].id, items[0].amount)
                               && StockLines(items)[1..] == StockLines(items[1..])
    ensures !items[0].stock ==> StockLines(items) == StockLines(items[1..])
  {
  }

  /** The clearing form of what a document does to an account. */
  function Clearing(received: real, invoiced: real, receiptValue: real, invoiceValue: real, pooled: real, routed: real,
      account: Account): real
  {
    match account
    case Inventory => received
    case Bridge => -(received - receiptValue - pooled - routed)
    case Expense => invoiced - invoiceValue - pooled - routed
    case Variance => invoiceValue - receiptValue
  }

  /** A sound line that meets no negative pool. */
  lemma ReceiptLineAdds(item: ReceiptLine, a: Allocation, pool: Pool, account: Account)
    requires item.stock ==> Sound(item, a) && (!HasAllocation(a) ==> PoolOf(pool, item.code) >= 0.0)
    ensures ReceiptLineEffect(item, a, pool, account)
         == if item.stock then Clearing(item.amount, 0.0, a.receipt, a.invoice,
                                        if HasAllocation(a) then 0.0 else Moved(item, a, pool), 0.0, account)
            else 0.0
    ensures !item.stock ==> Moved(item, a, pool) == 0.0 && Settled(item, a, pool) == 0.0
  {
  }

  /** The clearing form of a receipt is that of its first line plus that of the rest. */
  lemma ReceiptSums(items: seq<ReceiptLine>, rows: seq<Row>, allocs: map<nat, Allocation>, pool: Pool, account: Account)
    requires items != [] && Lookup(allocs, items[0].id) == AllocationOf(rows, OfReceipt, items[0].id)
    requires !items[0].stock ==> Moved(items[0], Lookup(allocs, items[0].id), pool) == 0.0
    ensures var item, a, lines, more := items[0], Lookup(allocs, items[0].id), StockLines(items), StockLines(items[1..]);
            Clearing(Worth(lines), 0.0, SumOver(lines, rows, OfReceipt, ReceiptValue), SumOver(lines, rows, OfReceipt, InvoiceValue),
                     Pooled(items, allocs, pool), 0.0, account)
            == (if item.stock then Clearing(item.amount, 0.0, a.receipt, a.invoice,
                                            if HasAllocation(a) then 0.0 else Moved(item, a, pool), 0.0, account) else 0.0)
               + Clearing(Worth(more), 0.0, SumOver(more, rows, OfReceipt, ReceiptValue), SumOver(more, rows, OfReceipt, InvoiceValue),
                          Pooled(items[1..], allocs, PoolLeft(item, a, pool)), 0.0, account)
  {
    StockLinesTail(items);
  }

  lemma {:induction false} ReceiptAdds(items: seq<ReceiptLine>, rows: seq<Row>, allocs: map<nat, Allocation>, pool: Pool,
      setup: ReceiptSetup, account: Account)
    requires !setup.isReturn && ReceiptEntries(items, allocs, pool, setup).Ok?
    requires AllSound(items, allocs) && !NegativePoolMet(items, allocs, pool)
    requires forall k :: 0 <= k < |items| ==> Lookup(allocs, items[k].id) == AllocationOf(rows, OfReceipt, items[k].id)
    ensures var lines := StockLines(items);
            On(ReceiptEntries(items, allocs, pool, setup).value.lines, account)
            == Clearing(Worth(lines), 0.0, SumOver(lines, rows, OfReceipt, ReceiptValue), SumOver(lines, rows, OfReceipt, InvoiceValue),
                        Pooled(items, allocs, pool), 0.0, account)
  {
    if items != [] {
      var item, rest := items[0], items[1..];
      var a := Lookup(allocs, item.id);
      AllSoundTail(items, allocs);
      forall k | 0 <= k < |rest| ensures Lookup(allocs, rest[k].id) == AllocationOf(rows, OfReceipt, rest[k].id) {
        assert rest[k] == items[k + 1];
      }
      ReceiptStep(items, allocs, pool, setup, account);
      ReceiptLineOn(item, a, pool, setup, account);
      PoolLeftIsLinePool(item, a, pool, setup);
      ReceiptAdds(rest, rows, allocs, PoolLeft(item, a, pool), setup, account);
      ReceiptLineAdds(item, a, pool, account);
      ReceiptSums(items, rows, allocs, pool, account);
    }
  }

  // ---------------------------------------------------------------- one invoice

  lemma PositiveEntryOn(account: Account, amount: real, on: Account)
    requires amount >= 0.0
    ensures On(PositiveEntry(account, amount), on) == if account == on then amount else 0.0
  {
    if amount > 0.0 { OnOne(Entry(account, amount, Debit), on); }
  }

  lemma UnreceivedOn(item: InvoiceLine, a: Allocation, setup: InvoiceSetup, on: Account)
    requires a.invoice <= item.amount && UnreceivedAndVariance(item, a, setup).Ok?
    ensures On(UnreceivedAndVariance(item, a, setup).value, on)
         == if on.Expense? then item.amount - a.invoice else if on.Variance? then a.invoice - a.receipt else 0.0
  {
    var variance := a.invoice - a.receipt;
    PositiveEntryOn(Expense, item.amount - a.invoice, on);
    OnOne(VarianceEntry(variance, Debit), on);
    OnOfConcat(PositiveEntry(Expense, item.amount - a.invoice),
               if variance == 0.0 then [] else [VarianceEntry(variance, Debit)], on);
  }

  lemma InvoiceLineOn(item: InvoiceLine, a: Allocation, setup: InvoiceSetup, on: Account)
    requires SoundInvoiceLine(item, a, setup) && InvoiceLineEntries(item, a, setup).Ok?
    requires !setup.useBridge ==> a == Allocation(0.0, 0.0)
    ensures On(InvoiceLineEntries(item, a, setup).value, on)
         == Clearing(0.0, item.amount, a.receipt, a.invoice, 0.0,
                     if setup.useBridge && !HasAllocation(a) then item.amount else 0.0, on)
  {
    if setup.useBridge && HasAllocation(a) {
      PositiveEntryOn(Bridge, a.receipt, on);
      UnreceivedOn(item, a, setup, on);
      OnOfConcat(PositiveEntry(Bridge, a.receipt), UnreceivedAndVariance(item, a, setup).value, on);
    } else {
      PositiveEntryOn(if setup.useBridge then Bridge else Expense, item.amount, on);
    }
  }

  lemma {:induction false} InvoiceAdds(items: seq<InvoiceLine>, rows: seq<Row>, setup: InvoiceSetup, on: Account)
    requires InvoiceEntries(items, rows, setup).Ok?
    requires forall k :: 0 <= k < |items| ==> SoundInvoiceLine(items[k], AllocationOf(rows, OfInvoice, items[k].id), setup)
    requires !setup.useBridge ==> forall k :: 0 <= k < |items| ==> AllocationOf(rows, OfInvoice, items[k].id) == Allocation(0.0, 0.0)
    ensures var lines := InvoiceLines(items);
            On(InvoiceEntries(items, rows, setup).value, on)
            == Clearing(0.0, Worth(lines), SumOver(lines, rows, OfInvoice, ReceiptValue), SumOver(lines, rows, OfInvoice, InvoiceValue),
                        0.0, Routed(items, rows, setup), on)
  {
    if items != [] {
      var item, rest := items[0], items[1..];
      var a := AllocationOf(rows, OfInvoice, item.id);
      assert SoundInvoiceLine(item, a, setup);
      forall k | 0 <= k < |rest| ensures rest[k] == items[k + 1] {
      }
      InvoiceLineOn(item, a, setup, on);
      InvoiceAdds(rest, rows, setup, on);
      OnOfConcat(InvoiceLineEntries(item, a, setup).value, InvoiceEntries(rest, rows, setup).value, on);
      assert InvoiceLines(items)[1..] == InvoiceLines(rest);
    }
  }

  // ---------------------------------------------------------------- new rows

  lemma DistinctParts(a: seq<Posted>, b: seq<Posted>)
    requires Distinct(a + b)
    ensures Distinct(a) && Distinct(b)
    ensures forall j :: 0 <= j < |b| ==> !Has(a, b[j].id)
  {
    var c := a + b;
    forall i, j | 0 <= i < j < |b| ensures b[i].id != b[j].id {
      assert c[|a| + i] == b[i] && c[|a| + j] == b[j];
    }
    forall i, j | 0 <= i < |a| && 0 <= j < |b| ensures a[i].id != b[j].id {
      assert c[i] == a[i] && c[|a| + j] == b[j];
    }
    forall i, j | 0 <= i < j < |a| ensures a[i].id != a[j].id {
      assert c[i] == a[i] && c[j] == a[j];
    }
  }

  lemma HasInConcat(a: seq<Posted>, b: seq<Posted>, id: nat)
    requires Has(a, id) || Has(b, id)
    ensures Has(a + b, id)
  {
    if Has(a, id) {
      var k :| 0 <= k < |a| && a[k].id == id;
      assert (a + b)[k].id == id;
    } else {
      var k :| 0 <= k < |b| && b[k].id == id;
      assert (a + b)[|a| + k].id == id;
    }
  }

  lemma AllAtConcat(a: seq<Row>, b: seq<Row>, end: End, lines: seq<Posted>, more: seq<Posted>)
    requires AllAt(a, end, lines) && (AllAt(b, end, more) || AllAt(b, end, lines))
    ensures AllAt(a + b, end, lines + more)
  {
    forall k | 0 <= k < |a + b| ensures Has(lines + more, LineAt((a + b)[k], end)) {
      if k < |a| {
        assert (a + b)[k] == a[k];
      } else {
        assert (a + b)[k] == b[k - |a|];
      }
      HasInConcat(lines, more, LineAt((a + b)[k], end));
    }
  }

  /** A line that is new has its allocations among the new rows only. */
  lemma NewLineNewRows(earlier: seq<Row>, rows: seq<Row>, end: End, posted: seq<Posted>, id: nat)
    requires AllAt(earlier, end, posted) && !Has(posted, id)
    ensures AllocationOf(earlier + rows, end, id) == AllocationOf(rows, end, id)
  {
    forall k | 0 <= k < |earlier| ensures LineAt(earlier[k], end) != id {
      assert Has(posted, LineAt(earlier[k], end));
    }
    AllocatedOfConcat(earlier, rows, end, id, ReceiptValue);
    AllocatedOfConcat(earlier, rows, end, id, InvoiceValue);
    NothingAllocated(earlier, end, id, ReceiptValue);
    NothingAllocated(earlier, end, id, InvoiceValue);
  }

  lemma {:induction false} NewLinesNewRows(lines: seq<Posted>, earlier: seq<Row>, rows: seq<Row>, end: End, posted: seq<Posted>,
      part: Part)
    requires AllAt(earlier, end, posted) && forall j :: 0 <= j < |lines| ==> !Has(posted, lines[j].id)
    ensures SumOver(lines, earlier + rows, end, part) == SumOver(lines, rows, end, part)
  {
    if lines != [] {
      NewLineNewRows(earlier, rows, end, posted, lines[0].id);
      forall j | 0 <= j < |lines[1..]| ensures !Has(posted, lines[1..][j].id) {
        assert lines[1..][j] == lines[j + 1];
      }
      NewLinesNewRows(lines[1..], earlier, rows, end, posted, part);
    }
  }

  /** The rows written with a document are all the allocation its lines have, old rows included. */
  lemma DocumentAllocation(lines: seq<Posted>, earlier: seq<Row>, rows: seq<Row>, end: End, posted: seq<Posted>, part: Part)
    requires Distinct(posted + lines) && AllAt(earlier, end, posted) && AllAt(rows, end, lines)
    ensures SumOver(lines, earlier + rows, end, part) == SumRows(rows, part)
  {
    DistinctParts(posted, lines);
    NewLinesNewRows(lines, earlier, rows, end, posted, part);
    CountTwice(lines, rows, end, part);
  }

  // ---------------------------------------------------------------- the clearing invariant

  /** Rows refer to posted lines, each posted once. */
  predicate Linked(b: Books) {
    && Distinct(b.receipts) && Distinct(b.invoices)
    && AllAt(b.rows, OfReceipt, b.receipts) && AllAt(b.rows, OfInvoice, b.invoices)
  }

  /** What the posted lines and the allocation rows say an account should hold. */
  function Expected(b: Books, account: Account): real {
    Clearing(Worth(b.receipts), Worth(b.invoices), SumRows(b.rows, ReceiptValue), SumRows(b.rows, InvoiceValue),
             b.pooled, b.routed, account)
  }

  lemma PostKeepsLinked(b: Books, s: Step)
    requires Linked(b) && Admissible(b, s) && Post(b, s).Ok?
    ensures Linked(Post(b, s).value)
  {
    match s
    case PostReceipt(items, rows, late, setup) =>
      AllAtConcat(b.rows, rows, OfReceipt, b.receipts, StockLines(items));
      AllAtConcat(b.rows, rows, OfInvoice, b.invoices, []);
      assert b.invoices + [] == b.invoices;
    case PostInvoice(items, rows, setup) =>
      AllAtConcat(b.rows, rows, OfInvoice, b.invoices, InvoiceLines(items));
      AllAtConcat(b.rows, rows, OfReceipt, b.receipts, []);
      assert b.receipts + [] == b.receipts;
  }

  /** What more lines and rows add to what an account should hold. */
  lemma ExpectedAdds(b: Books, c: Books, receipts: seq<Posted>, invoices: seq<Posted>, rows: seq<Row>, account: Account)
    requires c.receipts == b.receipts + receipts && c.invoices == b.invoices + invoices && c.rows == b.rows + rows
    ensures Expected(c, account)
         == Expected(b, account) + Clearing(Worth(receipts), Worth(invoices), SumRows(rows, ReceiptValue), SumRows(rows, InvoiceValue),
                                            c.pooled - b.pooled, c.routed - b.routed, account)
  {
    SumOfConcat((line: Posted) => line.amount, b.receipts, receipts);
    SumOfConcat((line: Posted) => line.amount, b.invoices, invoices);
    SumOfConcat((row: Row) => ValueOf(row, ReceiptValue), b.rows, rows);
    SumOfConcat((row: Row) => ValueOf(row, InvoiceValue), b.rows, rows);
  }

  lemma ReceiptKeepsExpected(b: Books, s: Step, account: Account)
    requires Linked(b) && s.PostReceipt? && Admissible(b, s) && Post(b, s).Ok?
    requires On(b.ledger, account) == Expected(b, account)
    ensures On(Post(b, s).value.ledger, account) == Expected(Post(b, s).value, account)
  {
    var all, lines := b.rows + s.rows, StockLines(s.goods);
    var allocs := AllocationMap(all);
    forall k | 0 <= k < |s.goods| ensures Lookup(allocs, s.goods[k].id) == AllocationOf(all, OfReceipt, s.goods[k].id) {
      AllocationMapLookup(all, s.goods[k].id);
    }
    var built := ReceiptEntries(s.goods, allocs, s.late, s.receiptSetup).value.lines;
    ReceiptAdds(s.goods, all, allocs, s.late, s.receiptSetup, account);
    DocumentAllocation(lines, b.rows, s.rows, OfReceipt, b.receipts, ReceiptValue);
    DocumentAllocation(lines, b.rows, s.rows, OfReceipt, b.receipts, InvoiceValue);
    OnOfConcat(b.ledger, built, account);
    assert b.invoices + [] == b.invoices;
    ExpectedAdds(b, Post(b, s).value, lines, [], s.rows, account);
  }

  lemma {:induction false} InvoiceIds(items: seq<InvoiceLine>, k: nat)
    requires k < |items|
    ensures k < |InvoiceLines(items)| && InvoiceLines(items)[k].id == items[k].id
  {
    if k > 0 { InvoiceIds(items[1..], k - 1); }
  }

  lemma UnbridgedHasNothing(b: Books, s: Step)
    requires Linked(b) && s.PostInvoice? && Admissible(b, s) && !s.invoiceSetup.useBridge
    ensures forall k :: 0 <= k < |s.bills| ==>
      AllocationOf(b.rows + s.rows, OfInvoice, s.bills[k].id) == Allocation(0.0, 0.0)
  {
    DistinctParts(b.invoices, InvoiceLines(s.bills));
    forall k | 0 <= k < |s.bills|
      ensures AllocationOf(b.rows + s.rows, OfInvoice, s.bills[k].id) == Allocation(0.0, 0.0)
    {
      InvoiceIds(s.bills, k);
      NewLineNewRows(b.rows, s.rows, OfInvoice, b.invoices, s.bills[k].id);
    }
  }

  lemma AdmittedInvoiceAdds(b: Books, s: Step, account: Account)
    requires Linked(b) && s.PostInvoice? && Admissible(b, s) && Post(b, s).Ok?
    ensures InvoiceEntries(s.bills, b.rows + s.rows, s.invoiceSetup).Ok?
    ensures On(InvoiceEntries(s.bills, b.rows + s.rows, s.invoiceSetup).value, account)
         == Clearing(0.0, Worth(InvoiceLines(s.bills)), SumRows(s.rows, ReceiptValue), SumRows(s.rows, InvoiceValue), 0.0,
                     Routed(s.bills, b.rows + s.rows, s.invoiceSetup), account)
  {
    if !s.invoiceSetup.useBridge { UnbridgedHasNothing(b, s); }
    InvoiceAdds(s.bills, b.rows + s.rows, s.invoiceSetup, account);
    DocumentAllocation(InvoiceLines(s.bills), b.rows, s.rows, OfInvoice, b.invoices, ReceiptValue);
    DocumentAllocation(InvoiceLines(s.bills), b.rows, s.rows, OfInvoice, b.invoices, InvoiceValue);
  }

  lemma InvoiceKeepsExpected(b: Books, s: Step, account: Account)
    requires Linked(b) && s.PostInvoice? && Admissible(b, s) && Post(b, s).Ok?
    requires On(b.ledger, account) == Expected(b, account)
    ensures On(Post(b, s).value.ledger, account) == Expected(Post(b, s).value, account)
  {
    AdmittedInvoiceAdds(b, s, account);
    OnOfConcat(b.ledger, InvoiceEntries(s.bills, b.rows + s.rows, s.invoiceSetup).value, account);
    assert b.receipts + [] == b.receipts;
    ExpectedAdds(b, Post(b, s).value, [], InvoiceLines(s.bills), s.rows, account);
  }

  /**
    After any run, in any order: the bridge holds what was received less what was matched, expense what was invoiced
    less what was matched, variance the difference of the matched values; pool and unallocated bridge lines shift value
    from one to the other.
   */
  lemma {:induction false} RunClears(steps: seq<Step>, b: Books, account: Account)
    requires Run(steps, b)
    ensures Linked(b) && On(b.ledger, account) == Expected(b, account)
    decreases |steps|
  {
    if steps != [] {
      var last := steps[|steps| - 1];
      var before: Books :| Run(steps[..|steps| - 1], before) && Admissible(before, last) && Post(before, last) == Ok(b);
      RunClears(steps[..|steps| - 1], before, account);
      PostKeepsLinked(before, last);
      if last.PostReceipt? {
        ReceiptKeepsExpected(before, last, account);
      } else {
        InvoiceKeepsExpected(before, last, account);
      }
    }
  }

  /** The four accounts together hold what was invoiced: the supplier's side of the same postings. */
  lemma RunConservesInvoicedValue(steps: seq<Step>, b: Books)
    requires Run(steps, b)
    ensures Total(b.ledger) == Worth(b.invoices)
  {
    forall account ensures On(b.ledger, account) == Expected(b, account) {
      RunClears(steps, b, account);
    }
    ExpectedAccountsTotal(b);
  }

  lemma ExpectedAccountsTotal(b: Books)
    requires forall account :: On(b.ledger, account) == Expected(b, account)
    ensures Total(b.ledger) == Worth(b.invoices)
  {
    TotalIsSumOfAccounts(b.ledger);
  }

  /** Every posted line is allocated in full. */
  predicate FullyMatched(b: Books) {
    && (forall k :: 0 <= k < |b.receipts| ==> Allocated(b.rows, OfReceipt, b.receipts[k].id, ReceiptValue) == b.receipts[k].amount)
    && (forall k :: 0 <= k < |b.invoices| ==> Allocated(b.rows, OfInvoice, b.invoices[k].id, InvoiceValue) == b.invoices[k].amount)
  }

  lemma {:induction false} FullLinesSum(lines: seq<Posted>, rows: seq<Row>, end: End, part: Part)
    requires forall k :: 0 <= k < |lines| ==> Allocated(rows, end, lines[k].id, part) == lines[k].amount
    ensures SumOver(lines, rows, end, part) == Worth(lines)
  {
    if lines != [] {
      forall k | 0 <= k < |lines[1..]| ensures lines[1..][k] == lines[k + 1] {
      }
      FullLinesSum(lines[1..], rows, end, part);
    }
  }

  lemma MatchedRows(b: Books)
    requires Linked(b) && FullyMatched(b)
    ensures SumRows(b.rows, ReceiptValue) == Worth(b.receipts) && SumRows(b.rows, InvoiceValue) == Worth(b.invoices)
  {
    CountTwice(b.receipts, b.rows, OfReceipt, ReceiptValue);
    CountTwice(b.invoices, b.rows, OfInvoice, InvoiceValue);
    FullLinesSum(b.receipts, b.rows, OfReceipt, ReceiptValue);
    FullLinesSum(b.invoices, b.rows, OfInvoice, InvoiceValue);
  }

  lemma MatchedBooks(steps: seq<Step>, b: Books, account: Account)
    requires Run(steps, b) && FullyMatched(b)
    ensures On(b.ledger, account)
         == Clearing(Worth(b.receipts), Worth(b.invoices), Worth(b.receipts), Worth(b.invoices), b.pooled, b.routed, account)
  {
    RunClears(steps, b, account);
    MatchedRows(b);
  }

  /**
    Full matching leaves on bridge and expense only the value that went through the pool or through unallocated bridge
    lines, on opposite sides; both clear to zero exactly when there was none.
   */
  lemma FullMatchingClears(steps: seq<Step>, b: Books)
    requires Run(steps, b) && FullyMatched(b)
    ensures On(b.ledger, Bridge) == b.pooled + b.routed && On(b.ledger, Expense) == -(b.pooled + b.routed)
    ensures On(b.ledger, Variance) == Worth(b.invoices) - Worth(b.receipts)
    ensures On(b.ledger, Bridge) == 0.0 && On(b.ledger, Expense) == 0.0 <==> b.pooled + b.routed == 0.0
  {
    MatchedBooks(steps, b, Bridge);
    MatchedBooks(steps, b, Expense);
    MatchedBooks(steps, b, Variance);
  }

  /**
    The order of posting does not matter: two runs that post the same lines and allocation rows, and put the same value
    through pools and unallocated bridge lines, leave the same on every account.
   */
  lemma PostingOrderDoesNotMatter(steps: seq<Step>, b: Books, others: seq<Step>, c: Books, account: Account)
    requires Run(steps, b) && Run(others, c)
    requires multiset(b.receipts) == multiset(c.receipts) && multiset(b.invoices) == multiset(c.invoices)
    requires multiset(b.rows) == multiset(c.rows) && b.pooled + b.routed == c.pooled + c.routed
    ensures On(b.ledger, account) == On(c.ledger, account)
  {
    RunClears(steps, b, account);
    RunClears(others, c, account);
    SumOfPermutation((line: Posted) => line.amount, b.receipts, c.receipts);
    SumOfPermutation((line: Posted) => line.amount, b.invoices, c.invoices);
    SumOfPermutation((row: Row) => ValueOf(row, ReceiptValue), b.rows, c.rows);
    SumOfPermutation((row: Row) => ValueOf(row, InvoiceValue), b.rows, c.rows);
  }

  // ---------------------------------------------------------------- one pair of documents, in either order

  function OneReceipt(received: real, rows: seq<Row>, late: Pool): Step {
    PostReceipt([ReceiptLine(1, "A", received, true, true, true)], rows, late, ReceiptSetup(false, true, true))
  }

  function OneInvoice(invoiced: real, rows: seq<Row>, useBridge: bool): Step {
    PostInvoice([InvoiceLine(2, invoiced, true, true)], rows, InvoiceSetup(useBridge, true, true))
  }

  function Pair(received: real, invoiced: real): seq<Row> {
    [Row(1, 2, received, invoiced)]
  }

  lemma PairAllocates(received: real, invoiced: real)
    ensures AllocationOf(Pair(received, invoiced), OfReceipt, 1) == Allocation(received, invoiced)
    ensures AllocationOf(Pair(received, invoiced), OfInvoice, 2) == Allocation(received, invoiced)
    ensures Lookup(AllocationMap(Pair(received, invoiced)), 1) == Allocation(received, invoiced)
  {
    var rest := Pair(received, invoiced)[1..];
    assert rest == [];
    forall part: Part
      ensures Allocated(Pair(received, invoiced), OfReceipt, 1, part) == ValueOf(Row(1, 2, received, invoiced), part)
           == Allocated(Pair(received, invoiced), OfInvoice, 2, part)
    {
      assert Allocated(rest, OfReceipt, 1, part) == 0.0 == Allocated(rest, OfInvoice, 2, part);
    }
    AllocationMapLookup(Pair(received, invoiced), 1);
  }

  lemma RunOfTwo(first: Step, b: Books, second: Step, c: Books)
    requires Admissible(Empty(), first) && Post(Empty(), first) == Ok(b)
    requires Admissible(b, second) && Post(b, second) == Ok(c)
    ensures Run([first, second], c)
  {
    var one, two := [first], [first, second];
    assert one[..0] == [] && one[|one| - 1] == first && Run(one[..0], Empty());
    assert Run(one, b);
    assert two[..1] == one && two[|two| - 1] == second && Run(two[..|two| - 1], b);
  }

  /** A receipt of one line whose line builds. */
  lemma OneReceiptPosts(b: Books, received: real, rows: seq<Row>, late: Pool, a: Allocation)
    requires Lookup(AllocationMap(b.rows + rows), 1) == a && Sound(OneReceipt(received, rows, late).goods[0], a)
    requires PoolOf(late, "A") >= 0.0 && (HasAllocation(a) ==> "A" in late)
    requires Distinct(b.receipts + [Posted(1, received)])
    requires AllAt(rows, OfReceipt, [Posted(1, received)]) && AllAt(rows, OfInvoice, b.invoices)
    ensures var s := OneReceipt(received, rows, late);
            && Admissible(b, s) && Post(b, s).Ok?
            && Post(b, s).value.rows == b.rows + rows && Post(b, s).value.receipts == b.receipts + [Posted(1, received)]
            && Post(b, s).value.invoices == b.invoices && Post(b, s).value.routed == b.routed
            && Post(b, s).value.pooled == b.pooled + if HasAllocation(a) then 0.0 else Moved(s.goods[0], a, late)
  {
    var s := OneReceipt(received, rows, late);
    var none := s.goods[1..];
    assert none == [] && StockLines(none) == [] && StockLines(s.goods) == [Posted(1, received)];
    assert Pooled(none, AllocationMap(b.rows + rows), PoolLeft(s.goods[0], a, late)) == 0.0;
    assert !NegativePoolMet(none, AllocationMap(b.rows + rows), PoolLeft(s.goods[0], a, late));
    var line := ReceiptLineEntries(s.goods[0], a, late, s.receiptSetup);
    assert line.Ok?;
    assert ReceiptEntries(none, AllocationMap(b.rows + rows), line.value.pool, s.receiptSetup).Ok?;
  }

  /** An invoice of one line. */
  lemma OneInvoicePosts(b: Books, invoiced: real, rows: seq<Row>, useBridge: bool, a: Allocation)
    requires AllocationOf(b.rows + rows, OfInvoice, 2) == a && 0.0 <= a.receipt && 0.0 <= a.invoice <= invoiced
    requires Distinct(b.invoices + [Posted(2, invoiced)]) && (rows != [] ==> useBridge)
    requires AllAt(rows, OfInvoice, [Posted(2, invoiced)]) && AllAt(rows, OfReceipt, b.receipts)
    ensures var s := OneInvoice(invoiced, rows, useBridge);
            && Admissible(b, s) && Post(b, s).Ok?
            && Post(b, s).value.rows == b.rows + rows && Post(b, s).value.invoices == b.invoices + [Posted(2, invoiced)]
            && Post(b, s).value.receipts == b.receipts && Post(b, s).value.pooled == b.pooled
            && Post(b, s).value.routed == b.routed + if useBridge && !HasAllocation(a) then invoiced else 0.0
  {
    var s := OneInvoice(invoiced, rows, useBridge);
    var none := s.bills[1..];
    assert none == [] && InvoiceLines(none) == [] && InvoiceLines(s.bills) == [Posted(2, invoiced)];
    assert Routed(none, b.rows + rows, s.invoiceSetup) == 0.0;
    assert InvoiceEntries(none, b.rows + rows, s.invoiceSetup) == Ok([]);
    assert InvoiceLineEntries(s.bills[0], a, s.invoiceSetup).Ok?;
  }

  lemma PairIsLinked(received: real, invoiced: real)
    ensures AllAt(Pair(received, invoiced), OfReceipt, [Posted(1, received)])
    ensures AllAt(Pair(received, invoiced), OfInvoice, [Posted(2, invoiced)])
  {
    assert [Posted(1, received)][0].id == 1 && [Posted(2, invoiced)][0].id == 2;
  }

  lemma PairMatches(b: Books, received: real, invoiced: real)
    requires b.rows == Pair(received, invoiced) && b.receipts == [Posted(1, received)] && b.invoices == [Posted(2, invoiced)]
    ensures FullyMatched(b)
  {
    PairAllocates(received, invoiced);
  }

  /** Goods first: the receipt waits on the bridge, the invoice takes it off again. */
  lemma ReceiptThenInvoice(received: real, invoiced: real) returns (b: Books)
    requires received > 0.0 && invoiced > 0.0
    ensures Run([OneReceipt(received, [], map[]), OneInvoice(invoiced, Pair(received, invoiced), true)], b)
    ensures FullyMatched(b) && b.pooled == 0.0 && b.routed == 0.0
  {
    var receipt, invoice := OneReceipt(received, [], map[]), OneInvoice(invoiced, Pair(received, invoiced), true);
    PairAllocates(received, invoiced);
    PairIsLinked(received, invoiced);
    OneReceiptPosts(Empty(), received, [], map[], Allocation(0.0, 0.0));
    var before := Post(Empty(), receipt).value;
    assert before.rows + Pair(received, invoiced) == Pair(received, invoiced) && before.receipts == [Posted(1, received)];
    OneInvoicePosts(before, invoiced, Pair(received, invoiced), true, Allocation(received, invoiced));
    b := Post(before, invoice).value;
    RunOfTwo(receipt, before, invoice, b);
    PairMatches(b, received, invoiced);
  }

  /** Invoice first: it waits in expense, the receipt moves it into inventory. */
  lemma InvoiceThenReceipt(received: real, invoiced: real) returns (b: Books)
    requires received > 0.0 && invoiced > 0.0
    ensures Run([OneInvoice(invoiced, [], false), OneReceipt(received, Pair(received, invoiced), map["A" := invoiced])], b)
    ensures FullyMatched(b) && b.pooled == 0.0 && b.routed == 0.0
  {
    var invoice, receipt := OneInvoice(invoiced, [], false), OneReceipt(received, Pair(received, invoiced), map["A" := invoiced]);
    PairAllocates(received, invoiced);
    PairIsLinked(received, invoiced);
    OneInvoicePosts(Empty(), invoiced, [], false, Allocation(0.0, 0.0));
    var before := Post(Empty(), invoice).value;
    assert before.rows + Pair(received, invoiced) == Pair(received, invoiced) && before.invoices == [Posted(2, invoiced)];
    OneReceiptPosts(before, received, Pair(received, invoiced), map["A" := invoiced], Allocation(received, invoiced));
    b := Post(before, receipt).value;
    RunOfTwo(invoice, before, receipt, b);
    PairMatches(b, received, invoiced);
  }

  /** A receipt and its invoice clear bridge and expense alike in either order, and leave the same variance. */
  lemma EitherOrderClears(received: real, invoiced: real) returns (goodsFirst: Books, invoiceFirst: Books)
    requires received > 0.0 && invoiced > 0.0
    ensures Run([OneReceipt(received, [], map[]), OneInvoice(invoiced, Pair(received, invoiced), true)], goodsFirst)
    ensures Run([OneInvoice(invoiced, [], false), OneReceipt(received, Pair(received, invoiced), map["A" := invoiced])], invoiceFirst)
    ensures On(goodsFirst.ledger, Bridge) == 0.0 == On(invoiceFirst.ledger, Bridge)
    ensures On(goodsFirst.ledger, Expense) == 0.0 == On(invoiceFirst.ledger, Expense)
  {
    goodsFirst := ReceiptThenInvoice(received, invoiced);
    invoiceFirst := InvoiceThenReceipt(received, invoiced);
    FullMatchingClears([OneReceipt(received, [], map[]), OneInvoice(invoiced, Pair(received, invoiced), true)], goodsFirst);
    FullMatchingClears([OneInvoice(invoiced, [], false), OneReceipt(received, Pair(received, invoiced), map["A" := invoiced])],
                       invoiceFirst);
  }
}
