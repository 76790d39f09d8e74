/**
  Account lines of purchase receipts and purchase invoices: inventory, bridge, expense and settlement variance, built
  from the allocation rows that tie receipt lines to invoice lines and from the pool of earlier two-way invoices.
 */
module PurchasePosting {
  import opened Common

  datatype Side = Debit | Credit
  datatype Account = Inventory | Bridge | Expense | Variance
  datatype Entry = Entry(account: Account, amount: real, side: Side)

  /** An active allocation row between a receipt line and an invoice line. */
  datatype Row = Row(receiptLine: nat, invoiceLine: nat, receiptAmount: real, invoiceAmount: real)

  datatype Allocation = Allocation(receipt: real, invoice: real)

  /** Late two-way invoice amounts by item code. */
  type Pool = map<string, real>

  /** `inventorySet` and `expenseSet` say whether an account resolves for the line's item. */
  datatype ReceiptLine = ReceiptLine(id: nat, code: string, amount: real, stock: bool, inventorySet: bool, expenseSet: bool)

  /** Accounts of the company defaults, and whether the receipt is a return. */
  datatype ReceiptSetup = ReceiptSetup(isReturn: bool, bridgeSet: bool, varianceSet: bool)

  datatype Built = Built(lines: seq<Entry>, pool: Pool)

  function Min(a: real, b: real): real {
    if a <= b then a else b
  }

  function Abs(a: real): real {
    if a < 0.0 then -a else a
  }

  // ---------------------------------------------------------------- allocation rows

  function Lookup(allocs: map<nat, Allocation>, id: nat): Allocation {
    if id in allocs then allocs[id] else Allocation(0.0, 0.0)
  }

  predicate HasAllocation(a: Allocation) {
    a.receipt > 0.0 || a.invoice > 0.0
  }

  function AddRow(allocs: map<nat, Allocation>, id: nat, row: Row): map<nat, Allocation> {
    var a := Lookup(allocs, id);
    allocs[id := Allocation(a.receipt + row.receiptAmount, a.invoice + row.invoiceAmount)]
  }

  /** The two lines an allocation row ties together. */
  datatype End = OfReceipt | OfInvoice

  function LineAt(row: Row, end: End): nat {
    if end.OfReceipt? then row.receiptLine else row.invoiceLine
  }

  /** The two values a row carries. */
  datatype Part = ReceiptValue | InvoiceValue

  function ValueOf(row: Row, part: Part): real {
    if part.ReceiptValue? then row.receiptAmount else row.invoiceAmount
  }

  /** What the rows allocate to one receipt line or one invoice line. */
  function Allocated(rows: seq<Row>, end: End, id: nat, part: Part): real {
    if rows == [] then 0.0
    else (if LineAt(rows[0], end) == id then ValueOf(rows[0], part) else 0.0) + Allocated(rows[1..], end, id, part)
  }

  function AllocationOf(rows: seq<Row>, end: End, id: nat): Allocation {
    Allocation(Allocated(rows, end, id, ReceiptValue), Allocated(rows, end, id, InvoiceValue))
  }

  predicate AddsUp(done: Allocation, rest: Allocation, all: Allocation) {
    done.receipt + rest.receipt == all.receipt && done.invoice + rest.invoice == all.invoice
  }

  /** The dictionary of allocated amounts by receipt line. */
  method AllocatedAmounts(rows: seq<Row>) returns (amounts: map<nat, Allocation>)
    ensures forall id: nat :: Lookup(amounts, id) == AllocationOf(rows, OfReceipt, id)
  {
    amounts := map[];
    assert rows[0..] == rows;
    for i := 0 to |rows|
      invariant forall id: nat ::
        AddsUp(Lookup(amounts, id), AllocationOf(rows[i..], OfReceipt, id), AllocationOf(rows, OfReceipt, id))
    {
      assert rows[i..][1..] == rows[i + 1..];
      ghost var before := amounts;
      amounts := AddRow(amounts, rows[i].receiptLine, rows[i]);
      forall id: nat
        ensures AddsUp(Lookup(amounts, id), AllocationOf(rows[i + 1..], OfReceipt, id), AllocationOf(rows, OfReceipt, id))
      {
        assert AddsUp(Lookup(before, id), AllocationOf(rows[i..], OfReceipt, id), AllocationOf(rows, OfReceipt, id));
      }
    }
    forall id: nat ensures Lookup(amounts, id) == AllocationOf(rows, OfReceipt, id) {
      assert AddsUp(Lookup(amounts, id), AllocationOf(rows[|rows|..], OfReceipt, id), AllocationOf(rows, OfReceipt, id));
    }
  }

  /** The two sums over the rows of an invoice line. */
  method InvoiceReceiptAllocationAmounts(rows: seq<Row>, id: nat) returns (amounts: Allocation)
    ensures amounts == AllocationOf(rows, OfInvoice, id)
  {
    var receiptAmount, invoiceAmount := 0.0, 0.0;
    assert rows[0..] == rows;
    for i := 0 to |rows|
      invariant receiptAmount + Allocated(rows[i..], OfInvoice, id, ReceiptValue) == Allocated(rows, OfInvoice, id, ReceiptValue)
      invariant invoiceAmount + Allocated(rows[i..], OfInvoice, id, InvoiceValue) == Allocated(rows, OfInvoice, id, InvoiceValue)
    {
      assert rows[i..][1..] == rows[i + 1..];
      if rows[i].invoiceLine == id {
        receiptAmount, invoiceAmount := receiptAmount + rows[i].receiptAmount, invoiceAmount + rows[i].invoiceAmount;
      }
    }
    amounts := Allocation(receiptAmount, invoiceAmount);
  }

  // ---------------------------------------------------------------- receipts

  function PoolOf(pool: Pool, code: string): real {
    if code in pool then pool[code] else 0.0
  }

  /** Value moved out of expense for a receipt line. */
  function Reclassified(item: ReceiptLine, alloc: Allocation, pool: Pool): real {
    if HasAllocation(alloc) then alloc.invoice else Min(PoolOf(pool, item.code), item.amount)
  }

  function VarianceEntry(variance: real, side: Side): Entry {
    Entry(Variance, Abs(variance), if (variance > 0.0) == (side == Debit) then Debit else Credit)
  }

  /** Expense and variance lines of a receipt item; the pool shrinks by the reclassified value. */
  function Reclassify(item: ReceiptLine, alloc: Allocation, pool: Pool, varianceSet: bool): Result<Built> {
    var amount := Reclassified(item, alloc, pool);
    if amount <= 0.0 then Ok(Built([], pool))
    else if !item.expenseSet then Err("no expense account")
    else
      var variance := if HasAllocation(alloc) then amount - alloc.receipt else 0.0;
      if variance != 0.0 && !varianceSet then Err("no variance account")
      else if item.code !in pool then Err("no pooled amount for the item code")
      else Ok(Built([Entry(Expense, amount, Credit)] + (if variance == 0.0 then [] else [VarianceEntry(variance, Debit)]),
                    pool[item.code := pool[item.code] - amount]))
  }

  /** The bridge line for the part of a receipt item still in transit. */
  function BridgeLines(item: ReceiptLine, alloc: Allocation, reclassified: real, side: Side): seq<Entry> {
    var amount := if HasAllocation(alloc) then item.amount - alloc.receipt else item.amount - reclassified;
    if amount <= 0.0 then [] else [Entry(Bridge, amount, side)]
  }

  function ReceiptLineEntries(item: ReceiptLine, alloc: Allocation, pool: Pool, setup: ReceiptSetup): Result<Built> {
    if !item.stock then Ok(Built([], pool))
    else if !item.inventorySet then Err("no inventory account")
    else
      var b :- Reclassify(item, alloc, pool, setup.varianceSet);
      Ok(Built([Entry(Inventory, item.amount, if setup.isReturn then Credit else Debit)] + b.lines
               + BridgeLines(item, alloc, Reclassified(item, alloc, pool), if setup.isReturn then Debit else Credit),
               b.pool))
  }

  function PrependBuilt(lines: seq<Entry>, r: Result<Built>): Result<Built> {
    var b :- r;
    Ok(Built(lines + b.lines, b.pool))
  }

  function ReceiptEntries(items: seq<ReceiptLine>, allocs: map<nat, Allocation>, pool: Pool, setup: ReceiptSetup): Result<Built> {
    if items == [] then Ok(Built([], pool))
    else
      var b :- ReceiptLineEntries(items[0], Lookup(allocs, items[0].id), pool, setup);
      PrependBuilt(b.lines, ReceiptEntries(items[1..], allocs, b.pool, setup))
  }

  /** A whole receipt; returns start from an empty pool. */
  function Receipt(items: seq<ReceiptLine>, allocs: map<nat, Allocation>, late: Pool, setup: ReceiptSetup): Result<Built> {
    if items == [] then Err("no lines")
    else if !setup.bridgeSet then Err("no bridge account")
    else ReceiptEntries(items, allocs, if setup.isReturn then map[] else late, setup)
  }

  lemma PrependBuiltTwice(a: seq<Entry>, b: seq<Entry>, r: Result<Built>)
    ensures PrependBuilt(a, PrependBuilt(b, r)) == PrependBuilt(a + b, r)
  {
    if r.Ok? { assert a + (b + r.value.lines) == (a + b) + r.value.lines; }
  }

  /** The receipt loop: it appends account lines and shrinks the pool in place. */
  method BuildReceiptLines(items: seq<ReceiptLine>, allocs: map<nat, Allocation>, late: Pool, setup: ReceiptSetup)
    returns (r: Result<Built>)
    ensures r == Receipt(items, allocs, late, setup)
  {
    if items == [] { return Err("no lines"); }
    if !setup.bridgeSet { return Err("no bridge account"); }
    var pool: Pool := if setup.isReturn then map[] else late;
    var lines: seq<Entry> := [];
    var inventorySide, bridgeSide := if setup.isReturn then Credit else Debit, if setup.isReturn then Debit else Credit;
    ghost var whole := ReceiptEntries(items, allocs, pool, setup);
    assert items[0..] == items && (whole.Ok? ==> [] + whole.value.lines == whole.value.lines);
    for i := 0 to |items|
      invariant PrependBuilt(lines, ReceiptEntries(items[i..], allocs, pool, setup)) == whole
    {
      var item := items[i];
      assert items[i..][1..] == items[i + 1..];
      if item.stock {
        if !item.inventorySet { return Err("no inventory account"); }
        var alloc := Lookup(allocs, item.id);
        ghost var before := lines;
        var reclassified := Reclassified(item, alloc, pool);
        var specs := Reclassify(item, alloc, pool, setup.varianceSet);
        if specs.Err? { return Err(specs.error); }
        var added := [Entry(Inventory, item.amount, inventorySide)] + specs.value.lines
                     + BridgeLines(item, alloc, reclassified, bridgeSide);
        PrependBuiltTwice(lines, added, ReceiptEntries(items[i + 1..], allocs, specs.value.pool, setup));
        lines, pool := lines + added, specs.value.pool;
      } else {
        PrependBuiltTwice(lines, [], ReceiptEntries(items[i + 1..], allocs, pool, setup));
        assert lines + [] == lines;
      }
    }
    assert lines + [] == lines;
    r := Ok(Built(lines, pool));
  }

  // ---------------------------------------------------------------- invoices

  /** The accounts that resolve for the line: of the routed type, and for expense. */
  datatype InvoiceLine = InvoiceLine(id: nat, amount: real, bridgeSet: bool, expenseSet: bool)

  /** Routing flags of an invoice that is not a credit note. */
  datatype InvoiceSetup = InvoiceSetup(useBridge: bool, bridgeSet: bool, varianceSet: bool)

  /** Account of a line that has no allocation to settle: the routed type, else variance, else expense. */
  function RoutedAccount(item: InvoiceLine, setup: InvoiceSetup): Result<Account> {
    if setup.useBridge && item.bridgeSet then Ok(Bridge)
    else if !setup.useBridge && item.expenseSet then Ok(Expense)
    else if setup.varianceSet then Ok(Variance)
    else if item.expenseSet then Ok(Expense)
    else Err("no account for the invoice line")
  }

  function PositiveEntry(account: Account, amount: real): seq<Entry> {
    if amount <= 0.0 then [] else [Entry(account, amount, Debit)]
  }

  /** The part of an allocated line that was not received, and the settlement variance. */
  function UnreceivedAndVariance(item: InvoiceLine, alloc: Allocation, setup: InvoiceSetup): Result<seq<Entry>> {
    var remaining := item.amount - alloc.invoice;
    var variance := alloc.invoice - alloc.receipt;
    if remaining > 0.0 && !item.expenseSet then Err("no expense account")
    else if variance != 0.0 && !setup.varianceSet then Err("no variance account")
    else Ok(PositiveEntry(Expense, remaining) + if variance == 0.0 then [] else [VarianceEntry(variance, Debit)])
  }

  function InvoiceLineEntries(item: InvoiceLine, alloc: Allocation, setup: InvoiceSetup): Result<seq<Entry>> {
    if setup.useBridge && HasAllocation(alloc) then
      if !setup.bridgeSet then Err("no bridge account")
      else
        var lines :- UnreceivedAndVariance(item, alloc, setup);
        Ok(PositiveEntry(Bridge, alloc.receipt) + lines)
    else
      var account :- RoutedAccount(item, setup);
      Ok(PositiveEntry(account, item.amount))
  }

  function InvoiceEntries(items: seq<InvoiceLine>, rows: seq<Row>, setup: InvoiceSetup): Result<seq<Entry>> {
    if items == [] then Ok([])
    else
      var lines :- InvoiceLineEntries(items[0], AllocationOf(rows, OfInvoice, items[0].id), setup);
      var rest :- InvoiceEntries(items[1..], rows, setup);
      Ok(lines + rest)
  }

  /** The invoice loop. */
  method PurchaseInvoiceAccountLines(items: seq<InvoiceLine>, rows: seq<Row>, setup: InvoiceSetup)
    returns (r: Result<seq<Entry>>)
    ensures r == InvoiceEntries(items, rows, setup)
  {
    var specs: seq<Entry> := [];
    ghost var whole := InvoiceEntries(items, rows, setup);
    assert items[0..] == items && (whole.Ok? ==> [] + whole.value == whole.value);
    for i := 0 to |items|
      invariant Prepend(specs, InvoiceEntries(items[i..], rows, setup)) == whole
    {
      assert items[i..][1..] == items[i + 1..];
      var alloc := InvoiceReceiptAllocationAmounts(rows, items[i].id);
      var lines := InvoiceLineEntries(items[i], alloc, setup);
      if lines.Err? { return Err(lines.error); }
      PrependTwice(specs, lines.value, InvoiceEntries(items[i + 1..], rows, setup));
      specs := specs + lines.value;
    }
    assert specs + [] == specs;
    r := Ok(specs);
  }
}
