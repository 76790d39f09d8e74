/**
  The account lines of one receipt line and of one invoice line, and when they cannot be built, from amounts, allocation
  and accounts alone.
 */
module PostingRules {
  import opened Common
  import opened PurchasePosting

  // ---------------------------------------------------------------- receipts

  /** Something is allocated to the line. */
  predicate Matched(alloc: Allocation) {
    alloc.receipt > 0.0 || alloc.invoice > 0.0
  }

  /** The value a receipt line takes out of expense: what was invoiced before, or what the pool of its item still holds. */
  function OutOfExpense(item: ReceiptLine, alloc: Allocation, pool: Pool): real {
    var pooled := if item.code in pool then pool[item.code] else 0.0;
    if Matched(alloc) then alloc.invoice else if pooled <= item.amount then pooled else item.amount
  }

  /** Invoiced value less received value, when the former was taken out of expense. */
  function VarianceOf(alloc: Allocation, moved: real): real {
    if Matched(alloc) && moved > 0.0 then moved - alloc.receipt else 0.0
  }

  function StillInTransit(item: ReceiptLine, alloc: Allocation, moved: real): real {
    item.amount - if Matched(alloc) then alloc.receipt else moved
  }

  /** A stock line is refused for a missing account or a missing pool entry, and only then. */
  lemma ReceiptLineFailsIff(item: ReceiptLine, alloc: Allocation, pool: Pool, setup: ReceiptSetup)
    ensures var moved := OutOfExpense(item, alloc, pool);
            ReceiptLineEntries(item, alloc, pool, setup).Err? <==>
              item.stock && (|| !item.inventorySet
                             || (moved > 0.0 && (!item.expenseSet || (VarianceOf(alloc, moved) != 0.0 && !setup.varianceSet)
                                                 || item.code !in pool)))
  {
  }

  /**
    A stock line is debited to inventory; what it takes out of expense is credited there and leaves the pool, the variance
    goes to its side, and the rest to the bridge. A return turns inventory and bridge round. Services post nothing.
   */
  lemma ReceiptLineIs(item: ReceiptLine, alloc: Allocation, pool: Pool, setup: ReceiptSetup)
    requires ReceiptLineEntries(item, alloc, pool, setup).Ok?
    ensures var built := ReceiptLineEntries(item, alloc, pool, setup).value;
            var moved := OutOfExpense(item, alloc, pool);
            var variance, left := VarianceOf(alloc, moved), StillInTransit(item, alloc, moved);
            if !item.stock then built == Built([], pool)
            else
              && built.lines
                 == [Entry(Inventory, item.amount, if setup.isReturn then Credit else Debit)]
                    + ((if moved > 0.0 then [Entry(Expense, moved, Credit)] else [])
                       + (if variance > 0.0 then [Entry(Variance, variance, Debit)]
                          else if variance < 0.0 then [Entry(Variance, -variance, Credit)] else []))
                    + (if left > 0.0 then [Entry(Bridge, left, if setup.isReturn then Debit else Credit)] else [])
              && built.pool == if moved > 0.0 then pool[item.code := pool[item.code] - moved] else pool
  {
  }

  /** A receipt needs lines and a bridge account, and a return finds nothing in the pool. */
  lemma ReceiptIs(items: seq<ReceiptLine>, allocs: map<nat, Allocation>, late: Pool, setup: ReceiptSetup)
    ensures items == [] || !setup.bridgeSet ==> Receipt(items, allocs, late, setup).Err?
    ensures items != [] && setup.bridgeSet ==>
      Receipt(items, allocs, late, setup) == LinesFrom(items, allocs, if setup.isReturn then map[] else late, setup)
  {
    if items != [] { LinesFromIs(items, allocs, if setup.isReturn then map[] else late, setup); }
  }

  /** The lines one after the other, each with its own allocation and the pool the lines before it leave. */
  function LinesFrom(items: seq<ReceiptLine>, allocs: map<nat, Allocation>, pool: Pool, setup: ReceiptSetup): Result<Built> {
    if items == [] then Ok(Built([], pool))
    else
      var alloc := if items[0].id in allocs then allocs[items[0].id] else Allocation(0.0, 0.0);
      match ReceiptLineEntries(items[0], alloc, pool, setup)
      case Err(e) => Err(e)
      case Ok(first) =>
        match LinesFrom(items[1..], allocs, first.pool, setup)
        case Err(e) => Err(e)
        case Ok(rest) => Ok(Built(first.lines + rest.lines, rest.pool))
  }

  lemma {:induction false} LinesFromIs(items: seq<ReceiptLine>, allocs: map<nat, Allocation>, pool: Pool, setup: ReceiptSetup)
    ensures ReceiptEntries(items, allocs, pool, setup) == LinesFrom(items, allocs, pool, setup)
  {
    if items != [] {
      var alloc := Lookup(allocs, items[0].id);
      var first := ReceiptLineEntries(items[0], alloc, pool, setup);
      if first.Ok? { LinesFromIs(items[1..], allocs, first.value.pool, setup); }
    }
  }

  // ---------------------------------------------------------------- invoices

  /** The account of a line that settles no allocation: its own, else variance, else expense. */
  function AccountFor(item: InvoiceLine, setup: InvoiceSetup): Option<Account> {
    if setup.useBridge then
      if item.bridgeSet then Some(Bridge)
      else if setup.varianceSet then Some(Variance)
      else if item.expenseSet then Some(Expense) else None
    else
      if item.expenseSet then Some(Expense) else if setup.varianceSet then Some(Variance) else None
  }

  predicate Settles(alloc: Allocation, setup: InvoiceSetup) {
    setup.useBridge && Matched(alloc)
  }

  /** An invoice line is refused for a missing account, and only then. */
  lemma InvoiceLineFailsIff(item: InvoiceLine, alloc: Allocation, setup: InvoiceSetup)
    ensures InvoiceLineEntries(item, alloc, setup).Err? <==>
      if Settles(alloc, setup) then
        || !setup.bridgeSet
        || (item.amount - alloc.invoice > 0.0 && !item.expenseSet)
        || (alloc.invoice - alloc.receipt != 0.0 && !setup.varianceSet)
      else AccountFor(item, setup).None?
  {
  }

  /**
    A line with an allocation clears the received value from the bridge, leaves in expense what was not received, and puts
    the difference of the allocated values to variance, on its side; any other is debited to its account.
   */
  lemma InvoiceLineIs(item: InvoiceLine, alloc: Allocation, setup: InvoiceSetup)
    requires InvoiceLineEntries(item, alloc, setup).Ok?
    ensures InvoiceLineEntries(item, alloc, setup).value ==
      if Settles(alloc, setup) then
        var rest, variance := item.amount - alloc.invoice, alloc.invoice - alloc.receipt;
        (if alloc.receipt > 0.0 then [Entry(Bridge, alloc.receipt, Debit)] else [])
        + ((if rest > 0.0 then [Entry(Expense, rest, Debit)] else [])
           + (if variance > 0.0 then [Entry(Variance, variance, Debit)]
              else if variance < 0.0 then [Entry(Variance, -variance, Credit)] else []))
      else if item.amount > 0.0 then [Entry(AccountFor(item, setup).value, item.amount, Debit)] else []
  {
  }

  /** An invoice is built exactly when each of its lines is, from what the allocation rows give it, one after the other. */
  lemma InvoiceIs(items: seq<InvoiceLine>, rows: seq<Row>, setup: InvoiceSetup)
    ensures InvoiceEntries(items, rows, setup).Ok? <==> forall k :: 0 <= k < |items| ==> LineBuilds(items, rows, setup, k)
    ensures InvoiceEntries(items, rows, setup).Ok? ==>
      InvoiceEntries(items, rows, setup).value == InvoiceSlice(items, rows, setup, 0, |items|)
  {
    InvoiceTail(items, rows, setup, 0);
    assert items[0..] == items;
  }

  predicate LineBuilds(items: seq<InvoiceLine>, rows: seq<Row>, setup: InvoiceSetup, k: nat)
    requires k < |items|
  {
    InvoiceLineEntries(items[k], AllocationOf(rows, OfInvoice, items[k].id), setup).Ok?
  }

  /** The account lines of items i to j. */
  function InvoiceSlice(items: seq<InvoiceLine>, rows: seq<Row>, setup: InvoiceSetup, i: nat, j: nat): seq<Entry>
    requires i <= j <= |items|
    decreases j - i
  {
    if i == j then []
    else
      (match InvoiceLineEntries(items[i], AllocationOf(rows, OfInvoice, items[i].id), setup)
       case Ok(lines) => lines
       case Err(_) => []) + InvoiceSlice(items, rows, setup, i + 1, j)
  }

  lemma {:induction false} InvoiceTail(items: seq<InvoiceLine>, rows: seq<Row>, setup: InvoiceSetup, i: nat)
    requires i <= |items|
    ensures var tail := InvoiceEntries(items[i..], rows, setup);
            && (tail.Ok? <==> forall k :: i <= k < |items| ==> LineBuilds(items, rows, setup, k))
            && (tail.Ok? ==> tail.value == InvoiceSlice(items, rows, setup, i, |items|))
    decreases |items| - i
  {
    if i < |items| {
      assert items[i..][1..] == items[i + 1..];
      assert LineBuilds(items, rows, setup, i) <==> InvoiceLineEntries(items[i], AllocationOf(rows, OfInvoice, items[i].id), setup).Ok?;
      InvoiceTail(items, rows, setup, i + 1);
    }
  }
}
