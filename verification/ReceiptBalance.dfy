/**
  When a purchase receipt balances, and what its loop does to the pool of late two-way invoices.
 */
module ReceiptBalance {
  import opened Common
  import opened PurchasePosting

  // ---------------------------------------------------------------- sums over account lines

  /** Debit positive, credit negative. */
  function Signed(e: Entry): real {
    if e.side.Debit? then e.amount else -e.amount
  }

  function Total(lines: seq<Entry>): real {
    if lines == [] then 0.0 else Signed(lines[0]) + Total(lines[1..])
  }

  /** Balance of one account. */
  function On(lines: seq<Entry>, account: Account): real {
    if lines == [] then 0.0
    else (if lines[0].account == account then Signed(lines[0]) else 0.0) + On(lines[1..], account)
  }

  lemma {:induction false} TotalOfConcat(a: seq<Entry>, b: seq<Entry>)
    ensures Total(a + b) == Total(a) + Total(b)
  {
    if a == [] {
      assert a + b == b;
    } else {
      TotalOfConcat(a[1..], b);
      assert (a + b)[1..] == a[1..] + b;
    }
  }

  lemma {:induction false} OnOfConcat(a: seq<Entry>, b: seq<Entry>, account: Account)
    ensures On(a + b, account) == On(a, account) + On(b, account)
  {
    if a == [] {
      assert a + b == b;
    } else {
      OnOfConcat(a[1..], b, account);
      assert (a + b)[1..] == a[1..] + b;
    }
  }

  lemma {:induction false} TotalIsSumOfAccounts(lines: seq<Entry>)
    ensures Total(lines) == On(lines, Inventory) + On(lines, Bridge) + On(lines, Expense) + On(lines, Variance)
  {
    if lines != [] { TotalIsSumOfAccounts(lines[1..]); }
  }

  lemma OnOne(e: Entry, account: Account)
    ensures On([e], account) == if e.account == account then Signed(e) else 0.0
  {
    var rest := [e][1..];
    assert rest == [] && On(rest, account) == 0.0;
  }

  // ---------------------------------------------------------------- one receipt line

  /** Value a receipt line moves out of expense: nothing unless it is positive. */
  function Moved(item: ReceiptLine, alloc: Allocation, pool: Pool): real {
    var r := Reclassified(item, alloc, pool);
    if item.stock && r > 0.0 then r else 0.0
  }

  /** Variance a receipt line settles. */
  function Settled(item: ReceiptLine, alloc: Allocation, pool: Pool): real {
    var moved := Moved(item, alloc, pool);
    if HasAllocation(alloc) && moved > 0.0 then moved - alloc.receipt else 0.0
  }

  lemma ReclassifyOn(item: ReceiptLine, alloc: Allocation, pool: Pool, varianceSet: bool, account: Account)
    requires item.stock && Reclassify(item, alloc, pool, varianceSet).Ok?
    ensures On(Reclassify(item, alloc, pool, varianceSet).value.lines, account)
         == match account
            case Inventory => 0.0
            case Bridge => 0.0
            case Expense => -Moved(item, alloc, pool)
            case Variance => Settled(item, alloc, pool)
  {
    var amount := Reclassified(item, alloc, pool);
    if amount > 0.0 {
      var variance := if HasAllocation(alloc) then amount - alloc.receipt else 0.0;
      OnOne(Entry(Expense, amount, Credit), account);
      OnOne(VarianceEntry(variance, Debit), account);
      OnOfConcat([Entry(Expense, amount, Credit)], if variance == 0.0 then [] else [VarianceEntry(variance, Debit)], account);
    }
  }

  /** Value of a receipt line left on the bridge. */
  function InTransit(item: ReceiptLine, alloc: Allocation, pool: Pool): real {
    var amount := item.amount - if HasAllocation(alloc) then alloc.receipt else Reclassified(item, alloc, pool);
    if item.stock && amount > 0.0 then amount else 0.0
  }

  /** What a receipt line does to each account. */
  function ReceiptLineEffect(item: ReceiptLine, alloc: Allocation, pool: Pool, account: Account): real {
    match account
    case Inventory => if item.stock then item.amount else 0.0
    case Bridge => -InTransit(item, alloc, pool)
    case Expense => -Moved(item, alloc, pool)
    case Variance => Settled(item, alloc, pool)
  }

  lemma ReceiptLineOn(item: ReceiptLine, alloc: Allocation, pool: Pool, setup: ReceiptSetup, account: Account)
    requires !setup.isReturn && ReceiptLineEntries(item, alloc, pool, setup).Ok?
    ensures On(ReceiptLineEntries(item, alloc, pool, setup).value.lines, account)
         == ReceiptLineEffect(item, alloc, pool, account)
  {
    if item.stock {
      var first := [Entry(Inventory, item.amount, Debit)];
      var specs := Reclassify(item, alloc, pool, setup.varianceSet).value.lines;
      var bridge := BridgeLines(item, alloc, Reclassified(item, alloc, pool), Credit);
      OnOne(first[0], account);
      ReclassifyOn(item, alloc, pool, setup.varianceSet, account);
      if bridge != [] { OnOne(bridge[0], account); }
      OnOfConcat(first, specs, account);
      OnOfConcat(first + specs, bridge, account);
    }
  }

  lemma PoolAfterLine(item: ReceiptLine, alloc: Allocation, pool: Pool, setup: ReceiptSetup, code: string)
    requires ReceiptLineEntries(item, alloc, pool, setup).Ok?
    ensures PoolOf(ReceiptLineEntries(item, alloc, pool, setup).value.pool, code)
         == PoolOf(pool, code) - if item.code == code then Moved(item, alloc, pool) else 0.0
  {
  }

  lemma ReceiptStep(items: seq<ReceiptLine>, allocs: map<nat, Allocation>, pool: Pool, setup: ReceiptSetup, account: Account)
    requires items != [] && ReceiptEntries(items, allocs, pool, setup).Ok?
    ensures var first := ReceiptLineEntries(items[0], Lookup(allocs, items[0].id), pool, setup);
            && first.Ok? && ReceiptEntries(items[1..], allocs, first.value.pool, setup).Ok?
            && On(ReceiptEntries(items, allocs, pool, setup).value.lines, account)
               == On(first.value.lines, account) + On(ReceiptEntries(items[1..], allocs, first.value.pool, setup).value.lines, account)
  {
    var first := ReceiptLineEntries(items[0], Lookup(allocs, items[0].id), pool, setup).value;
    OnOfConcat(first.lines, ReceiptEntries(items[1..], allocs, first.pool, setup).value.lines, account);
  }

  // ---------------------------------------------------------------- balance of a receipt

  /** How far one line is from balance. */
  function Imbalance(item: ReceiptLine, alloc: Allocation, pool: Pool): real {
    if !item.stock then 0.0
    else if !HasAllocation(alloc) then Min(Min(PoolOf(pool, item.code), item.amount), 0.0)
    else if alloc.invoice > 0.0 then Min(item.amount - alloc.receipt, 0.0)
    else Min(alloc.receipt, item.amount)
  }

  /** The pool a line leaves behind, given that it is built without error. */
  function PoolLeft(item: ReceiptLine, alloc: Allocation, pool: Pool): Pool {
    if Moved(item, alloc, pool) > 0.0 then pool[item.code := PoolOf(pool, item.code) - Moved(item, alloc, pool)] else pool
  }

  lemma PoolLeftIsLinePool(item: ReceiptLine, alloc: Allocation, pool: Pool, setup: ReceiptSetup)
    requires ReceiptLineEntries(item, alloc, pool, setup).Ok?
    ensures ReceiptLineEntries(item, alloc, pool, setup).value.pool == PoolLeft(item, alloc, pool)
  {
  }

  lemma ReceiptLineTotal(item: ReceiptLine, alloc: Allocation, pool: Pool, setup: ReceiptSetup)
    requires !setup.isReturn && ReceiptLineEntries(item, alloc, pool, setup).Ok?
    ensures Total(ReceiptLineEntries(item, alloc, pool, setup).value.lines) == Imbalance(item, alloc, pool)
  {
    TotalIsSumOfAccounts(ReceiptLineEntries(item, alloc, pool, setup).value.lines);
    ReceiptLineOn(item, alloc, pool, setup, Inventory);
    ReceiptLineOn(item, alloc, pool, setup, Bridge);
    ReceiptLineOn(item, alloc, pool, setup, Expense);
    ReceiptLineOn(item, alloc, pool, setup, Variance);
  }

  function TotalImbalance(items: seq<ReceiptLine>, allocs: map<nat, Allocation>, pool: Pool): real {
    if items == [] then 0.0
    else
      var a := Lookup(allocs, items[0].id);
      Imbalance(items[0], a, pool) + TotalImbalance(items[1..], allocs, PoolLeft(items[0], a, pool))
  }

  /** The exact imbalance of any receipt that is built, whatever its amounts and allocations. */
  lemma {:induction false} ReceiptImbalance(items: seq<ReceiptLine>, allocs: map<nat, Allocation>, pool: Pool, setup: ReceiptSetup)
    requires !setup.isReturn && ReceiptEntries(items, allocs, pool, setup).Ok?
    ensures Total(ReceiptEntries(items, allocs, pool, setup).value.lines) == TotalImbalance(items, allocs, pool)
  {
    if items != [] {
      var a := Lookup(allocs, items[0].id);
      var b := ReceiptLineEntries(items[0], a, pool, setup).value;
      ReceiptLineTotal(items[0], a, pool, setup);
      PoolLeftIsLinePool(items[0], a, pool, setup);
      ReceiptImbalance(items[1..], allocs, b.pool, setup);
      TotalOfConcat(b.lines, ReceiptEntries(items[1..], allocs, b.pool, setup).value.lines);
    }
  }

  /** Amounts are not negative, allocations stay within the line, and what was received was also invoiced. */
  predicate Sound(item: ReceiptLine, alloc: Allocation) {
    && 0.0 <= alloc.receipt <= item.amount && 0.0 <= alloc.invoice
    && (alloc.receipt > 0.0 ==> alloc.invoice > 0.0)
  }

  predicate AllSound(items: seq<ReceiptLine>, allocs: map<nat, Allocation>) {
    forall k :: 0 <= k < |items| && items[k].stock ==> Sound(items[k], Lookup(allocs, items[k].id))
  }

  /** Does an unallocated stock line find a negative amount in the pool? */
  predicate NegativePoolMet(items: seq<ReceiptLine>, allocs: map<nat, Allocation>, pool: Pool) {
    items != [] &&
    var a := Lookup(allocs, items[0].id);
    ((items[0].stock && !HasAllocation(a) && PoolOf(pool, items[0].code) < 0.0)
     || NegativePoolMet(items[1..], allocs, PoolLeft(items[0], a, pool)))
  }

  lemma AllSoundTail(items: seq<ReceiptLine>, allocs: map<nat, Allocation>)
    requires AllSound(items, allocs) && items != []
    ensures AllSound(items[1..], allocs) && (items[0].stock ==> Sound(items[0], Lookup(allocs, items[0].id)))
  {
    forall k | 0 <= k < |items[1..]| && items[1..][k].stock ensures Sound(items[1..][k], Lookup(allocs, items[1..][k].id)) {
      assert items[1..][k] == items[k + 1];
    }
  }

  lemma {:induction false} ImbalanceSign(items: seq<ReceiptLine>, allocs: map<nat, Allocation>, pool: Pool)
    requires AllSound(items, allocs)
    ensures TotalImbalance(items, allocs, pool) <= 0.0
    ensures TotalImbalance(items, allocs, pool) == 0.0 <==> !NegativePoolMet(items, allocs, pool)
  {
    if items != [] {
      AllSoundTail(items, allocs);
      ImbalanceSign(items[1..], allocs, PoolLeft(items[0], Lookup(allocs, items[0].id), pool));
    }
  }

  /** A sound receipt posts equal debits and credits exactly when no unallocated line meets a negative pool. */
  lemma ReceiptBalancesIff(items: seq<ReceiptLine>, allocs: map<nat, Allocation>, late: Pool, setup: ReceiptSetup)
    requires !setup.isReturn && Receipt(items, allocs, late, setup).Ok? && AllSound(items, allocs)
    ensures Total(Receipt(items, allocs, late, setup).value.lines) == 0.0 <==> !NegativePoolMet(items, allocs, late)
  {
    ReceiptImbalance(items, allocs, late, setup);
    ImbalanceSign(items, allocs, late);
  }

  // ---------------------------------------------------------------- codes that do not mix

  predicate HasUnallocated(items: seq<ReceiptLine>, allocs: map<nat, Allocation>, code: string) {
    exists k :: 0 <= k < |items| && items[k].stock && items[k].code == code && !HasAllocation(Lookup(allocs, items[k].id))
  }

  predicate HasAllocated(items: seq<ReceiptLine>, allocs: map<nat, Allocation>, code: string) {
    exists k :: 0 <= k < |items| && items[k].stock && items[k].code == code && HasAllocation(Lookup(allocs, items[k].id))
  }

  ghost predicate Unmixed(items: seq<ReceiptLine>, allocs: map<nat, Allocation>) {
    forall code :: !(HasUnallocated(items, allocs, code) && HasAllocated(items, allocs, code))
  }

  predicate PoolCovers(items: seq<ReceiptLine>, allocs: map<nat, Allocation>, pool: Pool) {
    forall k :: 0 <= k < |items| && items[k].stock && !HasAllocation(Lookup(allocs, items[k].id))
      ==> PoolOf(pool, items[k].code) >= 0.0
  }

  lemma TailHas(items: seq<ReceiptLine>, allocs: map<nat, Allocation>, code: string)
    requires items != []
    ensures HasUnallocated(items[1..], allocs, code) ==> HasUnallocated(items, allocs, code)
    ensures HasAllocated(items[1..], allocs, code) ==> HasAllocated(items, allocs, code)
  {
    forall k | 0 <= k < |items[1..]| ensures items[1..][k] == items[k + 1] {
    }
  }

  lemma UnmixedTail(items: seq<ReceiptLine>, allocs: map<nat, Allocation>)
    requires items != [] && Unmixed(items, allocs)
    ensures Unmixed(items[1..], allocs)
  {
    forall code ensures !(HasUnallocated(items[1..], allocs, code) && HasAllocated(items[1..], allocs, code)) {
      TailHas(items, allocs, code);
    }
  }

  lemma PoolCoversTail(items: seq<ReceiptLine>, allocs: map<nat, Allocation>, pool: Pool)
    requires items != [] && Unmixed(items, allocs) && PoolCovers(items, allocs, pool)
    ensures PoolCovers(items[1..], allocs, PoolLeft(items[0], Lookup(allocs, items[0].id), pool))
  {
    var a := Lookup(allocs, items[0].id);
    var left := PoolLeft(items[0], a, pool);
    forall k | 0 <= k < |items[1..]| && items[1..][k].stock && !HasAllocation(Lookup(allocs, items[1..][k].id))
      ensures PoolOf(left, items[1..][k].code) >= 0.0
    {
      assert items[1..][k] == items[k + 1];
      if items[0].code == items[k + 1].code && items[0].stock && HasAllocation(a) {
        assert HasUnallocated(items, allocs, items[0].code) && HasAllocated(items, allocs, items[0].code);
      }
    }
  }

  lemma {:induction false} NoNegativePool(items: seq<ReceiptLine>, allocs: map<nat, Allocation>, pool: Pool)
    requires Unmixed(items, allocs) && PoolCovers(items, allocs, pool)
    ensures !NegativePoolMet(items, allocs, pool)
  {
    if items != [] {
      UnmixedTail(items, allocs);
      PoolCoversTail(items, allocs, pool);
      NoNegativePool(items[1..], allocs, PoolLeft(items[0], Lookup(allocs, items[0].id), pool));
    }
  }

  /** No item code mixes allocated and unallocated lines and no pooled amount is negative: the receipt balances. */
  lemma UnmixedReceiptBalances(items: seq<ReceiptLine>, allocs: map<nat, Allocation>, late: Pool, setup: ReceiptSetup)
    requires !setup.isReturn && Receipt(items, allocs, late, setup).Ok? && AllSound(items, allocs)
    requires Unmixed(items, allocs) && forall code :: code in late ==> late[code] >= 0.0
    ensures Total(Receipt(items, allocs, late, setup).value.lines) == 0.0
  {
    NoNegativePool(items, allocs, late);
    ReceiptBalancesIff(items, allocs, late, setup);
  }

  /** Mixing them can leave a receipt out of balance: the allocated line drains the pool below zero. */
  lemma MixedReceiptOutOfBalance()
    ensures var items := [ReceiptLine(1, "A", 10.0, true, true, true), ReceiptLine(2, "A", 10.0, true, true, true)];
            var allocs := map[1 := Allocation(10.0, 10.0)];
            var r := Receipt(items, allocs, map["A" := 4.0], ReceiptSetup(false, true, true));
            AllSound(items, allocs) && r.Ok? && Total(r.value.lines) == -6.0
  {
    var items := [ReceiptLine(1, "A", 10.0, true, true, true), ReceiptLine(2, "A", 10.0, true, true, true)];
    var allocs := map[1 := Allocation(10.0, 10.0)];
    var setup := ReceiptSetup(false, true, true);
    var pool: Pool := map["A" := 4.0];
    assert items[1..] == [items[1]] && items[1..][1..] == [];
    var first := ReceiptLineEntries(items[0], Lookup(allocs, 1), pool, setup);
    assert first.Ok? && PoolOf(first.value.pool, "A") == -6.0;
    ReceiptImbalance(items, allocs, pool, setup);
  }

  // ---------------------------------------------------------------- returns

  lemma ReturnLine(item: ReceiptLine, pool: Pool, setup: ReceiptSetup, account: Account)
    requires setup.isReturn && item.amount >= 0.0 && pool == map[]
    requires ReceiptLineEntries(item, Allocation(0.0, 0.0), pool, setup).Ok?
    ensures var b := ReceiptLineEntries(item, Allocation(0.0, 0.0), pool, setup).value;
            var amount := if item.stock then item.amount else 0.0;
            b.pool == pool
            && On(b.lines, account) == if account.Inventory? then -amount else if account.Bridge? then amount else 0.0
  {
    if item.stock {
      var first := [Entry(Inventory, item.amount, Credit)];
      var bridge := BridgeLines(item, Allocation(0.0, 0.0), 0.0, Debit);
      OnOne(first[0], account);
      if bridge != [] { OnOne(bridge[0], account); }
      OnOfConcat(first, bridge, account);
      assert first + [] == first;
    }
  }

  function StockAmount(items: seq<ReceiptLine>): real {
    if items == [] then 0.0 else (if items[0].stock then items[0].amount else 0.0) + StockAmount(items[1..])
  }

  /** A return without allocations credits inventory and debits the bridge by the same amount, and nothing else. */
  lemma {:induction false} ReturnReverses(items: seq<ReceiptLine>, allocs: map<nat, Allocation>, pool: Pool,
      setup: ReceiptSetup, account: Account)
    requires setup.isReturn && allocs == map[] && pool == map[] && ReceiptEntries(items, allocs, pool, setup).Ok?
    requires forall k :: 0 <= k < |items| ==> items[k].amount >= 0.0
    ensures On(ReceiptEntries(items, allocs, pool, setup).value.lines, account)
         == if account.Inventory? then -StockAmount(items) else if account.Bridge? then StockAmount(items) else 0.0
  {
    if items != [] {
      assert Lookup(allocs, items[0].id) == Allocation(0.0, 0.0);
      ReceiptStep(items, allocs, pool, setup, account);
      ReturnLine(items[0], pool, setup, account);
      ReturnReverses(items[1..], allocs, pool, setup, account);
    }
  }

  // ---------------------------------------------------------------- the pool

  /** Value reclassified for one item code. */
  function MovedFor(items: seq<ReceiptLine>, allocs: map<nat, Allocation>, pool: Pool, code: string): real {
    if items == [] then 0.0
    else
      var a := Lookup(allocs, items[0].id);
      (if items[0].code == code then Moved(items[0], a, pool) else 0.0)
      + MovedFor(items[1..], allocs, PoolLeft(items[0], a, pool), code)
  }

  /** Amount of the stock lines of one item code. */
  function ReceivedOf(items: seq<ReceiptLine>, code: string): real {
    if items == [] then 0.0
    else (if items[0].stock && items[0].code == code then items[0].amount else 0.0) + ReceivedOf(items[1..], code)
  }

  /** Per item code the pool falls by exactly what is reclassified, allocated or not. */
  lemma {:induction false} PoolFallsByWhatIsMoved(items: seq<ReceiptLine>, allocs: map<nat, Allocation>, pool: Pool,
      setup: ReceiptSetup, code: string)
    requires ReceiptEntries(items, allocs, pool, setup).Ok?
    ensures PoolOf(ReceiptEntries(items, allocs, pool, setup).value.pool, code)
         == PoolOf(pool, code) - MovedFor(items, allocs, pool, code)
  {
    if items != [] {
      var a := Lookup(allocs, items[0].id);
      var left := ReceiptLineEntries(items[0], a, pool, setup).value.pool;
      PoolAfterLine(items[0], a, pool, setup, code);
      PoolLeftIsLinePool(items[0], a, pool, setup);
      PoolFallsByWhatIsMoved(items[1..], allocs, left, setup, code);
    }
  }

  /** Unallocated lines of a code take from the pool together, in any order, the smaller of pool and receipt. */
  lemma {:induction false} UnallocatedTakeMinimum(items: seq<ReceiptLine>, allocs: map<nat, Allocation>, pool: Pool, code: string)
    requires !HasAllocated(items, allocs, code) && PoolOf(pool, code) >= 0.0
    requires forall k :: 0 <= k < |items| ==> items[k].amount >= 0.0
    ensures MovedFor(items, allocs, pool, code) == Min(PoolOf(pool, code), ReceivedOf(items, code))
    ensures ReceivedOf(items, code) >= 0.0
  {
    if items != [] {
      var a := Lookup(allocs, items[0].id);
      assert items[0].stock && items[0].code == code ==> !HasAllocation(a);
      forall k | 0 <= k < |items[1..]| ensures items[1..][k] == items[k + 1] {
      }
      UnallocatedTakeMinimum(items[1..], allocs, PoolLeft(items[0], a, pool), code);
    }
  }

  /** The pool of a code without allocated lines never goes negative. */
  lemma PoolStaysNonNegative(items: seq<ReceiptLine>, allocs: map<nat, Allocation>, pool: Pool, setup: ReceiptSetup, code: string)
    requires ReceiptEntries(items, allocs, pool, setup).Ok?
    requires !HasAllocated(items, allocs, code) && PoolOf(pool, code) >= 0.0
    requires forall k :: 0 <= k < |items| ==> items[k].amount >= 0.0
    ensures var left := PoolOf(ReceiptEntries(items, allocs, pool, setup).value.pool, code);
            0.0 <= left && PoolOf(pool, code) - left == Min(PoolOf(pool, code), ReceivedOf(items, code))
  {
    PoolFallsByWhatIsMoved(items, allocs, pool, setup, code);
    UnallocatedTakeMinimum(items, allocs, pool, code);
  }
}
