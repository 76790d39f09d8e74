/**
  What the tax calculation promises: the running total is the base plus additive less deductive taxes, inclusive taxes
  leave the price within the rounding of their lines, and only the running-total base makes the order matter.
 */
module TaxTheorems {
  import opened Common
  import opened Sums
  import opened TaxArithmetic

  // ---------------------------------------------------------------- the running total

  function RunningAfter(base: real, lines: seq<Line>): real
    decreases |lines|
  {
    if lines == [] then base else After(RunningAfter(base, lines[..|lines| - 1]), lines[|lines| - 1])
  }

  /** After every line the running total is base plus additive less deductive taxes. */
  lemma {:induction false} RunningTotalIsBaseAndTaxes(base: real, lines: seq<Line>)
    ensures RunningAfter(base, lines) == base + Additive(lines) - Deductive(lines)
    decreases |lines|
  {
    if lines != [] {
      var front, last := lines[..|lines| - 1], lines[|lines| - 1];
      RunningTotalIsBaseAndTaxes(base, front);
      OneMoreLine(front, last);
      assert lines == front + [last];
    }
  }

  lemma PayableDeltaIsChangeOfRunningTotal(items: seq<Item>, base: real)
    requires Calculate(items, base).Ok?
    ensures Calculate(items, base).value.payableDelta == RunningAfter(base, Calculate(items, base).value.lines) - base
  {
    RunningTotalIsBaseAndTaxes(base, Calculate(items, base).value.lines);
  }

  /** Each line that uses the running total as its base used the total left by the lines before it. */
  lemma {:induction false} LinesUseRunningTotal(all: seq<Item>, items: seq<Item>, base: real, running: real, k: nat)
    requires Lines(all, items, base, running).Ok? && k < |Lines(all, items, base, running).value|
    ensures var lines := Lines(all, items, base, running).value;
            var item := lines[k].item;
            && item in items && Active(item)
            && LineOf(item, base, RunningAfter(running, lines[..k]), RateTotal(all, item.base), FixedTotal(all, item.base))
               == Ok(Some(lines[k]))
    decreases |items|
  {
    var lines := Lines(all, items, base, running).value;
    match LineOf(items[0], base, running, RateTotal(all, items[0].base), FixedTotal(all, items[0].base))
    case Ok(None) => LinesUseRunningTotal(all, items[1..], base, running, k);
    case Ok(Some(line)) =>
      var rest := Lines(all, items[1..], base, After(running, line)).value;
      if k > 0 {
        LinesUseRunningTotal(all, items[1..], base, After(running, line), k - 1);
        assert lines[..k] == [line] + rest[..k - 1];
        RunningOfConcat(running, line, rest[..k - 1]);
      }
  }

  lemma {:induction false} RunningOfConcat(base: real, first: Line, rest: seq<Line>)
    ensures RunningAfter(base, [first] + rest) == RunningAfter(After(base, first), rest)
    decreases |rest|
  {
    var all := [first] + rest;
    if rest == [] {
      assert all[..0] == [] && RunningAfter(base, all[..0]) == base;
    } else {
      RunningOfConcat(base, first, rest[..|rest| - 1]);
      assert all[..|all| - 1] == [first] + rest[..|rest| - 1];
    }
  }

  // ---------------------------------------------------------------- extraction of inclusive taxes

  lemma QuantizeError(x: real)
    ensures -0.00005 <= Quantize(x) - x <= 0.00005
  {
  }

  /** Inclusive taxes of one base, rounded, and how many there are. */
  function GroupInclusive(lines: seq<Line>, base: string): real {
    if lines == [] then 0.0
    else (if InGroup(lines[0].item, base) then lines[0].amount else 0.0) + GroupInclusive(lines[1..], base)
  }

  function GroupCount(lines: seq<Line>, base: string): nat {
    if lines == [] then 0 else (if InGroup(lines[0].item, base) then 1 else 0) + GroupCount(lines[1..], base)
  }

  predicate InGroup(item: Item, base: string) {
    item.inclusive && item.base == base
  }

  /** The price of a base group without its inclusive taxes. */
  function Net(items: seq<Item>, price: real, base: string): real
    requires 100.0 + RateTotal(items, base) != 0.0
  {
    Extract(price - FixedTotal(items, base), 100.0, 100.0 + RateTotal(items, base))
  }

  lemma ExtractAdds(x: real, a: real, b: real, whole: real)
    requires whole != 0.0
    ensures Extract(x, a, whole) + Extract(x, b, whole) == Extract(x, a + b, whole)
  {
    assert x * (a + b) == x * a + x * b;
  }

  lemma ExtractAll(x: real, whole: real)
    requires whole != 0.0
    ensures Extract(x, whole, whole) == x && Extract(x, 0.0, whole) == 0.0
  {
  }

  lemma ExtractTwice(x: real, rate: real, whole: real)
    requires whole != 0.0
    ensures Extract(Extract(x, 100.0, whole), rate, 100.0) == Extract(x, rate, whole)
  {
    var unit := x / whole;
    assert x * 100.0 / whole == unit * 100.0;
    assert x * rate / whole == unit * rate;
    assert unit * 100.0 * rate == unit * rate * 100.0;
  }

  predicate PlainTaxes(items: seq<Item>, base: string) {
    forall i :: 0 <= i < |items| && InGroup(items[i], base) && Active(items[i]) ==> !items[i].tax.value.kind.OtherType?
  }

  /** What an item's inclusive tax is before rounding, taken from the price `x` without fixed taxes. */
  function ExactShare(item: Item, base: string, x: real, whole: real): real
    requires whole != 0.0
  {
    Extract(x, RateIn(item, base), whole) + FixedIn(item, base)
  }

  function ExactGroup(items: seq<Item>, base: string, x: real, whole: real): real
    requires whole != 0.0
  {
    if items == [] then 0.0 else ExactShare(items[0], base, x, whole) + ExactGroup(items[1..], base, x, whole)
  }

  lemma {:induction false} ExactGroupTotal(items: seq<Item>, base: string, x: real, whole: real)
    requires whole != 0.0
    ensures ExactGroup(items, base, x, whole) == Extract(x, RateTotal(items, base), whole) + FixedTotal(items, base)
  {
    if items == [] {
      ExtractAll(x, whole);
    } else {
      ExactGroupTotal(items[1..], base, x, whole);
      ExtractAdds(x, RateIn(items[0], base), RateTotal(items[1..], base), whole);
    }
  }

  /** A line of the group is off by at most one rounding error; other items have no share. */
  lemma LineError(item: Item, price: real, running: real, rates: real, fixed: real, base: string)
    requires base != PREVIOUS_TOTAL && 100.0 + rates != 0.0
    requires InGroup(item, base) && Active(item) ==> !item.tax.value.kind.OtherType?
    ensures !InGroup(item, base) || !Active(item) ==> ExactShare(item, base, price - fixed, 100.0 + rates) == 0.0
    ensures InGroup(item, base) ==>
      match LineOf(item, price, running, rates, fixed)
      case Ok(Some(line)) => -0.00005 <= line.amount - ExactShare(item, base, price - fixed, 100.0 + rates) <= 0.00005
      case _ => true
  {
    ExtractAll(price - fixed, 100.0 + rates);
    if InGroup(item, base) && Usable(item) {
      assert Unrounded(item, price, rates, fixed) == ExactShare(item, base, price - fixed, 100.0 + rates);
      QuantizeError(Unrounded(item, price, rates, fixed));
    }
  }

  lemma GroupOfOneMore(line: Line, rest: seq<Line>, base: string)
    ensures GroupInclusive([line] + rest, base) == (if InGroup(line.item, base) then line.amount else 0.0) + GroupInclusive(rest, base)
    ensures GroupCount([line] + rest, base) == (if InGroup(line.item, base) then 1 else 0) + GroupCount(rest, base)
  {
    assert ([line] + rest)[1..] == rest;
  }

  predicate WithinError(lines: seq<Line>, base: string, exact: real) {
    var bound := 0.00005 * GroupCount(lines, base) as real;
    -bound <= GroupInclusive(lines, base) - exact <= bound
  }

  lemma ErrorsAdd(line: Line, rest: seq<Line>, base: string, share: real, exact: real)
    requires WithinError(rest, base, exact)
    requires if InGroup(line.item, base) then -0.00005 <= line.amount - share <= 0.00005 else share == 0.0
    ensures WithinError([line] + rest, base, share + exact)
  {
    GroupOfOneMore(line, rest, base);
  }

  /** Each item of the group adds at most one rounding error. */
  lemma {:induction false} GroupErrors(all: seq<Item>, items: seq<Item>, price: real, running: real, base: string)
    requires base != PREVIOUS_TOTAL && 100.0 + RateTotal(all, base) != 0.0 && PlainTaxes(items, base)
    requires Lines(all, items, price, running).Ok?
    ensures WithinError(Lines(all, items, price, running).value, base,
                        ExactGroup(items, base, price - FixedTotal(all, base), 100.0 + RateTotal(all, base)))
    decreases |items|
  {
    if items != [] {
      var item := items[0];
      var x, whole := price - FixedTotal(all, base), 100.0 + RateTotal(all, base);
      PlainTail(items, base);
      LineError(item, price, running, RateTotal(all, base), FixedTotal(all, base), base);
      match LineOf(item, price, running, RateTotal(all, item.base), FixedTotal(all, item.base))
      case Ok(None) =>
        GroupErrors(all, items[1..], price, running, base);
      case Ok(Some(line)) =>
        GroupErrors(all, items[1..], price, After(running, line), base);
        ErrorsAdd(line, Lines(all, items[1..], price, After(running, line)).value, base,
                  ExactShare(item, base, x, whole), ExactGroup(items[1..], base, x, whole));
    }
  }

  lemma PlainTail(items: seq<Item>, base: string)
    requires items != [] && PlainTaxes(items, base)
    ensures PlainTaxes(items[1..], base)
  {
    forall i | 0 <= i < |items[1..]| ensures items[1..][i] == items[i + 1] {
    }
  }

  /** Net price, percentages and fixed taxes make up the price exactly before rounding. */
  lemma WholePrice(items: seq<Item>, price: real, base: string)
    requires 100.0 + RateTotal(items, base) != 0.0
    ensures Net(items, price, base)
          + ExactGroup(items, base, price - FixedTotal(items, base), 100.0 + RateTotal(items, base)) == price
  {
    var x, whole := price - FixedTotal(items, base), 100.0 + RateTotal(items, base);
    ExactGroupTotal(items, base, x, whole);
    ExtractAdds(x, 100.0, RateTotal(items, base), whole);
    ExtractAll(x, whole);
  }

  /**
    Net price and extracted taxes add up to the price within half a unit of the fourth decimal per inclusive line, for
    every base group except the running total.
   */
  lemma InclusiveExtractionBound(items: seq<Item>, price: real, base: string)
    requires base != PREVIOUS_TOTAL && 100.0 + RateTotal(items, base) != 0.0 && PlainTaxes(items, base)
    requires Calculate(items, price).Ok?
    ensures var lines := Calculate(items, price).value.lines;
            var bound := 0.00005 * GroupCount(lines, base) as real;
            -bound <= Net(items, price, base) + GroupInclusive(lines, base) - price <= bound
  {
    GroupErrors(items, items, price, price, base);
    WholePrice(items, price, base);
  }

  /** With rates that are not negative there is always a net price. */
  lemma {:induction false} RatesAddUp(items: seq<Item>, base: string)
    requires forall i :: 0 <= i < |items| && Usable(items[i]) ==> items[i].tax.value.rate.value >= 0.0
    ensures RateTotal(items, base) >= 0.0
  {
    if items != [] {
      forall i | 0 <= i < |items[1..]| ensures items[1..][i] == items[i + 1] {
      }
      RatesAddUp(items[1..], base);
    }
  }

  /** Active percentage and fixed taxes with non-negative rates on the document's net price. */
  lemma NetDocumentExtraction(items: seq<Item>, price: real)
    requires forall i :: 0 <= i < |items| && Usable(items[i]) ==> items[i].tax.value.rate.value >= 0.0
    requires PlainTaxes(items, "net_document") && Calculate(items, price).Ok?
    ensures 100.0 + RateTotal(items, "net_document") != 0.0
    ensures var lines := Calculate(items, price).value.lines;
            var bound := 0.00005 * GroupCount(lines, "net_document") as real;
            -bound <= Net(items, price, "net_document") + GroupInclusive(lines, "net_document") - price <= bound
  {
    RatesAddUp(items, "net_document");
    InclusiveExtractionBound(items, price, "net_document");
  }

  /** An extracted percentage is, to the last digit, the tax an additive line would compute on the net price. */
  lemma ExtractedTaxIsTaxOnNet(items: seq<Item>, item: Item, price: real, running: real)
    requires Usable(item) && item.inclusive && item.tax.value.kind.Percentage? && item.base != PREVIOUS_TOTAL
    requires 100.0 + RateTotal(items, item.base) != 0.0
    ensures var extracted := LineOf(item, price, running, RateTotal(items, item.base), FixedTotal(items, item.base));
            var added := LineOf(item.(inclusive := false), Net(items, price, item.base), running, 0.0, 0.0);
            && extracted.Ok? && extracted.value.Some? && added.Ok? && added.value.Some?
            && extracted.value.value.amount == added.value.value.amount
  {
    ExtractTwice(price - FixedTotal(items, item.base), item.tax.value.rate.value, 100.0 + RateTotal(items, item.base));
  }

  // ---------------------------------------------------------------- order of the template lines

  /** Contribution of an item to the totals when its base is not the running total. */
  function Contribution(item: Item, base: real, rates: real, fixed: real, deductive: bool, inclusive: bool): real {
    match LineOf(item, base, base, rates, fixed)
    case Ok(Some(line)) => if item.inclusive == inclusive && (inclusive || item.deductive == deductive) then line.amount else 0.0
    case _ => 0.0
  }

  predicate NoRunningBase(items: seq<Item>) {
    forall i :: 0 <= i < |items| ==> items[i].base != PREVIOUS_TOTAL
  }

  predicate Computable(items: seq<Item>, all: seq<Item>, base: real) {
    forall i :: 0 <= i < |items| ==> LineOf(items[i], base, base, RateTotal(all, items[i].base), FixedTotal(all, items[i].base)).Ok?
  }

  /** Which of the three totals is meant. */
  datatype Total = AdditiveTotal | DeductiveTotal | InclusiveTotal

  function TotalOf(lines: seq<Line>, total: Total): real {
    match total
    case AdditiveTotal => Additive(lines)
    case DeductiveTotal => Deductive(lines)
    case InclusiveTotal => Inclusive(lines)
  }

  function Share(all: seq<Item>, base: real, total: Total): Item -> real {
    (item: Item) => Contribution(item, base, RateTotal(all, item.base), FixedTotal(all, item.base), total.DeductiveTotal?,
                                 total.InclusiveTotal?)
  }

  lemma {:induction false} LinesAddShares(all: seq<Item>, items: seq<Item>, base: real, running: real, total: Total)
    requires NoRunningBase(items)
    ensures Lines(all, items, base, running).Ok? <==> Computable(items, all, base)
    ensures Lines(all, items, base, running).Ok? ==>
      TotalOf(Lines(all, items, base, running).value, total) == Sum(Share(all, base, total), items)
    decreases |items|
  {
    if items != [] {
      var item := items[0];
      var rates, fixed := RateTotal(all, item.base), FixedTotal(all, item.base);
      assert LineOf(item, base, running, rates, fixed) == LineOf(item, base, base, rates, fixed);
      ComputableTail(items, all, base);
      match LineOf(item, base, running, rates, fixed)
      case Err(_) =>
      case Ok(None) => LinesAddShares(all, items[1..], base, running, total);
      case Ok(Some(line)) => LinesAddShares(all, items[1..], base, After(running, line), total);
    }
  }

  lemma ComputableTail(items: seq<Item>, all: seq<Item>, base: real)
    requires items != []
    ensures Computable(items, all, base) <==>
      LineOf(items[0], base, base, RateTotal(all, items[0].base), FixedTotal(all, items[0].base)).Ok? && Computable(items[1..], all, base)
    ensures NoRunningBase(items) ==> NoRunningBase(items[1..])
  {
    forall i | 0 <= i < |items[1..]| ensures items[1..][i] == items[i + 1] {
    }
  }

  lemma {:induction false} GroupTotalsAreSums(items: seq<Item>, base: string)
    ensures RateTotal(items, base) == Sum((x: Item) => RateIn(x, base), items)
    ensures FixedTotal(items, base) == Sum((x: Item) => FixedIn(x, base), items)
  {
    if items != [] { GroupTotalsAreSums(items[1..], base); }
  }

  lemma GroupTotalsIgnoreOrder(a: seq<Item>, b: seq<Item>, base: string)
    requires multiset(a) == multiset(b)
    ensures RateTotal(a, base) == RateTotal(b, base) && FixedTotal(a, base) == FixedTotal(b, base)
  {
    GroupTotalsAreSums(a, base);
    GroupTotalsAreSums(b, base);
    SumOfPermutation((x: Item) => RateIn(x, base), a, b);
    SumOfPermutation((x: Item) => FixedIn(x, base), a, b);
  }

  lemma SameMembers<T>(a: seq<T>, b: seq<T>, x: T)
    requires multiset(a) == multiset(b)
    ensures x in a <==> x in b
  {
    assert x in a <==> x in multiset(a);
    assert x in b <==> x in multiset(b);
  }

  lemma ComputableIgnoresOrder(a: seq<Item>, b: seq<Item>, base: real)
    requires multiset(a) == multiset(b) && Computable(a, a, base)
    ensures Computable(b, b, base)
  {
    forall i | 0 <= i < |b| ensures LineOf(b[i], base, base, RateTotal(b, b[i].base), FixedTotal(b, b[i].base)).Ok? {
      GroupTotalsIgnoreOrder(a, b, b[i].base);
      SameMembers(a, b, b[i]);
      assert b[i] in b;
    }
  }

  /** Unless a line is computed on the running total, the totals do not depend on the sequence of the lines. */
  lemma TotalsIgnoreOrder(a: seq<Item>, b: seq<Item>, base: real)
    requires multiset(a) == multiset(b) && NoRunningBase(a) && Calculate(a, base).Ok?
    ensures Calculate(b, base).Ok?
    ensures Calculate(a, base).value.additive == Calculate(b, base).value.additive
    ensures Calculate(a, base).value.deductive == Calculate(b, base).value.deductive
    ensures Calculate(a, base).value.inclusive == Calculate(b, base).value.inclusive
    ensures Calculate(a, base).value.payableDelta == Calculate(b, base).value.payableDelta
  {
    forall i | 0 <= i < |b| ensures b[i].base != PREVIOUS_TOTAL && !BadInclusive(b[i]) {
      assert b[i] in b;
      SameMembers(a, b, b[i]);
    }
    OneTotalIgnoresOrder(a, b, base, AdditiveTotal);
    OneTotalIgnoresOrder(a, b, base, DeductiveTotal);
    OneTotalIgnoresOrder(a, b, base, InclusiveTotal);
  }

  lemma OneTotalIgnoresOrder(a: seq<Item>, b: seq<Item>, base: real, total: Total)
    requires multiset(a) == multiset(b) && NoRunningBase(a) && NoRunningBase(b) && Lines(a, a, base, base).Ok?
    ensures Lines(b, b, base, base).Ok?
    ensures TotalOf(Lines(a, a, base, base).value, total) == TotalOf(Lines(b, b, base, base).value, total)
  {
    LinesAddShares(a, a, base, base, total);
    ComputableIgnoresOrder(a, b, base);
    LinesAddShares(b, b, base, base, total);
    forall item ensures Share(a, base, total)(item) == Share(b, base, total)(item) {
      GroupTotalsIgnoreOrder(a, b, item.base);
    }
    SumsAgree(Share(a, base, total), Share(b, base, total), a);
    SumOfPermutation(Share(b, base, total), a, b);
  }
}
