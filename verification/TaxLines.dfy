/**
  What every line and total of a tax calculation amounts to, in terms of the template's rows and the lines before it.
 */
module TaxLines {
  import opened Common
  import opened Rounding
  import opened Sums
  import opened TaxArithmetic
  import opened TaxTheorems

  // ---------------------------------------------------------------- terms of the template

  predicate Counted(item: Item) {
    item.tax.Some? && item.tax.value.active
  }

  /** The rate of a counted inclusive percentage on the base. */
  function PercentIn(base: string): Item -> real {
    (item: Item) =>
      if Counted(item) && item.inclusive && item.base == base && item.tax.value.kind.Percentage? && item.tax.value.rate.Finite?
      then item.tax.value.rate.value else 0.0
  }

  /** The amount of a counted inclusive fixed tax on the base. */
  function AmountIn(base: string): Item -> real {
    (item: Item) =>
      if Counted(item) && item.inclusive && item.base == base && item.tax.value.kind.Fixed? && item.tax.value.rate.Finite?
      then item.tax.value.rate.value else 0.0
  }

  function CountedItems(items: seq<Item>): seq<Item> {
    if items == [] then [] else (if Counted(items[0]) then [items[0]] else []) + CountedItems(items[1..])
  }

  function ItemsOf(lines: seq<Line>): seq<Item> {
    if lines == [] then [] else [lines[0].item] + ItemsOf(lines[1..])
  }

  /** What a line does to the running total. */
  function Effect(line: Line): real {
    if line.item.inclusive then 0.0 else if line.item.deductive then -line.amount else line.amount
  }

  /** The nearest number of four decimals, the even one of two. */
  ghost predicate NearestFour(amount: real, exact: real) {
    exists n: int :: IsNearest(n, amount, exact)
  }

  predicate IsNearest(n: int, amount: real, exact: real) {
    && amount == n as real / 10000.0
    && -0.5 <= exact * 10000.0 - n as real <= 0.5
    && (exact * 10000.0 - n as real == 0.5 || exact * 10000.0 - n as real == -0.5 ==> n % 2 == 0)
  }

  lemma QuantizeIsNearest(x: real)
    ensures NearestFour(Quantize(x), x)
  {
    assert IsNearest(RoundHalfEven(x * 10000.0), Quantize(x), x);
  }

  lemma {:induction false} InclusiveSums(items: seq<Item>, base: string)
    ensures RateTotal(items, base) == Sum(PercentIn(base), items) && FixedTotal(items, base) == Sum(AmountIn(base), items)
  {
    if items != [] { InclusiveSums(items[1..], base); }
  }

  lemma {:induction false} RunningIsSum(base: real, lines: seq<Line>)
    ensures RunningAfter(base, lines) == base + Sum(Effect, lines)
    decreases |lines|
  {
    if lines != [] {
      var front, last := lines[..|lines| - 1], lines[|lines| - 1];
      RunningIsSum(base, front);
      assert lines == front + [last] && [last][1..] == [];
      SumOfConcat(Effect, front, [last]);
    }
  }

  // ---------------------------------------------------------------- lines

  /** There is one line for each active tax, in the order of the template. */
  lemma {:induction false} OneLinePerActiveTax(all: seq<Item>, items: seq<Item>, base: real, running: real)
    requires Lines(all, items, base, running).Ok?
    ensures ItemsOf(Lines(all, items, base, running).value) == CountedItems(items)
    decreases |items|
  {
    if items != [] {
      match LineOf(items[0], base, running, RateTotal(all, items[0].base), FixedTotal(all, items[0].base))
      case Ok(None) => OneLinePerActiveTax(all, items[1..], base, running);
      case Ok(Some(line)) =>
        OneLinePerActiveTax(all, items[1..], base, After(running, line));
        var rest := Lines(all, items[1..], base, After(running, line)).value;
        assert ([line] + rest)[1..] == rest;
    }
  }

  /** The price a line is computed on: the base and the lines before it for the running total, else the base alone. */
  function PriceFor(item: Item, base: real, before: seq<Line>): real {
    if item.base == "previous_total" then base + Sum(Effect, before) else base
  }

  /** The tax an item yields on a price, before rounding. */
  function ExactTax(items: seq<Item>, item: Item, price: real): real
    requires Counted(item) && item.tax.value.rate.Finite?
    requires item.inclusive && !item.tax.value.kind.Fixed? ==> 100.0 + Sum(PercentIn(item.base), items) != 0.0
  {
    var rate := item.tax.value.rate.value;
    if item.tax.value.kind.Fixed? then rate
    else if !item.inclusive then PartOf(price, rate, 100.0)
    else PartOf(price - Sum(AmountIn(item.base), items), rate, 100.0 + Sum(PercentIn(item.base), items))
  }

  /** The part of a price that a rate is of a whole. */
  function PartOf(price: real, rate: real, whole: real): real
    requires whole != 0.0
  {
    price * rate / whole
  }

  lemma ExtractIsPart(price: real, rate: real, whole: real)
    requires whole != 0.0
    ensures Extract(price, rate, whole) == PartOf(price, rate, whole)
  {
  }

  lemma UnroundedIsExact(items: seq<Item>, item: Item, price: real, rates: real, fixed: real)
    requires Usable(item) && rates == Sum(PercentIn(item.base), items) && fixed == Sum(AmountIn(item.base), items)
    requires item.inclusive && !item.tax.value.kind.Fixed? ==> 100.0 + rates != 0.0
    ensures Unrounded(item, price, rates, fixed) == ExactTax(items, item, price)
  {
    ExtractIsPart(price, item.tax.value.rate.value, 100.0);
    if 100.0 + rates != 0.0 { ExtractIsPart(price - fixed, item.tax.value.rate.value, 100.0 + rates); }
  }

  /**
    Line k is the tax of its item on its price, to the nearest four decimals: a fixed tax is its rate; a percentage is
    taken of the price, or extracted from it when it is inclusive.
   */
  lemma LineIsTax(items: seq<Item>, base: real, k: nat)
    requires Calculate(items, base).Ok? && k < |Calculate(items, base).value.lines|
    ensures var lines := Calculate(items, base).value.lines;
            var item := lines[k].item;
            && item in items && Counted(item) && item.tax.value.rate.Finite?
            && (item.inclusive && !item.tax.value.kind.Fixed? ==> 100.0 + Sum(PercentIn(item.base), items) != 0.0)
            && NearestFour(lines[k].amount, ExactTax(items, item, PriceFor(item, base, lines[..k])))
  {
    var lines := Calculate(items, base).value.lines;
    LinesUseRunningTotal(items, items, base, base, k);
    RunningIsSum(base, lines[..k]);
    ItemLineIsTax(items, lines[k], base, RunningAfter(base, lines[..k]));
  }

  /** One line, on a given running total. */
  lemma ItemLineIsTax(items: seq<Item>, line: Line, base: real, running: real)
    requires LineOf(line.item, base, running, RateTotal(items, line.item.base), FixedTotal(items, line.item.base)) == Ok(Some(line))
    ensures Counted(line.item) && line.item.tax.value.rate.Finite?
    ensures line.item.inclusive && !line.item.tax.value.kind.Fixed? ==> 100.0 + Sum(PercentIn(line.item.base), items) != 0.0
    ensures NearestFour(line.amount, ExactTax(items, line.item, if line.item.base == "previous_total" then running else base))
  {
    var item, price := line.item, if line.item.base == "previous_total" then running else base;
    InclusiveSums(items, item.base);
    UnroundedIsExact(items, item, price, RateTotal(items, item.base), FixedTotal(items, item.base));
    QuantizeIsNearest(Unrounded(item, price, RateTotal(items, item.base), FixedTotal(items, item.base)));
  }

  lemma NearestIsNear(amount: real, exact: real)
    requires NearestFour(amount, exact)
    ensures -0.00005 <= amount - exact <= 0.00005
  {
    var n :| IsNearest(n, amount, exact);
  }

  /** A percentage that is not inclusive, within half of the last digit. */
  lemma PercentageOfPrice(items: seq<Item>, base: real, k: nat)
    requires Calculate(items, base).Ok? && k < |Calculate(items, base).value.lines|
    requires var item := Calculate(items, base).value.lines[k].item;
             !item.inclusive && item.tax.Some? && !item.tax.value.kind.Fixed?
    ensures var lines := Calculate(items, base).value.lines;
            var tax := lines[k].item.tax.value;
            && tax.rate.Finite?
            && var price := if lines[k].item.base == "previous_total" then RunningAfter(base, lines[..k]) else base;
               -0.00005 <= lines[k].amount - PartOf(price, tax.rate.value, 100.0) <= 0.00005
  {
    var lines := Calculate(items, base).value.lines;
    LineIsTax(items, base, k);
    RunningIsSum(base, lines[..k]);
    var line, price := lines[k], if lines[k].item.base == "previous_total" then RunningAfter(base, lines[..k]) else base;
    assert PriceFor(line.item, base, lines[..k]) == price;
    PercentageIsNear(items, line, price);
  }

  lemma PercentageIsNear(items: seq<Item>, line: Line, price: real)
    requires Counted(line.item) && line.item.tax.value.rate.Finite? && !line.item.inclusive && !line.item.tax.value.kind.Fixed?
    requires NearestFour(line.amount, ExactTax(items, line.item, price))
    ensures -0.00005 <= line.amount - PartOf(price, line.item.tax.value.rate.value, 100.0) <= 0.00005
  {
    NearestIsNear(line.amount, PartOf(price, line.item.tax.value.rate.value, 100.0));
  }

  // ---------------------------------------------------------------- totals and failures

  /** Additive, deductive and inclusive totals are the sums of their lines, and the payable delta what they do together. */
  lemma TotalsAreSums(items: seq<Item>, base: real)
    requires Calculate(items, base).Ok?
    ensures var t := Calculate(items, base).value;
            && t.additive == Sum((l: Line) => if l.item.inclusive || l.item.deductive then 0.0 else l.amount, t.lines)
            && t.deductive == Sum((l: Line) => if !l.item.inclusive && l.item.deductive then l.amount else 0.0, t.lines)
            && t.inclusive == Sum((l: Line) => if l.item.inclusive then l.amount else 0.0, t.lines)
            && t.payableDelta == t.additive - t.deductive == Sum(Effect, t.lines)
  {
    var lines := Calculate(items, base).value.lines;
    AdditiveIsSum(lines);
    DeductiveIsSum(lines);
    InclusiveIsSum(lines);
    RunningIsSum(base, lines);
    RunningTotalIsBaseAndTaxes(base, lines);
  }

  lemma {:induction false} AdditiveIsSum(lines: seq<Line>)
    ensures Additive(lines) == Sum((l: Line) => if l.item.inclusive || l.item.deductive then 0.0 else l.amount, lines)
  {
    if lines != [] { AdditiveIsSum(lines[1..]); }
  }

  lemma {:induction false} DeductiveIsSum(lines: seq<Line>)
    ensures Deductive(lines) == Sum((l: Line) => if !l.item.inclusive && l.item.deductive then l.amount else 0.0, lines)
  {
    if lines != [] { DeductiveIsSum(lines[1..]); }
  }

  lemma {:induction false} InclusiveIsSum(lines: seq<Line>)
    ensures Inclusive(lines) == Sum((l: Line) => if l.item.inclusive then l.amount else 0.0, lines)
  {
    if lines != [] { InclusiveIsSum(lines[1..]); }
  }

  /** An item that stops the calculation: a rate that is not finite, or an extraction from a whole of nothing. */
  predicate Stops(items: seq<Item>, item: Item) {
    && Counted(item)
    && (item.tax.value.rate.NotFinite?
        || (item.inclusive && !item.tax.value.kind.Fixed? && 100.0 + Sum(PercentIn(item.base), items) == 0.0))
  }

  lemma {:induction false} LinesFailIff(all: seq<Item>, items: seq<Item>, base: real, running: real)
    ensures Lines(all, items, base, running).Err? <==> exists i :: 0 <= i < |items| && Stops(all, items[i])
    decreases |items|
  {
    if items != [] {
      var first := items[0];
      InclusiveSums(all, first.base);
      var line := LineOf(first, base, running, RateTotal(all, first.base), FixedTotal(all, first.base));
      assert line.Err? <==> Stops(all, first);
      assert forall i :: 0 < i < |items| ==> items[i] == items[1..][i - 1];
      if line.Ok? {
        var after := if line.value.Some? then After(running, line.value.value) else running;
        LinesFailIff(all, items[1..], base, after);
        if i :| 0 <= i < |items[1..]| && Stops(all, items[1..][i]) { assert Stops(all, items[i + 1]); }
      }
    }
  }

  /** The calculation fails exactly when an active tax has no finite rate or cannot be extracted. */
  lemma CalculationFailsIff(items: seq<Item>, base: real)
    ensures Calculate(items, base).Err? <==> exists i :: 0 <= i < |items| && Stops(items, items[i])
  {
    LinesFailIff(items, items, base, base);
    if i :| 0 <= i < |items| && BadInclusive(items[i]) { assert Stops(items, items[i]); }
  }
}
