/**
  Taxes of a document from a template: inclusive taxes extracted from the price, additive and deductive taxes applied to
  a running total, every amount rounded to four decimals.
 */
module TaxArithmetic {
  import opened Common
  import opened Rounding

  datatype Rate = Finite(value: real) | NotFinite

  datatype TaxType = Percentage | Fixed | OtherType

  datatype Tax = Tax(id: string, active: bool, kind: TaxType, rate: Rate)

  /** A template line; an unset calculation base or behavior has already become its default. */
  datatype Item = Item(tax: Option<Tax>, base: string, inclusive: bool, deductive: bool)

  const PREVIOUS_TOTAL := "previous_total"

  datatype Line = Line(item: Item, amount: real)

  datatype Totals = Totals(lines: seq<Line>, additive: real, deductive: real, inclusive: real, payableDelta: real)

  /** Four decimals, ties to even. */
  function Quantize(x: real): real {
    RoundHalfEven(x * 10000.0) as real / 10000.0
  }

  predicate Active(item: Item) {
    item.tax.Some? && item.tax.value.active
  }

  predicate Usable(item: Item) {
    Active(item) && item.tax.value.rate.Finite?
  }

  // ---------------------------------------------------------------- inclusive taxes by base

  /** The rate an item adds to the inclusive percentages of a base. */
  function RateIn(item: Item, base: string): real {
    if item.inclusive && item.base == base && Usable(item) && item.tax.value.kind.Percentage? then item.tax.value.rate.value else 0.0
  }

  function FixedIn(item: Item, base: string): real {
    if item.inclusive && item.base == base && Usable(item) && item.tax.value.kind.Fixed? then item.tax.value.rate.value else 0.0
  }

  function RateTotal(items: seq<Item>, base: string): real {
    if items == [] then 0.0 else RateIn(items[0], base) + RateTotal(items[1..], base)
  }

  function FixedTotal(items: seq<Item>, base: string): real {
    if items == [] then 0.0 else FixedIn(items[0], base) + FixedTotal(items[1..], base)
  }

  predicate BadInclusive(item: Item) {
    item.inclusive && Active(item) && item.tax.value.rate.NotFinite?
  }

  function Get(m: map<string, real>, key: string): real {
    if key in m then m[key] else 0.0
  }

  /** The two dictionaries of inclusive taxes by calculation base. */
  method InclusiveTaxBases(items: seq<Item>) returns (r: Result<(map<string, real>, map<string, real>)>)
    ensures r.Err? <==> exists i :: 0 <= i < |items| && BadInclusive(items[i])
    ensures r.Ok? ==> forall base :: Get(r.value.0, base) == RateTotal(items, base) && Get(r.value.1, base) == FixedTotal(items, base)
  {
    var rates: map<string, real>, fixed: map<string, real> := map[], map[];
    assert items[0..] == items;
    for i := 0 to |items|
      invariant forall k :: 0 <= k < i ==> !BadInclusive(items[k])
      invariant forall base :: Get(rates, base) + RateTotal(items[i..], base) == RateTotal(items, base)
      invariant forall base :: Get(fixed, base) + FixedTotal(items[i..], base) == FixedTotal(items, base)
    {
      var item := items[i];
      assert items[i..][1..] == items[i + 1..];
      ghost var ratesBefore, fixedBefore := rates, fixed;
      if item.inclusive && Active(item) {
        match item.tax.value.rate
        case NotFinite => return Err("the rate must be finite");
        case Finite(rate) =>
          if item.tax.value.kind.Percentage? {
            rates := rates[item.base := Get(rates, item.base) + rate];
          } else if item.tax.value.kind.Fixed? {
            fixed := fixed[item.base := Get(fixed, item.base) + rate];
          }
      }
      forall base ensures Get(rates, base) + RateTotal(items[i + 1..], base) == RateTotal(items, base) {
        assert Get(ratesBefore, base) + RateTotal(items[i..], base) == RateTotal(items, base);
      }
      forall base ensures Get(fixed, base) + FixedTotal(items[i + 1..], base) == FixedTotal(items, base) {
        assert Get(fixedBefore, base) + FixedTotal(items[i..], base) == FixedTotal(items, base);
      }
    }
    assert items[|items|..] == [];
    forall base ensures Get(rates, base) == RateTotal(items, base) && Get(fixed, base) == FixedTotal(items, base) {
      assert Get(rates, base) + RateTotal(items[|items|..], base) == RateTotal(items, base);
      assert Get(fixed, base) + FixedTotal(items[|items|..], base) == FixedTotal(items, base);
    }
    r := Ok((rates, fixed));
  }

  // ---------------------------------------------------------------- one line

  /** The price an item is computed on. */
  function TaxableBase(item: Item, base: real, running: real): real {
    if item.base == PREVIOUS_TOTAL then running else base
  }

  /** The part of `price` that a rate takes when all of `whole` is in it. */
  function Extract(price: real, rate: real, whole: real): real
    requires whole != 0.0
  {
    price * rate / whole
  }

  /** The tax before rounding; `rates` and `fixed` are the inclusive totals of the item's base. */
  function Unrounded(item: Item, taxable: real, rates: real, fixed: real): real
    requires Usable(item) && (item.inclusive && !item.tax.value.kind.Fixed? ==> 100.0 + rates != 0.0)
  {
    var rate := item.tax.value.rate.value;
    if item.tax.value.kind.Fixed? then rate
    else if item.inclusive then Extract(taxable - fixed, rate, 100.0 + rates)
    else Extract(taxable, rate, 100.0)
  }

  /** The line of an item: nothing for a missing or inactive tax. */
  function LineOf(item: Item, base: real, running: real, rates: real, fixed: real): Result<Option<Line>> {
    if !Active(item) then Ok(None)
    else if item.tax.value.rate.NotFinite? then Err("the rate must be finite")
    else if item.inclusive && !item.tax.value.kind.Fixed? && 100.0 + rates == 0.0 then Err("division by zero")
    else Ok(Some(Line(item, Quantize(Unrounded(item, TaxableBase(item, base, running), rates, fixed)))))
  }

  // ---------------------------------------------------------------- totals

  function After(running: real, line: Line): real {
    if line.item.inclusive then running
    else if line.item.deductive then running - line.amount
    else running + line.amount
  }

  function Additive(lines: seq<Line>): real {
    if lines == [] then 0.0
    else (if !lines[0].item.inclusive && !lines[0].item.deductive then lines[0].amount else 0.0) + Additive(lines[1..])
  }

  function Deductive(lines: seq<Line>): real {
    if lines == [] then 0.0
    else (if !lines[0].item.inclusive && lines[0].item.deductive then lines[0].amount else 0.0) + Deductive(lines[1..])
  }

  function Inclusive(lines: seq<Line>): real {
    if lines == [] then 0.0 else (if lines[0].item.inclusive then lines[0].amount else 0.0) + Inclusive(lines[1..])
  }

  /** The lines of the items still to come, `running` being the total before them. */
  function Lines(all: seq<Item>, items: seq<Item>, base: real, running: real): Result<seq<Line>>
    decreases |items|
  {
    if items == [] then Ok([])
    else
      var line :- LineOf(items[0], base, running, RateTotal(all, items[0].base), FixedTotal(all, items[0].base));
      match line
      case None => Lines(all, items[1..], base, running)
      case Some(line) =>
        var rest :- Lines(all, items[1..], base, After(running, line));
        Ok([line] + rest)
  }

  /** The lines and totals of a template whose inclusive rates are finite. */
  function Calculate(items: seq<Item>, base: real): Result<Totals> {
    if exists i :: 0 <= i < |items| && BadInclusive(items[i]) then Err("the rate must be finite")
    else
      var lines :- Lines(items, items, base, base);
      Ok(Totals(lines, Additive(lines), Deductive(lines), Inclusive(lines), Additive(lines) - Deductive(lines)))
  }

  // ---------------------------------------------------------------- the calculation with its accumulators

  class TaxTotals {
    var runningTotal: real
    var additiveTotal: real
    var deductiveTotal: real
    var inclusiveTotal: real

    constructor (base: real)
      ensures runningTotal == base && additiveTotal == 0.0 && deductiveTotal == 0.0 && inclusiveTotal == 0.0
    {
      runningTotal, additiveTotal, deductiveTotal, inclusiveTotal := base, 0.0, 0.0, 0.0;
    }

    /** The accumulators hold what the lines add up to, and the running total their effect on the base. */
    ghost predicate Holds(base: real, lines: seq<Line>)
      reads this
    {
      && additiveTotal == Additive(lines) && deductiveTotal == Deductive(lines) && inclusiveTotal == Inclusive(lines)
      && runningTotal == base + additiveTotal - deductiveTotal
    }

    method ApplyTaxResult(line: Line, ghost base: real, ghost lines: seq<Line>)
      requires Holds(base, lines)
      modifies this
      ensures Holds(base, lines + [line])
      ensures runningTotal == After(old(runningTotal), line)
    {
      if line.item.inclusive {
        inclusiveTotal := inclusiveTotal + line.amount;
      } else if line.item.deductive {
        deductiveTotal := deductiveTotal + line.amount;
        runningTotal := runningTotal - line.amount;
      } else {
        additiveTotal := additiveTotal + line.amount;
        runningTotal := runningTotal + line.amount;
      }
      OneMoreLine(lines, line);
    }
  }

  lemma {:induction false} OneMoreLine(lines: seq<Line>, line: Line)
    ensures Additive(lines + [line]) == Additive(lines) + (if !line.item.inclusive && !line.item.deductive then line.amount else 0.0)
    ensures Deductive(lines + [line]) == Deductive(lines) + (if !line.item.inclusive && line.item.deductive then line.amount else 0.0)
    ensures Inclusive(lines + [line]) == Inclusive(lines) + (if line.item.inclusive then line.amount else 0.0)
  {
    if lines == [] {
      assert [line][1..] == [];
    } else {
      OneMoreLine(lines[1..], line);
      assert (lines + [line])[1..] == lines[1..] + [line];
    }
  }

  /** The loop over the template items. */
  method CalculateTaxes(items: seq<Item>, base: real) returns (r: Result<Totals>)
    ensures r == Calculate(items, base)
  {
    var bases := InclusiveTaxBases(items);
    if bases.Err? { return Err("the rate must be finite"); }
    var (rates, fixed) := bases.value;
    var totals := new TaxTotals(base);
    var lines: seq<Line> := [];
    ghost var whole := Lines(items, items, base, base);
    assert items[0..] == items && (whole.Ok? ==> [] + whole.value == whole.value);
    for i := 0 to |items|
      invariant totals.Holds(base, lines)
      invariant Prepend(lines, Lines(items, items[i..], base, totals.runningTotal)) == whole
    {
      var item := items[i];
      assert items[i..][1..] == items[i + 1..];
      var result := LineOf(item, base, totals.runningTotal, Get(rates, item.base), Get(fixed, item.base));
      if result.Err? { return Err(result.error); }
      if result.value.Some? {
        var line := result.value.value;
        PrependTwice(lines, [line], Lines(items, items[i + 1..], base, After(totals.runningTotal, line)));
        totals.ApplyTaxResult(line, base, lines);
        lines := lines + [line];
      }
    }
    assert lines + [] == lines;
    r := Ok(Totals(lines, totals.additiveTotal, totals.deductiveTotal, totals.inclusiveTotal,
                   totals.additiveTotal - totals.deductiveTotal));
  }
}
