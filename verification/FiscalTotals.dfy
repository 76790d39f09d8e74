/**
  The fiscal lines of a document, computed twice: once for the total the user pays, once for the rows that are stored
  and posted from.
 */
module FiscalTotals {
  import opened Common
  import opened Rounding

  datatype Method = PercentageMethod | FixedMethod | ManualMethod | OtherMethod

  /**
    A stored fiscal rule; `includes` says whether its list of included concepts is filled in at all, `included` what it
    parses to, and `accountOk` whether its account belongs to the company.
   */
  datatype Rule = Rule(id: string, concept: string, kind: string, calculation: Method, rate: real, amount: real,
                       accumulated: bool, includes: bool, included: seq<string>, excluded: seq<string>, participates: bool,
                       affectsTotal: bool, includedInPrice: bool, accountOk: bool)

  /** A line as the client sends it, with the defaults of absent fields filled in. */
  datatype Payload = Payload(ruleId: Option<string>, manual: bool, concept: string, kind: string, base: real, rate: real,
                             amount: real, affectsTotal: bool, includedInPrice: bool, accountOk: bool)

  /** A line after the server has replaced what the client may not decide. */
  datatype Canonical = Canonical(concept: string, kind: string, base: real, rate: real, amount: real,
                                 affectsTotal: bool, includedInPrice: bool, accountOk: bool)

  datatype Row = Row(concept: string, kind: string, base: real, rate: real, amount: real,
                     affectsTotal: bool, includedInPrice: bool)

  /** The active rules of the company, by id. */
  type Rules = map<string, Rule>

  const GOODS := "goods"
  const WITHHOLDING := "withholding"

  function Get(amounts: map<string, real>, concept: string): real {
    if concept in amounts then amounts[concept] else 0.0
  }

  predicate IsManual(line: Payload) {
    line.manual || (line.ruleId.Some? && |line.ruleId.value| >= 7 && line.ruleId.value[..7] == "MANUAL-")
  }

  function MatchingRule(rules: Rules, line: Payload): Option<Rule> {
    if line.ruleId.Some? && line.ruleId.value in rules then Some(rules[line.ruleId.value]) else None
  }

  function SumOver(amounts: map<string, real>, concepts: seq<string>): real {
    if concepts == [] then 0.0 else Get(amounts, concepts[0]) + SumOver(amounts, concepts[1..])
  }

  // ---------------------------------------------------------------- one line

  /** Is the rule computed on the concepts it lists? */
  predicate Accumulates(rule: Rule) {
    rule.accumulated && rule.includes
  }

  /** A list of included concepts that is filled in but names none, such as a lone comma, stands for the subtotal. */
  function AccumulatedBase(rule: Rule, subtotal: real, amounts: map<string, real>): real {
    (if rule.included != [] then SumOver(amounts, rule.included) else subtotal) - SumOver(amounts, rule.excluded)
  }

  function RuleBase(rule: Rule, subtotal: Option<real>, amounts: map<string, real>, line: Payload): Result<real> {
    var base :=
      match subtotal
      case None => line.base
      case Some(value) => if Accumulates(rule) then AccumulatedBase(rule, value, amounts) else value;
    if base < 0.0 then Err("negative base") else Ok(base)
  }

  /** Two decimals, ties away from zero. */
  function Cents(x: real): real {
    RoundHalfUp(x * 100.0) as real / 100.0
  }

  function Percent(base: real, rate: real): real {
    base * rate / 100.0
  }

  function RuleAmount(rule: Rule, base: real): real {
    match rule.calculation
    case PercentageMethod => Cents(Percent(base, rule.rate))
    case FixedMethod => rule.amount
    case ManualMethod => rule.amount
    case OtherMethod => 0.0
  }

  function CanonicalLine(line: Payload, rule: Option<Rule>, subtotal: Option<real>, amounts: map<string, real>): Result<Canonical> {
    match rule
    case Some(r) =>
      var base :- RuleBase(r, subtotal, amounts, line);
      if RuleAmount(r, base) < 0.0 then Err("negative amount")
      else Ok(Canonical(r.concept, r.kind, base, r.rate, RuleAmount(r, base), r.affectsTotal, r.includedInPrice, r.accountOk))
    case None =>
      if !IsManual(line) then Err("invalid rule")
      else if line.base < 0.0 || line.rate < 0.0 || line.amount < 0.0 then Err("negative manual line")
      else Ok(Canonical(line.concept, line.kind, line.base, line.rate, line.amount, line.affectsTotal, line.includedInPrice,
                        line.accountOk))
  }

  // ---------------------------------------------------------------- the total

  /** The rule the total uses: none for a manual line, whatever its id. */
  function TotalRule(rules: Rules, line: Payload): Option<Rule> {
    if IsManual(line) then None else MatchingRule(rules, line)
  }

  predicate Counts(affectsTotal: bool, includedInPrice: bool, kind: string) {
    affectsTotal && !includedInPrice && kind != WITHHOLDING
  }

  /** Concept amounts after a line: participating rules add to their concept. */
  function Participate(amounts: map<string, real>, rule: Option<Rule>, line: Canonical): map<string, real> {
    if rule.Some? && rule.value.participates && line.concept != "" then
      amounts[line.concept := Get(amounts, line.concept) + line.amount]
    else amounts
  }

  /** What the lines from p on add to the total. */
  function DeltaFrom(rules: Rules, lines: seq<Payload>, p: nat, subtotal: real, amounts: map<string, real>): Result<real>
    requires p <= |lines|
    decreases |lines| - p
  {
    if p == |lines| then Ok(0.0)
    else
      var rule := TotalRule(rules, lines[p]);
      var c :- CanonicalLine(lines[p], rule, Some(subtotal), amounts);
      var rest :- DeltaFrom(rules, lines, p + 1, subtotal, Participate(amounts, rule, c));
      Ok((if Counts(c.affectsTotal, c.includedInPrice, c.kind) then c.amount else 0.0) + rest)
  }

  function DocumentTotal(rules: Rules, lines: seq<Payload>, subtotal: real): Result<real> {
    var delta :- DeltaFrom(rules, lines, 0, subtotal, map[GOODS := subtotal]);
    Ok(subtotal + delta)
  }

  /** The loop of the total. */
  method DocumentTotalLoop(rules: Rules, lines: seq<Payload>, subtotal: real) returns (r: Result<real>)
    ensures r == DocumentTotal(rules, lines, subtotal)
  {
    var conceptAmounts := map[GOODS := subtotal];
    var delta := 0.0;
    ghost var whole := DeltaFrom(rules, lines, 0, subtotal, conceptAmounts);
    for p := 0 to |lines|
      invariant var rest := DeltaFrom(rules, lines, p, subtotal, conceptAmounts);
                if rest.Err? then whole == rest else whole == Ok(delta + rest.value)
    {
      var rule := TotalRule(rules, lines[p]);
      var canonical := CanonicalLine(lines[p], rule, Some(subtotal), conceptAmounts);
      if canonical.Err? { return Err(canonical.error); }
      var c := canonical.value;
      if rule.Some? && rule.value.participates && c.concept != "" {
        conceptAmounts := conceptAmounts[c.concept := Get(conceptAmounts, c.concept) + c.amount];
      }
      if Counts(c.affectsTotal, c.includedInPrice, c.kind) { delta := delta + c.amount; }
    }
    r := Ok(subtotal + delta);
  }

  // ---------------------------------------------------------------- the stored rows

  function NatToString(n: nat): string {
    if n < 10 then ["0123456789"[n]] else NatToString(n / 10) + ["0123456789"[n % 10]]
  }

  /** The concept a row is stored under; rows are numbered from one. */
  function RowConcept(concept: string, p: nat): string {
    if concept == "" then "line_" + NatToString(p + 1) else concept
  }

  /** The row of a line: its rule is looked up by id even when the line is manual. */
  function BuildRow(rules: Rules, line: Payload, p: nat, subtotal: Option<real>, amounts: map<string, real>): Result<Row> {
    var c :- CanonicalLine(line, MatchingRule(rules, line), subtotal, amounts);
    if !c.accountOk then Err("the account belongs to another company")
    else Ok(Row(RowConcept(c.concept, p), c.kind, c.base, c.rate, c.amount, c.affectsTotal, c.includedInPrice))
  }

  /** The rows of the lines from p on. */
  function RowsFrom(rules: Rules, lines: seq<Payload>, p: nat, subtotal: Option<real>, amounts: map<string, real>): Result<seq<Row>>
    requires p <= |lines|
    decreases |lines| - p
  {
    if p == |lines| then Ok([])
    else
      var row :- BuildRow(rules, lines[p], p, subtotal, amounts);
      var rest :- RowsFrom(rules, lines, p + 1, subtotal, amounts[row.concept := row.amount]);
      Ok([row] + rest)
  }

  function PersistedRows(rules: Rules, lines: seq<Payload>, subtotal: Option<real>): Result<seq<Row>> {
    RowsFrom(rules, lines, 0, subtotal, map[])
  }

  lemma RowsTurn(rules: Rules, lines: seq<Payload>, p: nat, subtotal: Option<real>, amounts: map<string, real>, rows: seq<Row>,
      row: Row)
    requires p < |lines| && BuildRow(rules, lines[p], p, subtotal, amounts) == Ok(row)
    ensures var rest := RowsFrom(rules, lines, p + 1, subtotal, amounts[row.concept := row.amount]);
            if rest.Err? then RowsFrom(rules, lines, p, subtotal, amounts) == rest
            else RowsFrom(rules, lines, p, subtotal, amounts).Ok?
                 && rows + RowsFrom(rules, lines, p, subtotal, amounts).value == (rows + [row]) + rest.value
  {
    var rest := RowsFrom(rules, lines, p + 1, subtotal, amounts[row.concept := row.amount]);
    if rest.Ok? { assert rows + ([row] + rest.value) == (rows + [row]) + rest.value; }
  }

  /** The loop that stores the rows. */
  method PersistDocumentTaxLines(rules: Rules, lines: seq<Payload>, subtotal: Option<real>) returns (r: Result<seq<Row>>)
    ensures r == PersistedRows(rules, lines, subtotal)
  {
    var conceptAmounts: map<string, real> := map[];
    var rows: seq<Row> := [];
    ghost var whole := RowsFrom(rules, lines, 0, subtotal, conceptAmounts);
    assert whole.Ok? ==> [] + whole.value == whole.value;
    for p := 0 to |lines|
      invariant var rest := RowsFrom(rules, lines, p, subtotal, conceptAmounts);
                if rest.Err? then whole == rest else whole == Ok(rows + rest.value)
    {
      var row := BuildRow(rules, lines[p], p, subtotal, conceptAmounts);
      if row.Err? { return Err(row.error); }
      RowsTurn(rules, lines, p, subtotal, conceptAmounts, rows, row.value);
      conceptAmounts := conceptAmounts[row.value.concept := row.value.amount];
      rows := rows + [row.value];
    }
    assert rows + [] == rows;
    r := Ok(rows);
  }

  /** The stored rows that are part of the total. */
  function Payable(rows: seq<Row>): real {
    if rows == [] then 0.0
    else (if Counts(rows[0].affectsTotal, rows[0].includedInPrice, rows[0].kind) then rows[0].amount else 0.0) + Payable(rows[1..])
  }
}
