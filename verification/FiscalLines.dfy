/**
  What each line of a document is charged and stored as, in terms of the rule's row, the client's line and the lines before.
 */
module FiscalLines {
  import opened Common
  import opened Rounding
  import opened Sums
  import opened FiscalTotals
  import opened FiscalDifference

  // ---------------------------------------------------------------- one line

  /** Sent as manual, or under an identifier of that form. */
  predicate IsClientLine(line: Payload) {
    line.manual || (line.ruleId.Some? && |line.ruleId.value| >= 7 && line.ruleId.value[..7] == "MANUAL-")
  }

  predicate NamesStoredRule(rules: Rules, line: Payload) {
    line.ruleId.Some? && line.ruleId.value in rules
  }

  /** The nearest number of cents, away from zero when there are two. */
  predicate IsNearestCent(n: int, amount: real, exact: real) {
    && amount == n as real / 100.0
    && -0.5 <= exact * 100.0 - n as real <= 0.5
    && (exact * 100.0 - n as real == 0.5 ==> exact < 0.0) && (exact * 100.0 - n as real == -0.5 ==> exact > 0.0)
  }

  ghost predicate NearestCent(amount: real, exact: real) {
    exists n: int :: IsNearestCent(n, amount, exact)
  }

  function InHundred(base: real, rate: real): real {
    base * rate / 100.0
  }

  lemma PercentIs(base: real, rate: real)
    ensures Percent(base, rate) == InHundred(base, rate)
  {
  }

  /** The amount a rule yields on a base. */
  ghost predicate Yields(rule: Rule, base: real, amount: real) {
    match rule.calculation
    case PercentageMethod => NearestCent(amount, InHundred(base, rule.rate))
    case FixedMethod => amount == rule.amount
    case ManualMethod => amount == rule.amount
    case OtherMethod => amount == 0.0
  }

  lemma RuleYields(rule: Rule, base: real)
    ensures Yields(rule, base, RuleAmount(rule, base))
  {
    if rule.calculation.PercentageMethod? {
      CentIsNearest(Percent(base, rule.rate));
      PercentIs(base, rule.rate);
    }
  }

  lemma CentIsNearest(exact: real)
    ensures NearestCent(Cents(exact), exact)
  {
    assert IsNearestCent(RoundHalfUp(exact * 100.0), Cents(exact), exact);
  }

  /** The price a rule is computed on, given what each concept is worth so far. */
  function RulePrice(rule: Rule, subtotal: real, worth: string -> real): real {
    if rule.accumulated && rule.includes then
      (if rule.included == [] then subtotal else Sum(worth, rule.included)) - Sum(worth, rule.excluded)
    else subtotal
  }

  /** A line replaced by its rule's row, on a price. */
  ghost predicate IsRuleLine(rule: Rule, price: real, c: Canonical) {
    && c.concept == rule.concept && c.kind == rule.kind && c.rate == rule.rate && c.affectsTotal == rule.affectsTotal
    && c.includedInPrice == rule.includedInPrice && c.accountOk == rule.accountOk
    && c.base == price && price >= 0.0 && Yields(rule, price, c.amount) && c.amount >= 0.0
  }

  /** A line taken as the client sent it. */
  predicate IsAsSent(line: Payload, c: Canonical) {
    && c == Canonical(line.concept, line.kind, line.base, line.rate, line.amount, line.affectsTotal, line.includedInPrice, line.accountOk)
    && line.base >= 0.0 && line.rate >= 0.0 && line.amount >= 0.0
  }

  /** A table says of every concept what it is worth. */
  ghost predicate Tells(table: map<string, real>, worth: string -> real) {
    forall c :: Get(table, c) == worth(c)
  }

  lemma {:induction false} TableSum(amounts: map<string, real>, worth: string -> real, concepts: seq<string>)
    requires Tells(amounts, worth)
    ensures SumOver(amounts, concepts) == Sum(worth, concepts)
  {
    if concepts != [] { TableSum(amounts, worth, concepts[1..]); }
  }

  lemma PriceIs(rule: Rule, subtotal: real, amounts: map<string, real>, worth: string -> real)
    requires Tells(amounts, worth)
    ensures Accumulates(rule) ==> AccumulatedBase(rule, subtotal, amounts) == RulePrice(rule, subtotal, worth)
    ensures !Accumulates(rule) ==> RulePrice(rule, subtotal, worth) == subtotal
  {
    TableSum(amounts, worth, rule.included);
    TableSum(amounts, worth, rule.excluded);
  }

  /** What becomes of a line that is to follow a rule, on a price. */
  lemma RuleLineIs(line: Payload, rule: Rule, subtotal: Option<real>, amounts: map<string, real>, price: real)
    requires price == match subtotal
                      case None => line.base
                      case Some(s) => if Accumulates(rule) then AccumulatedBase(rule, s, amounts) else s
    ensures CanonicalLine(line, Some(rule), subtotal, amounts).Err? <==> price < 0.0 || RuleAmount(rule, price) < 0.0
    ensures CanonicalLine(line, Some(rule), subtotal, amounts).Ok? ==>
      IsRuleLine(rule, price, CanonicalLine(line, Some(rule), subtotal, amounts).value)
  {
    RuleYields(rule, price);
  }

  /** Without a rule only a client's line that is nowhere negative passes, as it was sent. */
  lemma ClientLineIs(line: Payload, subtotal: Option<real>, amounts: map<string, real>)
    ensures CanonicalLine(line, None, subtotal, amounts).Ok?
       <==> IsClientLine(line) && line.base >= 0.0 && line.rate >= 0.0 && line.amount >= 0.0
    ensures CanonicalLine(line, None, subtotal, amounts).Ok? ==> IsAsSent(line, CanonicalLine(line, None, subtotal, amounts).value)
  {
  }

  // ---------------------------------------------------------------- the total

  /** What the lines before p that follow a participating rule have added to a concept. */
  function Fed(rules: Rules, lines: seq<Payload>, charged: seq<Canonical>, p: nat, concept: string): real
    requires p <= |lines| == |charged|
  {
    if p == 0 then 0.0
    else
      var line := lines[p - 1];
      Fed(rules, lines, charged, p - 1, concept)
      + if !IsClientLine(line) && NamesStoredRule(rules, line) && rules[line.ruleId.value].participates
           && concept != "" && charged[p - 1].concept == concept
        then charged[p - 1].amount else 0.0
  }

  /** What a concept is worth to the total before line p: the goods are worth the subtotal. */
  function Worth(rules: Rules, lines: seq<Payload>, charged: seq<Canonical>, subtotal: real, p: nat): string -> real
    requires p <= |lines| == |charged|
  {
    (concept: string) => (if concept == "goods" then subtotal else 0.0) + Fed(rules, lines, charged, p, concept)
  }

  /** A line as the total charges it. */
  ghost predicate IsCharged(rules: Rules, lines: seq<Payload>, charged: seq<Canonical>, subtotal: real, k: nat)
    requires k < |lines| == |charged|
  {
    if IsClientLine(lines[k]) then IsAsSent(lines[k], charged[k])
    else
      && NamesStoredRule(rules, lines[k])
      && var rule := rules[lines[k].ruleId.value];
         IsRuleLine(rule, RulePrice(rule, subtotal, Worth(rules, lines, charged, subtotal, k)), charged[k])
  }

  lemma NextWorth(rules: Rules, lines: seq<Payload>, charged: seq<Canonical>, subtotal: real, p: nat, total: map<string, real>)
    requires p < |lines| == |charged| && Tells(total, Worth(rules, lines, charged, subtotal, p))
    ensures Tells(Participate(total, TotalRule(rules, lines[p]), charged[p]), Worth(rules, lines, charged, subtotal, p + 1))
  {
    var total' := Participate(total, TotalRule(rules, lines[p]), charged[p]);
    forall c ensures Get(total', c) == Worth(rules, lines, charged, subtotal, p + 1)(c) {
      assert Get(total, c) == Worth(rules, lines, charged, subtotal, p)(c);
    }
  }

  lemma ThisLineIsCharged(rules: Rules, lines: seq<Payload>, charged: seq<Canonical>, subtotal: real, p: nat, total: map<string, real>)
    requires p < |lines| == |charged| && Tells(total, Worth(rules, lines, charged, subtotal, p))
    requires CanonicalLine(lines[p], TotalRule(rules, lines[p]), Some(subtotal), total) == Ok(charged[p])
    ensures IsCharged(rules, lines, charged, subtotal, p)
  {
    match TotalRule(rules, lines[p])
    case None => ClientLineIs(lines[p], Some(subtotal), total);
    case Some(rule) =>
      PriceIs(rule, subtotal, total, Worth(rules, lines, charged, subtotal, p));
      RuleLineIs(lines[p], rule, Some(subtotal), total, RulePrice(rule, subtotal, Worth(rules, lines, charged, subtotal, p)));
  }

  /** What a charged line adds to the total. */
  function Contribution(c: Canonical): real {
    if c.affectsTotal && !c.includedInPrice && c.kind != "withholding" then c.amount else 0.0
  }

  lemma {:induction false} ChargesFrom(rules: Rules, lines: seq<Payload>, charged: seq<Canonical>, subtotal: real, p: nat,
      total: map<string, real>)
    requires p <= |lines| == |charged| && Tells(total, Worth(rules, lines, charged, subtotal, p))
    requires DeltaFrom(rules, lines, p, subtotal, total).Ok?
    requires charged[p..] == ChargedFrom(rules, lines, p, subtotal, total)
    ensures forall k :: p <= k < |lines| ==> IsCharged(rules, lines, charged, subtotal, k)
    ensures DeltaFrom(rules, lines, p, subtotal, total).value == Sum(Contribution, charged[p..])
    decreases |lines| - p
  {
    if p < |lines| {
      var rule := TotalRule(rules, lines[p]);
      var c := CanonicalLine(lines[p], rule, Some(subtotal), total).value;
      assert charged[p..][0] == c && charged[p..][1..] == charged[p + 1..];
      ThisLineIsCharged(rules, lines, charged, subtotal, p, total);
      NextWorth(rules, lines, charged, subtotal, p, total);
      ChargesFrom(rules, lines, charged, subtotal, p + 1, Participate(total, rule, c));
    }
  }

  lemma {:induction false} ChargedLength(rules: Rules, lines: seq<Payload>, p: nat, subtotal: real, total: map<string, real>)
    requires p <= |lines| && DeltaFrom(rules, lines, p, subtotal, total).Ok?
    ensures |ChargedFrom(rules, lines, p, subtotal, total)| == |lines| - p
    decreases |lines| - p
  {
    if p < |lines| {
      var rule := TotalRule(rules, lines[p]);
      var c := CanonicalLine(lines[p], rule, Some(subtotal), total).value;
      ChargedLength(rules, lines, p + 1, subtotal, Participate(total, rule, c));
    }
  }

  /**
    The total is the subtotal and the amounts of the lines that affect it, are not in the price and are no withholding; a
    client's line is charged as sent, any other as its rule yields on the subtotal or on the concepts it accumulates.
   */
  lemma TotalIsChargedLines(rules: Rules, lines: seq<Payload>, subtotal: real)
    requires DocumentTotal(rules, lines, subtotal).Ok?
    ensures var charged := ChargedFrom(rules, lines, 0, subtotal, map[GOODS := subtotal]);
            && |charged| == |lines|
            && (forall k :: 0 <= k < |lines| ==> IsCharged(rules, lines, charged, subtotal, k))
            && DocumentTotal(rules, lines, subtotal) == Ok(subtotal + Sum(Contribution, charged))
  {
    var goods := map[GOODS := subtotal];
    var charged := ChargedFrom(rules, lines, 0, subtotal, goods);
    ChargedLength(rules, lines, 0, subtotal, goods);
    assert charged[0..] == charged;
    ChargesFrom(rules, lines, charged, subtotal, 0, goods);
  }

  // ---------------------------------------------------------------- the rows

  /** What a concept is worth to the rows before line p: the last amount stored under it. */
  function Stored(rows: seq<Row>, p: nat): string -> real
    requires p <= |rows|
  {
    (concept: string) => StoredWorth(rows, p, concept)
  }

  function Digit(n: nat): char
    requires n < 10
  {
    ('0' as int + n) as char
  }

  /** The decimal spelling of a number. */
  function Decimal(n: nat): string {
    if n < 10 then [Digit(n)] else Decimal(n / 10) + [Digit(n % 10)]
  }

  lemma {:induction false} SpelledInDecimal(n: nat)
    ensures NatToString(n) == Decimal(n)
  {
    if n >= 10 { SpelledInDecimal(n / 10); }
  }

  /** A row as it is stored: of its rule if it names one, even when it was sent as manual, else as it was sent. */
  ghost predicate IsStored(rules: Rules, lines: seq<Payload>, rows: seq<Row>, subtotal: Option<real>, k: nat)
    requires k < |lines| == |rows|
  {
    exists c: Canonical :: StoredFrom(rules, lines[k], rows, subtotal, k, c)
  }

  ghost predicate StoredFrom(rules: Rules, line: Payload, rows: seq<Row>, subtotal: Option<real>, k: nat, c: Canonical)
    requires k < |rows|
  {
    && c.accountOk
    && rows[k] == Row(if c.concept == "" then "line_" + Decimal(k + 1) else c.concept, c.kind, c.base, c.rate, c.amount,
                      c.affectsTotal, c.includedInPrice)
    && if NamesStoredRule(rules, line) then
         var rule := rules[line.ruleId.value];
         IsRuleLine(rule, if subtotal.None? then line.base else RulePrice(rule, subtotal.value, Stored(rows, k)), c)
       else IsClientLine(line) && IsAsSent(line, c)
  }

  lemma ThisRowIsStored(rules: Rules, lines: seq<Payload>, rows: seq<Row>, subtotal: Option<real>, p: nat, stored: map<string, real>)
    requires p < |lines| == |rows| && Tells(stored, Stored(rows, p))
    requires BuildRow(rules, lines[p], p, subtotal, stored) == Ok(rows[p])
    ensures IsStored(rules, lines, rows, subtotal, p)
  {
    var line, rule := lines[p], MatchingRule(rules, lines[p]);
    var c := CanonicalLine(line, rule, subtotal, stored).value;
    SpelledInDecimal(p + 1);
    match rule {
      case None => ClientLineIs(line, subtotal, stored);
      case Some(r) =>
        if subtotal.Some? {
          PriceIs(r, subtotal.value, stored, Stored(rows, p));
          RuleLineIs(line, r, subtotal, stored, RulePrice(r, subtotal.value, Stored(rows, p)));
        } else {
          RuleLineIs(line, r, subtotal, stored, line.base);
        }
    }
    assert StoredFrom(rules, line, rows, subtotal, p, c);
  }

  lemma NextStored(rows: seq<Row>, p: nat, stored: map<string, real>)
    requires p < |rows| && Tells(stored, Stored(rows, p))
    ensures Tells(stored[rows[p].concept := rows[p].amount], Stored(rows, p + 1))
  {
    var stored' := stored[rows[p].concept := rows[p].amount];
    forall c ensures Get(stored', c) == Stored(rows, p + 1)(c) {
      assert Get(stored, c) == Stored(rows, p)(c);
    }
  }

  lemma {:induction false} RowsAreStoredFrom(rules: Rules, lines: seq<Payload>, rows: seq<Row>, subtotal: Option<real>, p: nat,
      stored: map<string, real>)
    requires p <= |lines| == |rows| && Tells(stored, Stored(rows, p))
    requires RowsFrom(rules, lines, p, subtotal, stored) == Ok(rows[p..])
    ensures forall k :: p <= k < |lines| ==> IsStored(rules, lines, rows, subtotal, k)
    decreases |lines| - p
  {
    if p < |lines| {
      var row := BuildRow(rules, lines[p], p, subtotal, stored).value;
      assert rows[p..][0] == row && rows[p..][1..] == rows[p + 1..];
      ThisRowIsStored(rules, lines, rows, subtotal, p, stored);
      NextStored(rows, p, stored);
      RowsAreStoredFrom(rules, lines, rows, subtotal, p + 1, stored[row.concept := row.amount]);
    }
  }

  lemma {:induction false} RowsLength(rules: Rules, lines: seq<Payload>, p: nat, subtotal: Option<real>, stored: map<string, real>)
    requires p <= |lines| && RowsFrom(rules, lines, p, subtotal, stored).Ok?
    ensures |RowsFrom(rules, lines, p, subtotal, stored).value| == |lines| - p
    decreases |lines| - p
  {
    if p < |lines| {
      var row := BuildRow(rules, lines[p], p, subtotal, stored).value;
      RowsLength(rules, lines, p + 1, subtotal, stored[row.concept := row.amount]);
    }
  }

  /** There is one row for each line, stored as its rule yields on what is stored before it, or as it was sent. */
  lemma RowsAreStoredLines(rules: Rules, lines: seq<Payload>, subtotal: Option<real>)
    requires PersistedRows(rules, lines, subtotal).Ok?
    ensures var rows := PersistedRows(rules, lines, subtotal).value;
            |rows| == |lines| && forall k :: 0 <= k < |lines| ==> IsStored(rules, lines, rows, subtotal, k)
  {
    var rows := PersistedRows(rules, lines, subtotal).value;
    RowsLength(rules, lines, 0, subtotal, map[]);
    assert rows[0..] == rows;
    RowsAreStoredFrom(rules, lines, rows, subtotal, 0, map[]);
  }

  /** The part of the rows that counts: they affect the total, are not in the price and are no withholding. */
  lemma {:induction false} PayableIsSum(rows: seq<Row>)
    ensures Payable(rows)
         == Sum((r: Row) => if r.affectsTotal && !r.includedInPrice && r.kind != "withholding" then r.amount else 0.0, rows)
  {
    if rows != [] { PayableIsSum(rows[1..]); }
  }
}
