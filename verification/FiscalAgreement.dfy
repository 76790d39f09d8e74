/**
  When the total a document shows is the one its stored rows add up to, and when it is not.
 */
module FiscalAgreement {
  import opened Common
  import opened Rounding
  import opened Sums
  import opened FiscalTotals

  // ---------------------------------------------------------------- the condition

  /** No manual line carries the id of a stored rule. */
  predicate ManualIdsAreFree(rules: Rules, lines: seq<Payload>) {
    forall k :: 0 <= k < |lines| && IsManual(lines[k]) ==> MatchingRule(rules, lines[k]).None?
  }

  function ConceptOf(rules: Rules, line: Payload): string {
    match MatchingRule(rules, line)
    case Some(r) => r.concept
    case None => line.concept
  }

  /** Is the row of line k stored under the concept? */
  predicate Stores(rules: Rules, lines: seq<Payload>, k: nat, concept: string)
    requires k < |lines|
  {
    RowConcept(ConceptOf(rules, lines[k]), k) == concept
  }

  /** A participating rule of that very concept. */
  predicate Feeds(rules: Rules, line: Payload, concept: string) {
    && concept != "" && MatchingRule(rules, line).Some?
    && MatchingRule(rules, line).value.participates && MatchingRule(rules, line).value.concept == concept
  }

  /** Before line p at most one line stores the concept, and it is a rule that takes part in later bases. */
  predicate FedOnce(rules: Rules, lines: seq<Payload>, p: nat, concept: string)
    requires p <= |lines|
  {
    && concept != GOODS
    && (forall k :: 0 <= k < p && Stores(rules, lines, k, concept) ==> Feeds(rules, lines[k], concept))
    && (forall j, k :: 0 <= j < k < p ==> !(Stores(rules, lines, j, concept) && Stores(rules, lines, k, concept)))
  }

  /** Every concept an accumulating rule looks at is fed once, by an earlier participating rule, or not at all. */
  predicate WellFed(rules: Rules, lines: seq<Payload>, p: nat)
    requires p < |lines|
  {
    var rule := MatchingRule(rules, lines[p]);
    rule.Some? && Accumulates(rule.value) ==>
      forall c :: c in rule.value.included + rule.value.excluded ==> FedOnce(rules, lines, p, c)
  }

  predicate AllWellFed(rules: Rules, lines: seq<Payload>) {
    forall p :: 0 <= p < |lines| ==> WellFed(rules, lines, p)
  }

  /** No line is computed on accumulated concepts. */
  predicate NoneAccumulates(rules: Rules, lines: seq<Payload>) {
    forall p :: 0 <= p < |lines| && MatchingRule(rules, lines[p]).Some? ==> !Accumulates(MatchingRule(rules, lines[p]).value)
  }

  // ---------------------------------------------------------------- the two concept tables

  predicate Untouched(rules: Rules, lines: seq<Payload>, p: nat, concept: string)
    requires p <= |lines|
  {
    concept != GOODS && forall k :: 0 <= k < p ==> !Stores(rules, lines, k, concept)
  }

  /** The tables agree on every concept fed once so far, and hold nothing for concepts not stored yet. */
  ghost predicate TablesAgree(rules: Rules, lines: seq<Payload>, p: nat, total: map<string, real>, stored: map<string, real>)
    requires p <= |lines|
  {
    && (forall c :: FedOnce(rules, lines, p, c) ==> Get(total, c) == Get(stored, c))
    && (forall c :: Untouched(rules, lines, p, c) ==> Get(total, c) == 0.0)
  }

  lemma {:induction false} SumsOverAgree(a: map<string, real>, b: map<string, real>, concepts: seq<string>)
    requires forall c :: c in concepts ==> Get(a, c) == Get(b, c)
    ensures SumOver(a, concepts) == SumOver(b, concepts)
  {
    if concepts != [] { SumsOverAgree(a, b, concepts[1..]); }
  }

  /** Both computations canonise a line alike. */
  lemma SameCanonical(rules: Rules, lines: seq<Payload>, p: nat, subtotal: real, total: map<string, real>,
      stored: map<string, real>)
    requires p < |lines| && TablesAgree(rules, lines, p, total, stored)
    requires ManualIdsAreFree(rules, lines) && WellFed(rules, lines, p)
    ensures TotalRule(rules, lines[p]) == MatchingRule(rules, lines[p])
    ensures CanonicalLine(lines[p], TotalRule(rules, lines[p]), Some(subtotal), total)
         == CanonicalLine(lines[p], MatchingRule(rules, lines[p]), Some(subtotal), stored)
  {
    var rule := MatchingRule(rules, lines[p]);
    if rule.Some? && Accumulates(rule.value) {
      SumsOverAgree(total, stored, rule.value.included);
      SumsOverAgree(total, stored, rule.value.excluded);
    }
  }

  lemma FedOnceBefore(rules: Rules, lines: seq<Payload>, p: nat, concept: string)
    requires p < |lines| && FedOnce(rules, lines, p + 1, concept)
    ensures FedOnce(rules, lines, p, concept)
    ensures Stores(rules, lines, p, concept) ==> Untouched(rules, lines, p, concept) && Feeds(rules, lines[p], concept)
  {
  }

  /** Storing a row keeps the tables in agreement. */
  lemma TablesStayInAgreement(rules: Rules, lines: seq<Payload>, p: nat, total: map<string, real>, stored: map<string, real>,
      c: Canonical)
    requires p < |lines| && TablesAgree(rules, lines, p, total, stored)
    requires c.concept == ConceptOf(rules, lines[p])
    ensures TablesAgree(rules, lines, p + 1, Participate(total, MatchingRule(rules, lines[p]), c),
                        stored[RowConcept(c.concept, p) := c.amount])
  {
    var rule := MatchingRule(rules, lines[p]);
    var total', stored' := Participate(total, rule, c), stored[RowConcept(c.concept, p) := c.amount];
    forall concept | FedOnce(rules, lines, p + 1, concept) ensures Get(total', concept) == Get(stored', concept) {
      FedOnceBefore(rules, lines, p, concept);
    }
    forall concept | Untouched(rules, lines, p + 1, concept) ensures Get(total', concept) == 0.0 {
      assert !Stores(rules, lines, p, concept);
      assert Untouched(rules, lines, p, concept);
    }
  }

  // ---------------------------------------------------------------- agreement

  lemma {:induction false} AgreementFrom(rules: Rules, lines: seq<Payload>, p: nat, subtotal: real, total: map<string, real>,
      stored: map<string, real>)
    requires p <= |lines| && TablesAgree(rules, lines, p, total, stored)
    requires ManualIdsAreFree(rules, lines) && AllWellFed(rules, lines)
    requires RowsFrom(rules, lines, p, Some(subtotal), stored).Ok?
    ensures DeltaFrom(rules, lines, p, subtotal, total).Ok?
    ensures DeltaFrom(rules, lines, p, subtotal, total).value == Payable(RowsFrom(rules, lines, p, Some(subtotal), stored).value)
    decreases |lines| - p
  {
    if p < |lines| {
      SameCanonical(rules, lines, p, subtotal, total, stored);
      var c := CanonicalLine(lines[p], MatchingRule(rules, lines[p]), Some(subtotal), stored).value;
      var rule := MatchingRule(rules, lines[p]);
      TablesStayInAgreement(rules, lines, p, total, stored, c);
      AgreementFrom(rules, lines, p + 1, subtotal, Participate(total, rule, c), stored[RowConcept(c.concept, p) := c.amount]);
    }
  }

  /**
    When the lines can be stored, the total is computed too and exceeds the subtotal by exactly the stored rows that
    affect it, provided no manual line names a rule and accumulated concepts are fed once by earlier rules.
   */
  lemma TotalAgreesWithRows(rules: Rules, lines: seq<Payload>, subtotal: real)
    requires ManualIdsAreFree(rules, lines) && AllWellFed(rules, lines)
    requires PersistedRows(rules, lines, Some(subtotal)).Ok?
    ensures DocumentTotal(rules, lines, subtotal) == Ok(subtotal + Payable(PersistedRows(rules, lines, Some(subtotal)).value))
  {
    AgreementFrom(rules, lines, 0, subtotal, map[GOODS := subtotal], map[]);
  }

  /** The plain case: no rule is computed on accumulated concepts. */
  lemma TotalAgreesWithoutAccumulation(rules: Rules, lines: seq<Payload>, subtotal: real)
    requires ManualIdsAreFree(rules, lines) && NoneAccumulates(rules, lines)
    requires PersistedRows(rules, lines, Some(subtotal)).Ok?
    ensures DocumentTotal(rules, lines, subtotal) == Ok(subtotal + Payable(PersistedRows(rules, lines, Some(subtotal)).value))
  {
    forall p | 0 <= p < |lines| ensures WellFed(rules, lines, p) {
    }
    TotalAgreesWithRows(rules, lines, subtotal);
  }

  // ---------------------------------------------------------------- disagreement

  function GoodsRule(): Rule {
    Rule("IVA", "iva", "tax", PercentageMethod, 15.0, 0.0, true, true, [GOODS], [], false, true, false, true)
  }

  function RuleLine(id: string): Payload {
    Payload(Some(id), false, "", "tax", 0.0, 0.0, 0.0, true, false, true)
  }

  lemma SumOverOne(amounts: map<string, real>, concept: string)
    ensures SumOver(amounts, [concept]) == Get(amounts, concept)
  {
    assert SumOver(amounts, [concept][1..]) == 0.0;
  }

  lemma OneRow(rules: Rules, line: Payload, subtotal: Option<real>, none: map<string, real>, row: Row)
    requires none == map[] && BuildRow(rules, line, 0, subtotal, none) == Ok(row)
    ensures PersistedRows(rules, [line], subtotal) == Ok([row])
    ensures Payable([row]) == if Counts(row.affectsTotal, row.includedInPrice, row.kind) then row.amount else 0.0
  {
    var lines := [line];
    assert RowsFrom(rules, lines, 1, subtotal, none[row.concept := row.amount]) == Ok([]);
    assert RowsFrom(rules, lines, 0, subtotal, none) == Ok([row] + []);
    assert [row] + [] == [row] && [row][1..] == [];
  }

  lemma OneLineTotal(rules: Rules, line: Payload, subtotal: real, goods: map<string, real>, c: Canonical)
    requires goods == map[GOODS := subtotal] && CanonicalLine(line, TotalRule(rules, line), Some(subtotal), goods) == Ok(c)
    ensures DocumentTotal(rules, [line], subtotal)
         == Ok(subtotal + if Counts(c.affectsTotal, c.includedInPrice, c.kind) then c.amount else 0.0)
  {
    var lines := [line];
    assert DeltaFrom(rules, lines, 1, subtotal, Participate(goods, TotalRule(rules, line), c)) == Ok(0.0);
  }

  lemma FifteenPercent()
    ensures RuleAmount(GoodsRule(), 100.0) == 15.0 && RuleAmount(GoodsRule(), 0.0) == 0.0
  {
    assert Percent(100.0, 15.0) == 15.0 && Percent(0.0, 15.0) == 0.0;
    assert RoundHalfUp(1500.0) == 1500 && RoundHalfUp(0.0) == 0;
    assert Cents(15.0) == 15.0 && Cents(0.0) == 0.0;
  }

  /**
    A rule accumulated on the goods is charged in the total but stored as zero: only the total's table knows what the
    goods are worth.
   */
  lemma AccumulatedGoodsDisagree()
    ensures var rules: Rules := map["IVA" := GoodsRule()];
            var lines := [RuleLine("IVA")];
            && ManualIdsAreFree(rules, lines)
            && DocumentTotal(rules, lines, 100.0) == Ok(115.0)
            && PersistedRows(rules, lines, Some(100.0)).Ok?
            && Payable(PersistedRows(rules, lines, Some(100.0)).value) == 0.0
  {
    var rules: Rules := map["IVA" := GoodsRule()];
    var lines := [RuleLine("IVA")];
    var charged, none: map<string, real> := map[GOODS := 100.0], map[];
    SumOverOne(charged, GOODS);
    SumOverOne(none, GOODS);
    FifteenPercent();
    var c := CanonicalLine(lines[0], TotalRule(rules, lines[0]), Some(100.0), charged);
    OneLineTotal(rules, lines[0], 100.0, charged, c.value);
    var row := BuildRow(rules, lines[0], 0, Some(100.0), none);
    OneRow(rules, lines[0], Some(100.0), none, row.value);
  }

  /** A manual line that names a stored rule is charged as sent and stored as the rule says. */
  lemma ManualLineWithRuleIdDisagrees()
    ensures var rules: Rules := map["F" := Rule("F", "fee", "tax", FixedMethod, 0.0, 7.0, false, false, [], [], false, true, false, true)];
            var lines := [Payload(Some("F"), true, "fee", "tax", 0.0, 0.0, 3.0, true, false, true)];
            && NoneAccumulates(rules, lines)
            && DocumentTotal(rules, lines, 100.0) == Ok(103.0)
            && PersistedRows(rules, lines, Some(100.0)).Ok?
            && Payable(PersistedRows(rules, lines, Some(100.0)).value) == 7.0
  {
    var rules: Rules := map["F" := Rule("F", "fee", "tax", FixedMethod, 0.0, 7.0, false, false, [], [], false, true, false, true)];
    var lines := [Payload(Some("F"), true, "fee", "tax", 0.0, 0.0, 3.0, true, false, true)];
    var charged, none: map<string, real> := map[GOODS := 100.0], map[];
    var c := CanonicalLine(lines[0], TotalRule(rules, lines[0]), Some(100.0), charged);
    OneLineTotal(rules, lines[0], 100.0, charged, c.value);
    var row := BuildRow(rules, lines[0], 0, Some(100.0), none);
    OneRow(rules, lines[0], Some(100.0), none, row.value);
  }

  // ---------------------------------------------------------------- order of the lines

  /** What a line adds to the total when nothing accumulates. */
  function Share(rules: Rules, subtotal: real): Payload -> real {
    (line: Payload) =>
      match CanonicalLine(line, TotalRule(rules, line), Some(subtotal), map[])
      case Ok(c) => if Counts(c.affectsTotal, c.includedInPrice, c.kind) then c.amount else 0.0
      case Err(_) => 0.0
  }

  predicate Valid(rules: Rules, line: Payload, subtotal: real) {
    CanonicalLine(line, TotalRule(rules, line), Some(subtotal), map[]).Ok?
  }

  lemma {:induction false} DeltaIsSum(rules: Rules, lines: seq<Payload>, p: nat, subtotal: real, amounts: map<string, real>)
    requires p <= |lines| && NoneAccumulates(rules, lines)
    ensures DeltaFrom(rules, lines, p, subtotal, amounts).Ok? <==> forall k :: p <= k < |lines| ==> Valid(rules, lines[k], subtotal)
    ensures DeltaFrom(rules, lines, p, subtotal, amounts).Ok? ==>
      DeltaFrom(rules, lines, p, subtotal, amounts).value == Sum(Share(rules, subtotal), lines[p..])
    decreases |lines| - p
  {
    if p < |lines| {
      var rule := TotalRule(rules, lines[p]);
      assert CanonicalLine(lines[p], rule, Some(subtotal), amounts) == CanonicalLine(lines[p], rule, Some(subtotal), map[]);
      assert lines[p..][1..] == lines[p + 1..];
      if Valid(rules, lines[p], subtotal) {
        var c := CanonicalLine(lines[p], rule, Some(subtotal), amounts).value;
        DeltaIsSum(rules, lines, p + 1, subtotal, Participate(amounts, rule, c));
      }
    }
  }

  /** Without accumulation the total is the same for every order of the lines. */
  lemma TotalIgnoresOrder(rules: Rules, a: seq<Payload>, b: seq<Payload>, subtotal: real)
    requires multiset(a) == multiset(b) && NoneAccumulates(rules, a)
    requires DocumentTotal(rules, a, subtotal).Ok?
    ensures DocumentTotal(rules, b, subtotal) == DocumentTotal(rules, a, subtotal)
  {
    var goods := map[GOODS := subtotal];
    DeltaIsSum(rules, a, 0, subtotal, goods);
    forall k | 0 <= k < |b| ensures b[k] in a {
      assert b[k] in b && b[k] in multiset(b);
    }
    assert NoneAccumulates(rules, b);
    forall k | 0 <= k < |b| ensures Valid(rules, b[k], subtotal) {
      var j :| 0 <= j < |a| && a[j] == b[k];
    }
    DeltaIsSum(rules, b, 0, subtotal, goods);
    assert a[0..] == a && b[0..] == b;
    SumOfPermutation(Share(rules, subtotal), a, b);
  }

  /** No line lowers the total. */
  lemma {:induction false} LinesNeverLowerTotal(rules: Rules, lines: seq<Payload>, p: nat, subtotal: real, amounts: map<string, real>)
    requires p <= |lines| && DeltaFrom(rules, lines, p, subtotal, amounts).Ok?
    ensures DeltaFrom(rules, lines, p, subtotal, amounts).value >= 0.0
    decreases |lines| - p
  {
    if p < |lines| {
      var rule := TotalRule(rules, lines[p]);
      var c := CanonicalLine(lines[p], rule, Some(subtotal), amounts).value;
      LinesNeverLowerTotal(rules, lines, p + 1, subtotal, Participate(amounts, rule, c));
    }
  }
}
