/**
  By how much the total of a document and its stored rows differ, line by line, and when they agree.
 */
module FiscalDifference {
  import opened Common
  import opened Rounding
  import opened FiscalTotals
  import opened FiscalAgreement

  /** A document both computations accept: what the total charges for each line, and the row stored for it. */
  datatype Document = Document(rules: Rules, lines: seq<Payload>, subtotal: real, charged: seq<Canonical>, rows: seq<Row>)

  /** What the total charges for the lines from p on. */
  function ChargedFrom(rules: Rules, lines: seq<Payload>, p: nat, subtotal: real, amounts: map<string, real>): seq<Canonical>
    requires p <= |lines| && DeltaFrom(rules, lines, p, subtotal, amounts).Ok?
    decreases |lines| - p
  {
    if p == |lines| then []
    else
      var rule := TotalRule(rules, lines[p]);
      var c := CanonicalLine(lines[p], rule, Some(subtotal), amounts).value;
      [c] + ChargedFrom(rules, lines, p + 1, subtotal, Participate(amounts, rule, c))
  }

  ghost predicate Computed(d: Document) {
    && DocumentTotal(d.rules, d.lines, d.subtotal).Ok?
    && d.charged == ChargedFrom(d.rules, d.lines, 0, d.subtotal, map[GOODS := d.subtotal])
    && PersistedRows(d.rules, d.lines, Some(d.subtotal)) == Ok(d.rows)
  }

  function Total(d: Document): real
    requires Computed(d)
  {
    DocumentTotal(d.rules, d.lines, d.subtotal).value
  }

  /** The total is the subtotal and the stored rows that are part of it. */
  ghost predicate Agrees(d: Document)
    requires Computed(d)
  {
    Total(d) == d.subtotal + Payable(d.rows)
  }

  predicate Paired(d: Document) {
    |d.charged| == |d.lines| && |d.rows| == |d.lines|
  }

  function GoodsPart(subtotal: real, concept: string): real {
    if concept == GOODS then subtotal else 0.0
  }

  // ---------------------------------------------------------------- the difference, for every document

  /** What the total's table holds for a concept before line p: the goods, and every participating amount charged. */
  function ChargedWorth(d: Document, p: nat, concept: string): real
    requires Paired(d) && p <= |d.lines|
  {
    if p == 0 then GoodsPart(d.subtotal, concept)
    else
      var rule := TotalRule(d.rules, d.lines[p - 1]);
      ChargedWorth(d, p - 1, concept)
      + if rule.Some? && rule.value.participates && concept != "" && d.charged[p - 1].concept == concept
        then d.charged[p - 1].amount else 0.0
  }

  /** What the rows' table holds for it: the last amount stored under it. */
  function StoredWorth(rows: seq<Row>, p: nat, concept: string): real
    requires p <= |rows|
  {
    if p == 0 then 0.0 else if rows[p - 1].concept == concept then rows[p - 1].amount else StoredWorth(rows, p - 1, concept)
  }

  /** By how much the two tables differ on the concepts before line p. */
  function WorthGap(d: Document, p: nat, concepts: seq<string>): real
    requires Paired(d) && p <= |d.lines|
  {
    if concepts == [] then 0.0
    else ChargedWorth(d, p, concepts[0]) - StoredWorth(d.rows, p, concepts[0]) + WorthGap(d, p, concepts[1..])
  }

  /** By how much the two bases of line k differ. */
  function BaseGap(d: Document, k: nat, rule: Rule): real
    requires Paired(d) && k < |d.lines|
  {
    if Accumulates(rule) then WorthGap(d, k, rule.included) - WorthGap(d, k, rule.excluded) else 0.0
  }

  function Charge(c: Canonical): real {
    if Counts(c.affectsTotal, c.includedInPrice, c.kind) then c.amount else 0.0
  }

  function ClientCharge(line: Payload): real {
    if Counts(line.affectsTotal, line.includedInPrice, line.kind) then line.amount else 0.0
  }

  function RowCharge(row: Row): real {
    if Counts(row.affectsTotal, row.includedInPrice, row.kind) then row.amount else 0.0
  }

  /** What the rule adds to the total beyond the row, when it is computed on a base larger by the given amount. */
  function RuleGap(rule: Rule, row: Row, base: real): real {
    if Counts(rule.affectsTotal, rule.includedInPrice, rule.kind)
    then RuleAmount(rule, row.base + base) - RuleAmount(rule, row.base) else 0.0
  }

  /** By how much line k is charged more than it is stored. */
  function Gap(d: Document, k: nat): real
    requires Paired(d) && k < |d.lines|
  {
    match MatchingRule(d.rules, d.lines[k])
    case None => 0.0
    case Some(rule) =>
      if IsManual(d.lines[k]) then ClientCharge(d.lines[k]) - RowCharge(d.rows[k])
      else RuleGap(rule, d.rows[k], BaseGap(d, k, rule))
  }

  function Gaps(d: Document, p: nat): real
    requires Paired(d) && p <= |d.lines|
    decreases |d.lines| - p
  {
    if p == |d.lines| then 0.0 else Gap(d, p) + Gaps(d, p + 1)
  }

  /** Line k is charged and stored as the two tables before it say. */
  ghost predicate Explained(d: Document, k: nat)
    requires Paired(d) && k < |d.lines|
  {
    var line, c, row := d.lines[k], d.charged[k], d.rows[k];
    && row.concept == RowConcept(ConceptOf(d.rules, line), k)
    && (MatchingRule(d.rules, line).None? ==> c.amount == row.amount)
    && (MatchingRule(d.rules, line).Some? ==>
          var rule := MatchingRule(d.rules, line).value;
          && row.amount == RuleAmount(rule, row.base) && row.base >= 0.0
          && RowCharge(row) == (if Counts(rule.affectsTotal, rule.includedInPrice, rule.kind) then row.amount else 0.0)
          && (!IsManual(line) ==> c.concept == rule.concept && c.amount == RuleAmount(rule, row.base + BaseGap(d, k, rule))))
    && Charge(c) - RowCharge(row) == Gap(d, k)
  }

  /** The tables before line p are the ones the lines before it leave. */
  ghost predicate TablesBefore(d: Document, p: nat, total: map<string, real>, stored: map<string, real>)
    requires Paired(d) && p <= |d.lines|
  {
    forall c :: Get(total, c) == ChargedWorth(d, p, c) && Get(stored, c) == StoredWorth(d.rows, p, c)
  }

  lemma {:induction false} SumsDiffer(d: Document, p: nat, total: map<string, real>, stored: map<string, real>, concepts: seq<string>)
    requires Paired(d) && p <= |d.lines| && TablesBefore(d, p, total, stored)
    ensures SumOver(total, concepts) - SumOver(stored, concepts) == WorthGap(d, p, concepts)
  {
    if concepts != [] { SumsDiffer(d, p, total, stored, concepts[1..]); }
  }

  lemma LineIsExplained(d: Document, p: nat, total: map<string, real>, stored: map<string, real>)
    requires Paired(d) && p < |d.lines| && TablesBefore(d, p, total, stored)
    requires CanonicalLine(d.lines[p], TotalRule(d.rules, d.lines[p]), Some(d.subtotal), total) == Ok(d.charged[p])
    requires BuildRow(d.rules, d.lines[p], p, Some(d.subtotal), stored) == Ok(d.rows[p])
    ensures Explained(d, p)
  {
    var rule := MatchingRule(d.rules, d.lines[p]);
    if rule.Some? {
      SumsDiffer(d, p, total, stored, rule.value.included);
      SumsDiffer(d, p, total, stored, rule.value.excluded);
    }
  }

  /** Both computations from line p on. */
  ghost predicate ComputedFrom(d: Document, p: nat, total: map<string, real>, stored: map<string, real>)
    requires Paired(d) && p <= |d.lines|
  {
    && DeltaFrom(d.rules, d.lines, p, d.subtotal, total).Ok?
    && d.charged[p..] == ChargedFrom(d.rules, d.lines, p, d.subtotal, total)
    && RowsFrom(d.rules, d.lines, p, Some(d.subtotal), stored) == Ok(d.rows[p..])
  }

  lemma NextTables(d: Document, p: nat, total: map<string, real>, stored: map<string, real>)
    requires Paired(d) && p < |d.lines| && TablesBefore(d, p, total, stored)
    ensures TablesBefore(d, p + 1, Participate(total, TotalRule(d.rules, d.lines[p]), d.charged[p]),
                         stored[d.rows[p].concept := d.rows[p].amount])
  {
    var total', stored' := Participate(total, TotalRule(d.rules, d.lines[p]), d.charged[p]), stored[d.rows[p].concept := d.rows[p].amount];
    forall c ensures Get(total', c) == ChargedWorth(d, p + 1, c) && Get(stored', c) == StoredWorth(d.rows, p + 1, c) {
      assert Get(total, c) == ChargedWorth(d, p, c);
    }
  }

  /** One turn of both loops. */
  lemma NextLine(d: Document, p: nat, total: map<string, real>, stored: map<string, real>)
      returns (total': map<string, real>, stored': map<string, real>)
    requires Paired(d) && p < |d.lines| && TablesBefore(d, p, total, stored) && ComputedFrom(d, p, total, stored)
    ensures CanonicalLine(d.lines[p], TotalRule(d.rules, d.lines[p]), Some(d.subtotal), total) == Ok(d.charged[p])
    ensures BuildRow(d.rules, d.lines[p], p, Some(d.subtotal), stored) == Ok(d.rows[p])
    ensures total' == Participate(total, TotalRule(d.rules, d.lines[p]), d.charged[p])
    ensures TablesBefore(d, p + 1, total', stored') && ComputedFrom(d, p + 1, total', stored')
  {
    var c, row := d.charged[p], d.rows[p];
    total' := Participate(total, TotalRule(d.rules, d.lines[p]), c);
    stored' := stored[row.concept := row.amount];
    NextTables(d, p, total, stored);
    assert d.charged[p..][1..] == d.charged[p + 1..] && d.rows[p..][1..] == d.rows[p + 1..];
    assert d.charged[p..][0] == c && d.rows[p..][0] == row;
  }

  lemma {:induction false} DifferenceFrom(d: Document, p: nat, total: map<string, real>, stored: map<string, real>)
    requires Paired(d) && p <= |d.lines| && TablesBefore(d, p, total, stored) && ComputedFrom(d, p, total, stored)
    ensures forall k :: p <= k < |d.lines| ==> Explained(d, k)
    ensures DeltaFrom(d.rules, d.lines, p, d.subtotal, total).value == Payable(d.rows[p..]) + Gaps(d, p)
    decreases |d.lines| - p
  {
    if p < |d.lines| {
      var total', stored' := NextLine(d, p, total, stored);
      LineIsExplained(d, p, total, stored);
      DifferenceFrom(d, p + 1, total', stored');
      assert d.rows[p..][1..] == d.rows[p + 1..];
    }
  }

  lemma {:induction false} EqualLengths(d: Document, p: nat, total: map<string, real>, stored: map<string, real>)
    requires p <= |d.lines| && DeltaFrom(d.rules, d.lines, p, d.subtotal, total).Ok?
    requires RowsFrom(d.rules, d.lines, p, Some(d.subtotal), stored).Ok?
    ensures |ChargedFrom(d.rules, d.lines, p, d.subtotal, total)| == |d.lines| - p
    ensures |RowsFrom(d.rules, d.lines, p, Some(d.subtotal), stored).value| == |d.lines| - p
    decreases |d.lines| - p
  {
    if p < |d.lines| {
      var rule := TotalRule(d.rules, d.lines[p]);
      var c := CanonicalLine(d.lines[p], rule, Some(d.subtotal), total).value;
      var row := BuildRow(d.rules, d.lines[p], p, Some(d.subtotal), stored).value;
      EqualLengths(d, p + 1, Participate(total, rule, c), stored[row.concept := row.amount]);
    }
  }

  /**
    For every document: the total exceeds subtotal and counted rows by the sum of the gaps of its lines, so the two agree
    exactly when these cancel out.
   */
  lemma ExactDifference(d: Document)
    requires Computed(d)
    ensures Paired(d) && Total(d) == d.subtotal + Payable(d.rows) + Gaps(d, 0)
    ensures Agrees(d) <==> Gaps(d, 0) == 0.0
    ensures forall k :: 0 <= k < |d.lines| ==> Explained(d, k)
  {
    var goods, none: map<string, real> := map[GOODS := d.subtotal], map[];
    EqualLengths(d, 0, goods, none);
    assert d.charged[0..] == d.charged && d.rows[0..] == d.rows;
    DifferenceFrom(d, 0, goods, none);
  }

  // ---------------------------------------------------------------- documents whose lines keep apart

  function Occurrences(concepts: seq<string>, concept: string): int {
    if concepts == [] then 0 else (if concepts[0] == concept then 1 else 0) + Occurrences(concepts[1..], concept)
  }

  /** How often the goods enter the base of a rule. */
  function GoodsWeight(rule: Rule): int {
    if Accumulates(rule) then Occurrences(rule.included, GOODS) - Occurrences(rule.excluded, GOODS) else 0
  }

  /** A line the two computations may treat differently: manual with a rule's id, or accumulated on the goods. */
  predicate Split(rules: Rules, line: Payload) {
    match MatchingRule(rules, line)
    case None => false
    case Some(rule) => IsManual(line) || (Accumulates(rule) && GOODS in rule.included + rule.excluded)
  }

  /** Before line p at most one line stores the concept, and it is a participating rule that is not split. */
  predicate FedApart(rules: Rules, lines: seq<Payload>, p: nat, concept: string)
    requires p <= |lines|
  {
    && (forall k :: 0 <= k < p && Stores(rules, lines, k, concept) ==> Feeds(rules, lines[k], concept) && !Split(rules, lines[k]))
    && (forall j, k :: 0 <= j < k < p ==> !(Stores(rules, lines, j, concept) && Stores(rules, lines, k, concept)))
  }

  /** What the rule of line p accumulates is fed once, by earlier lines that are not split, or is the goods. */
  predicate Apart(rules: Rules, lines: seq<Payload>, p: nat)
    requires p < |lines|
  {
    var rule := MatchingRule(rules, lines[p]);
    !IsManual(lines[p]) && rule.Some? && Accumulates(rule.value) ==>
      forall c :: c in rule.value.included + rule.value.excluded ==> FedApart(rules, lines, p, c)
  }

  predicate AllApart(rules: Rules, lines: seq<Payload>) {
    forall p :: 0 <= p < |lines| ==> Apart(rules, lines, p)
  }

  ghost predicate AlikeBefore(d: Document, p: nat)
    requires Paired(d) && p <= |d.lines|
  {
    forall k :: 0 <= k < p && !Split(d.rules, d.lines[k]) ==> d.charged[k].amount == d.rows[k].amount
  }

  /** The tables differ on a concept that is fed apart only by the goods. */
  lemma {:induction false} WorthsDiffer(d: Document, p: nat, concept: string)
    requires Paired(d) && p <= |d.lines| && AlikeBefore(d, p)
    requires forall k :: 0 <= k < p ==> Explained(d, k)
    requires FedApart(d.rules, d.lines, p, concept)
    ensures ChargedWorth(d, p, concept) - StoredWorth(d.rows, p, concept) == GoodsPart(d.subtotal, concept)
    ensures (forall k :: 0 <= k < p ==> !Stores(d.rules, d.lines, k, concept)) ==> StoredWorth(d.rows, p, concept) == 0.0
  {
    if p > 0 {
      assert Explained(d, p - 1);
      WorthsDiffer(d, p - 1, concept);
      if Stores(d.rules, d.lines, p - 1, concept) {
        assert forall k :: 0 <= k < p - 1 ==> !Stores(d.rules, d.lines, k, concept);
        assert Feeds(d.rules, d.lines[p - 1], concept) && !Split(d.rules, d.lines[p - 1]);
        assert d.charged[p - 1].amount == d.rows[p - 1].amount;
      }
    }
  }

  /** What the goods are worth in a base that counts them n times. */
  function GoodsWorth(n: int, subtotal: real): real {
    n as real * subtotal
  }

  lemma GoodsWorthAdds(m: int, n: int, subtotal: real)
    ensures GoodsWorth(m + n, subtotal) == GoodsWorth(m, subtotal) + GoodsWorth(n, subtotal)
    ensures GoodsWorth(m - n, subtotal) == GoodsWorth(m, subtotal) - GoodsWorth(n, subtotal)
    ensures GoodsWorth(0, subtotal) == 0.0 && GoodsWorth(1, subtotal) == subtotal
  {
  }

  lemma {:induction false} GapIsGoods(d: Document, p: nat, concepts: seq<string>)
    requires Paired(d) && p <= |d.lines| && AlikeBefore(d, p)
    requires forall k :: 0 <= k < p ==> Explained(d, k)
    requires forall c :: c in concepts ==> FedApart(d.rules, d.lines, p, c)
    ensures WorthGap(d, p, concepts) == GoodsWorth(Occurrences(concepts, GOODS), d.subtotal)
  {
    GoodsWorthAdds(0, 0, d.subtotal);
    if concepts != [] {
      WorthsDiffer(d, p, concepts[0]);
      GoodsWorthAdds(if concepts[0] == GOODS then 1 else 0, Occurrences(concepts[1..], GOODS), d.subtotal);
      GapIsGoods(d, p, concepts[1..]);
    }
  }

  lemma {:induction false} NoOccurrence(concepts: seq<string>, concept: string)
    requires concept !in concepts
    ensures Occurrences(concepts, concept) == 0
  {
    if concepts != [] { NoOccurrence(concepts[1..], concept); }
  }

  /** The bases of a rule's line differ by the goods in them. */
  lemma BasesDiffer(d: Document, k: nat, rule: Rule)
    requires Paired(d) && k < |d.lines| && AlikeBefore(d, k) && Apart(d.rules, d.lines, k)
    requires forall j :: 0 <= j < k ==> Explained(d, j)
    requires !IsManual(d.lines[k]) && MatchingRule(d.rules, d.lines[k]) == Some(rule)
    ensures BaseGap(d, k, rule) == GoodsWorth(GoodsWeight(rule), d.subtotal)
    ensures !Split(d.rules, d.lines[k]) ==> GoodsWeight(rule) == 0
  {
    GoodsWorthAdds(Occurrences(rule.included, GOODS), Occurrences(rule.excluded, GOODS), d.subtotal);
    if Accumulates(rule) {
      GapIsGoods(d, k, rule.included);
      GapIsGoods(d, k, rule.excluded);
      if !Split(d.rules, d.lines[k]) {
        NoOccurrence(rule.included, GOODS);
        NoOccurrence(rule.excluded, GOODS);
      }
    }
  }

  lemma UnsplitLineIsAlike(d: Document, k: nat)
    requires Paired(d) && k < |d.lines| && AlikeBefore(d, k) && Apart(d.rules, d.lines, k)
    requires forall j :: 0 <= j <= k ==> Explained(d, j)
    requires !Split(d.rules, d.lines[k])
    ensures d.charged[k].amount == d.rows[k].amount
  {
    assert Explained(d, k);
    var rule := MatchingRule(d.rules, d.lines[k]);
    if rule.Some? {
      BasesDiffer(d, k, rule.value);
      GoodsWorthAdds(0, 0, d.subtotal);
    }
  }

  lemma {:induction false} UnsplitLinesAreAlike(d: Document, p: nat)
    requires Paired(d) && p <= |d.lines| && AllApart(d.rules, d.lines)
    requires forall k :: 0 <= k < |d.lines| ==> Explained(d, k)
    ensures AlikeBefore(d, p)
  {
    if p > 0 {
      UnsplitLinesAreAlike(d, p - 1);
      assert Apart(d.rules, d.lines, p - 1);
      if !Split(d.rules, d.lines[p - 1]) { UnsplitLineIsAlike(d, p - 1); }
    }
  }

  /** By how much a line is charged more than it is stored, told from its row alone. */
  function SplitGap(d: Document, k: nat): real
    requires Paired(d) && k < |d.lines|
  {
    match MatchingRule(d.rules, d.lines[k])
    case None => 0.0
    case Some(rule) =>
      if IsManual(d.lines[k]) then ClientCharge(d.lines[k]) - RowCharge(d.rows[k])
      else RuleGap(rule, d.rows[k], GoodsWorth(GoodsWeight(rule), d.subtotal))
  }

  function SplitGaps(d: Document, p: nat): real
    requires Paired(d) && p <= |d.lines|
    decreases |d.lines| - p
  {
    if p == |d.lines| then 0.0 else SplitGap(d, p) + SplitGaps(d, p + 1)
  }

  lemma {:induction false} SplitGapsAreGaps(d: Document, p: nat)
    requires Paired(d) && p <= |d.lines| && AllApart(d.rules, d.lines)
    requires forall k :: 0 <= k < |d.lines| ==> Explained(d, k)
    ensures SplitGaps(d, p) == Gaps(d, p)
    decreases |d.lines| - p
  {
    if p < |d.lines| {
      UnsplitLinesAreAlike(d, p);
      var rule := MatchingRule(d.rules, d.lines[p]);
      if rule.Some? && !IsManual(d.lines[p]) {
        assert Apart(d.rules, d.lines, p);
        BasesDiffer(d, p, rule.value);
      }
      SplitGapsAreGaps(d, p + 1);
    }
  }

  /**
    When split lines feed no later base: the total exceeds subtotal and counted rows by the client's amounts of manual
    lines less their rows, and by what counted rules yield with the goods in their base less what they yield without.
   */
  lemma ApartDifference(d: Document)
    requires Computed(d) && AllApart(d.rules, d.lines)
    ensures Paired(d) && Total(d) == d.subtotal + Payable(d.rows) + SplitGaps(d, 0)
    ensures Agrees(d) <==> SplitGaps(d, 0) == 0.0
  {
    ExactDifference(d);
    SplitGapsAreGaps(d, 0);
  }

  // ---------------------------------------------------------------- goods among accumulated concepts

  /** What line k is charged does not depend on whether the goods are in its base. */
  ghost predicate SameWithGoods(d: Document, k: nat)
    requires Paired(d) && k < |d.lines|
  {
    var rule := MatchingRule(d.rules, d.lines[k]);
    rule.Some? && Counts(rule.value.affectsTotal, rule.value.includedInPrice, rule.value.kind) ==>
      RuleAmount(rule.value, d.rows[k].base + GoodsWorth(GoodsWeight(rule.value), d.subtotal))
      == RuleAmount(rule.value, d.rows[k].base)
  }

  /** Rates are not negative, and the goods are never excluded from a base. */
  predicate GoodsOnlyAdd(rules: Rules, lines: seq<Payload>) {
    forall k :: 0 <= k < |lines| && MatchingRule(rules, lines[k]).Some? ==>
      var rule := MatchingRule(rules, lines[k]).value;
      rule.rate >= 0.0 && GOODS !in rule.excluded
  }

  lemma {:induction false} OccurrencesAreCounted(concepts: seq<string>, concept: string)
    ensures Occurrences(concepts, concept) >= 0
  {
    if concepts != [] { OccurrencesAreCounted(concepts[1..], concept); }
  }

  lemma LargerBaseNoLessTax(rule: Rule, base: real, more: real)
    requires rule.rate >= 0.0 && more >= 0.0
    ensures RuleAmount(rule, base) <= RuleAmount(rule, base + more)
  {
    PercentGrows(base, more, rule.rate);
    CentsGrow(Percent(base, rule.rate), Percent(base + more, rule.rate));
  }

  lemma PercentGrows(base: real, more: real, rate: real)
    requires rate >= 0.0 && more >= 0.0
    ensures Percent(base, rate) <= Percent(base + more, rate)
  {
    assert (base + more) * rate == base * rate + more * rate;
    assert more * rate >= 0.0;
  }

  lemma CentsGrow(x: real, y: real)
    requires x <= y
    ensures Cents(x) <= Cents(y)
  {
    var m, n := RoundHalfUp(x * 100.0), RoundHalfUp(y * 100.0);
    RoundHalfUpGrows(x * 100.0, y * 100.0);
    assert m as real / 100.0 <= n as real / 100.0;
  }

  lemma GoodsGap(d: Document, k: nat)
    requires Paired(d) && k < |d.lines| && d.subtotal >= 0.0
    requires ManualIdsAreFree(d.rules, d.lines) && GoodsOnlyAdd(d.rules, d.lines)
    ensures SplitGap(d, k) >= 0.0
    ensures SplitGap(d, k) == 0.0 <==> SameWithGoods(d, k)
  {
    var rule := MatchingRule(d.rules, d.lines[k]);
    if rule.Some? {
      OccurrencesAreCounted(rule.value.included, GOODS);
      NoOccurrence(rule.value.excluded, GOODS);
      var worth := GoodsWorth(GoodsWeight(rule.value), d.subtotal);
      assert worth >= 0.0;
      LargerBaseNoLessTax(rule.value, d.rows[k].base, worth);
    }
  }

  lemma {:induction false} GoodsGaps(d: Document, p: nat)
    requires Paired(d) && p <= |d.lines| && d.subtotal >= 0.0
    requires ManualIdsAreFree(d.rules, d.lines) && GoodsOnlyAdd(d.rules, d.lines)
    ensures SplitGaps(d, p) >= 0.0
    ensures SplitGaps(d, p) == 0.0 <==> forall k :: p <= k < |d.lines| ==> SameWithGoods(d, k)
    decreases |d.lines| - p
  {
    if p < |d.lines| {
      GoodsGap(d, p);
      GoodsGaps(d, p + 1);
    }
  }

  /**
    When rules on the goods feed no later base, the total is never below what is stored, and the two agree exactly when
    every counted rule yields the same with and without the goods in its base.
   */
  lemma GoodsAgreeIff(d: Document)
    requires Computed(d) && AllApart(d.rules, d.lines) && d.subtotal >= 0.0
    requires ManualIdsAreFree(d.rules, d.lines) && GoodsOnlyAdd(d.rules, d.lines)
    ensures Paired(d) && Total(d) >= d.subtotal + Payable(d.rows)
    ensures Agrees(d) <==> forall k :: 0 <= k < |d.lines| ==> SameWithGoods(d, k)
  {
    ApartDifference(d);
    GoodsGaps(d, 0);
  }

  // ---------------------------------------------------------------- manual lines that name a rule

  predicate NamesRule(rules: Rules, line: Payload) {
    IsManual(line) && MatchingRule(rules, line).Some?
  }

  /** What clients sent in the counted manual lines that name a rule. */
  function ClientCharges(d: Document, p: nat): real
    requires Paired(d) && p <= |d.lines|
    decreases |d.lines| - p
  {
    if p == |d.lines| then 0.0
    else (if NamesRule(d.rules, d.lines[p]) then ClientCharge(d.lines[p]) else 0.0) + ClientCharges(d, p + 1)
  }

  /** What their rules made of the same lines, where the rules count. */
  function NamedRuleCharges(d: Document, p: nat): real
    requires Paired(d) && p <= |d.lines|
    decreases |d.lines| - p
  {
    if p == |d.lines| then 0.0
    else (if NamesRule(d.rules, d.lines[p]) then RowCharge(d.rows[p]) else 0.0) + NamedRuleCharges(d, p + 1)
  }

  predicate OnlyManualLinesSplit(rules: Rules, lines: seq<Payload>) {
    forall k :: 0 <= k < |lines| && Split(rules, lines[k]) ==> IsManual(lines[k])
  }

  lemma {:induction false} ManualGaps(d: Document, p: nat)
    requires Paired(d) && p <= |d.lines| && OnlyManualLinesSplit(d.rules, d.lines)
    ensures SplitGaps(d, p) == ClientCharges(d, p) - NamedRuleCharges(d, p)
    decreases |d.lines| - p
  {
    if p < |d.lines| {
      ManualGaps(d, p + 1);
      var rule := MatchingRule(d.rules, d.lines[p]);
      if rule.Some? && !IsManual(d.lines[p]) && Accumulates(rule.value) {
        NoOccurrence(rule.value.included, GOODS);
        NoOccurrence(rule.value.excluded, GOODS);
      }
      GoodsWorthAdds(0, 0, d.subtotal);
    }
  }

  /** They agree exactly when the counted amounts of clients and rules are the same, and differ by their difference. */
  lemma ManualAgreeIff(d: Document)
    requires Computed(d) && AllApart(d.rules, d.lines) && OnlyManualLinesSplit(d.rules, d.lines)
    ensures Paired(d) && Total(d) == d.subtotal + Payable(d.rows) + ClientCharges(d, 0) - NamedRuleCharges(d, 0)
    ensures Agrees(d) <==> ClientCharges(d, 0) == NamedRuleCharges(d, 0)
  {
    ApartDifference(d);
    ManualGaps(d, 0);
  }
}
