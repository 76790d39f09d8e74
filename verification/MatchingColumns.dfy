/**
  The decimal columns of the matching configuration: what they keep of a number, and why the two checks of an approval,
  by value and by digest, come to the same on every reachable state.
 */
module MatchingColumns {
  import opened Common
  import opened Rounding
  import opened ApprovalPolicy
  import opened ControlReview
  import opened ReviewTheorems

  // ---------------------------------------------------------------- numbers of four digits

  lemma {:induction false} PowersMultiply(m: nat, n: nat)
    ensures Pow10(m + n) == Pow10(m) * Pow10(n)
  {
    if m > 0 { PowersMultiply(m - 1, n); }
  }

  lemma Cancel(a: int, b: int, c: int)
    requires a * c == b * c && c > 0
    ensures a == b
  {
  }

  /** Of a number with at most four digits the column keeps the value, of any other the nearest one with four. */
  lemma ColumnKeepsNearest(n: Number)
    ensures FourDigits(n).scale == 4
    ensures n.scale <= 4 ==> SameNumber(FourDigits(n), n)
    ensures n.scale > 4 ==> var unit: int := Pow10(n.scale - 4);
              -unit <= 2 * (FourDigits(n).coefficient * unit - n.coefficient) <= unit
  {
    if n.scale <= 4 {
      PowersMultiply(4 - n.scale, n.scale);
      assert n.coefficient * Pow10(4 - n.scale) * Pow10(n.scale) == n.coefficient * Pow10(4);
    } else {
      NearestUnit(n.coefficient, Pow10(n.scale - 4));
    }
  }

  lemma NearestUnit(coefficient: int, unit: int)
    requires unit > 0
    ensures -unit <= 2 * (RoundHalfUp(coefficient as real / unit as real) * unit - coefficient) <= unit
  {
    var x := coefficient as real / unit as real;
    OffByHalf(RoundHalfUp(x), x, coefficient, unit);
  }

  lemma OffByHalf(r: int, x: real, coefficient: int, unit: int)
    requires unit > 0 && x * unit as real == coefficient as real && -0.5 <= r as real - x <= 0.5
    ensures -unit <= 2 * (r * unit - coefficient) <= unit
  {
    var off := HalfScaled(r as real, x, unit as real);
    RealProduct(r, unit);
    var whole := r * unit - coefficient;
    assert whole as real == off;
  }

  lemma HalfScaled(r: real, x: real, unit: real) returns (off: real)
    requires -0.5 <= r - x <= 0.5 && unit > 0.0
    ensures off == r * unit - x * unit && -unit <= 2.0 * off <= unit
  {
    off := r * unit - x * unit;
    var part := r - x;
    assert off == part * unit;
    assert -0.5 * unit <= part * unit <= 0.5 * unit;
  }

  lemma RealProduct(a: int, b: int)
    ensures (a * b) as real == a as real * b as real
  {
  }

  lemma SameFourDigits(a: Number, b: Number)
    requires a.scale == 4 && b.scale == 4 && SameNumber(a, b)
    ensures a == b
  {
    Cancel(a.coefficient, b.coefficient, Pow10(4));
  }

  /** A number equal to one of four digits is stored as that one, however it is written. */
  lemma EqualNumbersAreStoredAlike(a: Number, b: Number)
    requires SameNumber(a, b) && b.scale == 4
    ensures FourDigits(a) == b
  {
    if a.scale <= 4 {
      PowersMultiply(4 - a.scale, a.scale);
      assert a.coefficient * Pow10(4 - a.scale) * Pow10(a.scale) == a.coefficient * Pow10(4);
      Cancel(a.coefficient * Pow10(4 - a.scale), b.coefficient, Pow10(a.scale));
    } else {
      var unit := Pow10(a.scale - 4);
      PowersMultiply(a.scale - 4, 4);
      assert b.coefficient * (unit * Pow10(4)) == b.coefficient * unit * Pow10(4);
      Cancel(a.coefficient, b.coefficient * unit, Pow10(4));
      WholeUnits(b.coefficient, unit);
    }
  }

  lemma WholeUnits(n: int, unit: nat)
    requires unit > 0
    ensures RoundHalfUp((n * unit) as real / unit as real) == n
  {
    assert (n * unit) as real == n as real * unit as real;
    assert (n * unit) as real / unit as real == n as real;
  }

  // ---------------------------------------------------------------- what the columns hold

  /** A value read from the column of a field. */
  predicate InColumn(field: string, v: Value) {
    Fits(field, v) && if IsDecimalField(field) then v.number.scale == 4 else !v.Dec?
  }

  predicate RowInColumns(fields: seq<string>, row: Values) {
    forall f :: f in fields ==> InColumn(f, ValueOf(row, f))
  }

  predicate ConfigsInColumns(configs: map<(string, string), Values>) {
    forall key :: key in configs && Fields(key.0).Some? ==> RowInColumns(Fields(key.0).value, configs[key])
  }

  /** What a proposal shows as the configuration before it came from the columns. */
  predicate BeforeFromColumns(p: Payload)
    requires p.ConfigPayload? && Fields(p.model).Some? && NormalizeAll(Fields(p.model).value, p.before).Ok?
  {
    RowInColumns(Fields(p.model).value, NormalizeAll(Fields(p.model).value, p.before).value)
  }

  predicate Formed(r: Review) {
    r.kind == CONFIG_CHANGE ==> WellFormed(r) && BeforeFromColumns(r.payload)
  }

  predicate AllFormed(reviews: seq<Review>) {
    forall i :: 0 <= i < |reviews| ==> Formed(reviews[i])
  }

  predicate ColumnInv(s: State) {
    ConfigsInColumns(s.configs) && AllFormed(s.reviews)
  }

  /** Forms bring decimals in decimal fields only, and only decimal columns hold them. */
  predicate FormStep(step: Step) {
    match step
    case Update(model, _, values, _) => Fields(model).Some? ==> Typed(Fields(model).value, values)
    case Rewrite(config, stored) => Fields(config.0).Some? ==> Typed(Fields(config.0).value, stored)
    case _ => true
  }

  /** Reading columns changes nothing. */
  lemma ColumnsReadBack(fields: seq<string>, row: Values)
    requires NormalizeAll(fields, row).Ok? && RowInColumns(fields, row)
    ensures Typed(fields, row) && RowInColumns(fields, NormalizeAll(fields, row).value)
    ensures forall f :: f in fields ==> ValueOf(NormalizeAll(fields, row).value, f) == ValueOf(row, f)
  {
    NormalizedFields(fields, row);
    forall f | f in fields
      ensures ValueOf(NormalizeAll(fields, row).value, f) == ValueOf(row, f) && InColumn(f, ValueOf(row, f))
    {
      assert InColumn(f, ValueOf(row, f)) && Normalize(f, ValueOf(row, f)) == Ok(NormalizeAll(fields, row).value[f]);
    }
  }

  /** Typed values that fit are in their columns once stored. */
  lemma StoredIsInColumns(fields: seq<string>, row: Values, typed: Values)
    requires AllFit(fields, typed) && Typed(fields, typed) && forall f :: f in fields ==> f in typed
    ensures RowInColumns(fields, row + Columns(typed))
  {
    forall f | f in fields ensures InColumn(f, ValueOf(row + Columns(typed), f)) {
      assert Fits(f, ValueOf(typed, f));
    }
  }

  lemma TypedStaysTyped(fields: seq<string>, values: Values)
    requires NormalizeAll(fields, values).Ok? && Typed(fields, values)
    ensures Typed(fields, NormalizeAll(fields, values).value)
    ensures forall f :: f in fields ==> f in NormalizeAll(fields, values).value
  {
    NormalizedFields(fields, values);
    forall f | f in fields && !IsDecimalField(f) ensures !ValueOf(NormalizeAll(fields, values).value, f).Dec? {
      assert Normalize(f, ValueOf(values, f)) == Ok(NormalizeAll(fields, values).value[f]);
    }
  }

  /** Writing a typed change keeps the columns. */
  lemma WriteKeepsColumns(configs: map<(string, string), Values>, model: string, company: string, values: Values,
      expected: Option<Values>)
    requires ConfigsInColumns(configs) && ConfigChange(configs, model, company, values, expected).Ok?
    requires Typed(Fields(model).value, values)
    requires var c := ConfigChange(configs, model, company, values, expected).value; AllFit(c.fields, c.after)
    ensures var c := ConfigChange(configs, model, company, values, expected).value;
            ConfigsInColumns(configs[(model, company) := configs[(model, company)] + Columns(c.after)])
  {
    var c := ConfigChange(configs, model, company, values, expected).value;
    TypedStaysTyped(c.fields, values);
    StoredIsInColumns(c.fields, configs[(model, company)], c.after);
  }

  /** A proposal from columns is well formed. */
  lemma ProposalIsFormed(s: State, model: string, company: string, values: Values, actor: nat, r: Review)
    requires ConfigsInColumns(s.configs) && ConfigChange(s.configs, model, company, values, None).Ok?
    requires Typed(Fields(model).value, values)
    requires r.kind == CONFIG_CHANGE && r.company == company && r.id == ConfigId(model, company)
    requires var c := ConfigChange(s.configs, model, company, values, None).value;
             r.payload == ConfigProposal(model, c.fields, c.before, c.after)
    ensures Formed(r)
  {
    var fields, row := Fields(model).value, s.configs[(model, company)];
    ColumnsReadBack(fields, row);
    ProposalIsWellFormed(s, model, company, values, actor, r);
    PlainReadsBack(fields, row);
  }

  // ---------------------------------------------------------------- every reachable state

  /** Every review of this operation and payload is well formed. */
  ghost predicate FormsReviews(kind: string, id: string, company: string, payload: Payload) {
    forall r: Review :: r.kind == kind && r.id == id && r.company == company && r.payload == payload ==> Formed(r)
  }

  lemma GateKeepsFormed(s: State, kind: string, id: string, company: string, actor: nat, payload: Payload, preparers: seq<nat>,
      required: bool)
    requires AllFormed(s.reviews) && FormsReviews(kind, id, company, payload)
    requires RequireReview(s, kind, id, company, actor, payload, preparers, required, None).Ok?
    ensures AllFormed(RequireReview(s, kind, id, company, actor, payload, preparers, required, None).value.0.reviews)
  {
    var t := RequireReview(s, kind, id, company, actor, payload, preparers, required, None).value.0;
    GateShape(s, kind, id, company, actor, payload, preparers, required);
    if t != s {
      var r: Review :| r.kind == kind && r.id == id && r.company == company && r.payload == payload
                       && Replaced(s, t, kind, id, company, r);
      assert Formed(r);
      forall i | 0 <= i < |t.reviews| ensures Formed(t.reviews[i]) {
        if i < |s.reviews| { assert Formed(s.reviews[i]); }
      }
    }
  }

  lemma UpdateKeepsColumns(s: State, model: string, company: string, values: Values, actor: nat)
    requires ColumnInv(s) && UpdateConfig(s, model, company, values, actor, None, None).Ok?
    requires Typed(Fields(model).value, values)
    ensures ColumnInv(UpdateConfig(s, model, company, values, actor, None, None).value.0)
  {
    var c := ConfigChange(s.configs, model, company, values, None).value;
    var payload := ConfigProposal(model, c.fields, c.before, c.after);
    var required := Changed(c.fields, c.before, c.after) != [];
    forall r: Review | r.kind == CONFIG_CHANGE && r.id == ConfigId(model, company) && r.company == company && r.payload == payload
      ensures Formed(r)
    {
      ProposalIsFormed(s, model, company, values, actor, r);
    }
    GateKeepsFormed(s, CONFIG_CHANGE, ConfigId(model, company), company, actor, payload, [], required);
    ProceedChangesNothing(s, CONFIG_CHANGE, ConfigId(model, company), company, actor, payload, [], required, None);
    if AllFit(c.fields, c.after) { WriteKeepsColumns(s.configs, model, company, values, None); }
  }

  lemma DecisionKeepsFormed(reviews: seq<Review>, i: nat, status: Status)
    requires i < |reviews| && AllFormed(reviews)
    ensures AllFormed(reviews[i := reviews[i].(status := status)])
  {
    assert Formed(reviews[i]);
  }

  lemma ApproveKeepsColumns(s: State, i: nat, user: nat, recomputed: Option<Payload>)
    requires ColumnInv(s) && ApproveReview(s, i, user, recomputed).Ok?
    ensures ColumnInv(ApproveReview(s, i, user, recomputed).value)
  {
    ExecutionKeepsReviews(s, i, user, recomputed);
    DecisionKeepsFormed(s.reviews, i, Approved);
    if s.reviews[i].kind == CONFIG_CHANGE {
      var c := ApprovedChange(s, i, user, recomputed);
      var p, company := s.reviews[i].payload, s.reviews[i].company;
      assert Formed(s.reviews[i]);
      PlainsAreNoDecimals(c.fields, p.after);
      WriteKeepsColumns(s.configs, p.model, company, p.after, Some(p.before));
    }
  }

  lemma RewriteKeepsColumns(s: State, config: (string, string), stored: Values)
    requires ColumnInv(s) && FormStep(Rewrite(config, stored))
    ensures ColumnInv(Next(s, Rewrite(config, stored)))
  {
    if Fields(config.0).Some? && AllFit(Fields(config.0).value, stored) {
      var fields := Fields(config.0).value;
      forall f | f in fields ensures InColumn(f, ValueOf(Columns(stored), f)) {
        assert Fits(f, ValueOf(stored, f));
      }
    }
  }

  lemma NextKeepsColumns(s: State, step: Step)
    requires ColumnInv(s) && FormStep(step)
    ensures ColumnInv(Next(s, step))
  {
    if Next(s, step) != s {
      match step
      case Update(model, company, values, actor) => UpdateKeepsColumns(s, model, company, values, actor);
      case Propose(kind, id, company, actor, payload, preparers, required) =>
        assert FormsReviews(kind, id, company, payload);
        GateKeepsFormed(s, kind, id, company, actor, payload, preparers, required);
        ProceedChangesNothing(s, kind, id, company, actor, payload, preparers, required, None);
      case Approve(i, user, recomputed) => ApproveKeepsColumns(s, i, user, recomputed);
      case Reject(i, user) => DecisionKeepsFormed(s.reviews, i, Rejected);
      case Configure(_) =>
      case Rewrite(config, stored) => RewriteKeepsColumns(s, config, stored);
    }
  }

  lemma {:induction false} RunKeepsColumns(s: State, steps: seq<Step>)
    requires Initial(s) && ConfigsInColumns(s.configs) && forall k :: 0 <= k < |steps| ==> FormStep(steps[k])
    ensures ColumnInv(Run(s, steps))
    decreases |steps|
  {
    if steps != [] {
      RunKeepsColumns(s, steps[..|steps| - 1]);
      NextKeepsColumns(Run(s, steps[..|steps| - 1]), steps[|steps| - 1]);
    }
  }

  // ---------------------------------------------------------------- the two checks of an approval

  /** The configuration there is has the values the proposal started from, compared as numbers. */
  predicate Unchanged(s: State, r: Review)
    requires r.payload.ConfigPayload?
  {
    var p := r.payload;
    && Fields(p.model).Some? && (p.model, r.company) in s.configs
    && var fields := Fields(p.model).value;
       var now, reviewed := NormalizeAll(fields, s.configs[(p.model, r.company)]), NormalizeAll(fields, p.before);
       now.Ok? && reviewed.Ok? && SameAll(fields, now.value, reviewed.value)
  }

  lemma SameColumnsAreEqual(fields: seq<string>, a: Values, b: Values)
    requires RowInColumns(fields, a) && RowInColumns(fields, b) && SameAll(fields, a, b)
    ensures forall f :: f in fields ==> ValueOf(a, f) == ValueOf(b, f)
  {
    forall f | f in fields ensures ValueOf(a, f) == ValueOf(b, f) {
      assert InColumn(f, ValueOf(a, f)) && InColumn(f, ValueOf(b, f)) && Same(ValueOf(a, f), ValueOf(b, f));
      if IsDecimalField(f) { SameFourDigits(ValueOf(a, f).number, ValueOf(b, f).number); }
    }
  }

  /** Equal as numbers, a configuration read from its columns also shows the same digits. */
  lemma UnchangedIffShown(s: State, r: Review)
    requires ConfigsInColumns(s.configs) && r.kind == CONFIG_CHANGE && Formed(r)
    ensures Unchanged(s, r) <==> Shown(s, r.payload.model, r.company) == Some(r.payload.before)
  {
    var p := r.payload;
    var fields := Fields(p.model).value;
    var reviewed := NormalizeAll(fields, p.before).value;
    if Unchanged(s, r) {
      var row := s.configs[(p.model, r.company)];
      var now := NormalizeAll(fields, row).value;
      ColumnsReadBack(fields, row);
      SameColumnsAreEqual(fields, now, reviewed);
      NormalizedFields(fields, row);
      NormalizedFields(fields, p.before);
      forall f ensures f in now <==> f in reviewed { assert f in now <==> f in fields; }
      forall f | f in now ensures now[f] == reviewed[f] { assert f in fields; }
      assert now == reviewed;
    } else if Shown(s, p.model, r.company) == Some(p.before) {
      PlainIsInjective(fields, s.configs[(p.model, r.company)], p.before) by {
        ColumnsReadBack(fields, s.configs[(p.model, r.company)]);
        PlainReadsBack(fields, s.configs[(p.model, r.company)]);
      }
      AllSame(fields, reviewed);
      assert false;
    }
  }

  /**
    On every reachable state a pending configuration change that the user may review goes through exactly when the user
    may also edit the configuration, the columns take the values, and the configuration is numerically unchanged.
   */
  lemma ReachedChangeIsApprovedIff(s: State, steps: seq<Step>, i: nat, user: nat, recomputed: Option<Payload>)
    requires Initial(s) && ConfigsInColumns(s.configs) && forall k :: 0 <= k < |steps| ==> FormStep(steps[k])
    requires var t := Run(s, steps);
             i < |t.reviews| && t.reviews[i].kind == CONFIG_CHANGE && ReviewAllowed(t, i, user)
    ensures var t := Run(s, steps);
            && WellFormed(t.reviews[i])
            && (ApproveReview(t, i, user, recomputed).Ok?
                <==> Allowed(t, t.reviews[i].company, user, "admin", "edit") && Takes(t.reviews[i].payload)
                     && Unchanged(t, t.reviews[i]))
  {
    RunKeepsColumns(s, steps);
    var t := Run(s, steps);
    var r := t.reviews[i];
    assert Formed(r);
    UnchangedIffShown(t, r);
    ChangeIsApprovedIff(t, i, user, recomputed) by {
      if (r.payload.model, r.company) in t.configs {
        var fields, row := Fields(r.payload.model).value, t.configs[(r.payload.model, r.company)];
        forall f | f in fields && !IsDecimalField(f) ensures !ValueOf(row, f).Dec? { assert InColumn(f, ValueOf(row, f)); }
      }
    }
  }

  // ---------------------------------------------------------------- no change without review

  lemma {:induction false} UnchangedIsSame(fields: seq<string>, a: Values, b: Values)
    requires Changed(fields, a, b) == []
    ensures SameAll(fields, a, b)
  {
    if fields != [] {
      UnchangedIsSame(fields[1..], a, b);
      forall f | f in fields ensures Same(ValueOf(a, f), ValueOf(b, f)) {
        if f != fields[0] { assert f in fields[1..]; }
      }
    }
  }

  /** Equal values leave the columns as they are. */
  lemma SameIsStoredAlike(fields: seq<string>, row: Values, before: Values, after: Values)
    requires RowInColumns(fields, row) && AllFit(fields, after) && SameAll(fields, before, after)
    requires forall f :: f in fields ==> ValueOf(before, f) == ValueOf(row, f)
    requires forall f :: f in after <==> f in fields
    ensures forall f :: ValueOf(row + Columns(after), f) == ValueOf(row, f)
  {
    forall f ensures ValueOf(row + Columns(after), f) == ValueOf(row, f) {
      if f in fields {
        assert InColumn(f, ValueOf(row, f)) && Fits(f, ValueOf(after, f)) && Same(ValueOf(before, f), ValueOf(after, f));
        if IsDecimalField(f) { EqualNumbersAreStoredAlike(ValueOf(after, f).number, ValueOf(row, f).number); }
      }
    }
  }

  /** A gate that must review lets nothing proceed while independent review is on. */
  lemma RequiredMeansWaiting(s: State, kind: string, id: string, company: string, actor: nat, payload: Payload)
    requires company in s.worlds && s.worlds[company].differentApprover && s.worlds[company].engineEnabled
    requires RequireReview(s, kind, id, company, actor, payload, [], true, None).Ok?
    ensures var (t, d) := RequireReview(s, kind, id, company, actor, payload, [], true, None).value;
            d.Wait? && d.review < |t.reviews| && t.reviews[d.review].status.Pending?
  {
  }

  /** While independent review is on, a direct update stores nothing new: it waits for review, or its values are equal. */
  lemma DirectUpdateChangesNoValue(s: State, model: string, company: string, values: Values, actor: nat)
    requires company in s.worlds && s.worlds[company].differentApprover && s.worlds[company].engineEnabled
    requires ConfigsInColumns(s.configs) && UpdateConfig(s, model, company, values, actor, None, None).Ok?
    ensures var (t, d) := UpdateConfig(s, model, company, values, actor, None, None).value;
            && (d.Wait? ==> t.configs == s.configs && d.review < |t.reviews| && t.reviews[d.review].status.Pending?)
            && (d.Proceed? ==> t.reviews == s.reviews)
            && (forall key :: key in s.configs <==> key in t.configs)
            && (forall key, f :: key in s.configs ==> ValueOf(t.configs[key], f) == ValueOf(s.configs[key], f))
  {
    var c := ConfigChange(s.configs, model, company, values, None).value;
    var payload := ConfigProposal(model, c.fields, c.before, c.after);
    var required := Changed(c.fields, c.before, c.after) != [];
    ProceedChangesNothing(s, CONFIG_CHANGE, ConfigId(model, company), company, actor, payload, [], required, None);
    if required {
      RequiredMeansWaiting(s, CONFIG_CHANGE, ConfigId(model, company), company, actor, payload);
    } else {
      UnchangedIsSame(c.fields, c.before, c.after);
      var row := s.configs[(model, company)];
      ColumnsReadBack(c.fields, row);
      NormalizedFields(c.fields, values);
      SameIsStoredAlike(c.fields, row, c.before, c.after);
    }
  }
}
