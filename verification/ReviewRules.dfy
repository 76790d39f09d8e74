/**
  When a reviewed operation may go on, wait or be decided, and what a change of the matching configuration writes, in terms
  of permissions, ranks and named fields.
 */
module ReviewRules {
  import opened Common
  import opened ApprovalPolicy
  import opened ApprovalAuthority
  import opened ControlReview
  import opened ReviewTheorems

  // ---------------------------------------------------------------- the gate

  /** The module and the action an operation of the kind belongs to. */
  function ModuleOf(kind: string): string {
    if kind == "bank_reconciliation" then "cash" else if kind == "config_change" then "admin" else "accounting"
  }

  function ActionOf(kind: string): string {
    if kind == "bank_reconciliation" || kind == "config_change" then "edit" else "close"
  }

  /** The user may do this in the company. */
  predicate MayDo(s: State, company: string, user: nat, module_: string, action: string) {
    company in s.worlds && HasPermission(s.worlds[company], user, module_, action)
  }

  lemma AllowedIff(s: State, company: string, user: nat, module_: string, action: string)
    ensures Allowed(s, company, user, module_, action) <==> MayDo(s, company, user, module_, action)
  {
    if company in s.worlds { AuthorizedIff(s.worlds[company], user, module_, action); }
  }

  lemma ScopeIs(kind: string)
    ensures Scope(kind) == (ModuleOf(kind), ActionOf(kind))
  {
  }

  /** Two proposals for the operation are pending. */
  predicate PendingTwice(reviews: seq<Review>, kind: string, id: string, company: string) {
    exists i, j :: 0 <= i < j < |reviews| && IsPending(reviews[i], kind, id, company) && IsPending(reviews[j], kind, id, company)
  }

  predicate IsPending(r: Review, kind: string, id: string, company: string) {
    r.kind == kind && r.id == id && r.company == company && r.status == Pending
  }

  lemma PendingReviewIs(reviews: seq<Review>, kind: string, id: string, company: string)
    ensures PendingReview(reviews, kind, id, company).Err? <==> PendingTwice(reviews, kind, id, company)
    ensures PendingReview(reviews, kind, id, company) == Ok(None)
       <==> forall i :: 0 <= i < |reviews| ==> !IsPending(reviews[i], kind, id, company)
  {
    var at := PendingAt(reviews, kind, id, company);
    if i, j :| 0 <= i < j < |reviews| && IsPending(reviews[i], kind, id, company) && IsPending(reviews[j], kind, id, company) {
      assert i in at && j in at;
    }
    if |at| >= 1 { assert at[0] in at; }
    if |at| >= 2 { assert at[1] in at; }
    forall i | 0 <= i < |reviews| && IsPending(reviews[i], kind, id, company) ensures i in at {
    }
  }

  /** While a review is carried out the gate lets exactly its own operation and payload pass, by somebody permitted. */
  lemma RunningGateIs(s: State, kind: string, id: string, company: string, actor: nat, payload: Payload, preparers: seq<nat>,
      required: bool, i: nat)
    requires i < |s.reviews|
    ensures var r := RequireReview(s, kind, id, company, actor, payload, preparers, required, Some(i));
            && (r.Ok? <==> && MayDo(s, company, actor, ModuleOf(kind), ActionOf(kind))
                           && s.reviews[i].kind == kind && s.reviews[i].id == id && s.reviews[i].company == company
                           && s.reviews[i].payload == payload)
            && (r.Ok? ==> r.value == (s, Proceed(payload)))
  {
    AllowedIff(s, company, actor, ModuleOf(kind), ActionOf(kind));
    ScopeIs(kind);
    GateChecksRunning(s, kind, id, company, actor, payload, preparers, required, i);
  }

  /** Everybody who prepared the operation has a rank in its module. */
  ghost predicate PreparersRanked(w: World, actor: nat, preparers: seq<nat>, module_: string) {
    forall u :: u == actor || u in preparers ==> Ranks(w, u, module_)
  }

  /** The policy names the preparers, each with the rank held. */
  ghost predicate FreezesPreparers(w: World, policy: Policy, actor: nat, preparers: seq<nat>, module_: string) {
    && policy.Independent? && policy.module_ == module_
    && (forall u :: u == actor || u in preparers <==> exists p :: p in policy.preparers && p.user == u)
    && forall p :: p in policy.preparers ==> HasRank(w, p.user, module_, p.rank)
  }

  lemma {:induction false} AllInserted(ids: seq<nat>, more: seq<nat>)
    ensures forall u :: u in InsertAll(ids, more) <==> u in ids || u in more
  {
    if more != [] {
      AllInserted(ids, more[1..]);
      forall u ensures u in InsertAll(ids, more) <==> u in ids || u in more {
        assert u in more <==> u == more[0] || u in more[1..];
      }
    }
  }

  lemma PreparationIs(w: World, actor: nat, preparers: seq<nat>, module_: string)
    ensures PreparationPolicy(w, actor, preparers, module_).Ok? <==> PreparersRanked(w, actor, preparers, module_)
    ensures PreparationPolicy(w, actor, preparers, module_).Ok? ==>
      FreezesPreparers(w, PreparationPolicy(w, actor, preparers, module_).value, actor, preparers, module_)
  {
    var ids := InsertAll([actor], preparers);
    AllInserted([actor], preparers);
    forall u ensures u in ids <==> u == actor || u in preparers {
      assert u in [actor] <==> u == actor;
    }
    RankedAll(w, ids, module_);
    if forall u :: u in ids ==> Ranks(w, u, module_) {
      assert PreparersRanked(w, actor, preparers, module_);
    } else {
      var u :| u in ids && !Ranks(w, u, module_);
      assert u == actor || u in preparers;
    }
  }

  /** An operation has to be reviewed: one is pending, or the company asks for independent approval. */
  predicate MustBeReviewed(s: State, kind: string, id: string, company: string)
    requires company in s.worlds
  {
    || (exists i :: 0 <= i < |s.reviews| && IsPending(s.reviews[i], kind, id, company))
    || (s.worlds[company].differentApprover && s.worlds[company].engineEnabled)
  }

  /** Outside a review the gate refuses, lets the operation go on, or makes it wait; which of them, and when. */
  lemma GateIs(s: State, kind: string, id: string, company: string, actor: nat, payload: Payload, preparers: seq<nat>,
      required: bool)
    ensures var r := RequireReview(s, kind, id, company, actor, payload, preparers, required, None);
            && (r.Err? <==> || !MayDo(s, company, actor, ModuleOf(kind), ActionOf(kind))
                            || (required && PendingTwice(s.reviews, kind, id, company))
                            || (required && MustBeReviewed(s, kind, id, company)
                                && !PreparersRanked(s.worlds[company], actor, preparers, ModuleOf(kind))))
            && (r.Ok? ==>
                  && (r.value.1.Proceed? <==> !required || !MustBeReviewed(s, kind, id, company))
                  && (r.value.1.Proceed? ==> r.value == (s, Proceed(payload))))
  {
    AllowedIff(s, company, actor, ModuleOf(kind), ActionOf(kind));
    ScopeIs(kind);
    PendingReviewIs(s.reviews, kind, id, company);
    if company in s.worlds { PreparationIs(s.worlds[company], actor, preparers, ModuleOf(kind)); }
    var pending := PendingReview(s.reviews, kind, id, company);
    if pending.Ok? && pending.value.Some? {
      assert IsPending(s.reviews[pending.value.value], kind, id, company);
    }
  }

  /** The proposal an operation waits for: the pending one of the same payload, or a new one that replaces it. */
  lemma ProposalIs(s: State, kind: string, id: string, company: string, actor: nat, payload: Payload, preparers: seq<nat>)
    requires RequireReview(s, kind, id, company, actor, payload, preparers, true, None).Ok?
    requires RequireReview(s, kind, id, company, actor, payload, preparers, true, None).value.1.Wait?
    ensures var (t, d) := RequireReview(s, kind, id, company, actor, payload, preparers, true, None).value;
            && d.review < |t.reviews| && IsPending(t.reviews[d.review], kind, id, company)
            && t.reviews[d.review].payload == payload
            && (t != s ==>
                  && d.review == |s.reviews| && |t.reviews| == |s.reviews| + 1 && t.reviews[d.review].requester == actor
                  && FreezesPreparers(s.worlds[company], t.reviews[d.review].policy, actor, preparers, ModuleOf(kind))
                  && forall i :: 0 <= i < |s.reviews| ==>
                       t.reviews[i] == if IsPending(s.reviews[i], kind, id, company) then s.reviews[i].(status := Invalidated)
                                       else s.reviews[i])
  {
    ScopeIs(kind);
    PendingReviewIs(s.reviews, kind, id, company);
    PreparationIs(s.worlds[company], actor, preparers, ModuleOf(kind));
    var pending := PendingReview(s.reviews, kind, id, company).value;
    if pending.Some? {
      forall i | 0 <= i < |s.reviews| && IsPending(s.reviews[i], kind, id, company) ensures i == pending.value {
        assert !PendingTwice(s.reviews, kind, id, company);
      }
    }
  }

  // ---------------------------------------------------------------- decisions

  predicate IsReviewKind(kind: string) {
    kind == "bank_reconciliation" || kind == "monthly_close" || kind == "period_reopen" || kind == "config_change"
  }

  /** A proposal may be decided while it is pending, by somebody independent of it and permitted to do what it does. */
  lemma ReviewAllowedIff(s: State, i: nat, user: nat)
    requires i < |s.reviews|
    ensures var r := s.reviews[i];
            ReviewAllowed(s, i, user) <==>
              && IsReviewKind(r.kind) && r.status == Pending && r.policy.Independent? && r.company in s.worlds
              && IndependentOf(s.worlds[r.company], r.policy, user)
              && HasPermission(s.worlds[r.company], user, r.policy.module_, ActionOf(r.kind))
  {
    var r := s.reviews[i];
    ScopeIs(r.kind);
    if r.company in s.worlds && r.policy.Independent? {
      PermitsIff(s.worlds[r.company], r.policy, user);
      AllowedIff(s, r.company, user, r.policy.module_, ActionOf(r.kind));
    }
  }

  // ---------------------------------------------------------------- the fields of a configuration

  predicate IsTolerance(field: string) {
    field == "price_tolerance_value" || field == "qty_tolerance_value"
  }

  predicate IsPurchaseField(field: string) {
    || field == "matching_type" || field == "price_tolerance_type" || field == "price_tolerance_value"
    || field == "qty_tolerance_type" || field == "qty_tolerance_value" || field == "require_purchase_order"
    || field == "bridge_account_required" || field == "auto_reconcile" || field == "allow_price_difference"
  }

  predicate IsSalesField(field: string) {
    || field == "matching_type" || field == "price_tolerance_type" || field == "price_tolerance_value"
    || field == "require_sales_order" || field == "allow_price_difference"
  }

  predicate IsField(model: string, field: string) {
    (model == "purchase" && IsPurchaseField(field)) || (model == "sales" && IsSalesField(field))
  }

  lemma FieldsAre(model: string, field: string)
    ensures Fields(model).Some? <==> model == "purchase" || model == "sales"
    ensures Fields(model).Some? ==> (field in Fields(model).value <==> IsField(model, field))
  {
  }

  /** The typed value of a field: tolerances are read as numbers, everything else is taken as it comes. */
  predicate IsTyped(field: string, v: Value, typed: Value) {
    if !IsTolerance(field) || v == Null || v == Str(Word("")) then typed == v
    else typed.Dec? && (v == typed || v == Str(Numeral(typed.number)) || (v.Str? && v.text.Spelling? && v.text.number == typed.number))
  }

  lemma NormalizeIs(field: string, v: Value)
    ensures Normalize(field, v).Err? <==> IsTolerance(field) && (v.Flag? || (v.Str? && v.text.Word? && v.text.text != ""))
    ensures Normalize(field, v).Ok? ==> IsTyped(field, v, Normalize(field, v).value)
  {
  }

  /** Equal as numbers, or simply equal. */
  predicate SameAs(a: Value, b: Value) {
    if a.Dec? && b.Dec? then
      a.number.coefficient as real / Pow10(a.number.scale) as real == b.number.coefficient as real / Pow10(b.number.scale) as real
    else a == b
  }

  lemma SameIff(a: Value, b: Value)
    ensures Same(a, b) <==> SameAs(a, b)
  {
    if a.Dec? && b.Dec? {
      CrossMultiply(a.number.coefficient, Pow10(a.number.scale), b.number.coefficient, Pow10(b.number.scale));
    }
  }

  lemma CrossMultiply(a: int, p: int, b: int, q: int)
    requires p > 0 && q > 0
    ensures a * q == b * p <==> a as real / p as real == b as real / q as real
  {
    var x, y := a as real / p as real, b as real / q as real;
    assert a as real == x * p as real && b as real == y * q as real;
    if x == y {
      assert (a * q) as real == x * p as real * q as real == (b * p) as real;
    }
    if a * q == b * p {
      assert (a * q) as real == x * (p as real * q as real);
      assert (b * p) as real == y * (p as real * q as real);
    }
  }

  /** The changed fields are exactly those whose values differ. */
  lemma {:induction false} ChangedAre(fields: seq<string>, a: Values, b: Values, field: string)
    ensures field in Changed(fields, a, b) <==> field in fields && !SameAs(ValueOf(a, field), ValueOf(b, field))
  {
    if fields != [] {
      ChangedAre(fields[1..], a, b, field);
      SameIff(ValueOf(a, fields[0]), ValueOf(b, fields[0]));
      assert fields == [fields[0]] + fields[1..];
    }
  }

  /**
    A change that goes on writes to every field of its model, and to no other, what the column keeps of the typed value; no
    other configuration is touched, and a proposal of it is named after model and company.
   */
  lemma WrittenChangeIs(s: State, model: string, company: string, values: Values, actor: nat, expected: Option<Values>,
      running: Option<nat>, field: string)
    requires running.Some? ==> running.value < |s.reviews|
    requires UpdateConfig(s, model, company, values, actor, expected, running).Ok?
    requires UpdateConfig(s, model, company, values, actor, expected, running).value.1.Proceed?
    ensures model == "purchase" || model == "sales"
    ensures var t := UpdateConfig(s, model, company, values, actor, expected, running).value.0;
            && (model, company) in s.configs && (model, company) in t.configs
            && (IsField(model, field) ==>
                  exists typed :: IsTyped(field, ValueOf(values, field), typed)
                                  && ValueOf(t.configs[(model, company)], field) == Column(typed))
            && (!IsField(model, field) ==>
                  ValueOf(t.configs[(model, company)], field) == ValueOf(s.configs[(model, company)], field))
            && forall key :: key != (model, company) ==>
                 (key in t.configs <==> key in s.configs) && (key in s.configs ==> t.configs[key] == s.configs[key])
  {
    FieldsAre(model, field);
    var c := ConfigChange(s.configs, model, company, values, expected).value;
    ChangeReads(s.configs, model, company, values, expected, c);
    GateThenWrite(s, model, company, c, actor, running);
    WrittenFieldIs(c.fields, values, c.after, s.configs[(model, company)], field);
  }

  lemma WrittenFieldIs(fields: seq<string>, values: Values, typed: Values, row: Values, field: string)
    requires NormalizeAll(fields, values) == Ok(typed)
    ensures field in fields ==>
      exists v :: IsTyped(field, ValueOf(values, field), v) && ValueOf(row + Columns(typed), field) == Column(v)
    ensures field !in fields ==> ValueOf(row + Columns(typed), field) == ValueOf(row, field)
  {
    NormalizedFields(fields, values);
    NormalizeIs(field, ValueOf(values, field));
    if field in fields {
      assert IsTyped(field, ValueOf(values, field), typed[field]) && field in Columns(typed);
    }
  }

  lemma ProposalIsNamed(model: string, company: string)
    ensures ConfigId(model, company) == model + ([':'] + company)
  {
  }
}
