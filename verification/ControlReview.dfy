/**
  Independent reviews of control operations: a proposal freezes a payload, another user approves it, and the operation
  is carried out only on that payload. The configuration of document matching is the operation modelled in full.
 */
module ControlReview {
  import opened Common
  import opened Rounding
  import opened ApprovalPolicy

  // ---------------------------------------------------------------- configuration values

  /** A decimal number with the number of digits it is written with: coefficient times ten to minus scale. */
  datatype Number = Number(coefficient: int, scale: nat)

  /** A text: the canonical spelling of a number, another spelling of one, or no number at all. */
  datatype Text = Numeral(number: Number) | Spelling(number: Number, text: string) | Word(text: string)

  datatype Value = Null | Flag(flag: bool) | Str(text: Text) | Dec(number: Number)

  type Values = map<string, Value>

  const EMPTY_TEXT := Str(Word(""))

  function Pow10(n: nat): (r: nat)
    ensures r > 0
  {
    if n == 0 then 1 else 10 * Pow10(n - 1)
  }

  predicate SameNumber(a: Number, b: Number) {
    a.coefficient * Pow10(b.scale) == b.coefficient * Pow10(a.scale)
  }

  /** Equality of values: decimals compare as numbers. */
  predicate Same(a: Value, b: Value) {
    if a.Dec? && b.Dec? then SameNumber(a.number, b.number) else a == b
  }

  /** A number as a column of four decimal digits keeps it, ties away from zero. */
  function FourDigits(n: Number): Number {
    if n.scale <= 4 then Number(n.coefficient * Pow10(4 - n.scale), 4)
    else Number(RoundHalfUp(n.coefficient as real / Pow10(n.scale - 4) as real), 4)
  }

  /** A value as it is read back from its column. */
  function Column(v: Value): Value {
    if v.Dec? then Dec(FourDigits(v.number)) else v
  }

  function Columns(values: Values): Values {
    map f | f in values :: Column(values[f])
  }

  predicate IsDecimalField(field: string) {
    field == "price_tolerance_value" || field == "qty_tolerance_value"
  }

  function Fields(model: string): Option<seq<string>> {
    if model == "purchase" then
      Some(["matching_type", "price_tolerance_type", "price_tolerance_value", "qty_tolerance_type", "qty_tolerance_value",
            "require_purchase_order", "bridge_account_required", "auto_reconcile", "allow_price_difference"])
    else if model == "sales" then
      Some(["matching_type", "price_tolerance_type", "price_tolerance_value", "require_sales_order", "allow_price_difference"])
    else None
  }

  /** The form of a value in a review payload. */
  function Plain(v: Value): Value {
    if v.Dec? then Str(Numeral(v.number)) else v
  }

  /** The typed form of a value from a form or a payload. */
  function Normalize(field: string, v: Value): Result<Value> {
    if !IsDecimalField(field) || v == Null || v == EMPTY_TEXT then Ok(v)
    else
      match v
      case Dec(n) => Ok(Dec(n))
      case Str(Numeral(n)) => Ok(Dec(n))
      case Str(Spelling(n, _)) => Ok(Dec(n))
      case _ => Err("the tolerance must be numeric")
  }

  function ValueOf(values: Values, field: string): Value {
    if field in values then values[field] else Null
  }

  /** The typed values of the fields. */
  function NormalizeAll(fields: seq<string>, values: Values): Result<Values> {
    if fields == [] then Ok(map[])
    else
      var last := fields[|fields| - 1];
      var front :- NormalizeAll(fields[..|fields| - 1], values);
      var v :- Normalize(last, ValueOf(values, last));
      Ok(front[last := v])
  }

  function PlainAll(values: Values): Values {
    map f | f in values :: Plain(values[f])
  }

  predicate SameAll(fields: seq<string>, a: Values, b: Values) {
    forall f :: f in fields ==> Same(ValueOf(a, f), ValueOf(b, f))
  }

  function Changed(fields: seq<string>, a: Values, b: Values): seq<string> {
    if fields == [] then []
    else (if Same(ValueOf(a, fields[0]), ValueOf(b, fields[0])) then [] else [fields[0]]) + Changed(fields[1..], a, b)
  }

  // ---------------------------------------------------------------- proposals

  /** What is reviewed. The digest of a payload is injective, so payloads stand for their digests. */
  datatype Payload = ConfigPayload(model: string, before: Values, after: Values, changed: seq<string>) | OtherPayload(text: string)

  datatype Status = Pending | Approved | Rejected | Invalidated

  datatype Review = Review(kind: string, id: string, company: string, requester: nat, payload: Payload, policy: Policy, status: Status)

  /** An approved operation that was carried out, with the payload it was carried out on and the world it happened in. */
  datatype Execution = Execution(review: nat, approver: nat, payload: Payload, worlds: map<string, World>)

  datatype State = State(worlds: map<string, World>, configs: map<(string, string), Values>, reviews: seq<Review>,
                         executions: seq<Execution>)

  const CONFIG_CHANGE := "config_change"

  predicate ReviewType(kind: string) {
    kind == "bank_reconciliation" || kind == "monthly_close" || kind == "period_reopen" || kind == CONFIG_CHANGE
  }

  /** Module and action an operation needs. */
  function Scope(kind: string): (string, string) {
    if kind == "bank_reconciliation" then ("cash", "edit")
    else if kind == CONFIG_CHANGE then ("admin", "edit")
    else ("accounting", "close")
  }

  predicate Allowed(s: State, company: string, user: nat, module_: string, action: string) {
    company in s.worlds && Authorized(s.worlds[company], user, module_, action)
  }

  predicate PendingFor(r: Review, kind: string, id: string, company: string) {
    r.kind == kind && r.id == id && r.company == company && r.status.Pending?
  }

  function PendingAt(reviews: seq<Review>, kind: string, id: string, company: string): (r: seq<nat>)
    ensures forall i: nat :: i in r <==> i < |reviews| && PendingFor(reviews[i], kind, id, company)
    ensures forall i, j :: 0 <= i < j < |r| ==> r[i] < r[j]
  {
    if reviews == [] then []
    else
      var n := |reviews| - 1;
      var rest := PendingAt(reviews[..n], kind, id, company);
      assert forall k :: 0 <= k < |rest| ==> rest[k] in rest;
      if PendingFor(reviews[n], kind, id, company) then rest + [n] else rest
  }

  /** The one pending proposal, if any; the query fails when there are several. */
  function PendingReview(reviews: seq<Review>, kind: string, id: string, company: string): (r: Result<Option<nat>>)
    ensures r.Ok? && r.value.Some? ==> r.value.value < |reviews| && PendingFor(reviews[r.value.value], kind, id, company)
    ensures r.Ok? && r.value.None? ==> forall i: nat :: i < |reviews| ==> !PendingFor(reviews[i], kind, id, company)
  {
    var at := PendingAt(reviews, kind, id, company);
    if |at| == 0 then
      assert forall i: nat :: i in at <==> i < |reviews| && PendingFor(reviews[i], kind, id, company);
      Ok(None)
    else if |at| == 1 then assert at[0] in at; Ok(Some(at[0]))
    else Err("multiple results")
  }

  function Insert(ids: seq<nat>, id: nat): seq<nat> {
    InsertId(ids, id)
  }

  function InsertAll(ids: seq<nat>, more: seq<nat>): seq<nat> {
    if more == [] then ids else Insert(InsertAll(ids, more[1..]), more[0])
  }

  function PreparationPolicy(w: World, actor: nat, preparers: seq<nat>, module_: string): Result<Policy> {
    match Ranked(w, InsertAll([actor], preparers), module_)
    case None => Err("preparers need an approval rank")
    case Some(ranked) => Ok(Independent(module_, ranked))
  }

  /** Does the operation go on with its payload, or does that wait in the review at a position? */
  datatype Decision = Proceed(payload: Payload) | Wait(payload: Payload, review: nat)

  /** The gate every reviewed operation passes; `running` is the review whose execution is under way. */
  function RequireReview(s: State, kind: string, id: string, company: string, actor: nat, payload: Payload, preparers: seq<nat>,
      required: bool, running: Option<nat>): Result<(State, Decision)>
    requires running.Some? ==> running.value < |s.reviews|
  {
    if !Allowed(s, company, actor, Scope(kind).0, Scope(kind).1) then Err("not allowed to prepare")
    else if running.Some? then
      var r := s.reviews[running.value];
      if (r.kind, r.id, r.company) != (kind, id, company) then Err("another operation is under review")
      else if payload != r.payload then Err("the operation changed after the review was requested")
      else Ok((s, Proceed(payload)))
    else if !required then Ok((s, Proceed(payload)))
    else
      var pending :- PendingReview(s.reviews, kind, id, company);
      var w := s.worlds[company];
      if pending.None? && (!w.differentApprover || !w.engineEnabled) then Ok((s, Proceed(payload)))
      else
        var policy :- PreparationPolicy(w, actor, preparers, Scope(kind).0);
        if pending.Some? && s.reviews[pending.value].payload == payload then Ok((s, Wait(payload, pending.value)))
        else
          var reviews := if pending.Some? then s.reviews[pending.value := s.reviews[pending.value].(status := Invalidated)]
                         else s.reviews;
          var r := Review(kind, id, company, actor, payload, policy, Pending);
          Ok((s.(reviews := reviews + [r]), Wait(payload, |s.reviews|)))
  }

  // ---------------------------------------------------------------- the matching configuration

  function ConfigId(model: string, company: string): string {
    model + ":" + company
  }

  /** The payload of a change from one typed configuration to another. */
  function ConfigProposal(model: string, fields: seq<string>, before: Values, after: Values): Payload {
    ConfigPayload(model, PlainAll(before), PlainAll(after), Changed(fields, before, after))
  }

  /** A change of typed configurations. */
  datatype Change = Change(fields: seq<string>, before: Values, after: Values)

  /** The typed change from the stored configuration, which must still be the expected one. */
  function ConfigChange(configs: map<(string, string), Values>, model: string, company: string, values: Values,
      expected: Option<Values>): Result<Change>
  {
    match Fields(model)
    case None => Err("no such configuration")
    case Some(fields) =>
      if (model, company) !in configs then Err("no configuration for the company")
      else
        var after :- NormalizeAll(fields, values);
        var before :- NormalizeAll(fields, configs[(model, company)]);
        var wanted :- if expected.Some? then NormalizeAll(fields, expected.value) else Ok(before);
        if !SameAll(fields, before, wanted) then Err("the operation changed after the review was requested")
        else Ok(Change(fields, before, after))
  }

  /** No column of a configuration is left empty, and tolerances are numbers. */
  predicate Fits(field: string, v: Value) {
    v != Null && (IsDecimalField(field) ==> v.Dec?)
  }

  predicate AllFit(fields: seq<string>, values: Values) {
    forall f :: f in fields ==> Fits(f, ValueOf(values, f))
  }

  /** A change that may go on is written into the configuration, if its columns take the values. */
  function PassGate(s: State, model: string, company: string, c: Change, actor: nat, running: Option<nat>): Result<(State, Decision)>
    requires running.Some? ==> running.value < |s.reviews|
    requires (model, company) in s.configs
  {
    var (t, d) :- RequireReview(s, CONFIG_CHANGE, ConfigId(model, company), company, actor,
                                ConfigProposal(model, c.fields, c.before, c.after), [],
                                Changed(c.fields, c.before, c.after) != [], running);
    if d.Wait? then Ok((t, d))
    else if !AllFit(c.fields, c.after) then Err("the database refuses a value")
    else Ok((t.(configs := s.configs[(model, company) := s.configs[(model, company)] + Columns(c.after)]), d))
  }

  /** Change the configuration, or leave the change waiting for review. */
  function UpdateConfig(s: State, model: string, company: string, values: Values, actor: nat, expected: Option<Values>,
      running: Option<nat>): Result<(State, Decision)>
    requires running.Some? ==> running.value < |s.reviews|
  {
    var c :- ConfigChange(s.configs, model, company, values, expected);
    PassGate(s, model, company, c, actor, running)
  }

  // ---------------------------------------------------------------- decisions

  predicate ReviewAllowed(s: State, i: nat, user: nat)
    requires i < |s.reviews|
  {
    var r := s.reviews[i];
    && ReviewType(r.kind) && r.status.Pending? && r.policy.Independent? && r.company in s.worlds
    && Permits(s.worlds[r.company], r.policy, user)
    && Allowed(s, r.company, user, r.policy.module_, Scope(r.kind).1)
  }

  /**
    Carry out a reviewed proposal, and say on what payload. The services behind the other kinds pass their own payload
    through the gate; `recomputed` is that payload, if the service gets as far.
   */
  function Execute(s: State, i: nat, user: nat, recomputed: Option<Payload>): Result<(State, Payload)>
    requires i < |s.reviews|
  {
    var r := s.reviews[i];
    if r.kind == CONFIG_CHANGE then
      match r.payload
      case OtherPayload(_) => Err("malformed payload")
      case ConfigPayload(model, before, after, _) =>
        var (t, d) :- UpdateConfig(s, model, r.company, after, user, Some(before), Some(i));
        Ok((t, d.payload))
    else
      match recomputed
      case None => Err("the operation failed")
      case Some(payload) =>
        var (t, d) :- RequireReview(s, r.kind, r.id, r.company, user, payload, [], true, Some(i));
        Ok((t, d.payload))
  }

  function ApproveReview(s: State, i: nat, user: nat, recomputed: Option<Payload>): Result<State> {
    if i >= |s.reviews| || !ReviewAllowed(s, i, user) then Err("not allowed to review")
    else
      var (t, performed) :- Execute(s, i, user, recomputed);
      if i >= |t.reviews| then Err("the review is gone")
      else Ok(t.(reviews := t.reviews[i := t.reviews[i].(status := Approved)],
                 executions := t.executions + [Execution(i, user, performed, s.worlds)]))
  }

  function RejectReview(s: State, i: nat, user: nat): Result<State> {
    if i >= |s.reviews| || !ReviewAllowed(s, i, user) then Err("not allowed to review")
    else Ok(s.(reviews := s.reviews[i := s.reviews[i].(status := Rejected)]))
  }

  // ---------------------------------------------------------------- the machine

  datatype Step =
    | Update(model: string, company: string, values: Values, actor: nat)
    | Propose(kind: string, id: string, company: string, actor: nat, payload: Payload, preparers: seq<nat>, required: bool)
    | Approve(review: nat, user: nat, recomputed: Option<Payload>)
    | Reject(review: nat, user: nat)
    | Configure(worlds: map<string, World>)
    | Rewrite(config: (string, string), stored: Values)

  /** A step that raises is rolled back. Configurations may also be rewritten behind the service. */
  function Next(s: State, step: Step): State {
    match step
    case Update(model, company, values, actor) =>
      (match UpdateConfig(s, model, company, values, actor, None, None) case Ok((t, _)) => t case Err(_) => s)
    case Propose(kind, id, company, actor, payload, preparers, required) =>
      if kind == CONFIG_CHANGE then s
      else
        (match RequireReview(s, kind, id, company, actor, payload, preparers, required, None)
         case Ok((t, _)) => t
         case Err(_) => s)
    case Approve(i, user, recomputed) => (match ApproveReview(s, i, user, recomputed) case Ok(t) => t case Err(_) => s)
    case Reject(i, user) => (match RejectReview(s, i, user) case Ok(t) => t case Err(_) => s)
    case Configure(worlds) => s.(worlds := worlds)
    case Rewrite(config, stored) =>
      if Fields(config.0).Some? && AllFit(Fields(config.0).value, stored)
      then s.(configs := s.configs[config := Columns(stored)]) else s
  }

  function Run(s: State, steps: seq<Step>): State
    decreases |steps|
  {
    if steps == [] then s else Next(Run(s, steps[..|steps| - 1]), steps[|steps| - 1])
  }

  predicate Initial(s: State) {
    s.reviews == [] && s.executions == []
  }

  // ---------------------------------------------------------------- the service as it updates its tables

  /** A method that raises leaves the tables as they were: its caller rolls the transaction back. */
  class ReviewService {
    var worlds: map<string, World>
    var configs: map<(string, string), Values>
    var reviews: seq<Review>
    var executions: seq<Execution>

    function View(): State
      reads this
    {
      State(worlds, configs, reviews, executions)
    }

    constructor (s: State)
      ensures View() == s
    {
      worlds, configs, reviews, executions := s.worlds, s.configs, s.reviews, s.executions;
    }

    /** The pending proposals of an operation, found by going through the table. */
    method FindPending(kind: string, id: string, company: string) returns (r: Result<Option<nat>>)
      ensures r == PendingReview(reviews, kind, id, company)
    {
      var at: seq<nat> := [];
      for i := 0 to |reviews|
        invariant at == PendingAt(reviews[..i], kind, id, company)
      {
        assert reviews[..i + 1][..i] == reviews[..i];
        if PendingFor(reviews[i], kind, id, company) { at := at + [i]; }
      }
      assert reviews[..|reviews|] == reviews;
      if |at| > 1 { return Err("multiple results"); }
      r := Ok(if at == [] then None else Some(at[0]));
    }

    /** The gate; a changed proposal invalidates the pending one and replaces it. */
    method Require(kind: string, id: string, company: string, actor: nat, payload: Payload, preparers: seq<nat>, required: bool,
        running: Option<nat>) returns (r: Result<Decision>)
      requires running.Some? ==> running.value < |reviews|
      modifies this
      ensures match RequireReview(old(View()), kind, id, company, actor, payload, preparers, required, running)
              case Err(e) => r == Err(e) && View() == old(View())
              case Ok((t, d)) => r == Ok(d) && View() == t
    {
      var (module_, action) := Scope(kind);
      if !Allowed(View(), company, actor, module_, action) { return Err("not allowed to prepare"); }
      if running.Some? {
        var review := reviews[running.value];
        if (review.kind, review.id, review.company) != (kind, id, company) { return Err("another operation is under review"); }
        if payload != review.payload { return Err("the operation changed after the review was requested"); }
        return Ok(Proceed(payload));
      }
      if !required { return Ok(Proceed(payload)); }
      var pending := FindPending(kind, id, company);
      if pending.Err? { return Err(pending.error); }
      var w := worlds[company];
      if pending.value.None? && (!w.differentApprover || !w.engineEnabled) { return Ok(Proceed(payload)); }
      var policy := PreparationPolicy(w, actor, preparers, module_);
      if policy.Err? { return Err(policy.error); }
      if pending.value.Some? {
        var i := pending.value.value;
        if reviews[i].payload == payload { return Ok(Wait(payload, i)); }
        reviews := reviews[i := reviews[i].(status := Invalidated)];
      }
      r := Ok(Wait(payload, |reviews|));
      reviews := reviews + [Review(kind, id, company, actor, payload, policy.value, Pending)];
    }

    /** The typed values of the fields. */
    method NormalizeFields(fields: seq<string>, values: Values) returns (r: Result<Values>)
      ensures r == NormalizeAll(fields, values)
    {
      var typed: Values := map[];
      for i := 0 to |fields|
        invariant NormalizeAll(fields[..i], values) == Ok(typed)
      {
        assert fields[..i + 1][..i] == fields[..i];
        var v := Normalize(fields[i], ValueOf(values, fields[i]));
        if v.Err? {
          NormalizeStaysErr(fields, values, i + 1);
          return Err(v.error);
        }
        typed := typed[fields[i] := v.value];
      }
      assert fields[..|fields|] == fields;
      r := Ok(typed);
    }

    /** Write the typed values into the configuration row, field by field; the columns keep four digits. */
    method ApplyFields(config: (string, string), fields: seq<string>, values: Values)
      requires config in configs && forall f :: f in fields <==> f in values
      modifies `configs
      ensures configs == old(configs)[config := old(configs)[config] + Columns(values)]
    {
      for i := 0 to |fields|
        invariant config in configs && configs == old(configs)[config := configs[config]]
        invariant forall f :: f in configs[config] <==> f in old(configs)[config] || f in fields[..i]
        invariant forall f :: f in fields[..i] ==> configs[config][f] == Column(values[f])
        invariant forall f :: f in old(configs)[config] && f !in fields[..i] ==> configs[config][f] == old(configs)[config][f]
      {
        assert fields[..i + 1] == fields[..i] + [fields[i]];
        configs := configs[config := configs[config][fields[i] := Column(values[fields[i]])]];
      }
      assert fields[..|fields|] == fields;
      assert configs[config] == old(configs)[config] + Columns(values);
    }

    /** The typed change, if the configuration is still the expected one. */
    method CheckedChange(model: string, company: string, values: Values, expected: Option<Values>) returns (r: Result<Change>)
      ensures r == ConfigChange(configs, model, company, values, expected)
    {
      var fields := Fields(model);
      if fields.None? { return Err("no such configuration"); }
      if (model, company) !in configs { return Err("no configuration for the company"); }
      var after := NormalizeFields(fields.value, values);
      if after.Err? { return Err(after.error); }
      var before := NormalizeFields(fields.value, configs[(model, company)]);
      if before.Err? { return Err(before.error); }
      if expected.Some? {
        var wanted := NormalizeFields(fields.value, expected.value);
        if wanted.Err? { return Err(wanted.error); }
        if !SameAll(fields.value, before.value, wanted.value) {
          return Err("the operation changed after the review was requested");
        }
      } else {
        AllSame(fields.value, before.value);
      }
      r := Ok(Change(fields.value, before.value, after.value));
    }

    /** Write the change unless it has to wait for review. */
    method ApplyOrWait(model: string, company: string, c: Change, actor: nat, running: Option<nat>) returns (r: Result<Decision>)
      requires running.Some? ==> running.value < |reviews|
      requires (model, company) in configs && forall f :: f in c.fields <==> f in c.after
      modifies this
      ensures match PassGate(old(View()), model, company, c, actor, running)
              case Err(e) => r == Err(e) && View() == old(View())
              case Ok((t, d)) => r == Ok(d) && View() == t
    {
      var payload := ConfigProposal(model, c.fields, c.before, c.after);
      var required := Changed(c.fields, c.before, c.after) != [];
      GateThenWrite(View(), model, company, c, actor, running);
      r := Require(CONFIG_CHANGE, ConfigId(model, company), company, actor, payload, [], required, running);
      if r.Ok? && r.value.Proceed? {
        if !AllFit(c.fields, c.after) { return Err("the database refuses a value"); }
        ApplyFields((model, company), c.fields, c.after);
      }
    }

    /** Change the configuration, or leave the change waiting for review. */
    method UpdateMatchingConfig(model: string, company: string, values: Values, actor: nat, expected: Option<Values>,
        running: Option<nat>) returns (r: Result<Decision>)
      requires running.Some? ==> running.value < |reviews|
      modifies this
      ensures match UpdateConfig(old(View()), model, company, values, actor, expected, running)
              case Err(e) => r == Err(e) && View() == old(View())
              case Ok((t, d)) => r == Ok(d) && View() == t
    {
      var change := CheckedChange(model, company, values, expected);
      if change.Err? { return Err(change.error); }
      ChangeIsTyped(configs, model, company, values, expected);
      r := ApplyOrWait(model, company, change.value, actor, running);
    }

    /** Carry out a proposal, and say on what payload. */
    method ExecuteReview(i: nat, user: nat, recomputed: Option<Payload>) returns (r: Result<Payload>)
      requires i < |reviews|
      modifies this
      ensures match Execute(old(View()), i, user, recomputed)
              case Err(e) => r == Err(e) && View() == old(View())
              case Ok((t, performed)) => r == Ok(performed) && View() == t
    {
      var review := reviews[i];
      var done: Result<Decision>;
      if review.kind == CONFIG_CHANGE {
        match review.payload
        case OtherPayload(_) => return Err("malformed payload");
        case ConfigPayload(model, before, after, _) =>
          done := UpdateMatchingConfig(model, review.company, after, user, Some(before), Some(i));
      } else {
        if recomputed.None? { return Err("the operation failed"); }
        done := Require(review.kind, review.id, review.company, user, recomputed.value, [], true, Some(i));
      }
      if done.Err? { return Err(done.error); }
      r := Ok(done.value.payload);
    }

    /** Approve and carry out once. */
    method Approve(i: nat, user: nat, recomputed: Option<Payload>) returns (r: Result<()>)
      modifies this
      ensures match ApproveReview(old(View()), i, user, recomputed)
              case Err(e) => r == Err(e) && View() == old(View())
              case Ok(t) => r == Ok(()) && View() == t
    {
      if i >= |reviews| || !ReviewAllowed(View(), i, user) { return Err("not allowed to review"); }
      var done := ExecuteReview(i, user, recomputed);
      if done.Err? { return Err(done.error); }
      ExecutionKeepsReviews(old(View()), i, user, recomputed);
      reviews := reviews[i := reviews[i].(status := Approved)];
      executions := executions + [Execution(i, user, done.value, worlds)];
      r := Ok(());
    }

    /** Reject without changing anything else. */
    method Reject(i: nat, user: nat) returns (r: Result<()>)
      modifies this
      ensures match RejectReview(old(View()), i, user)
              case Err(e) => r == Err(e) && View() == old(View())
              case Ok(t) => r == Ok(()) && View() == t
    {
      if i >= |reviews| || !ReviewAllowed(View(), i, user) { return Err("not allowed to review"); }
      reviews := reviews[i := reviews[i].(status := Rejected)];
      r := Ok(());
    }
  }

  /** The gate, and then the write, which finds everything as it was. */
  lemma GateThenWrite(s: State, model: string, company: string, c: Change, actor: nat, running: Option<nat>)
    requires running.Some? ==> running.value < |s.reviews|
    requires (model, company) in s.configs
    ensures var gate := RequireReview(s, CONFIG_CHANGE, ConfigId(model, company), company, actor,
                                      ConfigProposal(model, c.fields, c.before, c.after), [],
                                      Changed(c.fields, c.before, c.after) != [], running);
            && (gate.Err? || gate.value.1.Wait? ==> PassGate(s, model, company, c, actor, running) == gate)
            && (gate.Ok? && gate.value.1.Proceed? ==>
                  && gate.value.0 == s
                  && PassGate(s, model, company, c, actor, running)
                     == if !AllFit(c.fields, c.after) then Err("the database refuses a value")
                        else Ok((s.(configs := s.configs[(model, company) := s.configs[(model, company)] + Columns(c.after)]),
                                 gate.value.1)))
  {
    var payload, required := ConfigProposal(model, c.fields, c.before, c.after), Changed(c.fields, c.before, c.after) != [];
    if RequireReview(s, CONFIG_CHANGE, ConfigId(model, company), company, actor, payload, [], required, running).Ok? {
      ProceedChangesNothing(s, CONFIG_CHANGE, ConfigId(model, company), company, actor, payload, [], required, running);
    }
  }

  /** A change made while a review is carried out is written, and touches no review. */
  lemma RunningUpdate(s: State, model: string, company: string, values: Values, actor: nat, expected: Option<Values>, i: nat)
    requires i < |s.reviews| && UpdateConfig(s, model, company, values, actor, expected, Some(i)).Ok?
    ensures var c := ConfigChange(s.configs, model, company, values, expected);
            && c.Ok? && AllFit(c.value.fields, c.value.after)
            && UpdateConfig(s, model, company, values, actor, expected, Some(i)).value
               == (s.(configs := s.configs[(model, company) := s.configs[(model, company)] + Columns(c.value.after)]),
                   Proceed(ConfigProposal(model, c.value.fields, c.value.before, c.value.after)))
  {
    var c := ConfigChange(s.configs, model, company, values, expected).value;
    assert PassGate(s, model, company, c, actor, Some(i)).Ok?;
  }

  /** Carrying out a review passes the gate with that review's own payload and leaves the reviews alone. */
  lemma ExecutionKeepsReviews(s: State, i: nat, user: nat, recomputed: Option<Payload>)
    requires i < |s.reviews| && Execute(s, i, user, recomputed).Ok?
    ensures var (t, performed) := Execute(s, i, user, recomputed).value;
            && performed == s.reviews[i].payload
            && t.reviews == s.reviews && t.executions == s.executions && t.worlds == s.worlds
            && (s.reviews[i].kind != CONFIG_CHANGE ==> t == s && recomputed == Some(performed))
  {
    var r := s.reviews[i];
    if r.kind == CONFIG_CHANGE {
      RunningUpdate(s, r.payload.model, r.company, r.payload.after, user, Some(r.payload.before), i);
    }
  }

  lemma {:induction false} NormalizeStaysErr(fields: seq<string>, values: Values, k: nat)
    requires k <= |fields| && NormalizeAll(fields[..k], values).Err?
    ensures NormalizeAll(fields, values) == NormalizeAll(fields[..k], values)
    decreases |fields| - k
  {
    if k < |fields| {
      assert fields[..k + 1][..k] == fields[..k];
      NormalizeStaysErr(fields, values, k + 1);
    } else {
      assert fields[..k] == fields;
    }
  }

  lemma AllSame(fields: seq<string>, values: Values)
    ensures SameAll(fields, values, values)
  {
  }

  /** Exactly the listed fields are typed, each by its own rule. */
  lemma {:induction false} NormalizedFields(fields: seq<string>, values: Values)
    requires NormalizeAll(fields, values).Ok?
    ensures forall f :: f in fields <==> f in NormalizeAll(fields, values).value
    ensures forall f :: f in fields ==> Normalize(f, ValueOf(values, f)) == Ok(NormalizeAll(fields, values).value[f])
  {
    if fields != [] {
      var front, last := fields[..|fields| - 1], fields[|fields| - 1];
      assert fields == front + [last];
      NormalizedFields(front, values);
    }
  }

  lemma ChangeIsTyped(configs: map<(string, string), Values>, model: string, company: string, values: Values,
      expected: Option<Values>)
    requires ConfigChange(configs, model, company, values, expected).Ok?
    ensures var c := ConfigChange(configs, model, company, values, expected).value;
            (model, company) in configs && forall f :: f in c.fields <==> f in c.after
  {
    NormalizedFields(Fields(model).value, values);
  }

  lemma ProceedChangesNothing(s: State, kind: string, id: string, company: string, actor: nat, payload: Payload,
      preparers: seq<nat>, required: bool, running: Option<nat>)
    requires running.Some? ==> running.value < |s.reviews|
    requires RequireReview(s, kind, id, company, actor, payload, preparers, required, running).Ok?
    ensures var (t, d) := RequireReview(s, kind, id, company, actor, payload, preparers, required, running).value;
            t.configs == s.configs && t.executions == s.executions && t.worlds == s.worlds && (d.Proceed? ==> t == s)
  {
  }
}
