/**
  What reviews promise over every run, and exactly when an approved configuration change goes through.
 */
module ReviewTheorems {
  import opened Common
  import opened ApprovalPolicy
  import opened ControlReview

  // ---------------------------------------------------------------- the invariant

  predicate SameOperation(a: Review, b: Review) {
    a.kind == b.kind && a.id == b.id && a.company == b.company
  }

  predicate OnePending(reviews: seq<Review>) {
    forall i, j :: 0 <= i < j < |reviews| && SameOperation(reviews[i], reviews[j])
      ==> !(reviews[i].status.Pending? && reviews[j].status.Pending?)
  }

  /** Carried out on the payload that was reviewed, by somebody its frozen policy permits, who is no preparer. */
  predicate ExecutedAsReviewed(s: State, e: Execution) {
    && e.review < |s.reviews| && s.reviews[e.review].status.Approved?
    && e.payload == s.reviews[e.review].payload
    && s.reviews[e.review].policy.Independent? && !IsPreparer(s.reviews[e.review].policy.preparers, e.approver)
    && s.reviews[e.review].company in e.worlds
    && Permits(e.worlds[s.reviews[e.review].company], s.reviews[e.review].policy, e.approver)
  }

  predicate AllExecutedAsReviewed(s: State) {
    forall k :: 0 <= k < |s.executions| ==> ExecutedAsReviewed(s, s.executions[k])
  }

  predicate ExecutedOnce(executions: seq<Execution>) {
    forall i, j :: 0 <= i < j < |executions| ==> executions[i].review != executions[j].review
  }

  predicate Inv(s: State) {
    OnePending(s.reviews) && AllExecutedAsReviewed(s) && ExecutedOnce(s.executions)
  }

  // ---------------------------------------------------------------- the gate keeps it

  /** Without an execution under way the gate changes the reviews in one of three ways. */
  lemma GateShape(s: State, kind: string, id: string, company: string, actor: nat, payload: Payload, preparers: seq<nat>,
      required: bool)
    requires RequireReview(s, kind, id, company, actor, payload, preparers, required, None).Ok?
    ensures var t := RequireReview(s, kind, id, company, actor, payload, preparers, required, None).value.0;
            || t == s
            || (exists r: Review :: r.kind == kind && r.id == id && r.company == company && r.status.Pending?
                  && r.payload == payload && r.requester == actor && Replaced(s, t, kind, id, company, r))
  {
    var (t, d) := RequireReview(s, kind, id, company, actor, payload, preparers, required, None).value;
    if t != s {
      var r := t.reviews[|t.reviews| - 1];
      assert Replaced(s, t, kind, id, company, r);
    }
  }

  /** A new proposal is appended; a pending one for the same operation has become invalid. */
  predicate Replaced(s: State, t: State, kind: string, id: string, company: string, r: Review) {
    match PendingReview(s.reviews, kind, id, company)
    case Err(_) => false
    case Ok(None) => t == s.(reviews := s.reviews + [r])
    case Ok(Some(i)) => t == s.(reviews := s.reviews[i := s.reviews[i].(status := Invalidated)] + [r])
  }

  lemma OnlyPendingFound(reviews: seq<Review>, kind: string, id: string, company: string, i: nat, k: nat)
    requires OnePending(reviews) && PendingReview(reviews, kind, id, company) == Ok(Some(i))
    requires k < |reviews| && PendingFor(reviews[k], kind, id, company)
    ensures k == i
  {
    if k < i {
      assert SameOperation(reviews[k], reviews[i]);
    } else if i < k {
      assert SameOperation(reviews[i], reviews[k]);
    }
  }

  lemma ReplacedKeepsOnePending(s: State, t: State, kind: string, id: string, company: string, r: Review)
    requires OnePending(s.reviews) && r.kind == kind && r.id == id && r.company == company
    requires Replaced(s, t, kind, id, company, r)
    ensures OnePending(t.reviews)
  {
    var pending := PendingReview(s.reviews, kind, id, company).value;
    forall i, j | 0 <= i < j < |t.reviews| && SameOperation(t.reviews[i], t.reviews[j])
      ensures !(t.reviews[i].status.Pending? && t.reviews[j].status.Pending?)
    {
      if j == |s.reviews| {
        if pending.Some? && PendingFor(s.reviews[i], kind, id, company) {
          OnlyPendingFound(s.reviews, kind, id, company, pending.value, i);
        }
      } else {
        assert SameOperation(s.reviews[i], s.reviews[j]);
      }
    }
  }

  lemma ReplacedKeepsExecutions(s: State, t: State, kind: string, id: string, company: string, r: Review)
    requires AllExecutedAsReviewed(s) && Replaced(s, t, kind, id, company, r)
    ensures AllExecutedAsReviewed(t) && t.executions == s.executions
  {
    forall k | 0 <= k < |t.executions| ensures ExecutedAsReviewed(t, t.executions[k]) {
      assert ExecutedAsReviewed(s, s.executions[k]);
    }
  }

  lemma GateKeepsInv(s: State, kind: string, id: string, company: string, actor: nat, payload: Payload, preparers: seq<nat>,
      required: bool)
    requires Inv(s) && RequireReview(s, kind, id, company, actor, payload, preparers, required, None).Ok?
    ensures Inv(RequireReview(s, kind, id, company, actor, payload, preparers, required, None).value.0)
  {
    var t := RequireReview(s, kind, id, company, actor, payload, preparers, required, None).value.0;
    GateShape(s, kind, id, company, actor, payload, preparers, required);
    if t != s {
      var r: Review :| r.kind == kind && r.id == id && r.company == company && Replaced(s, t, kind, id, company, r);
      ReplacedKeepsOnePending(s, t, kind, id, company, r);
      ReplacedKeepsExecutions(s, t, kind, id, company, r);
    }
  }

  lemma SameReviewsSameInv(s: State, t: State)
    requires Inv(s) && t.reviews == s.reviews && t.executions == s.executions
    ensures Inv(t)
  {
    forall k | 0 <= k < |t.executions| ensures ExecutedAsReviewed(t, t.executions[k]) {
      assert ExecutedAsReviewed(s, s.executions[k]);
    }
  }

  lemma UpdateKeepsInv(s: State, model: string, company: string, values: Values, actor: nat)
    requires Inv(s) && UpdateConfig(s, model, company, values, actor, None, None).Ok?
    ensures Inv(UpdateConfig(s, model, company, values, actor, None, None).value.0)
  {
    var c := ConfigChange(s.configs, model, company, values, None).value;
    var payload := ConfigProposal(model, c.fields, c.before, c.after);
    var required := Changed(c.fields, c.before, c.after) != [];
    GateKeepsInv(s, CONFIG_CHANGE, ConfigId(model, company), company, actor, payload, [], required);
    var t := RequireReview(s, CONFIG_CHANGE, ConfigId(model, company), company, actor, payload, [], required, None).value.0;
    SameReviewsSameInv(t, UpdateConfig(s, model, company, values, actor, None, None).value.0);
  }

  // ---------------------------------------------------------------- decisions keep it

  lemma DecidedKeepsOnePending(reviews: seq<Review>, i: nat, status: Status)
    requires i < |reviews| && OnePending(reviews) && !status.Pending?
    ensures OnePending(reviews[i := reviews[i].(status := status)])
  {
    var after := reviews[i := reviews[i].(status := status)];
    forall j, k | 0 <= j < k < |after| && SameOperation(after[j], after[k])
      ensures !(after[j].status.Pending? && after[k].status.Pending?)
    {
      assert SameOperation(reviews[j], reviews[k]);
    }
  }

  lemma DecidedKeepsExecutions(s: State, t: State, i: nat, status: Status)
    requires i < |s.reviews| && s.reviews[i].status.Pending? && AllExecutedAsReviewed(s)
    requires t.reviews == s.reviews[i := s.reviews[i].(status := status)]
    ensures forall k :: 0 <= k < |s.executions| ==> ExecutedAsReviewed(t, s.executions[k]) && s.executions[k].review != i
  {
    forall k | 0 <= k < |s.executions| ensures ExecutedAsReviewed(t, s.executions[k]) && s.executions[k].review != i {
      assert ExecutedAsReviewed(s, s.executions[k]);
    }
  }

  /** What an approval records. */
  lemma ApprovalRecords(s: State, i: nat, user: nat, recomputed: Option<Payload>)
    requires ApproveReview(s, i, user, recomputed).Ok?
    ensures var t := ApproveReview(s, i, user, recomputed).value;
            && i < |s.reviews| && ReviewAllowed(s, i, user)
            && t.reviews == s.reviews[i := s.reviews[i].(status := Approved)]
            && t.executions == s.executions + [Execution(i, user, s.reviews[i].payload, s.worlds)]
  {
    ExecutionKeepsReviews(s, i, user, recomputed);
  }

  lemma ApproveKeepsInv(s: State, i: nat, user: nat, recomputed: Option<Payload>)
    requires Inv(s) && ApproveReview(s, i, user, recomputed).Ok?
    ensures Inv(ApproveReview(s, i, user, recomputed).value)
  {
    var t := ApproveReview(s, i, user, recomputed).value;
    ApprovalRecords(s, i, user, recomputed);
    DecidedKeepsOnePending(s.reviews, i, Approved);
    DecidedKeepsExecutions(s, t, i, Approved);
    var n := |s.executions|;
    assert ExecutedAsReviewed(t, t.executions[n]);
    forall k | 0 <= k < n ensures ExecutedAsReviewed(t, t.executions[k]) && t.executions[k].review != i {
      assert t.executions[k] == s.executions[k];
    }
  }

  lemma RejectKeepsInv(s: State, i: nat, user: nat)
    requires Inv(s) && RejectReview(s, i, user).Ok?
    ensures Inv(RejectReview(s, i, user).value)
  {
    DecidedKeepsOnePending(s.reviews, i, Rejected);
    DecidedKeepsExecutions(s, RejectReview(s, i, user).value, i, Rejected);
  }

  lemma NextKeepsInv(s: State, step: Step)
    requires Inv(s)
    ensures Inv(Next(s, step))
  {
    if Next(s, step) != s {
      match step
      case Update(model, company, values, actor) => UpdateKeepsInv(s, model, company, values, actor);
      case Propose(kind, id, company, actor, payload, preparers, required) =>
        GateKeepsInv(s, kind, id, company, actor, payload, preparers, required);
      case Approve(i, user, recomputed) => ApproveKeepsInv(s, i, user, recomputed);
      case Reject(i, user) => RejectKeepsInv(s, i, user);
      case Configure(worlds) => SameReviewsSameInv(s, Next(s, step));
      case Rewrite(config, stored) => SameReviewsSameInv(s, Next(s, step));
    }
  }

  lemma {:induction false} RunKeepsInv(s: State, steps: seq<Step>)
    requires Inv(s)
    ensures Inv(Run(s, steps))
    decreases |steps|
  {
    if steps != [] {
      RunKeepsInv(s, steps[..|steps| - 1]);
      NextKeepsInv(Run(s, steps[..|steps| - 1]), steps[|steps| - 1]);
    }
  }

  // ---------------------------------------------------------------- theorems over runs

  lemma OnePendingProposal(s: State, steps: seq<Step>, i: nat, j: nat)
    requires Initial(s) && i < |Run(s, steps).reviews| && j < |Run(s, steps).reviews|
    requires SameOperation(Run(s, steps).reviews[i], Run(s, steps).reviews[j])
    requires Run(s, steps).reviews[i].status.Pending? && Run(s, steps).reviews[j].status.Pending?
    ensures i == j
  {
    RunKeepsInv(s, steps);
    assert SameOperation(Run(s, steps).reviews[j], Run(s, steps).reviews[i]);
  }

  /** A proposal is carried out at most once, on the reviewed payload, by a permitted user who prepared nothing of it. */
  lemma ExecutionsMatchReviews(s: State, steps: seq<Step>, k: nat)
    requires Initial(s) && k < |Run(s, steps).executions|
    ensures var t := Run(s, steps);
            var e := t.executions[k];
            && ExecutedAsReviewed(t, e)
            && forall m :: 0 <= m < |t.executions| && t.executions[m].review == e.review ==> m == k
  {
    RunKeepsInv(s, steps);
  }

  // ---------------------------------------------------------------- configuration values

  /** Reading a payload value back gives the typed value, decimals digit for digit. */
  lemma NormalizeReadsPlain(field: string, v: Value)
    requires Normalize(field, v).Ok? && (!IsDecimalField(field) ==> !v.Dec?)
    ensures Normalize(field, Plain(Normalize(field, v).value)) == Normalize(field, v)
  {
  }

  /** Only decimal fields hold decimals. */
  predicate Typed(fields: seq<string>, values: Values) {
    forall f :: f in fields && !IsDecimalField(f) ==> !ValueOf(values, f).Dec?
  }

  lemma {:induction false} PlainReadsBackOn(fields: seq<string>, values: Values, payload: Values)
    requires NormalizeAll(fields, values).Ok? && Typed(fields, values)
    requires forall f :: f in fields ==> ValueOf(payload, f) == Plain(ValueOf(NormalizeAll(fields, values).value, f))
    ensures NormalizeAll(fields, payload) == NormalizeAll(fields, values)
  {
    if fields != [] {
      var front, last := fields[..|fields| - 1], fields[|fields| - 1];
      assert fields == front + [last];
      NormalizedFields(fields, values);
      NormalizedFields(front, values);
      PlainReadsBackOn(front, values, payload);
      NormalizeReadsPlain(last, ValueOf(values, last));
    }
  }

  /** What a proposal shows for a configuration is read back as that configuration. */
  lemma PlainReadsBack(fields: seq<string>, values: Values)
    requires NormalizeAll(fields, values).Ok? && Typed(fields, values)
    ensures NormalizeAll(fields, PlainAll(NormalizeAll(fields, values).value)) == NormalizeAll(fields, values)
  {
    NormalizedFields(fields, values);
    PlainReadsBackOn(fields, values, PlainAll(NormalizeAll(fields, values).value));
  }

  /** Typed configurations that look alike in a payload are the same. */
  lemma PlainIsInjective(fields: seq<string>, a: Values, b: Values)
    requires NormalizeAll(fields, a).Ok? && NormalizeAll(fields, b).Ok? && Typed(fields, a) && Typed(fields, b)
    requires PlainAll(NormalizeAll(fields, a).value) == PlainAll(NormalizeAll(fields, b).value)
    ensures NormalizeAll(fields, a) == NormalizeAll(fields, b)
  {
    PlainReadsBack(fields, a);
    PlainReadsBack(fields, b);
  }

  // ---------------------------------------------------------------- approving a configuration change

  /** The stored configuration in the form of a payload, if it can be read. */
  function Shown(s: State, model: string, company: string): Option<Values> {
    if Fields(model).None? || (model, company) !in s.configs then None
    else
      match NormalizeAll(Fields(model).value, s.configs[(model, company)])
      case Err(_) => None
      case Ok(typed) => Some(PlainAll(typed))
  }

  /** A gate that lets a running review go on has checked its payload. */
  lemma GateChecksRunning(s: State, kind: string, id: string, company: string, actor: nat, payload: Payload, preparers: seq<nat>,
      required: bool, i: nat)
    requires i < |s.reviews|
    ensures var r := RequireReview(s, kind, id, company, actor, payload, preparers, required, Some(i));
            (r.Ok? <==> Allowed(s, company, actor, Scope(kind).0, Scope(kind).1) && payload == s.reviews[i].payload
                        && (s.reviews[i].kind, s.reviews[i].id, s.reviews[i].company) == (kind, id, company))
            && (r.Ok? ==> r.value == (s, Proceed(payload)))
  {
  }

  /** What a change read, and what its proposal shows of it. */
  lemma ChangeParts(s: State, model: string, company: string, values: Values, expected: Option<Values>, c: Change, p: Payload)
    requires ConfigChange(s.configs, model, company, values, expected) == Ok(c)
    requires ConfigProposal(model, c.fields, c.before, c.after) == p
    ensures Fields(model) == Some(c.fields) && (model, company) in s.configs
    ensures NormalizeAll(c.fields, values) == Ok(c.after) && PlainAll(c.after) == p.after
    ensures Shown(s, model, company) == Some(p.before)
  {
    ChangeReads(s.configs, model, company, values, expected, c);
    ShowsTyped(s, model, company, c.fields, c.before);
    assert p == ConfigPayload(model, PlainAll(c.before), PlainAll(c.after), Changed(c.fields, c.before, c.after));
  }

  lemma ChangeReads(configs: map<(string, string), Values>, model: string, company: string, values: Values,
      expected: Option<Values>, c: Change)
    requires ConfigChange(configs, model, company, values, expected) == Ok(c)
    ensures Fields(model) == Some(c.fields) && (model, company) in configs
    ensures NormalizeAll(c.fields, values) == Ok(c.after) && NormalizeAll(c.fields, configs[(model, company)]) == Ok(c.before)
  {
  }

  lemma ShowsTyped(s: State, model: string, company: string, fields: seq<string>, typed: Values)
    requires Fields(model) == Some(fields) && (model, company) in s.configs
    requires NormalizeAll(fields, s.configs[(model, company)]) == Ok(typed)
    ensures Shown(s, model, company) == Some(PlainAll(typed))
  {
  }

  /** The change an approval carries out, and that its proposal is the one reviewed. */
  lemma ApprovedChange(s: State, i: nat, user: nat, recomputed: Option<Payload>) returns (c: Change)
    requires i < |s.reviews| && s.reviews[i].kind == CONFIG_CHANGE && ApproveReview(s, i, user, recomputed).Ok?
    ensures var p, company := s.reviews[i].payload, s.reviews[i].company;
            && p.ConfigPayload? && Fields(p.model) == Some(c.fields) && (p.model, company) in s.configs
            && ConfigChange(s.configs, p.model, company, p.after, Some(p.before)) == Ok(c)
            && ConfigProposal(p.model, c.fields, c.before, c.after) == p
            && s.reviews[i].id == ConfigId(p.model, company) && Allowed(s, company, user, "admin", "edit")
            && ApproveReview(s, i, user, recomputed).value.configs
               == s.configs[(p.model, company) := s.configs[(p.model, company)] + Columns(c.after)]
            && AllFit(c.fields, c.after)
            && NormalizeAll(c.fields, p.after) == Ok(c.after) && PlainAll(c.after) == p.after
            && Shown(s, p.model, company) == Some(p.before)
  {
    var r := s.reviews[i];
    var p := r.payload;
    c := ConfigChange(s.configs, p.model, r.company, p.after, Some(p.before)).value;
    RunningUpdate(s, p.model, r.company, p.after, user, Some(p.before), i);
    GateChecksRunning(s, CONFIG_CHANGE, ConfigId(p.model, r.company), r.company, user,
                      ConfigProposal(p.model, c.fields, c.before, c.after), [], Changed(c.fields, c.before, c.after) != [], i);
    ChangeParts(s, p.model, r.company, p.after, Some(p.before), c, p);
  }

  /** The stored value is what its column keeps of the value shown in a payload. */
  predicate KeepsShown(field: string, shown: Value, stored: Value) {
    if IsDecimalField(field) then shown.Str? && shown.text.Numeral? && stored == Dec(FourDigits(shown.text.number))
    else stored == shown
  }

  /** Writing typed values into a row stores what the payload shows and leaves the other fields alone. */
  lemma WrittenFields(fields: seq<string>, row: Values, values: Values, typed: Values)
    requires NormalizeAll(fields, values) == Ok(typed) && PlainAll(typed) == values && AllFit(fields, typed)
    ensures forall f :: f in fields ==> f in values && KeepsShown(f, values[f], ValueOf(row + Columns(typed), f))
    ensures forall f :: f !in fields ==> ValueOf(row + Columns(typed), f) == ValueOf(row, f)
  {
    NormalizedFields(fields, values);
    forall f | f in fields ensures f in values && KeepsShown(f, values[f], ValueOf(row + Columns(typed), f)) {
      assert f in typed && values[f] == Plain(typed[f]) && Fits(f, ValueOf(typed, f));
      assert Normalize(f, values[f]) == Ok(typed[f]);
    }
  }

  /**
    A configuration change that is approved found the configuration exactly as reviewed, digit for digit, and leaves in
    it what the columns keep of the values proposed, other configurations untouched.
   */
  lemma ApprovedChangeMatchesReview(s: State, i: nat, user: nat, recomputed: Option<Payload>)
    requires i < |s.reviews| && s.reviews[i].kind == CONFIG_CHANGE && ApproveReview(s, i, user, recomputed).Ok?
    ensures var t, p, company := ApproveReview(s, i, user, recomputed).value, s.reviews[i].payload, s.reviews[i].company;
            && p.ConfigPayload? && Fields(p.model).Some?
            && Shown(s, p.model, company) == Some(p.before)
            && (p.model, company) in t.configs
            && (forall f :: f in Fields(p.model).value ==>
                  f in p.after && KeepsShown(f, p.after[f], ValueOf(t.configs[(p.model, company)], f)))
            && (forall f :: f !in Fields(p.model).value ==>
                  ValueOf(t.configs[(p.model, company)], f) == ValueOf(s.configs[(p.model, company)], f))
            && (forall key :: key in s.configs && key != (p.model, company) ==> key in t.configs && t.configs[key] == s.configs[key])
  {
    var p, company := s.reviews[i].payload, s.reviews[i].company;
    var c := ApprovedChange(s, i, user, recomputed);
    WrittenFields(c.fields, s.configs[(p.model, company)], p.after, c.after);
  }

  /** The payload a proposal of a typed change carries. */
  predicate WellFormed(r: Review) {
    && r.payload.ConfigPayload? && Fields(r.payload.model).Some? && r.id == ConfigId(r.payload.model, r.company)
    && var fields := Fields(r.payload.model).value;
       var before, after := NormalizeAll(fields, r.payload.before), NormalizeAll(fields, r.payload.after);
       && before.Ok? && after.Ok? && Typed(fields, r.payload.before)
       && PlainAll(before.value) == r.payload.before && PlainAll(after.value) == r.payload.after
       && Changed(fields, before.value, after.value) == r.payload.changed
  }

  /** Proposals made from typed configurations are well formed. */
  lemma ProposalIsWellFormed(s: State, model: string, company: string, values: Values, actor: nat, r: Review)
    requires ConfigChange(s.configs, model, company, values, None).Ok?
    requires Typed(Fields(model).value, values) && Typed(Fields(model).value, s.configs[(model, company)])
    requires r.kind == CONFIG_CHANGE && r.company == company && r.id == ConfigId(model, company)
    requires var c := ConfigChange(s.configs, model, company, values, None).value;
             r.payload == ConfigProposal(model, c.fields, c.before, c.after)
    ensures WellFormed(r)
  {
    var fields := Fields(model).value;
    PlainReadsBack(fields, values);
    PlainReadsBack(fields, s.configs[(model, company)]);
    PlainsAreNoDecimals(fields, s.configs[(model, company)]);
  }

  lemma PlainsAreNoDecimals(fields: seq<string>, values: Values)
    requires NormalizeAll(fields, values).Ok?
    ensures Typed(fields, PlainAll(NormalizeAll(fields, values).value))
  {
    NormalizedFields(fields, values);
  }

  lemma ShownAsReviewedChecks(s: State, i: nat)
    requires i < |s.reviews| && WellFormed(s.reviews[i])
    requires var r := s.reviews[i];
             Shown(s, r.payload.model, r.company) == Some(r.payload.before)
             && Typed(Fields(r.payload.model).value, s.configs[(r.payload.model, r.company)])
    ensures var r := s.reviews[i];
            var c := ConfigChange(s.configs, r.payload.model, r.company, r.payload.after, Some(r.payload.before));
            && c.Ok? && Fields(r.payload.model) == Some(c.value.fields) && (r.payload.model, r.company) in s.configs
            && c.value.after == NormalizeAll(c.value.fields, r.payload.after).value
            && ConfigProposal(r.payload.model, c.value.fields, c.value.before, c.value.after) == r.payload
  {
    var r := s.reviews[i];
    var fields := Fields(r.payload.model).value;
    PlainIsInjective(fields, s.configs[(r.payload.model, r.company)], r.payload.before);
    AllSame(fields, NormalizeAll(fields, r.payload.before).value);
  }

  /** The columns take every value proposed. */
  predicate Takes(p: Payload)
    requires p.ConfigPayload? && Fields(p.model).Some? && NormalizeAll(Fields(p.model).value, p.after).Ok?
  {
    AllFit(Fields(p.model).value, NormalizeAll(Fields(p.model).value, p.after).value)
  }

  /** The change goes through once it is allowed, fits and finds the configuration as reviewed. */
  lemma ShownChangeGoesThrough(s: State, i: nat, user: nat, recomputed: Option<Payload>)
    requires i < |s.reviews| && s.reviews[i].kind == CONFIG_CHANGE && WellFormed(s.reviews[i]) && ReviewAllowed(s, i, user)
    requires Allowed(s, s.reviews[i].company, user, "admin", "edit") && Takes(s.reviews[i].payload)
    requires var r := s.reviews[i];
             Shown(s, r.payload.model, r.company) == Some(r.payload.before)
             && Typed(Fields(r.payload.model).value, s.configs[(r.payload.model, r.company)])
    ensures ApproveReview(s, i, user, recomputed).Ok?
  {
    var r := s.reviews[i];
    var p := r.payload;
    ShownAsReviewedChecks(s, i);
    var c := ConfigChange(s.configs, p.model, r.company, p.after, Some(p.before)).value;
    GatePasses(s, p.model, r.company, c, user, i);
    ApprovalFollowsUpdate(s, i, user, recomputed);
  }

  lemma GatePasses(s: State, model: string, company: string, c: Change, user: nat, i: nat)
    requires i < |s.reviews| && (model, company) in s.configs && Allowed(s, company, user, "admin", "edit")
    requires (s.reviews[i].kind, s.reviews[i].id, s.reviews[i].company) == (CONFIG_CHANGE, ConfigId(model, company), company)
    requires s.reviews[i].payload == ConfigProposal(model, c.fields, c.before, c.after) && AllFit(c.fields, c.after)
    ensures PassGate(s, model, company, c, user, Some(i)).Ok?
  {
    GateChecksRunning(s, CONFIG_CHANGE, ConfigId(model, company), company, user,
                      ConfigProposal(model, c.fields, c.before, c.after), [], Changed(c.fields, c.before, c.after) != [], i);
  }

  lemma ApprovalFollowsUpdate(s: State, i: nat, user: nat, recomputed: Option<Payload>)
    requires i < |s.reviews| && ReviewAllowed(s, i, user) && s.reviews[i].kind == CONFIG_CHANGE && s.reviews[i].payload.ConfigPayload?
    requires var r := s.reviews[i];
             UpdateConfig(s, r.payload.model, r.company, r.payload.after, user, Some(r.payload.before), Some(i)).Ok?
    ensures ApproveReview(s, i, user, recomputed).Ok?
  {
    var r := s.reviews[i];
    RunningUpdate(s, r.payload.model, r.company, r.payload.after, user, Some(r.payload.before), i);
  }

  /**
    A well-formed change that the user may review goes through exactly when the user may also edit the configuration, the
    columns take the values, and the configuration still shows as reviewed.
   */
  lemma ChangeIsApprovedIff(s: State, i: nat, user: nat, recomputed: Option<Payload>)
    requires i < |s.reviews| && s.reviews[i].kind == CONFIG_CHANGE && WellFormed(s.reviews[i]) && ReviewAllowed(s, i, user)
    requires var r := s.reviews[i];
             (r.payload.model, r.company) in s.configs
             ==> Typed(Fields(r.payload.model).value, s.configs[(r.payload.model, r.company)])
    ensures ApproveReview(s, i, user, recomputed).Ok?
       <==> Allowed(s, s.reviews[i].company, user, "admin", "edit") && Takes(s.reviews[i].payload)
            && Shown(s, s.reviews[i].payload.model, s.reviews[i].company) == Some(s.reviews[i].payload.before)
  {
    if ApproveReview(s, i, user, recomputed).Ok? {
      var c := ApprovedChange(s, i, user, recomputed);
    } else if Allowed(s, s.reviews[i].company, user, "admin", "edit") && Takes(s.reviews[i].payload)
              && Shown(s, s.reviews[i].payload.model, s.reviews[i].company) == Some(s.reviews[i].payload.before) {
      ShownChangeGoesThrough(s, i, user, recomputed);
    }
  }
}
