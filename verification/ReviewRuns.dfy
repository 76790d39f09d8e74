/**
  When a change of the matching configuration can be made at all, and short runs of proposals from beginning to end.
 */
module ReviewRuns {
  import opened Common
  import opened ApprovalPolicy
  import opened ControlReview
  import opened ReviewTheorems
  import opened ReviewRules

  // ---------------------------------------------------------------- a change

  /** A tolerance is given as a number or left empty. */
  predicate Typeable(field: string, v: Value) {
    IsTolerance(field) ==> v == Null || v == Str(Word("")) || v.Dec? || (v.Str? && !v.text.Word?)
  }

  ghost predicate AllTypeable(model: string, values: Values) {
    forall f :: IsField(model, f) ==> Typeable(f, ValueOf(values, f))
  }

  lemma TypeableIff(field: string, v: Value)
    ensures Normalize(field, v).Ok? <==> Typeable(field, v)
  {
    NormalizeIs(field, v);
  }

  lemma {:induction false} AllTypedIff(fields: seq<string>, values: Values)
    ensures NormalizeAll(fields, values).Ok? <==> forall f :: f in fields ==> Typeable(f, ValueOf(values, f))
  {
    if fields != [] {
      var front, last := fields[..|fields| - 1], fields[|fields| - 1];
      assert fields == front + [last];
      AllTypedIff(front, values);
      TypeableIff(last, ValueOf(values, last));
    }
  }

  /** The two configurations have the same typed value in the field. */
  predicate SameTyped(field: string, a: Value, b: Value)
    requires Typeable(field, a) && Typeable(field, b)
  {
    TypeableIff(field, a);
    TypeableIff(field, b);
    SameAs(Normalize(field, a).value, Normalize(field, b).value)
  }

  lemma SameAllIff(fields: seq<string>, a: Values, b: Values)
    requires NormalizeAll(fields, a).Ok? && NormalizeAll(fields, b).Ok?
    ensures forall f :: f in fields ==> Typeable(f, ValueOf(a, f)) && Typeable(f, ValueOf(b, f))
    ensures SameAll(fields, NormalizeAll(fields, a).value, NormalizeAll(fields, b).value)
       <==> forall f :: f in fields ==> SameTyped(f, ValueOf(a, f), ValueOf(b, f))
  {
    AllTypedIff(fields, a);
    AllTypedIff(fields, b);
    NormalizedFields(fields, a);
    NormalizedFields(fields, b);
    var x, y := NormalizeAll(fields, a).value, NormalizeAll(fields, b).value;
    forall f | f in fields ensures Same(ValueOf(x, f), ValueOf(y, f)) <==> SameTyped(f, ValueOf(a, f), ValueOf(b, f)) {
      SameIff(ValueOf(x, f), ValueOf(y, f));
    }
  }

  /**
    A change can be made exactly to an existing configuration of either model, when every tolerance involved is a number
    or empty, and when the stored values are still the expected ones, where some are.
   */
  lemma ChangeIsMadeIff(configs: map<(string, string), Values>, model: string, company: string, values: Values,
      expected: Option<Values>)
    ensures ConfigChange(configs, model, company, values, expected).Ok? <==>
      && (model == "purchase" || model == "sales") && (model, company) in configs
      && var stored := configs[(model, company)];
         && AllTypeable(model, values) && AllTypeable(model, stored)
         && (expected.Some? ==>
               && AllTypeable(model, expected.value)
               && forall f :: IsField(model, f) ==> SameTyped(f, ValueOf(stored, f), ValueOf(expected.value, f)))
  {
    FieldsAre(model, "matching_type");
    if Fields(model).Some? && (model, company) in configs {
      var fields, stored := Fields(model).value, configs[(model, company)];
      forall f ensures f in fields <==> IsField(model, f) {
        FieldsAre(model, f);
      }
      AllTypedIff(fields, values);
      AllTypedIff(fields, stored);
      if NormalizeAll(fields, stored).Ok? {
        SameAllIff(fields, stored, stored);
        EverySame(fields, stored);
      }
      if expected.Some? {
        AllTypedIff(fields, expected.value);
        if NormalizeAll(fields, stored).Ok? && NormalizeAll(fields, expected.value).Ok? {
          SameAllIff(fields, stored, expected.value);
        }
      }
    }
  }

  lemma EverySame(fields: seq<string>, a: Values)
    requires NormalizeAll(fields, a).Ok?
    ensures SameAll(fields, NormalizeAll(fields, a).value, NormalizeAll(fields, a).value)
  {
    AllSame(fields, NormalizeAll(fields, a).value);
  }

  // ---------------------------------------------------------------- short runs

  lemma RunOneMore(s: State, steps: seq<Step>, step: Step)
    ensures Run(s, steps + [step]) == Next(Run(s, steps), step)
  {
    assert (steps + [step])[..|steps|] == steps;
  }

  /** After any run, users and settings may be changed to anything, which changes nothing else. */
  lemma ConfigurationIsTaken(s: State, steps: seq<Step>, worlds: map<string, World>)
    ensures var t, u := Run(s, steps), Run(s, steps + [Configure(worlds)]);
            u.worlds == worlds && u.configs == t.configs && u.reviews == t.reviews && u.executions == t.executions
  {
    RunOneMore(s, steps, Configure(worlds));
  }

  /** And a configuration may be rewritten behind the service, by any values its columns take. */
  lemma RewriteIsTaken(s: State, steps: seq<Step>, model: string, company: string, stored: Values, field: string)
    requires model == "purchase" || model == "sales"
    requires forall f :: IsField(model, f) ==> f in stored && stored[f] != Null && (IsTolerance(f) ==> stored[f].Dec?)
    ensures var t, u := Run(s, steps), Run(s, steps + [Rewrite((model, company), stored)]);
            && u.reviews == t.reviews && u.executions == t.executions && u.worlds == t.worlds
            && (model, company) in u.configs
            && (field in stored ==> ValueOf(u.configs[(model, company)], field) == Column(stored[field]))
  {
    FieldsAre(model, field);
    forall f | f in Fields(model).value ensures Fits(f, ValueOf(stored, f)) {
      FieldsAre(model, f);
    }
    RunOneMore(s, steps, Rewrite((model, company), stored));
  }

  /** After any run, whoever may decide a proposal may reject it, or carry it out if its operation does not fail. */
  lemma DecisionIsTaken(s: State, steps: seq<Step>, i: nat, user: nat, recomputed: Option<Payload>)
    requires i < |Run(s, steps).reviews| && ReviewAllowed(Run(s, steps), i, user)
    ensures var t, u := Run(s, steps), Run(s, steps + [Reject(i, user)]);
            && u.reviews == t.reviews[i := t.reviews[i].(status := Rejected)]
            && u.configs == t.configs && u.executions == t.executions && u.worlds == t.worlds
    ensures var t, u := Run(s, steps), Run(s, steps + [Approve(i, user, recomputed)]);
            ApproveReview(t, i, user, recomputed).Ok? ==>
              && u.configs == ApproveReview(t, i, user, recomputed).value.configs && u.worlds == t.worlds
              && u.reviews == t.reviews[i := t.reviews[i].(status := Approved)]
              && u.executions == t.executions + [Execution(i, user, t.reviews[i].payload, t.worlds)]
  {
    RunOneMore(s, steps, Reject(i, user));
    RunOneMore(s, steps, Approve(i, user, recomputed));
    var t := Run(s, steps);
    if ApproveReview(t, i, user, recomputed).Ok? { ExecutionKeepsReviews(t, i, user, recomputed); }
  }

  /** A change that has to wait is filed, and nothing is written. */
  lemma ChangeIsFiled(s: State, model: string, company: string, values: Values, actor: nat)
    requires Initial(s) && UpdateConfig(s, model, company, values, actor, None, None).Ok?
    requires UpdateConfig(s, model, company, values, actor, None, None).value.1.Wait?
    ensures var t := Run(s, [Update(model, company, values, actor)]);
            && |t.reviews| == 1 && IsPending(t.reviews[0], "config_change", ConfigId(model, company), company)
            && t.reviews[0].requester == actor && t.configs == s.configs && t.executions == []
  {
    var filed := [Update(model, company, values, actor)];
    assert filed == [] + filed && Run(s, []) == s;
    RunOneMore(s, [], filed[0]);
    var c := ConfigChange(s.configs, model, company, values, None).value;
    ChangeReads(s.configs, model, company, values, None, c);
    GateThenWrite(s, model, company, c, actor, None);
    ProposalIs(s, CONFIG_CHANGE, ConfigId(model, company), company, actor, ConfigProposal(model, c.fields, c.before, c.after), []);
  }

  /** Operations of the other kinds wait likewise, and are carried out if they recompute what was reviewed. */
  lemma OperationIsDecided(s: State, kind: string, id: string, company: string, actor: nat, payload: Payload, preparers: seq<nat>,
      user: nat)
    requires Initial(s) && kind != "config_change"
    requires RequireReview(s, kind, id, company, actor, payload, preparers, true, None).Ok?
    requires RequireReview(s, kind, id, company, actor, payload, preparers, true, None).value.1.Wait?
    ensures var filed := [Propose(kind, id, company, actor, payload, preparers, true)];
            var t := Run(s, filed);
            && |t.reviews| == 1 && IsPending(t.reviews[0], kind, id, company) && t.reviews[0].payload == payload
            && (ReviewAllowed(t, 0, user) && MayDo(t, company, user, ModuleOf(kind), ActionOf(kind)) ==>
                  var u := Run(s, filed + [Approve(0, user, Some(payload))]);
                  && |u.reviews| == 1 && u.reviews[0].status == Approved && |u.executions| == 1
                  && u.executions[0].approver == user && u.executions[0].payload == payload)
  {
    var filed := [Propose(kind, id, company, actor, payload, preparers, true)];
    assert filed == [] + filed && Run(s, []) == s;
    RunOneMore(s, [], filed[0]);
    var t := Run(s, filed);
    ProposalIs(s, kind, id, company, actor, payload, preparers);
    RunOneMore(s, filed, Approve(0, user, Some(payload)));
    RunningGateIs(t, kind, id, company, user, payload, [], true, 0);
  }
}
