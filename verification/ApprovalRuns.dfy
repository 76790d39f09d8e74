/**
  What requests and decisions leave in the tables, and short runs of the engine from beginning to end.
 */
module ApprovalRuns {
  import opened Common
  import opened ApprovalPolicy
  import opened ApprovalEngine
  import opened ApprovalTheorems
  import opened ApprovalAuthority

  // ---------------------------------------------------------------- single operations

  predicate Asked(r: Request, doc: nat, cancel: bool) {
    r.doc == doc && r.cancel == cancel && r.status != Rejected
  }

  /** While a request of the kind is outstanding, asking again changes nothing and returns the newest of them. */
  lemma OutstandingIsReturned(s: State, doc: nat, cancel: bool, actor: nat, reasonGiven: bool) returns (i: nat)
    requires doc in s.docs && s.world.engineEnabled && Outstanding(s, doc, cancel)
    requires cancel && s.docs[doc].needsReason ==> reasonGiven
    ensures RequestStep(s, doc, cancel, actor, reasonGiven) == Ok((s, Some(i)))
    ensures i < |s.requests| && Asked(s.requests[i], doc, cancel)
    ensures forall j :: i < j < |s.requests| ==> !Asked(s.requests[j], doc, cancel)
  {
    OutstandingIff(s, doc, cancel);
    i := LiveRequest(s.requests, doc, cancel).value;
    NewestLive(s.requests, doc, cancel);
  }

  lemma {:induction false} NewestLive(requests: seq<Request>, doc: nat, cancel: bool)
    requires LiveRequest(requests, doc, cancel).Some?
    ensures forall j :: LiveRequest(requests, doc, cancel).value < j < |requests| ==> !Asked(requests[j], doc, cancel)
  {
    var n := |requests| - 1;
    if !(requests[n].doc == doc && requests[n].cancel == cancel && Live(requests[n])) {
      NewestLive(requests[..n], doc, cancel);
      assert forall j :: 0 <= j < n ==> requests[..n][j] == requests[j];
    }
  }

  /** Before any request is made, a user may approve only where no independence is asked for, since whoever asks prepares. */
  lemma MayApproveUnaskedIff(s: State, doc: nat, user: nat)
    requires doc in s.docs
    ensures var d := s.docs[doc];
            MayApprove(s, doc, user, None) <==>
              && HasPermission(s.world, user, d.module_, "approve") && !s.world.differentApprover
              && WithinLimits(s.world, user, d.doctype, d.payload.amount)
  {
    var d := s.docs[doc];
    AuthorizedIff(s.world, user, d.module_, "approve");
    RuleFoundIff(s.world, user, d.doctype, d.payload.amount, 0);
    if s.world.differentApprover {
      PolicyFreezesPreparers(s.world, d.payload.creator, d.editor, user, d.module_);
      var policy := BuildPolicy(s.world, d.payload.creator, d.editor, user, d.module_);
      if policy.Ok? {
        PermitsIff(s.world, policy.value, user);
        assert Prepared(user, d.payload.creator, d.editor, user);
      } else {
        PermitsIff(s.world, Independent("", []), user);
      }
    }
  }

  /** Every decision is logged; a final one is also executed, on the document as it stands, and stores what that leaves. */
  lemma DecisionIsRecorded(s: State, i: nat, user: nat, after: Option<Payload>)
    requires i < |s.requests| && s.requests[i].doc in s.docs && Decide(s, i, user, after).Ok?
    ensures var (t, final) := Decide(s, i, user, after).value;
            var d := s.docs[s.requests[i].doc];
            && t.world == s.world && t.trail == s.trail && t.docs.Keys == s.docs.Keys
            && (final ==> after.Some?)
            && (forall k :: k in s.docs ==>
                  t.docs[k] == if final && k == s.requests[i].doc
                               then Document(d.doctype, d.module_, d.needsReason, after.value, d.editor) else s.docs[k])
            && |t.actions| == |s.actions| + 1 && t.actions[..|s.actions|] == s.actions
            && var a := t.actions[|s.actions|];
               && a.request == i && a.user == user && a.approve && a.amount == d.payload.amount
               && if !final then t.executions == s.executions
                  else
                    && |t.executions| == |s.executions| + 1 && t.executions[..|s.executions|] == s.executions
                    && t.executions[|s.executions|] == Execution(i, user, a.level, d.payload, s.world)
  {
  }

  // ---------------------------------------------------------------- short runs

  lemma RunOneMore(s: State, steps: seq<Step>, step: Step)
    ensures Run(s, steps + [step]) == Next(Run(s, steps), step)
  {
    assert (steps + [step])[..|steps|] == steps;
  }

  /** After any run a document may be edited, and only it changes. */
  lemma EditIsTaken(s: State, steps: seq<Step>, doc: nat, payload: Payload, editor: Option<nat>)
    requires doc in Run(s, steps).docs
    ensures var t, u := Run(s, steps), Run(s, steps + [Edit(doc, payload, editor)]);
            && u.docs.Keys == t.docs.Keys && u.docs[doc].payload == payload && u.docs[doc].editor == editor
            && u.docs[doc].doctype == t.docs[doc].doctype && u.docs[doc].module_ == t.docs[doc].module_
            && (forall k :: k in t.docs && k != doc ==> u.docs[k] == t.docs[k])
            && u.requests == t.requests && u.trail == t.trail && u.executions == t.executions && u.world == t.world
  {
    RunOneMore(s, steps, Edit(doc, payload, editor));
  }

  /** And users, rules and settings may be changed to anything, which changes nothing else. */
  lemma ConfigurationIsTaken(s: State, steps: seq<Step>, world: World)
    ensures var t, u := Run(s, steps), Run(s, steps + [Configure(world)]);
            && u.world == world && u.docs == t.docs && u.requests == t.requests && u.trail == t.trail
            && u.actions == t.actions && u.executions == t.executions
  {
    RunOneMore(s, steps, Configure(world));
  }

  /** The state in which the first request has just been made. */
  predicate JustAsked(s: State, doc: nat, actor: nat) {
    Initial(s) && doc in s.docs
    && RequestStep(s, doc, false, actor, true).Ok? && RequestStep(s, doc, false, actor, true).value.0 != s
  }

  /** A user has permission and limits for the document, and is independent of those who prepared it where that is asked for. */
  ghost predicate MayDecideAsked(s: State, doc: nat, actor: nat, user: nat)
    requires JustAsked(s, doc, actor)
  {
    var d := s.docs[doc];
    && HasPermission(s.world, user, d.module_, "approve") && WithinLimits(s.world, user, d.doctype, d.payload.amount)
    && var policy := NewPolicy(s.world, d, actor);
       policy.Ok? && (policy.value.Independent? ==> IndependentOf(s.world, policy.value, user))
  }

  lemma AfterAsking(s: State, doc: nat, actor: nat)
    requires JustAsked(s, doc, actor)
    ensures var t := Run(s, [Ask(doc, false, actor, true)]);
            && Inv(t) && t == RequestStep(s, doc, false, actor, true).value.0
            && |t.requests| == 1 && Pending(t.requests[0]) && t.requests[0].doc == doc && t.requests[0].requested == s.docs[doc].payload
            && t.docs == s.docs && t.executions == [] && t.world == s.world && t.world.engineEnabled
            && PendingRequest(t.requests, doc) == Ok(Some(0))
            && t.requests[0].requiredLevel == RequiredLevel(s.world.matrix, s.docs[doc].doctype, s.docs[doc].payload.amount)
            && NewPolicy(s.world, s.docs[doc], actor) == Ok(t.requests[0].policy)
  {
    RequestStepShape(s, doc, false, actor, true);
    MadeRequestIs(s, doc, false, actor, true);
    var steps := [Ask(doc, false, actor, true)];
    RunKeepsInv(s, steps);
    assert steps == [] + steps && Run(s, []) == s;
    RunOneMore(s, [], steps[0]);
    var t := Run(s, steps);
    OnlyRequest(t.requests, doc);
  }

  lemma OnlyRequest(requests: seq<Request>, doc: nat)
    requires |requests| == 1 && PendingFor(requests[0], doc)
    ensures PendingRequest(requests, doc) == Ok(Some(0))
  {
    var at := PendingAt(requests, doc);
    assert 0 in at && forall k :: 0 <= k < |at| ==> at[k] in at;
    if |at| > 1 {
      LaterIsPositive(at);
      assert false;
    }
  }

  lemma LaterIsPositive(at: seq<nat>)
    requires |at| > 1 && forall i, j :: 0 <= i < j < |at| ==> at[i] < at[j]
    ensures exists k :: 0 <= k < |at| && at[k] > 0
  {
    assert at[0] < at[1];
  }

  /** A document that needs approval, is asked for and is approved by somebody who may, is executed at once. */
  lemma AskedIsApproved(s: State, doc: nat, actor: nat, user: nat, after: Payload)
    requires JustAsked(s, doc, actor) && MayDecideAsked(s, doc, actor, user)
    ensures var t := Run(s, [Ask(doc, false, actor, true)] + [Approve(doc, user, Some(after))]);
            && |t.requests| == 1 && t.requests[0].status == Approved && doc in t.docs && t.docs[doc].payload == after
            && |t.executions| == 1 && t.executions[0].approver == user && t.executions[0].payload == s.docs[doc].payload
  {
    AfterAsking(s, doc, actor);
    var t := Run(s, [Ask(doc, false, actor, true)]);
    MayDecideIff(t, 0, user);
    UnchangedIsDecided(t, 0, user, after);
    UnchangedMatrixMakesApprovalFinal(t, 0, user, Some(after));
    DecisionIsRecorded(t, 0, user, Some(after));
    var rule := DecisionGoesByLevel(t, 0, user, Some(after));
    RunOneMore(s, [Ask(doc, false, actor, true)], Approve(doc, user, Some(after)));
  }

  /** If it is edited in between, it is not, and stays pending. */
  lemma EditedIsNotApproved(s: State, doc: nat, actor: nat, payload: Payload, editor: Option<nat>, user: nat, after: Payload)
    requires JustAsked(s, doc, actor) && payload != s.docs[doc].payload
    ensures var t := Run(s, [Ask(doc, false, actor, true)] + [Edit(doc, payload, editor)] + [Approve(doc, user, Some(after))]);
            && |t.requests| == 1 && Pending(t.requests[0]) && t.executions == []
            && doc in t.docs && t.docs[doc].payload == payload
  {
    AfterAsking(s, doc, actor);
    var steps := [Ask(doc, false, actor, true)] + [Edit(doc, payload, editor)];
    EditIsTaken(s, [Ask(doc, false, actor, true)], doc, payload, editor);
    RunKeepsInv(s, steps);
    var t := Run(s, steps);
    assert Hashed(t, t.requests[0]);
    SnapshotWasRequested(t, 0);
    RunOneMore(s, steps, Approve(doc, user, Some(after)));
  }

  /** Rejected by somebody who may decide it, it is over. */
  lemma AskedIsRejected(s: State, doc: nat, actor: nat, user: nat)
    requires JustAsked(s, doc, actor) && MayDecideAsked(s, doc, actor, user)
    ensures var t := Run(s, [Ask(doc, false, actor, true)] + [Reject(doc, user)]);
            |t.requests| == 1 && t.requests[0].status == Rejected && t.executions == [] && t.docs == s.docs
  {
    AfterAsking(s, doc, actor);
    var t := Run(s, [Ask(doc, false, actor, true)]);
    MayDecideIff(t, 0, user);
    RejectionIs(t, doc, user, 0);
    RunOneMore(s, [Ask(doc, false, actor, true)], Reject(doc, user));
  }
}
