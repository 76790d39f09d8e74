/**
  What holds over every run of requests, approvals, rejections, edits and configuration changes.
 */
module ApprovalTheorems {
  import opened Common
  import opened ApprovalPolicy
  import opened ApprovalEngine

  // ---------------------------------------------------------------- the invariant

  predicate SameKind(a: Request, b: Request) {
    a.doc == b.doc && a.cancel == b.cancel
  }

  predicate OneLive(requests: seq<Request>) {
    forall i, j :: 0 <= i < j < |requests| && SameKind(requests[i], requests[j]) ==> !(Live(requests[i]) && Live(requests[j]))
  }

  /** The newest audit entry of a pending request's kind holds the hash taken when it was made. */
  predicate Hashed(s: State, r: Request) {
    r.doc in s.docs && (Pending(r) ==> LatestHash(s.trail, r.doc, r.cancel) == Some(r.requested))
  }

  /** An independent policy names the requester and the creator. */
  predicate NamesPreparers(r: Request) {
    r.policy.Independent? ==>
      && IsPreparer(r.policy.preparers, r.requester)
      && (r.requested.creator.Some? ==> IsPreparer(r.policy.preparers, r.requested.creator.value))
  }

  /**
    The approver was authorized for the document's module, reached the required level, and under an independent policy
    was none of the frozen preparers and ranked at least as high as the highest of them.
   */
  predicate Entitled(e: Execution, r: Request, module_: string) {
    && Authorized(e.world, e.approver, module_) && e.level >= r.requiredLevel
    && (r.policy.Independent? ==> Permits(e.world, r.policy, e.approver))
  }

  /** What was carried out is what was approved, on the payload frozen with the request. */
  predicate ExecutedAsRequested(s: State, e: Execution) {
    && e.request < |s.requests| && s.requests[e.request].status.Approved?
    && e.payload == s.requests[e.request].requested
    && s.requests[e.request].doc in s.docs && Entitled(e, s.requests[e.request], s.docs[s.requests[e.request].doc].module_)
  }

  predicate ExecutedOnce(executions: seq<Execution>) {
    forall i, j :: 0 <= i < j < |executions| ==> executions[i].request != executions[j].request
  }

  predicate AllRequestsSound(s: State) {
    forall i :: 0 <= i < |s.requests| ==> Hashed(s, s.requests[i]) && NamesPreparers(s.requests[i])
  }

  predicate AllExecutionsSound(s: State) {
    forall k :: 0 <= k < |s.executions| ==> ExecutedAsRequested(s, s.executions[k])
  }

  predicate Inv(s: State) {
    OneLive(s.requests) && AllRequestsSound(s) && AllExecutionsSound(s) && ExecutedOnce(s.executions)
  }

  // ---------------------------------------------------------------- requests keep it

  lemma {:induction false} RankedNames(w: World, ids: seq<nat>, module_: string, id: nat)
    requires Ranked(w, ids, module_).Some? && id in ids
    ensures IsPreparer(Ranked(w, ids, module_).value, id)
  {
    var front, last := ids[..|ids| - 1], ids[|ids| - 1];
    assert ids == front + [last];
    var preparers := Ranked(w, ids, module_).value;
    if id == last {
      assert preparers[|preparers| - 1] in preparers;
    } else {
      RankedNames(w, front, module_, id);
      var p :| p in Ranked(w, front, module_).value && p.user == id;
      assert p in preparers;
    }
  }

  /** A frozen policy names everyone who prepared the document. */
  lemma PolicyNamesEveryPreparer(w: World, creator: Option<nat>, editor: Option<nat>, requester: nat, module_: string)
    requires BuildPolicy(w, creator, editor, requester, module_).Ok?
    ensures var policy := BuildPolicy(w, creator, editor, requester, module_).value;
            && policy.Independent? && policy.module_ == module_
            && creator.Some? && IsPreparer(policy.preparers, creator.value) && IsPreparer(policy.preparers, requester)
            && (editor.Some? ==> IsPreparer(policy.preparers, editor.value))
  {
    var ids := InsertId(InsertSome(InsertSome([], creator), editor), requester);
    RankedNames(w, ids, module_, creator.value);
    RankedNames(w, ids, module_, requester);
    if editor.Some? { RankedNames(w, ids, module_, editor.value); }
  }

  /** The request a step adds. */
  function Added(s: State, doc: nat, cancel: bool, actor: nat): Request
    requires doc in s.docs && NewPolicy(s.world, s.docs[doc], actor).Ok?
  {
    var d := s.docs[doc];
    Request(doc, cancel, actor, NewPolicy(s.world, d, actor).value, 1,
            RequiredLevel(s.world.matrix, d.doctype, d.payload.amount), if cancel then PendingCancellation else PendingApproval, d.payload)
  }

  lemma RequestStepShape(s: State, doc: nat, cancel: bool, actor: nat, reasonGiven: bool)
    requires doc in s.docs && RequestStep(s, doc, cancel, actor, reasonGiven).Ok?
    ensures var (t, i) := RequestStep(s, doc, cancel, actor, reasonGiven).value;
            || t == s
            || (&& LiveRequest(s.requests, doc, cancel).None? && NewPolicy(s.world, s.docs[doc], actor).Ok?
                && i == Some(|s.requests|)
                && t == s.(requests := s.requests + [Added(s, doc, cancel, actor)],
                           trail := s.trail + [TrailEntry(doc, cancel, s.docs[doc].payload)]))
  {
  }

  lemma LatestHashAfter(trail: seq<TrailEntry>, e: TrailEntry, doc: nat, cancel: bool)
    ensures LatestHash(trail + [e], doc, cancel)
         == if e.doc == doc && e.cancel == cancel then Some(e.hash) else LatestHash(trail, doc, cancel)
  {
    assert (trail + [e])[..|trail|] == trail;
  }

  lemma AddedIsSound(s: State, doc: nat, cancel: bool, actor: nat)
    requires doc in s.docs && NewPolicy(s.world, s.docs[doc], actor).Ok?
    ensures NamesPreparers(Added(s, doc, cancel, actor))
  {
    if s.world.differentApprover {
      var d := s.docs[doc];
      PolicyNamesEveryPreparer(s.world, d.payload.creator, d.editor, actor, d.module_);
    }
  }

  lemma RequestStepKeepsInv(s: State, doc: nat, cancel: bool, actor: nat, reasonGiven: bool)
    requires Inv(s) && doc in s.docs && RequestStep(s, doc, cancel, actor, reasonGiven).Ok?
    ensures Inv(RequestStep(s, doc, cancel, actor, reasonGiven).value.0)
  {
    var t := RequestStep(s, doc, cancel, actor, reasonGiven).value.0;
    RequestStepShape(s, doc, cancel, actor, reasonGiven);
    if t != s {
      var entry := TrailEntry(doc, cancel, s.docs[doc].payload);
      AddedIsSound(s, doc, cancel, actor);
      forall i | 0 <= i < |t.requests| ensures Hashed(t, t.requests[i]) && NamesPreparers(t.requests[i]) {
        LatestHashAfter(s.trail, entry, t.requests[i].doc, t.requests[i].cancel);
        if i < |s.requests| { assert Hashed(s, s.requests[i]) && t.requests[i] == s.requests[i]; }
      }
      forall k | 0 <= k < |t.executions| ensures ExecutedAsRequested(t, t.executions[k]) {
        assert ExecutedAsRequested(s, s.executions[k]);
      }
    }
  }

  // ---------------------------------------------------------------- decisions keep it

  /** The shape of a successful decision. */
  lemma DecideShape(s: State, i: nat, user: nat, after: Option<Payload>)
    requires i < |s.requests| && s.requests[i].doc in s.docs && Decide(s, i, user, after).Ok?
    ensures var (t, final) := Decide(s, i, user, after).value;
            var r := s.requests[i];
            && t.world == s.world && t.trail == s.trail && t.docs.Keys == s.docs.Keys
            && (forall d :: d in s.docs ==> t.docs[d].doctype == s.docs[d].doctype && t.docs[d].module_ == s.docs[d].module_)
            && (final ==> after.Some? && t.requests == s.requests[i := r.(status := Approved)]
                          && exists e :: t.executions == s.executions + [e] && e.request == i && e.approver == user
                                         && e.payload == s.docs[r.doc].payload && Entitled(e, r, s.docs[r.doc].module_))
            && (!final ==> t.executions == s.executions && |t.requests| == |s.requests| && t.docs == s.docs
                           && exists level :: t.requests == s.requests[i := r.(currentLevel := level)])
  {
    var (t, final) := Decide(s, i, user, after).value;
    var r := s.requests[i];
    if final {
      var e := t.executions[|t.executions| - 1];
      assert t.executions == s.executions + [e];
      assert Entitled(e, r, s.docs[r.doc].module_);
    }
  }

  /** Replacing a request by one of the same kind that is no more alive than before. */
  lemma ReplaceKeepsOneLive(requests: seq<Request>, i: nat, r: Request)
    requires i < |requests| && OneLive(requests) && SameKind(r, requests[i]) && (Live(r) ==> Live(requests[i]))
    ensures OneLive(requests[i := r])
  {
  }

  lemma ReplaceKeepsRequests(s: State, t: State, i: nat, r: Request)
    requires i < |s.requests| && AllRequestsSound(s) && t.requests == s.requests[i := r]
    requires t.trail == s.trail && t.docs.Keys == s.docs.Keys
    requires SameKind(r, s.requests[i]) && (Pending(r) ==> Pending(s.requests[i]))
    requires r.requested == s.requests[i].requested && r.policy == s.requests[i].policy && r.requester == s.requests[i].requester
    ensures AllRequestsSound(t)
  {
    forall j | 0 <= j < |t.requests| ensures Hashed(t, t.requests[j]) && NamesPreparers(t.requests[j]) {
      assert Hashed(s, s.requests[j]) && NamesPreparers(s.requests[j]);
    }
  }

  lemma OldExecutionsStay(s: State, t: State, i: nat, r: Request)
    requires i < |s.requests| && AllExecutionsSound(s) && Pending(s.requests[i]) && t.requests == s.requests[i := r]
    requires t.docs.Keys == s.docs.Keys && forall d :: d in s.docs ==> t.docs[d].module_ == s.docs[d].module_
    ensures forall k :: 0 <= k < |s.executions| ==> ExecutedAsRequested(t, s.executions[k]) && s.executions[k].request != i
  {
    forall k | 0 <= k < |s.executions| ensures ExecutedAsRequested(t, s.executions[k]) && s.executions[k].request != i {
      assert ExecutedAsRequested(s, s.executions[k]);
    }
  }

  /** A pending request whose snapshot holds is about the document as it was requested. */
  lemma SnapshotWasRequested(s: State, i: nat)
    requires i < |s.requests| && Hashed(s, s.requests[i]) && Pending(s.requests[i])
    ensures SnapshotHolds(s, i) <==> s.docs[s.requests[i].doc].payload == s.requests[i].requested
  {
  }

  lemma DecideKeepsInv(s: State, i: nat, user: nat, after: Option<Payload>)
    requires Inv(s) && i < |s.requests| && s.requests[i].doc in s.docs && Pending(s.requests[i])
    requires Decide(s, i, user, after).Ok?
    ensures Inv(Decide(s, i, user, after).value.0)
  {
    var (t, final) := Decide(s, i, user, after).value;
    DecideShape(s, i, user, after);
    var r := t.requests[i];
    ReplaceKeepsOneLive(s.requests, i, r);
    ReplaceKeepsRequests(s, t, i, r);
    OldExecutionsStay(s, t, i, r);
    if final {
      SnapshotWasRequested(s, i);
      assert forall k :: 0 <= k < |s.executions| ==> t.executions[k] == s.executions[k];
    }
  }

  lemma RejectKeepsInv(s: State, doc: nat, user: nat)
    requires Inv(s) && doc in s.docs && RejectStep(s, doc, user).Ok?
    ensures Inv(RejectStep(s, doc, user).value)
  {
    var t := RejectStep(s, doc, user).value;
    if s.world.engineEnabled {
      var i := PendingRequest(s.requests, doc).value.value;
      ReplaceKeepsOneLive(s.requests, i, t.requests[i]);
      ReplaceKeepsRequests(s, t, i, t.requests[i]);
      OldExecutionsStay(s, t, i, t.requests[i]);
    }
  }

  /** A step that is not an approval keeps requests and executions as they are, up to the documents. */
  lemma EditKeepsInv(s: State, t: State)
    requires Inv(s) && t.requests == s.requests && t.trail == s.trail && t.executions == s.executions
    requires t.docs.Keys == s.docs.Keys && forall d :: d in s.docs ==> t.docs[d].module_ == s.docs[d].module_
    ensures Inv(t)
  {
    forall i | 0 <= i < |t.requests| ensures Hashed(t, t.requests[i]) && NamesPreparers(t.requests[i]) {
      assert Hashed(s, s.requests[i]);
    }
    forall k | 0 <= k < |t.executions| ensures ExecutedAsRequested(t, t.executions[k]) {
      assert ExecutedAsRequested(s, s.executions[k]);
    }
  }

  lemma ApproveKeepsInv(s: State, doc: nat, user: nat, after: Option<Payload>)
    requires Inv(s) && doc in s.docs && ApproveStep(s, doc, user, after).Ok?
    ensures Inv(ApproveStep(s, doc, user, after).value.0)
  {
    match PendingRequest(s.requests, doc)
    case Ok(Some(i)) => DecideKeepsInv(s, i, user, after);
    case Ok(None) =>
      if s.world.engineEnabled && !Finished(s.requests, doc) {
        var (t, asked) := RequestStep(s, doc, false, user, true).value;
        RequestStepShape(s, doc, false, user, true);
        RequestStepKeepsInv(s, doc, false, user, true);
        if asked.Some? {
          AskedIsPending(s, doc, user);
          DecideKeepsInv(t, asked.value, user, after);
        }
      }
  }

  /** What `approve` asks for when nothing is pending and nothing was approved is a new pending request. */
  lemma AskedIsPending(s: State, doc: nat, user: nat)
    requires doc in s.docs && PendingRequest(s.requests, doc) == Ok(None) && !Finished(s.requests, doc)
    requires RequestStep(s, doc, false, user, true).Ok? && RequestStep(s, doc, false, user, true).value.1.Some?
    ensures var (t, asked) := RequestStep(s, doc, false, user, true).value;
            && asked.value == |s.requests| && asked.value < |t.requests| && Pending(t.requests[asked.value])
            && t.requests[asked.value].doc == doc && t.docs == s.docs
  {
    forall i | 0 <= i < |s.requests| && s.requests[i].doc == doc ensures !Live(s.requests[i]) {
      assert PendingFor(s.requests[i], doc) ==> i in PendingAt(s.requests, doc);
    }
  }

  lemma NextKeepsInv(s: State, step: Step)
    requires Inv(s)
    ensures Inv(Next(s, step))
  {
    var t := Next(s, step);
    if t != s {
      match step
      case Ask(doc, cancel, actor, reasonGiven) => RequestStepKeepsInv(s, doc, cancel, actor, reasonGiven);
      case Approve(doc, user, after) => ApproveKeepsInv(s, doc, user, after);
      case Reject(doc, user) => RejectKeepsInv(s, doc, user);
      case Edit(doc, payload, editor) => EditKeepsInv(s, t);
      case Configure(world) => EditKeepsInv(s, t);
    }
  }

  lemma {:induction false} RunKeepsInv(s: State, steps: seq<Step>)
    requires Inv(s)
    ensures Inv(Run(s, steps))
    decreases |steps|
  {
    if steps != [] {
      RunKeepsInv(s, steps[..|steps| - 1]);
      NextKeepsInv(Run(s, steps[..|steps| - 1]), steps[|steps| - 1]);
    }
  }

  // ---------------------------------------------------------------- theorems over runs

  /** At most one live request per document and kind. */
  lemma OneLiveRequestPerKind(s: State, steps: seq<Step>, i: nat, j: nat)
    requires Initial(s) && i < |Run(s, steps).requests| && j < |Run(s, steps).requests|
    requires SameKind(Run(s, steps).requests[i], Run(s, steps).requests[j])
    requires Live(Run(s, steps).requests[i]) && Live(Run(s, steps).requests[j])
    ensures i == j
  {
    RunKeepsInv(s, steps);
  }

  /**
    Every approval that was carried out: an approved request, once, on the payload frozen with it, by an active user
    authorized for the document's module at the required level; under an independent policy by someone who is no frozen
    preparer, neither the requester nor the creator, and ranks at least as high as every preparer did, whatever was
    configured in between.
   */
  lemma ExecutionsMatchFrozenEvidence(s: State, steps: seq<Step>, k: nat)
    requires Initial(s) && k < |Run(s, steps).executions|
    ensures var t := Run(s, steps);
            var e := t.executions[k];
            && e.request < |t.requests| && t.requests[e.request].status.Approved?
            && e.payload == t.requests[e.request].requested
            && (forall m :: 0 <= m < |t.executions| && t.executions[m].request == e.request ==> m == k)
            && t.requests[e.request].doc in t.docs && Authorized(e.world, e.approver, t.docs[t.requests[e.request].doc].module_)
            && e.level >= t.requests[e.request].requiredLevel
            && (var policy := t.requests[e.request].policy;
                policy.Independent? ==>
                  && !IsPreparer(policy.preparers, e.approver)
                  && ModuleRank(e.world, e.approver, policy.module_).Some?
                  && Outranks(ModuleRank(e.world, e.approver, policy.module_).value, policy.preparers)
                  && e.approver != t.requests[e.request].requester
                  && Some(e.approver) != t.requests[e.request].requested.creator)
  {
    RunKeepsInv(s, steps);
    var t := Run(s, steps);
    assert ExecutedAsRequested(t, t.executions[k]);
    assert NamesPreparers(t.requests[t.executions[k].request]);
  }

  /** The frozen part of a request. */
  predicate SameEvidence(a: Request, b: Request) {
    && SameKind(a, b) && a.requester == b.requester && a.policy == b.policy && a.requiredLevel == b.requiredLevel
    && a.requested == b.requested && (!Pending(a) ==> a.status == b.status)
  }

  lemma NextKeepsEvidence(s: State, step: Step, i: nat)
    requires Inv(s) && i < |s.requests|
    ensures i < |Next(s, step).requests| && SameEvidence(s.requests[i], Next(s, step).requests[i])
  {
    if step.Approve? && step.doc in s.docs && ApproveStep(s, step.doc, step.user, step.after).Ok? {
      ApproveKeepsEvidence(s, step.doc, step.user, step.after, i);
    }
  }

  /** What an approval may do to a request: nothing, or decide it when it is a pending one of the document. */
  predicate Touched(before: Request, now: Request, doc: nat) {
    || now == before
    || (PendingFor(before, doc) && (now == before.(status := Approved) || now == before.(currentLevel := now.currentLevel)))
  }

  lemma DecideTouches(s: State, p: nat, user: nat, after: Option<Payload>, i: nat)
    requires p < |s.requests| && s.requests[p].doc in s.docs && Pending(s.requests[p]) && Decide(s, p, user, after).Ok?
    requires i < |s.requests|
    ensures var t := Decide(s, p, user, after).value.0;
            i < |t.requests| && Touched(s.requests[i], t.requests[i], s.requests[p].doc)
  {
    DecideShape(s, p, user, after);
  }

  lemma ApproveTouches(s: State, doc: nat, user: nat, after: Option<Payload>, i: nat)
    requires i < |s.requests| && doc in s.docs && ApproveStep(s, doc, user, after).Ok?
    ensures var t := ApproveStep(s, doc, user, after).value.0;
            i < |t.requests| && Touched(s.requests[i], t.requests[i], doc)
  {
    match PendingRequest(s.requests, doc)
    case Ok(Some(p)) => DecideTouches(s, p, user, after, i);
    case Ok(None) =>
      if s.world.engineEnabled && !Finished(s.requests, doc) {
        var (t, asked) := RequestStep(s, doc, false, user, true).value;
        RequestStepShape(s, doc, false, user, true);
        if asked.Some? {
          AskedIsPending(s, doc, user);
          DecideTouches(t, asked.value, user, after, i);
        }
      }
  }

  lemma ApproveKeepsEvidence(s: State, doc: nat, user: nat, after: Option<Payload>, i: nat)
    requires Inv(s) && i < |s.requests| && doc in s.docs && ApproveStep(s, doc, user, after).Ok?
    ensures var t := ApproveStep(s, doc, user, after).value.0;
            i < |t.requests| && SameEvidence(s.requests[i], t.requests[i])
  {
    ApproveTouches(s, doc, user, after, i);
  }

  /** Nothing rewrites a request's policy, required level or hash, and a decided request stays decided. */
  lemma {:induction false} EvidenceIsFrozen(s: State, steps: seq<Step>, i: nat)
    requires Inv(s) && i < |s.requests|
    ensures i < |Run(s, steps).requests| && SameEvidence(s.requests[i], Run(s, steps).requests[i])
    decreases |steps|
  {
    if steps != [] {
      var front := steps[..|steps| - 1];
      EvidenceIsFrozen(s, front, i);
      RunKeepsInv(s, front);
      NextKeepsEvidence(Run(s, front), steps[|steps| - 1], i);
    }
  }

  // ---------------------------------------------------------------- levels

  lemma RuleIsFromMatrix(s: State, doc: nat, user: nat, required: int)
    requires doc in s.docs && !IsAdmin(s.world, user) && RuleFor(s, doc, user, required).Some?
    ensures RequiredLevel(s.world.matrix, s.docs[doc].doctype, s.docs[doc].payload.amount)
         <= RuleFor(s, doc, user, required).value.level
  {
    var d := s.docs[doc];
    ApplicableRuleIsBest(UserRules(s.world, user, d.doctype), d.payload.amount, required);
    var rule := RuleFor(s, doc, user, required).value;
    assert rule in s.world.matrix && Applies(rule, d.doctype) && Covers(rule, d.payload.amount);
  }

  /**
    A successful approval is final whenever the matrix still asks at least what it asked at request time: the amount
    cannot have changed, and the least level of all rules is no higher than that of the user's own rule.
   */
  lemma UnchangedMatrixMakesApprovalFinal(s: State, i: nat, user: nat, after: Option<Payload>)
    requires Inv(s) && i < |s.requests| && Pending(s.requests[i]) && s.requests[i].doc in s.docs
    requires Decide(s, i, user, after).Ok?
    requires s.requests[i].requiredLevel
          <= RequiredLevel(s.world.matrix, s.docs[s.requests[i].doc].doctype, s.requests[i].requested.amount)
    ensures Decide(s, i, user, after).value.1
  {
    assert Hashed(s, s.requests[i]) && SnapshotHolds(s, i);
    if !IsAdmin(s.world, user) { RuleIsFromMatrix(s, s.requests[i].doc, user, s.requests[i].requiredLevel); }
  }

  /** Every request still waits at its first level, at the level the matrix asks for its amount. */
  predicate AtFirstLevel(s: State, matrix: seq<Rule>) {
    && s.world.matrix == matrix
    && forall i :: 0 <= i < |s.requests| ==> FirstLevel(s, s.requests[i], matrix)
  }

  predicate FirstLevel(s: State, r: Request, matrix: seq<Rule>) {
    && r.doc in s.docs && r.currentLevel == 1
    && r.requiredLevel == RequiredLevel(matrix, s.docs[r.doc].doctype, r.requested.amount)
  }

  predicate KeepsMatrix(step: Step, matrix: seq<Rule>) {
    step.Configure? ==> step.world.matrix == matrix
  }

  lemma RequestKeepsFirstLevel(s: State, doc: nat, cancel: bool, actor: nat, reasonGiven: bool, matrix: seq<Rule>)
    requires doc in s.docs && AtFirstLevel(s, matrix) && RequestStep(s, doc, cancel, actor, reasonGiven).Ok?
    ensures AtFirstLevel(RequestStep(s, doc, cancel, actor, reasonGiven).value.0, matrix)
  {
    var t := RequestStep(s, doc, cancel, actor, reasonGiven).value.0;
    RequestStepShape(s, doc, cancel, actor, reasonGiven);
    forall i | 0 <= i < |t.requests| ensures FirstLevel(t, t.requests[i], matrix) {
      if i < |s.requests| { assert FirstLevel(s, s.requests[i], matrix) && t.requests[i] == s.requests[i]; }
    }
  }

  lemma DecideKeepsFirstLevel(s: State, i: nat, user: nat, after: Option<Payload>, matrix: seq<Rule>)
    requires Inv(s) && AtFirstLevel(s, matrix) && i < |s.requests| && Pending(s.requests[i]) && s.requests[i].doc in s.docs
    requires Decide(s, i, user, after).Ok?
    ensures AtFirstLevel(Decide(s, i, user, after).value.0, matrix)
  {
    assert FirstLevel(s, s.requests[i], matrix);
    UnchangedMatrixMakesApprovalFinal(s, i, user, after);
    DecideShape(s, i, user, after);
    var t := Decide(s, i, user, after).value.0;
    forall j | 0 <= j < |t.requests| ensures FirstLevel(t, t.requests[j], matrix) {
      assert FirstLevel(s, s.requests[j], matrix);
    }
  }

  lemma NextKeepsFirstLevel(s: State, step: Step, matrix: seq<Rule>)
    requires Inv(s) && AtFirstLevel(s, matrix) && KeepsMatrix(step, matrix)
    ensures AtFirstLevel(Next(s, step), matrix)
  {
    var t := Next(s, step);
    if t != s {
      match step
      case Ask(doc, cancel, actor, reasonGiven) => RequestKeepsFirstLevel(s, doc, cancel, actor, reasonGiven, matrix);
      case Approve(doc, user, after) =>
        var pending := PendingRequest(s.requests, doc).value;
        if pending.Some? {
          DecideKeepsFirstLevel(s, pending.value, user, after, matrix);
        } else {
          var (asked, i) := RequestStep(s, doc, false, user, true).value;
          RequestKeepsFirstLevel(s, doc, false, user, true, matrix);
          RequestStepKeepsInv(s, doc, false, user, true);
          AskedIsPending(s, doc, user);
          DecideKeepsFirstLevel(asked, i.value, user, after, matrix);
        }
      case Reject(_, _) => OthersKeepFirstLevel(s, t, matrix);
      case Edit(_, _, _) => OthersKeepFirstLevel(s, t, matrix);
      case Configure(_) => OthersKeepFirstLevel(s, t, matrix);
    }
  }

  lemma OthersKeepFirstLevel(s: State, t: State, matrix: seq<Rule>)
    requires AtFirstLevel(s, matrix) && t.world.matrix == matrix && |t.requests| == |s.requests|
    requires t.docs.Keys == s.docs.Keys && forall d :: d in s.docs ==> t.docs[d].doctype == s.docs[d].doctype
    requires forall i :: 0 <= i < |s.requests| ==> t.requests[i] == s.requests[i].(status := t.requests[i].status)
    ensures AtFirstLevel(t, matrix)
  {
    forall i | 0 <= i < |t.requests| ensures FirstLevel(t, t.requests[i], matrix) {
      assert FirstLevel(s, s.requests[i], matrix);
    }
  }

  /** While the matrix stays as it is, no approval ever moves a request to a second level. */
  lemma {:induction false} FixedMatrixHasOneLevel(s: State, steps: seq<Step>)
    requires Initial(s) && forall k :: 0 <= k < |steps| ==> KeepsMatrix(steps[k], s.world.matrix)
    ensures AtFirstLevel(Run(s, steps), s.world.matrix)
    decreases |steps|
  {
    if steps != [] {
      var front := steps[..|steps| - 1];
      FixedMatrixHasOneLevel(s, front);
      RunKeepsInv(s, front);
      NextKeepsFirstLevel(Run(s, front), steps[|steps| - 1], s.world.matrix);
    }
  }

  // ---------------------------------------------------------------- submission and cancellation pending together

  predicate BothPending(requests: seq<Request>, doc: nat) {
    && (exists i :: 0 <= i < |requests| && PendingFor(requests[i], doc) && !requests[i].cancel)
    && (exists i :: 0 <= i < |requests| && PendingFor(requests[i], doc) && requests[i].cancel)
  }

  lemma BothPendingFails(requests: seq<Request>, doc: nat)
    requires BothPending(requests, doc)
    ensures PendingRequest(requests, doc).Err?
  {
    var at := PendingAt(requests, doc);
    var i :| 0 <= i < |requests| && PendingFor(requests[i], doc) && !requests[i].cancel;
    var j :| 0 <= j < |requests| && PendingFor(requests[j], doc) && requests[j].cancel;
    assert i in at && j in at;
  }

  lemma FailureMeansBoth(requests: seq<Request>, doc: nat)
    requires OneLive(requests) && PendingRequest(requests, doc).Err?
    ensures BothPending(requests, doc)
  {
    var at := PendingAt(requests, doc);
    assert at[0] in at && at[1] in at;
    assert !SameKind(requests[at[0]], requests[at[1]]);
  }

  /** The pending query fails exactly when a submission and a cancellation are pending at once. */
  lemma QueryFailsIffBothPending(s: State, doc: nat)
    requires Inv(s)
    ensures PendingRequest(s.requests, doc).Err? <==> BothPending(s.requests, doc)
  {
    if BothPending(s.requests, doc) { BothPendingFails(s.requests, doc); }
    if PendingRequest(s.requests, doc).Err? { FailureMeansBoth(s.requests, doc); }
  }

  lemma AskAddsPending(s: State, doc: nat, cancel: bool, actor: nat)
    requires doc in s.docs && s.world.engineEnabled && !s.world.differentApprover
    requires actor in s.world.users && s.world.users[actor].active
    requires RequiredLevel(s.world.matrix, s.docs[doc].doctype, s.docs[doc].payload.amount) != 0
    requires LiveRequest(s.requests, doc, cancel).None?
    ensures var t := Next(s, Ask(doc, cancel, actor, true));
            && t.world == s.world && t.docs == s.docs && |t.requests| == |s.requests| + 1
            && t.requests[..|s.requests|] == s.requests
            && PendingFor(t.requests[|s.requests|], doc) && t.requests[|s.requests|].cancel == cancel
  {
  }

  lemma RunOfTwo(s: State, first: Step, second: Step)
    ensures Run(s, [first, second]) == Next(Next(s, first), second)
  {
    var one, two := [first], [first, second];
    assert one[..|one| - 1] == [] && one[|one| - 1] == first;
    assert Run(s, one) == Next(Run(s, one[..|one| - 1]), first);
    assert two[..|two| - 1] == one && two[|two| - 1] == second;
    assert Run(s, two) == Next(Run(s, two[..|two| - 1]), second);
  }

  lemma SecondAsk(t: State, doc: nat, actor: nat, second: Step)
    requires doc in t.docs && t.world.engineEnabled && !t.world.differentApprover
    requires actor in t.world.users && t.world.users[actor].active
    requires RequiredLevel(t.world.matrix, t.docs[doc].doctype, t.docs[doc].payload.amount) != 0
    requires |t.requests| == 1 && PendingFor(t.requests[0], doc) && t.requests[0].cancel
    requires second == Ask(doc, false, actor, true)
    ensures BothPending(Next(t, second).requests, doc)
  {
    AskAddsPending(t, doc, false, actor);
    var requests := Next(t, second).requests;
    assert requests[0] == requests[..1][0];
  }

  lemma AskingTwice(s: State, doc: nat, actor: nat, first: Step, second: Step)
    requires Initial(s) && doc in s.docs && s.world.engineEnabled && !s.world.differentApprover
    requires actor in s.world.users && s.world.users[actor].active
    requires RequiredLevel(s.world.matrix, s.docs[doc].doctype, s.docs[doc].payload.amount) != 0
    requires first == Ask(doc, true, actor, true) && second == Ask(doc, false, actor, true)
    ensures BothPending(Next(Next(s, first), second).requests, doc)
  {
    AskAddsPending(s, doc, true, actor);
    SecondAsk(Next(s, first), doc, actor, second);
  }

  /** Asking for cancellation first and for approval afterwards gets there, whatever the document. */
  lemma BothPendingIsReachable(s: State, doc: nat, actor: nat)
    requires Initial(s) && doc in s.docs && s.world.engineEnabled && !s.world.differentApprover
    requires actor in s.world.users && s.world.users[actor].active
    requires RequiredLevel(s.world.matrix, s.docs[doc].doctype, s.docs[doc].payload.amount) != 0
    ensures BothPending(Run(s, [Ask(doc, true, actor, true), Ask(doc, false, actor, true)]).requests, doc)
  {
    var first, second := Ask(doc, true, actor, true), Ask(doc, false, actor, true);
    AskingTwice(s, doc, actor, first, second);
    RunOfTwo(s, first, second);
  }

  /** From then on no approval or rejection of the document does anything. */
  lemma BothPendingBlocks(s: State, step: Step)
    requires Inv(s) && (step.Approve? || step.Reject?) && step.doc in s.docs && BothPending(s.requests, step.doc)
    ensures Next(s, step) == s
    ensures step.Approve? ==> ApproveStep(s, step.doc, step.user, step.after).Err?
    ensures step.Reject? && s.world.engineEnabled ==> RejectStep(s, step.doc, step.user).Err?
  {
    QueryFailsIffBothPending(s, step.doc);
  }

  lemma NextKeepsBothPending(s: State, step: Step, doc: nat)
    requires Inv(s) && BothPending(s.requests, doc)
    ensures BothPending(Next(s, step).requests, doc)
  {
    var t := Next(s, step);
    if !step.Configure? && step.doc in s.docs && t != s {
      if (step.Approve? || step.Reject?) && step.doc == doc { BothPendingBlocks(s, step); }
      forall i | 0 <= i < |s.requests| && PendingFor(s.requests[i], doc)
        ensures i < |t.requests| && PendingFor(t.requests[i], doc) && t.requests[i].cancel == s.requests[i].cancel
      {
        OtherDocumentUntouched(s, step, i, doc);
      }
    }
  }

  lemma OtherDocumentUntouched(s: State, step: Step, i: nat, doc: nat)
    requires Inv(s) && i < |s.requests| && PendingFor(s.requests[i], doc)
    requires step.Approve? || step.Reject? ==> step.doc != doc
    ensures i < |Next(s, step).requests| && PendingFor(Next(s, step).requests[i], doc)
    ensures Next(s, step).requests[i].cancel == s.requests[i].cancel
  {
    if step.Approve? && step.doc in s.docs && ApproveStep(s, step.doc, step.user, step.after).Ok? {
      ApproveTouches(s, step.doc, step.user, step.after, i);
    }
  }

  /** Two requests pending together block each other for the rest of every run. */
  lemma {:induction false} BothPendingForever(s: State, steps: seq<Step>, doc: nat)
    requires Inv(s) && BothPending(s.requests, doc)
    ensures BothPending(Run(s, steps).requests, doc)
    decreases |steps|
  {
    if steps != [] {
      var front := steps[..|steps| - 1];
      BothPendingForever(s, front, doc);
      RunKeepsInv(s, front);
      NextKeepsBothPending(Run(s, front), steps[|steps| - 1], doc);
    }
  }

  // ---------------------------------------------------------------- the check before an approval

  const NO_AUTHORITY := "not allowed to approve"

  /** A decision is refused for authority exactly when the user may not approve. */
  lemma RefusedIff(s: State, i: nat, user: nat, after: Option<Payload>)
    requires i < |s.requests| && s.requests[i].doc in s.docs
    ensures Decide(s, i, user, after) == Err(NO_AUTHORITY) <==> !MayApprove(s, s.requests[i].doc, user, Some(i))
  {
  }

  /** Whoever could approve before a request is made can decide the one made on their behalf, and nobody else. */
  lemma AskedOnBehalf(s: State, doc: nat, user: nat)
    requires doc in s.docs && RequestStep(s, doc, false, user, true).Ok?
    requires LiveRequest(s.requests, doc, false).None? && RequestStep(s, doc, false, user, true).value.1.Some?
    ensures var (t, asked) := RequestStep(s, doc, false, user, true).value;
            && asked.value < |t.requests| && t.requests[asked.value].doc == doc && t.docs == s.docs
            && (MayApprove(t, doc, user, asked) <==> MayApprove(s, doc, user, None))
  {
    var (t, asked) := RequestStep(s, doc, false, user, true).value;
    assert IndependentPolicy(t, doc, asked, user) == IndependentPolicy(s, doc, None, user);
  }

  /** An approval of the document would be decided, rather than let through without any rule that covers it. */
  predicate WouldBeDecided(s: State, doc: nat, user: nat)
    requires doc in s.docs
  {
    var pending := PendingRequest(s.requests, doc);
    && pending.Ok?
    && (pending.value.None? ==>
          && s.world.engineEnabled && !Finished(s.requests, doc)
          && RequestStep(s, doc, false, user, true).Ok? && RequestStep(s, doc, false, user, true).value.1.Some?)
  }

  lemma NothingLive(requests: seq<Request>, doc: nat)
    requires PendingRequest(requests, doc) == Ok(None) && !Finished(requests, doc)
    ensures LiveRequest(requests, doc, false).None?
  {
    var live := LiveRequest(requests, doc, false);
    if live.Some? {
      assert PendingFor(requests[live.value], doc);
    }
  }

  /** The check made before approval is offered says yes exactly when approving is not refused for lack of authority. */
  lemma CanApproveIff(s: State, doc: nat, user: nat, after: Option<Payload>)
    requires doc in s.docs && WouldBeDecided(s, doc, user)
    ensures CanApprove(s, doc, user) == Ok(true) <==> ApproveStep(s, doc, user, after) != Err(NO_AUTHORITY)
  {
    var pending := PendingRequest(s.requests, doc).value;
    if pending.Some? {
      RefusedIff(s, pending.value, user, after);
    } else {
      NothingLive(s.requests, doc);
      AskedOnBehalf(s, doc, user);
      var (t, asked) := RequestStep(s, doc, false, user, true).value;
      RefusedIff(t, asked.value, user, after);
    }
  }
}
