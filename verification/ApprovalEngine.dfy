/**
  Approval requests: created with a frozen payload hash, policy and required level; approved, moved to a later level or
  rejected; and the cancellation requests that run beside them.
 */
module ApprovalEngine {
  import opened Common
  import opened ApprovalPolicy

  /** The hashed header and lines of a document. The hash is injective, so it is modelled by the payload itself. */
  datatype Payload = Payload(amount: real, creator: Option<nat>, content: string)

  /** `editor` is the last modifier, which is not hashed. */
  datatype Document = Document(doctype: string, module_: string, needsReason: bool, payload: Payload, editor: Option<nat>)

  datatype Status = PendingApproval | PendingCancellation | Approved | Rejected

  /** `requested` records the payload at request time; only the audit trail entry holds its hash in the program. */
  datatype Request = Request(doc: nat, cancel: bool, requester: nat, policy: Policy, currentLevel: int, requiredLevel: int,
                             status: Status, requested: Payload)

  /** The audit entry of a request, with the snapshot hash. */
  datatype TrailEntry = TrailEntry(doc: nat, cancel: bool, hash: Payload)

  datatype Action = Action(request: nat, user: nat, approve: bool, amount: real, level: int)

  /** A submission or cancellation that was carried out: by whom, at which level, on what, and in which world. */
  datatype Execution = Execution(request: nat, approver: nat, level: int, payload: Payload, world: World)

  datatype State = State(world: World, docs: map<nat, Document>, requests: seq<Request>, trail: seq<TrailEntry>,
                         actions: seq<Action>, executions: seq<Execution>)

  predicate Pending(r: Request) {
    r.status.PendingApproval? || r.status.PendingCancellation?
  }

  predicate Live(r: Request) {
    Pending(r) || r.status.Approved?
  }

  predicate PendingFor(r: Request, doc: nat) {
    r.doc == doc && Pending(r)
  }

  // ---------------------------------------------------------------- queries

  /** Positions of the pending requests of a document. */
  function PendingAt(requests: seq<Request>, doc: nat): (r: seq<nat>)
    ensures forall i: nat :: i in r <==> i < |requests| && PendingFor(requests[i], doc)
    ensures forall i, j :: 0 <= i < j < |r| ==> r[i] < r[j]
  {
    if requests == [] then []
    else
      var n := |requests| - 1;
      var rest := PendingAt(requests[..n], doc);
      assert forall k :: 0 <= k < |rest| ==> rest[k] in rest;
      if PendingFor(requests[n], doc) then rest + [n] else rest
  }

  /** The one pending request, if any; the query fails when there are several. */
  function PendingRequest(requests: seq<Request>, doc: nat): (r: Result<Option<nat>>)
    ensures r.Ok? && r.value.Some? ==> r.value.value < |requests| && PendingFor(requests[r.value.value], doc)
  {
    var at := PendingAt(requests, doc);
    if |at| == 0 then Ok(None) else if |at| == 1 then assert at[0] in at; Ok(Some(at[0])) else Err("multiple results")
  }

  /** The newest live request of the same kind. */
  function LiveRequest(requests: seq<Request>, doc: nat, cancel: bool): (r: Option<nat>)
    ensures r.Some? ==> r.value < |requests| && requests[r.value].doc == doc && requests[r.value].cancel == cancel
                        && Live(requests[r.value])
    ensures r.None? ==>
      forall i :: 0 <= i < |requests| && requests[i].doc == doc && requests[i].cancel == cancel ==> !Live(requests[i])
  {
    if requests == [] then None
    else
      var n := |requests| - 1;
      var last := requests[n];
      if last.doc == doc && last.cancel == cancel && Live(last) then Some(n) else LiveRequest(requests[..n], doc, cancel)
  }

  /** The hash of the newest audit entry of the kind. */
  function LatestHash(trail: seq<TrailEntry>, doc: nat, cancel: bool): Option<Payload> {
    if trail == [] then None
    else
      var last := trail[|trail| - 1];
      if last.doc == doc && last.cancel == cancel then Some(last.hash) else LatestHash(trail[..|trail| - 1], doc, cancel)
  }

  /** Was an earlier request of the document approved? */
  predicate Finished(requests: seq<Request>, doc: nat) {
    exists i :: 0 <= i < |requests| && requests[i].doc == doc && requests[i].status.Approved?
  }

  // ---------------------------------------------------------------- requests

  /** The policy to freeze. */
  function NewPolicy(w: World, d: Document, requester: nat): Result<Policy> {
    if !w.differentApprover then Ok(Open)
    else BuildPolicy(w, d.payload.creator, d.editor, requester, d.module_)
  }

  /** Ask for approval or cancellation; an existing live request is returned, and nothing when no rule covers. */
  function RequestStep(s: State, doc: nat, cancel: bool, actor: nat, reasonGiven: bool): Result<(State, Option<nat>)>
    requires doc in s.docs
  {
    var d := s.docs[doc];
    if !s.world.engineEnabled then Ok((s, None))
    else if cancel && d.needsReason && !reasonGiven then Err("a reason is required")
    else
      match LiveRequest(s.requests, doc, cancel)
      case Some(i) => Ok((s, Some(i)))
      case None =>
        var level := RequiredLevel(s.world.matrix, d.doctype, d.payload.amount);
        if level == 0 then Ok((s, None))
        else if actor !in s.world.users || !s.world.users[actor].active then Err("an active user is required")
        else
          var policy :- NewPolicy(s.world, d, actor);
          var r := Request(doc, cancel, actor, policy, 1, level,
                           if cancel then PendingCancellation else PendingApproval, d.payload);
          Ok((s.(requests := s.requests + [r], trail := s.trail + [TrailEntry(doc, cancel, d.payload)]), Some(|s.requests|)))
  }

  // ---------------------------------------------------------------- approval

  /** The persisted policy wins over the current settings. */
  function IndependentPolicy(s: State, doc: nat, request: Option<nat>, user: nat): Option<Policy>
    requires doc in s.docs && (request.Some? ==> request.value < |s.requests|)
    ensures IndependentPolicy(s, doc, request, user).Some? ==> IndependentPolicy(s, doc, request, user).value.Independent?
  {
    match request
    case Some(i) => if s.requests[i].policy.Independent? then Some(s.requests[i].policy) else None
    case None =>
      if !s.world.differentApprover then None
      else
        var d := s.docs[doc];
        match BuildPolicy(s.world, d.payload.creator, d.editor, user, d.module_)
        case Ok(policy) => if policy.Independent? then Some(policy) else None
        case Err(_) => Some(Independent("", []))
  }

  function IsAdmin(w: World, user: nat): bool {
    user in w.users && w.users[user].admin
  }

  function RuleFor(s: State, doc: nat, user: nat, required: int): Option<Rule>
    requires doc in s.docs
  {
    var d := s.docs[doc];
    ApplicableRule(UserRules(s.world, user, d.doctype), d.payload.amount, IsAdmin(s.world, user), required)
  }

  predicate MayApprove(s: State, doc: nat, user: nat, request: Option<nat>)
    requires doc in s.docs && (request.Some? ==> request.value < |s.requests|)
  {
    var policy := IndependentPolicy(s, doc, request, user);
    && Authorized(s.world, user, s.docs[doc].module_)
    && (policy.Some? ==> Permits(s.world, policy.value, user))
    && (IsAdmin(s.world, user)
        || RuleFor(s, doc, user, if request.Some? then s.requests[request.value].requiredLevel else 0).Some?)
  }

  /** The check routes make before they offer approval; it fails when two requests are pending. */
  function CanApprove(s: State, doc: nat, user: nat): Result<bool>
    requires doc in s.docs
  {
    var request :- PendingRequest(s.requests, doc);
    if !s.world.engineEnabled && request.None? then Ok(true) else Ok(MayApprove(s, doc, user, request))
  }

  predicate SnapshotHolds(s: State, i: nat)
    requires i < |s.requests| && s.requests[i].doc in s.docs
  {
    var hash := LatestHash(s.trail, s.requests[i].doc, s.requests[i].cancel);
    hash.Some? ==> hash.value == s.docs[s.requests[i].doc].payload
  }

  /** The rule a pending request is decided by, unless the decision is refused. */
  function DecidingRule(s: State, i: nat, user: nat): Result<Rule>
    requires i < |s.requests| && s.requests[i].doc in s.docs
  {
    var r := s.requests[i];
    if !MayApprove(s, r.doc, user, Some(i)) then Err("not allowed to approve")
    else if !SnapshotHolds(s, i) then Err("the document changed after the request")
    else
      match RuleFor(s, r.doc, user, r.requiredLevel)
      case None => Err("no sufficient limit")
      case Some(rule) => Ok(rule)
  }

  /** Decide a pending request; `after` is the document its execution leaves behind, if the execution succeeds. */
  function Decide(s: State, i: nat, user: nat, after: Option<Payload>): Result<(State, bool)>
    requires i < |s.requests| && s.requests[i].doc in s.docs
  {
    var rule :- DecidingRule(s, i, user);
    Decided(s, i, user, rule, after)
  }

  function Decided(s: State, i: nat, user: nat, rule: Rule, after: Option<Payload>): Result<(State, bool)>
    requires i < |s.requests| && s.requests[i].doc in s.docs
  {
    var r := s.requests[i];
    var d := s.docs[r.doc];
    var actions := s.actions + [Action(i, user, true, d.payload.amount, rule.level)];
    if rule.level >= r.requiredLevel then
      match after
      case None => Err("execution failed")
      case Some(payload) =>
        Ok((s.(actions := actions,
               requests := s.requests[i := r.(status := Approved)],
               executions := s.executions + [Execution(i, user, rule.level, d.payload, s.world)],
               docs := s.docs[r.doc := d.(payload := payload)]), true))
    else
      Ok((s.(actions := actions, requests := s.requests[i := r.(currentLevel := rule.level + 1)]), false))
  }

  function ApproveStep(s: State, doc: nat, user: nat, after: Option<Payload>): Result<(State, bool)>
    requires doc in s.docs
  {
    var pending :- PendingRequest(s.requests, doc);
    match pending
    case Some(i) => Decide(s, i, user, after)
    case None =>
      if !s.world.engineEnabled || Finished(s.requests, doc) then Ok((s, true))
      else
        var (requested, asked) :- RequestStep(s, doc, false, user, true);
        match asked
        case None => Ok((s, true))
        case Some(i) =>
          if i < |requested.requests| && requested.requests[i].doc in requested.docs then Decide(requested, i, user, after)
          else Err("unknown request")
  }

  function RejectStep(s: State, doc: nat, user: nat): Result<State>
    requires doc in s.docs
  {
    if !s.world.engineEnabled then Ok(s)
    else
      var pending :- PendingRequest(s.requests, doc);
      match pending
      case None => Err("no request")
      case Some(i) =>
        var r := s.requests[i];
        if !MayApprove(s, doc, user, Some(i)) then Err("not allowed to approve")
        else
          var rules := UserRules(s.world, user, s.docs[doc].doctype);
          Ok(s.(requests := s.requests[i := r.(status := Rejected)],
                actions := s.actions + [Action(i, user, false, s.docs[doc].payload.amount,
                                               if rules != [] then rules[0].level else r.currentLevel)]))
  }

  // ---------------------------------------------------------------- the machine

  datatype Step =
    | Ask(doc: nat, cancel: bool, actor: nat, reasonGiven: bool)
    | Approve(doc: nat, user: nat, after: Option<Payload>)
    | Reject(doc: nat, user: nat)
    | Edit(doc: nat, payload: Payload, editor: Option<nat>)
    | Configure(world: World)

  /** A step that raises is rolled back. */
  function Next(s: State, step: Step): State {
    if !step.Configure? && step.doc !in s.docs then s
    else
      match step
      case Ask(doc, cancel, actor, reasonGiven) =>
        (match RequestStep(s, doc, cancel, actor, reasonGiven) case Ok((t, _)) => t case Err(_) => s)
      case Approve(doc, user, after) =>
        (match ApproveStep(s, doc, user, after) case Ok((t, _)) => t case Err(_) => s)
      case Reject(doc, user) =>
        (match RejectStep(s, doc, user) case Ok(t) => t case Err(_) => s)
      case Edit(doc, payload, editor) => s.(docs := s.docs[doc := s.docs[doc].(payload := payload, editor := editor)])
      case Configure(world) => s.(world := world)
  }

  function Run(s: State, steps: seq<Step>): State
    decreases |steps|
  {
    if steps == [] then s else Next(Run(s, steps[..|steps| - 1]), steps[|steps| - 1])
  }

  /** No requests yet. */
  predicate Initial(s: State) {
    s.requests == [] && s.trail == [] && s.actions == [] && s.executions == []
  }

  // ---------------------------------------------------------------- the engine as it updates its tables

  /** The tables of the engine. A method that raises leaves them as they were: its caller rolls the transaction back. */
  class Engine {
    var world: World
    var docs: map<nat, Document>
    var requests: seq<Request>
    var trail: seq<TrailEntry>
    var actions: seq<Action>
    var executions: seq<Execution>

    function View(): State
      reads this
    {
      State(world, docs, requests, trail, actions, executions)
    }

    constructor (s: State)
      ensures View() == s
    {
      world, docs, requests := s.world, s.docs, s.requests;
      trail, actions, executions := s.trail, s.actions, s.executions;
    }

    /** The pending requests of a document, found by going through the table. */
    method FindPending(doc: nat) returns (r: Result<Option<nat>>)
      ensures r == PendingRequest(requests, doc)
    {
      var at: seq<nat> := [];
      for i := 0 to |requests|
        invariant at == PendingAt(requests[..i], doc)
      {
        assert requests[..i + 1][..i] == requests[..i];
        if PendingFor(requests[i], doc) { at := at + [i]; }
      }
      assert requests[..|requests|] == requests;
      if |at| > 1 { return Err("multiple results"); }
      r := Ok(if at == [] then None else Some(at[0]));
    }

    /** The least level of the covering rules. */
    method GetRequiredLevel(doctype: string, amount: real) returns (level: int)
      ensures level == RequiredLevel(world.matrix, doctype, amount)
    {
      var matrix := world.matrix;
      var found := false;
      level := 0;
      for i := 0 to |matrix|
        invariant found <==> exists r :: r in matrix[..i] && Applies(r, doctype) && Covers(r, amount)
        invariant !found ==> level == 0
        invariant found ==> exists r :: r in matrix[..i] && Applies(r, doctype) && Covers(r, amount) && level == r.level
        invariant found ==> forall r :: r in matrix[..i] && Applies(r, doctype) && Covers(r, amount) ==> level <= r.level
      {
        assert matrix[..i + 1] == matrix[..i] + [matrix[i]];
        if Applies(matrix[i], doctype) && Covers(matrix[i], amount) {
          level := if found && level <= matrix[i].level then level else matrix[i].level;
          found := true;
        }
      }
      assert matrix[..|matrix|] == matrix;
    }

    /** Create a request unless a live one of the same kind exists. */
    method AskApproval(doc: nat, cancel: bool, actor: nat, reasonGiven: bool) returns (r: Result<Option<nat>>)
      requires doc in docs
      modifies this
      ensures match RequestStep(old(View()), doc, cancel, actor, reasonGiven)
              case Err(e) => r == Err(e) && View() == old(View())
              case Ok((t, i)) => r == Ok(i) && View() == t
    {
      if !world.engineEnabled { return Ok(None); }
      var d := docs[doc];
      if cancel && d.needsReason && !reasonGiven { return Err("a reason is required"); }
      var existing := LiveRequest(requests, doc, cancel);
      if existing.Some? { return Ok(existing); }
      var level := GetRequiredLevel(d.doctype, d.payload.amount);
      if level == 0 { return Ok(None); }
      if actor !in world.users || !world.users[actor].active { return Err("an active user is required"); }
      var policy: Result<Policy> := Ok(Open);
      if world.differentApprover {
        policy := BuildPolicyLoop(world, d.payload.creator, d.editor, actor, d.module_);
      }
      if policy.Err? { return Err(policy.error); }
      r := Ok(Some(|requests|));
      requests := requests + [Request(doc, cancel, actor, policy.value, 1, level,
                                              if cancel then PendingCancellation else PendingApproval, d.payload)];
      trail := trail + [TrailEntry(doc, cancel, d.payload)];
    }

    /** The rule a request is decided by, after every check. */
    method FindDecidingRule(i: nat, user: nat) returns (r: Result<Rule>)
      requires i < |requests| && requests[i].doc in docs
      ensures r == DecidingRule(View(), i, user)
    {
      var req := requests[i];
      var d := docs[req.doc];
      if !MayApprove(View(), req.doc, user, Some(i)) { return Err("not allowed to approve"); }
      if !SnapshotHolds(View(), i) { return Err("the document changed after the request"); }
      var rule := FindApplicableRule(UserRules(world, user, d.doctype), d.payload.amount, IsAdmin(world, user), req.requiredLevel);
      if rule.None? { return Err("no sufficient limit"); }
      r := Ok(rule.value);
    }

    /** Record the decision, and finalise the request or move it to a later level. */
    method ApplyDecision(i: nat, user: nat, rule: Rule, after: Option<Payload>) returns (r: Result<bool>)
      requires i < |requests| && requests[i].doc in docs
      modifies this
      ensures match Decided(old(View()), i, user, rule, after)
              case Err(e) => r == Err(e) && View() == old(View())
              case Ok((t, final)) => r == Ok(final) && View() == t
    {
      var req := requests[i];
      var d := docs[req.doc];
      var final := rule.level >= req.requiredLevel;
      if final && after.None? { return Err("execution failed"); }
      actions := actions + [Action(i, user, true, d.payload.amount, rule.level)];
      if final {
        requests := requests[i := req.(status := Approved)];
        executions := executions + [Execution(i, user, rule.level, d.payload, world)];
        docs := docs[req.doc := d.(payload := after.value)];
      } else {
        requests := requests[i := req.(currentLevel := rule.level + 1)];
      }
      r := Ok(final);
    }

    /** Decide one pending request; nothing is written before every check has passed. */
    method DecideRequest(i: nat, user: nat, after: Option<Payload>) returns (r: Result<bool>)
      requires i < |requests| && requests[i].doc in docs
      modifies this
      ensures match Decide(old(View()), i, user, after)
              case Err(e) => r == Err(e) && View() == old(View())
              case Ok((t, final)) => r == Ok(final) && View() == t
    {
      var rule := FindDecidingRule(i, user);
      if rule.Err? { return Err(rule.error); }
      r := ApplyDecision(i, user, rule.value, after);
    }

    /** Approve at the user's level, asking for approval first when nothing is pending. */
    method Approve(doc: nat, user: nat, after: Option<Payload>) returns (r: Result<bool>)
      requires doc in docs
      requires forall i :: 0 <= i < |requests| ==> requests[i].doc in docs
      modifies this
      ensures match ApproveStep(old(View()), doc, user, after)
              case Err(e) => r == Err(e) && View() == old(View())
              case Ok((t, final)) => r == Ok(final) && View() == t
    {
      var pending := FindPending(doc);
      if pending.Err? { return Err(pending.error); }
      var i := pending.value;
      var savedRequests, savedTrail := requests, trail;
      if i.None? {
        if !world.engineEnabled || Finished(requests, doc) { return Ok(true); }
        var asked := AskApproval(doc, false, user, true);
        if asked.Err? { return Err(asked.error); }
        if asked.value.None? { return Ok(true); }
        i := asked.value;
      }
      r := DecideRequest(i.value, user, after);
      if r.Err? { requests, trail := savedRequests, savedTrail; }
    }

    /** Reject the pending request. */
    method Reject(doc: nat, user: nat) returns (r: Result<()>)
      requires doc in docs
      requires forall i :: 0 <= i < |requests| ==> requests[i].doc in docs
      modifies this
      ensures match RejectStep(old(View()), doc, user)
              case Err(e) => r == Err(e) && View() == old(View())
              case Ok(t) => r == Ok(()) && View() == t
    {
      if !world.engineEnabled { return Ok(()); }
      var pending := FindPending(doc);
      if pending.Err? { return Err(pending.error); }
      if pending.value.None? { return Err("no request"); }
      var i := pending.value.value;
      var req := requests[i];
      if !MayApprove(View(), doc, user, Some(i)) { return Err("not allowed to approve"); }
      var rules := UserRules(world, user, docs[doc].doctype);
      actions := actions + [Action(i, user, false, docs[doc].payload.amount,
                                   if rules != [] then rules[0].level else req.currentLevel)];
      requests := requests[i := req.(status := Rejected)];
      r := Ok(());
    }
  }
}
