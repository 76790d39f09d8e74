/**
  Who may approve what, in terms of the rows a company configures: limits, permissions, ranks and levels.
 */
module ApprovalAuthority {
  import opened Common
  import opened ApprovalPolicy
  import opened ApprovalEngine
  import opened ApprovalTheorems

  // ---------------------------------------------------------------- the rows that count

  /** An enabled row of the matrix for the document type whose range contains the amount. */
  predicate InRange(rule: Rule, doctype: string, amount: real) {
    rule.enabled && rule.doctype == doctype && rule.min <= amount && (rule.max == None || rule.max.value >= amount)
  }

  /** An enabled row for the document type that names the user. */
  predicate NamesUser(rule: Rule, doctype: string, user: nat) {
    rule.enabled && rule.doctype == doctype && rule.user == Some(user)
  }

  /** One that names no user but one of the user's roles. */
  predicate NamesRole(rule: Rule, doctype: string, roles: set<nat>) {
    rule.enabled && rule.doctype == doctype && rule.user == None && rule.role.Some? && rule.role.value in roles
  }

  function RolesOf(w: World, user: nat): set<nat> {
    if user in w.users then w.users[user].roles else {}
  }

  /** The row gives the user authority: it names the user, or a role when no row names the user. */
  predicate GivenTo(w: World, rule: Rule, doctype: string, user: nat) {
    && rule in w.matrix
    && if exists own :: own in w.matrix && NamesUser(own, doctype, user) then NamesUser(rule, doctype, user)
       else NamesRole(rule, doctype, RolesOf(w, user))
  }

  lemma UserRulesIff(w: World, user: nat, doctype: string, rule: Rule)
    ensures rule in UserRules(w, user, doctype) <==> GivenTo(w, rule, doctype, user)
  {
    var own := OwnRules(w.matrix, user, doctype);
    if own != [] { assert own[0] in own; }
    forall x | x in w.matrix && NamesUser(x, doctype, user) ensures x in own {
    }
  }

  lemma CoversIff(rule: Rule, doctype: string, amount: real)
    ensures rule.enabled && rule.doctype == doctype && Covers(rule, amount) <==> InRange(rule, doctype, amount)
  {
  }

  /** A rule is found for somebody who is no administrator exactly when one given to the user has the amount in range. */
  lemma RuleFoundIff(w: World, user: nat, doctype: string, amount: real, required: int)
    ensures ApplicableRule(UserRules(w, user, doctype), amount, false, required).Some?
       <==> exists rule :: GivenTo(w, rule, doctype, user) && InRange(rule, doctype, amount)
  {
    var rules := UserRules(w, user, doctype);
    ApplicableRuleIsBest(rules, amount, required);
    forall x ensures x in rules <==> GivenTo(w, x, doctype, user) {
      UserRulesIff(w, user, doctype, x);
    }
    forall x | x in rules ensures Covers(x, amount) <==> InRange(x, doctype, amount) {
      CoversIff(x, doctype, amount);
    }
  }

  /** The upper end of a range, open ranges ending at 10^30. */
  function Upper(rule: Rule): real {
    if rule.max == None then 1000000000000000000000000000000.0 else rule.max.value
  }

  /**
    The rule recorded for the approval is given to the user and in range; any other such rule has a lower level, or the
    same level and a lower range start, or the same start and a wider range, or the same range and no later id.
   */
  lemma RuleFoundIsMostSenior(w: World, user: nat, doctype: string, amount: real, required: int, other: Rule)
    requires ApplicableRule(UserRules(w, user, doctype), amount, false, required).Some?
    ensures var rule := ApplicableRule(UserRules(w, user, doctype), amount, false, required).value;
            && GivenTo(w, rule, doctype, user) && InRange(rule, doctype, amount)
            && (GivenTo(w, other, doctype, user) && InRange(other, doctype, amount) ==>
                  || other.level < rule.level
                  || (other.level == rule.level &&
                      (|| other.min < rule.min
                       || (other.min == rule.min &&
                           (Upper(other) > Upper(rule) || (Upper(other) == Upper(rule) && other.id <= rule.id))))))
  {
    var rules := UserRules(w, user, doctype);
    var rule := ApplicableRule(rules, amount, false, required).value;
    ApplicableRuleIsBest(rules, amount, required);
    UserRulesIff(w, user, doctype, rule);
    UserRulesIff(w, user, doctype, other);
    CoversIff(rule, doctype, amount);
    CoversIff(other, doctype, amount);
    assert other in rules && Covers(other, amount) ==> !KeyLess(rule, other);
  }

  /** An administrator approves any amount, at the level the request asks for. */
  lemma AdministratorsHaveNoLimit(rules: seq<Rule>, amount: real, required: int)
    ensures ApplicableRule(rules, amount, true, required).Some?
    ensures ApplicableRule(rules, amount, true, required).value.level == required
  {
  }

  /** The level asked for is the least among the enabled rows in range, and zero exactly without any of positive level. */
  lemma RequiredLevelIsLeast(matrix: seq<Rule>, doctype: string, amount: real)
    ensures var level := RequiredLevel(matrix, doctype, amount);
            && (forall r :: r in matrix && InRange(r, doctype, amount) ==> level <= r.level)
            && ((exists r :: r in matrix && InRange(r, doctype, amount) && r.level == level)
                || (level == 0 && forall r :: r in matrix ==> !InRange(r, doctype, amount)))
  {
    forall r | r in matrix ensures (Applies(r, doctype) && Covers(r, amount)) <==> InRange(r, doctype, amount) {
      CoversIff(r, doctype, amount);
    }
    if exists r :: r in matrix && Applies(r, doctype) && Covers(r, amount) {
      var m := LeastLevel(matrix, doctype, amount);
      var r :| r in matrix && Applies(r, doctype) && Covers(r, amount) && m == r.level;
      assert InRange(r, doctype, amount);
    }
  }

  // ---------------------------------------------------------------- permissions and ranks

  /** An active user of an enabled company and module, who is an administrator or has access and the action in scope. */
  predicate HasPermission(w: World, user: nat, module_: string, action: string) {
    && user in w.users && w.users[user].active && w.companyEnabled && module_ in w.modules
    && (w.users[user].admin
        || (&& w.users[user].scoped
            && (exists k :: 0 <= k < |w.users[user].grants| && w.users[user].grants[k].module_ == module_
                            && w.users[user].grants[k].access)
            && (exists k :: 0 <= k < |w.users[user].grants| && w.users[user].grants[k].module_ == module_
                            && action in w.users[user].grants[k].actions)))
  }

  lemma AuthorizedIff(w: World, user: nat, module_: string, action: string)
    ensures Authorized(w, user, module_, action) <==> HasPermission(w, user, module_, action)
  {
    if user in w.users {
      var grants := w.users[user].grants;
      if g :| g in grants && g.module_ == module_ && g.access {
        var k :| 0 <= k < |grants| && grants[k] == g;
      }
      if g :| g in grants && g.module_ == module_ && action in g.actions {
        var k :| 0 <= k < |grants| && grants[k] == g;
      }
    }
  }

  /** Four for an administrator, else the highest of the ranks one to three granted for the enabled module. */
  predicate HasRank(w: World, user: nat, module_: string, rank: int) {
    && user in w.users
    && if w.users[user].admin then rank == 4
       else
         && module_ in w.modules && 1 <= rank <= 3
         && (exists g :: g in w.users[user].grants && g.module_ == module_ && g.rank == rank)
         && forall g :: g in w.users[user].grants && g.module_ == module_ && 1 <= g.rank <= 3 ==> g.rank <= rank
  }

  lemma {:induction false} GrantedRankIs(grants: seq<Grant>, module_: string)
    ensures var r := GrantedRank(grants, module_);
            && (r.None? ==> forall g :: g in grants && g.module_ == module_ ==> !(1 <= g.rank <= 3))
            && (r.Some? ==> && 1 <= r.value <= 3
                            && (exists g :: g in grants && g.module_ == module_ && g.rank == r.value)
                            && forall g :: g in grants && g.module_ == module_ && 1 <= g.rank <= 3 ==> g.rank <= r.value)
  {
    if grants != [] {
      GrantedRankIs(grants[1..], module_);
      assert grants == [grants[0]] + grants[1..];
      assert grants[0] in grants;
    }
  }

  /** The rank of a user, if there is one, is the only number with that property. */
  lemma ModuleRankIff(w: World, user: nat, module_: string, rank: int)
    ensures ModuleRank(w, user, module_) == Some(rank) <==> HasRank(w, user, module_, rank)
  {
    if user in w.users {
      GrantedRankIs(w.users[user].grants, module_);
    }
  }

  lemma RankExists(w: World, user: nat, module_: string)
    ensures ModuleRank(w, user, module_).Some? <==> Ranks(w, user, module_)
  {
    if ModuleRank(w, user, module_).Some? { ModuleRankIff(w, user, module_, ModuleRank(w, user, module_).value); }
    if rank :| HasRank(w, user, module_, rank) { ModuleRankIff(w, user, module_, rank); }
  }

  /**
    Under a frozen independent policy, approval is for those with permission in its module who are none of its preparers
    and whose rank no preparer exceeds, as long as some preparer has a valid rank.
   */
  lemma PermitsIff(w: World, policy: Policy, user: nat)
    requires policy.Independent?
    ensures Permits(w, policy, user) <==>
      && HasPermission(w, user, policy.module_, "approve")
      && (forall p :: p in policy.preparers ==> p.user != user)
      && (exists p :: p in policy.preparers && 1 <= p.rank <= 4)
      && exists rank :: HasRank(w, user, policy.module_, rank)
                        && forall p :: p in policy.preparers && 1 <= p.rank <= 4 ==> p.rank <= rank
  {
    AuthorizedIff(w, user, policy.module_, "approve");
    var own := ModuleRank(w, user, policy.module_);
    if own.Some? { ModuleRankIff(w, user, policy.module_, own.value); }
    if rank :| HasRank(w, user, policy.module_, rank) {
      ModuleRankIff(w, user, policy.module_, rank);
    }
  }

  lemma {:induction false} RankedIs(w: World, ids: seq<nat>, module_: string)
    ensures var r := Ranked(w, ids, module_);
            && (r.None? <==> exists i :: 0 <= i < |ids| && ModuleRank(w, ids[i], module_).None?)
            && (r.Some? ==> && |r.value| == |ids|
                            && forall i :: 0 <= i < |ids| ==> r.value[i].user == ids[i]
                                                              && HasRank(w, ids[i], module_, r.value[i].rank))
  {
    if ids != [] {
      var front, last := ids[..|ids| - 1], ids[|ids| - 1];
      assert ids == front + [last];
      RankedIs(w, front, module_);
      var rank := ModuleRank(w, last, module_);
      if rank.Some? { ModuleRankIff(w, last, module_, rank.value); }
    }
  }

  ghost predicate Ranks(w: World, user: nat, module_: string) {
    exists rank :: HasRank(w, user, module_, rank)
  }

  /** A list of preparers is frozen exactly when each has a rank, and then each with it. */
  lemma RankedAll(w: World, ids: seq<nat>, module_: string)
    ensures Ranked(w, ids, module_).Some? <==> forall u :: u in ids ==> Ranks(w, u, module_)
    ensures Ranked(w, ids, module_).Some? ==>
      var preparers := Ranked(w, ids, module_).value;
      && (forall u :: u in ids <==> exists p :: p in preparers && p.user == u)
      && forall p :: p in preparers ==> HasRank(w, p.user, module_, p.rank)
  {
    RankedIs(w, ids, module_);
    var r := Ranked(w, ids, module_);
    if r.Some? {
      forall u | u in ids ensures Ranks(w, u, module_) && exists p :: p in r.value && p.user == u {
        var i :| 0 <= i < |ids| && ids[i] == u;
        assert r.value[i] in r.value && HasRank(w, u, module_, r.value[i].rank);
      }
    } else {
      var i :| 0 <= i < |ids| && ModuleRank(w, ids[i], module_).None?;
      RankExists(w, ids[i], module_);
      assert ids[i] in ids && !Ranks(w, ids[i], module_);
    }
  }

  /** Who prepared a document. */
  predicate Prepared(user: nat, creator: Option<nat>, editor: Option<nat>, requester: nat) {
    creator == Some(user) || editor == Some(user) || requester == user
  }

  /** A policy freezes exactly the creator, the last editor and the requester, each with the rank held at that time. */
  lemma PolicyFreezesPreparers(w: World, creator: Option<nat>, editor: Option<nat>, requester: nat, module_: string)
    ensures var r := BuildPolicy(w, creator, editor, requester, module_);
            && (r.Ok? <==> creator.Some? && forall u :: Prepared(u, creator, editor, requester) ==> Ranks(w, u, module_))
            && (r.Ok? ==>
                  && r.value.Independent? && r.value.module_ == module_
                  && (forall u :: Prepared(u, creator, editor, requester) <==> exists p :: p in r.value.preparers && p.user == u)
                  && forall p :: p in r.value.preparers ==> HasRank(w, p.user, module_, p.rank))
  {
    if creator.Some? {
      var ids := InsertId(InsertSome(InsertSome([], creator), editor), requester);
      forall u ensures u in ids <==> Prepared(u, creator, editor, requester) {
      }
      RankedAll(w, ids, module_);
    }
  }

  // ---------------------------------------------------------------- requests

  /** A request of this kind for the document that was not rejected. */
  predicate Outstanding(s: State, doc: nat, cancel: bool) {
    exists i :: 0 <= i < |s.requests| && s.requests[i].doc == doc && s.requests[i].cancel == cancel && s.requests[i].status != Rejected
  }

  /** The matrix asks for a level of the document. */
  predicate AsksForLevel(s: State, doc: nat)
    requires doc in s.docs
  {
    RequiredLevel(s.world.matrix, s.docs[doc].doctype, s.docs[doc].payload.amount) != 0
  }

  /** The preparers of the document can be frozen, if independence is asked for. */
  ghost predicate CanFreeze(s: State, doc: nat, actor: nat)
    requires doc in s.docs
  {
    s.world.differentApprover ==>
      && s.docs[doc].payload.creator.Some?
      && forall u :: Prepared(u, s.docs[doc].payload.creator, s.docs[doc].editor, actor) ==> Ranks(s.world, u, s.docs[doc].module_)
  }

  lemma PolicyCanBeFrozenIff(s: State, doc: nat, actor: nat)
    requires doc in s.docs
    ensures NewPolicy(s.world, s.docs[doc], actor).Ok? <==> CanFreeze(s, doc, actor)
    ensures NewPolicy(s.world, s.docs[doc], actor).Ok? ==>
      (NewPolicy(s.world, s.docs[doc], actor).value.Independent? <==> s.world.differentApprover)
  {
    var d := s.docs[doc];
    PolicyFreezesPreparers(s.world, d.payload.creator, d.editor, actor, d.module_);
  }

  lemma OutstandingIff(s: State, doc: nat, cancel: bool)
    ensures LiveRequest(s.requests, doc, cancel).Some? <==> Outstanding(s, doc, cancel)
  {
    forall i | 0 <= i < |s.requests| ensures Live(s.requests[i]) <==> s.requests[i].status != Rejected {
    }
  }

  /**
    Asking makes a request exactly when the engine is on, a reason is given where a cancellation needs one, no such request
    is outstanding, the matrix asks for a level, an active user asks, and the preparers can be frozen if they must be.
   */
  lemma RequestIsMadeIff(s: State, doc: nat, cancel: bool, actor: nat, reasonGiven: bool)
    requires doc in s.docs
    ensures var r := RequestStep(s, doc, cancel, actor, reasonGiven);
            && (r.Ok? && r.value.0 != s <==>
                  && s.world.engineEnabled && (cancel && s.docs[doc].needsReason ==> reasonGiven)
                  && !Outstanding(s, doc, cancel) && AsksForLevel(s, doc)
                  && actor in s.world.users && s.world.users[actor].active && CanFreeze(s, doc, actor))
            && (r.Err? <==>
                  && s.world.engineEnabled
                  && ((cancel && s.docs[doc].needsReason && !reasonGiven)
                      || (!Outstanding(s, doc, cancel) && AsksForLevel(s, doc)
                          && !(actor in s.world.users && s.world.users[actor].active && CanFreeze(s, doc, actor)))))
  {
    OutstandingIff(s, doc, cancel);
    PolicyCanBeFrozenIff(s, doc, actor);
    var r := RequestStep(s, doc, cancel, actor, reasonGiven);
    if r.Ok? && r.value.1 == Some(|s.requests|) && LiveRequest(s.requests, doc, cancel).None? {
      assert |r.value.0.requests| == |s.requests| + 1;
    }
  }

  /** It is pending for what was asked, with the level asked of the amount, and the document as it is goes into the trail. */
  lemma MadeRequestIs(s: State, doc: nat, cancel: bool, actor: nat, reasonGiven: bool)
    requires doc in s.docs && RequestStep(s, doc, cancel, actor, reasonGiven).Ok?
    requires RequestStep(s, doc, cancel, actor, reasonGiven).value.0 != s
    ensures var (t, i) := RequestStep(s, doc, cancel, actor, reasonGiven).value;
            && i == Some(|s.requests|) && |t.requests| == |s.requests| + 1 && t.requests[..|s.requests|] == s.requests
            && t.docs == s.docs && t.executions == s.executions && t.actions == s.actions && t.world == s.world
            && t.trail == s.trail + [TrailEntry(doc, cancel, s.docs[doc].payload)]
            && var r := t.requests[|s.requests|];
               && r.doc == doc && r.cancel == cancel && r.requester == actor && r.currentLevel == 1
               && r.requiredLevel == RequiredLevel(s.world.matrix, s.docs[doc].doctype, s.docs[doc].payload.amount)
               && r.status == (if cancel then PendingCancellation else PendingApproval)
               && r.requested == s.docs[doc].payload && (r.policy.Independent? <==> s.world.differentApprover)
  {
    RequestStepShape(s, doc, cancel, actor, reasonGiven);
    PolicyCanBeFrozenIff(s, doc, actor);
  }

  /** Rejecting a pending request takes whoever may decide it, and changes its status alone. */
  lemma RejectionIs(s: State, doc: nat, user: nat, i: nat)
    requires doc in s.docs && s.world.engineEnabled && PendingRequest(s.requests, doc) == Ok(Some(i))
    ensures RejectStep(s, doc, user).Ok? <==> MayApprove(s, doc, user, Some(i))
    ensures RejectStep(s, doc, user).Ok? ==>
      var t := RejectStep(s, doc, user).value;
      && t.requests == s.requests[i := s.requests[i].(status := Rejected)] && t.docs == s.docs && t.trail == s.trail
      && t.executions == s.executions && |t.actions| == |s.actions| + 1
      && t.actions[|s.actions|].request == i && t.actions[|s.actions|].user == user && !t.actions[|s.actions|].approve
  {
  }

  // ---------------------------------------------------------------- decisions

  /** The user's own limits allow the amount: an administrator has none, others need a row in range. */
  ghost predicate WithinLimits(w: World, user: nat, doctype: string, amount: real) {
    || (user in w.users && w.users[user].admin)
    || exists rule :: GivenTo(w, rule, doctype, user) && InRange(rule, doctype, amount)
  }

  /** No frozen preparer, and ranked at least as high as each of them was. */
  ghost predicate IndependentOf(w: World, policy: Policy, user: nat)
    requires policy.Independent?
  {
    && HasPermission(w, user, policy.module_, "approve")
    && (forall p :: p in policy.preparers ==> p.user != user)
    && (exists p :: p in policy.preparers && 1 <= p.rank <= 4)
    && exists rank :: HasRank(w, user, policy.module_, rank)
                      && forall p :: p in policy.preparers && 1 <= p.rank <= 4 ==> p.rank <= rank
  }

  /** A pending request may be decided by exactly those with permission, within their limits, and independent if it says so. */
  lemma MayDecideIff(s: State, i: nat, user: nat)
    requires i < |s.requests| && s.requests[i].doc in s.docs
    ensures var r := s.requests[i];
            var d := s.docs[r.doc];
            MayApprove(s, r.doc, user, Some(i)) <==>
              && HasPermission(s.world, user, d.module_, "approve")
              && (r.policy.Independent? ==> IndependentOf(s.world, r.policy, user))
              && WithinLimits(s.world, user, d.doctype, d.payload.amount)
  {
    var r := s.requests[i];
    var d := s.docs[r.doc];
    AuthorizedIff(s.world, user, d.module_, "approve");
    if r.policy.Independent? { PermitsIff(s.world, r.policy, user); }
    RuleFoundIff(s.world, user, d.doctype, d.payload.amount, r.requiredLevel);
  }

  /** An amount above the maximum, or below the minimum, of every row given to the user is refused, and changes nothing. */
  lemma OutsideLimitsRefused(s: State, i: nat, user: nat, after: Option<Payload>)
    requires i < |s.requests| && s.requests[i].doc in s.docs && !IsAdmin(s.world, user)
    requires var d := s.docs[s.requests[i].doc];
             forall rule :: GivenTo(s.world, rule, d.doctype, user) ==>
               d.payload.amount < rule.min || (rule.max.Some? && rule.max.value < d.payload.amount)
    ensures Decide(s, i, user, after) == Err(NO_AUTHORITY)
  {
    MayDecideIff(s, i, user);
    RefusedIff(s, i, user, after);
  }

  /** A rule is found for whoever may decide. */
  lemma DeciderHasRule(s: State, i: nat, user: nat)
    requires i < |s.requests| && s.requests[i].doc in s.docs && MayApprove(s, s.requests[i].doc, user, Some(i))
    ensures RuleFor(s, s.requests[i].doc, user, s.requests[i].requiredLevel).Some?
  {
    var d := s.docs[s.requests[i].doc];
    RuleFoundIff(s.world, user, d.doctype, d.payload.amount, s.requests[i].requiredLevel);
  }

  /** A pending request somebody may decide is decided exactly when the document is as it was requested. */
  lemma UnchangedIsDecided(s: State, i: nat, user: nat, after: Payload)
    requires Inv(s) && i < |s.requests| && Pending(s.requests[i]) && s.requests[i].doc in s.docs
    requires MayApprove(s, s.requests[i].doc, user, Some(i))
    ensures Decide(s, i, user, Some(after)).Ok? <==> s.docs[s.requests[i].doc].payload == s.requests[i].requested
  {
    assert Hashed(s, s.requests[i]);
    SnapshotWasRequested(s, i);
    DeciderHasRule(s, i, user);
    assert DecidingRule(s, i, user).Ok? <==> SnapshotHolds(s, i);
  }

  /**
    A decision goes by the level of the rule recorded for it, the level asked for if an administrator decides: it is final
    when that is at least the level asked for, and else leaves the request pending past it.
   */
  lemma DecisionGoesByLevel(s: State, i: nat, user: nat, after: Option<Payload>) returns (rule: Rule)
    requires i < |s.requests| && s.requests[i].doc in s.docs && Decide(s, i, user, after).Ok?
    ensures IsAdmin(s.world, user) ==> rule.level == s.requests[i].requiredLevel
    ensures !IsAdmin(s.world, user) ==>
      var d := s.docs[s.requests[i].doc]; GivenTo(s.world, rule, d.doctype, user) && InRange(rule, d.doctype, d.payload.amount)
    ensures var (t, final) := Decide(s, i, user, after).value;
            && (final <==> rule.level >= s.requests[i].requiredLevel)
            && t.requests == s.requests[i := if final then s.requests[i].(status := Approved)
                                             else s.requests[i].(currentLevel := rule.level + 1)]
  {
    var d := s.docs[s.requests[i].doc];
    rule := RuleFor(s, s.requests[i].doc, user, s.requests[i].requiredLevel).value;
    if IsAdmin(s.world, user) {
      AdministratorsHaveNoLimit(UserRules(s.world, user, d.doctype), d.payload.amount, s.requests[i].requiredLevel);
    } else {
      RuleFoundIsMostSenior(s.world, user, d.doctype, d.payload.amount, s.requests[i].requiredLevel, rule);
    }
    assert Decide(s, i, user, after) == Decided(s, i, user, rule, after);
  }

  // ---------------------------------------------------------------- over every run

  /** What an execution rests on, in the world it happened in. */
  ghost predicate Grounded(s: State, e: Execution) {
    && e.request < |s.requests| && s.requests[e.request].doc in s.docs
    && var d := s.docs[s.requests[e.request].doc];
       && HasPermission(e.world, e.approver, d.module_, "approve")
       && (e.approver in e.world.users && (!e.world.users[e.approver].admin ==>
             exists rule :: GivenTo(e.world, rule, d.doctype, e.approver) && InRange(rule, d.doctype, e.payload.amount)
                            && rule.level == e.level))
  }

  ghost predicate AllGrounded(s: State) {
    forall k :: 0 <= k < |s.executions| ==> Grounded(s, s.executions[k])
  }

  /** Steps keep what executions rest on: documents keep type and module, and requests their documents. */
  predicate KeepsGround(s: State, t: State) {
    && |s.requests| <= |t.requests| && (forall i :: 0 <= i < |s.requests| ==> t.requests[i].doc == s.requests[i].doc)
    && s.docs.Keys == t.docs.Keys
    && forall d :: d in s.docs ==> t.docs[d].doctype == s.docs[d].doctype && t.docs[d].module_ == s.docs[d].module_
  }

  lemma GroundStays(s: State, t: State, executions: seq<Execution>)
    requires KeepsGround(s, t) && forall k :: 0 <= k < |executions| ==> Grounded(s, executions[k])
    ensures forall k :: 0 <= k < |executions| ==> Grounded(t, executions[k])
  {
    forall k | 0 <= k < |executions| ensures Grounded(t, executions[k]) {
      assert Grounded(s, executions[k]);
    }
  }

  lemma DecideIsGrounded(s: State, i: nat, user: nat, after: Option<Payload>)
    requires AllGrounded(s) && i < |s.requests| && s.requests[i].doc in s.docs && Decide(s, i, user, after).Ok?
    ensures AllGrounded(Decide(s, i, user, after).value.0)
  {
    var (t, final) := Decide(s, i, user, after).value;
    DecideShape(s, i, user, after);
    assert KeepsGround(s, t);
    GroundStays(s, t, s.executions);
    if final {
      var r := s.requests[i];
      var d := s.docs[r.doc];
      MayDecideIff(s, i, user);
      var rule := RuleFor(s, r.doc, user, r.requiredLevel).value;
      if !IsAdmin(s.world, user) {
        RuleFoundIsMostSenior(s.world, user, d.doctype, d.payload.amount, r.requiredLevel, rule);
      }
      var e := Execution(i, user, rule.level, d.payload, s.world);
      assert t.executions == s.executions + [e] && Grounded(t, e);
      forall k | 0 <= k < |t.executions| ensures Grounded(t, t.executions[k]) {
        if k < |s.executions| { assert t.executions[k] == s.executions[k]; }
      }
    }
  }

  lemma RequestIsGrounded(s: State, doc: nat, cancel: bool, actor: nat, reasonGiven: bool)
    requires AllGrounded(s) && doc in s.docs && RequestStep(s, doc, cancel, actor, reasonGiven).Ok?
    ensures AllGrounded(RequestStep(s, doc, cancel, actor, reasonGiven).value.0)
  {
    var t := RequestStep(s, doc, cancel, actor, reasonGiven).value.0;
    RequestStepShape(s, doc, cancel, actor, reasonGiven);
    assert KeepsGround(s, t);
    GroundStays(s, t, s.executions);
  }

  lemma ApproveIsGrounded(s: State, doc: nat, user: nat, after: Option<Payload>)
    requires Inv(s) && AllGrounded(s) && doc in s.docs && ApproveStep(s, doc, user, after).Ok?
    ensures AllGrounded(ApproveStep(s, doc, user, after).value.0)
  {
    match PendingRequest(s.requests, doc)
    case Ok(Some(i)) => DecideIsGrounded(s, i, user, after);
    case Ok(None) =>
      if s.world.engineEnabled && !Finished(s.requests, doc) {
        var (t, asked) := RequestStep(s, doc, false, user, true).value;
        RequestStepShape(s, doc, false, user, true);
        RequestIsGrounded(s, doc, false, user, true);
        if asked.Some? {
          AskedIsPending(s, doc, user);
          DecideIsGrounded(t, asked.value, user, after);
        }
      }
  }

  lemma NextIsGrounded(s: State, step: Step)
    requires Inv(s) && AllGrounded(s)
    ensures AllGrounded(Next(s, step))
  {
    var t := Next(s, step);
    if t != s {
      match step
      case Ask(doc, cancel, actor, reasonGiven) => RequestIsGrounded(s, doc, cancel, actor, reasonGiven);
      case Approve(doc, user, after) => ApproveIsGrounded(s, doc, user, after);
      case Reject(_, _) => GroundStays(s, t, s.executions);
      case Edit(_, _, _) => GroundStays(s, t, s.executions);
      case Configure(_) => GroundStays(s, t, s.executions);
    }
  }

  lemma {:induction false} RunIsGrounded(s: State, steps: seq<Step>)
    requires Initial(s)
    ensures AllGrounded(Run(s, steps))
    decreases |steps|
  {
    if steps != [] {
      RunIsGrounded(s, steps[..|steps| - 1]);
      RunKeepsInv(s, steps[..|steps| - 1]);
      NextIsGrounded(Run(s, steps[..|steps| - 1]), steps[|steps| - 1]);
    }
  }

  /**
    Over every run each execution was approved by an active user with permission; and by somebody who is no administrator
    only under an enabled row of the matrix of that time, for the user or a role and for the document type, whose minimum
    the amount reaches and whose maximum, if any, it does not exceed.
   */
  lemma ExecutionsAreWithinLimits(s: State, steps: seq<Step>, k: nat)
    requires Initial(s) && k < |Run(s, steps).executions|
    ensures var t := Run(s, steps);
            var e := t.executions[k];
            && e.request < |t.requests| && t.requests[e.request].doc in t.docs
            && var d := t.docs[t.requests[e.request].doc];
               && e.approver in e.world.users && e.world.users[e.approver].active
               && e.world.companyEnabled && d.module_ in e.world.modules
               && (!e.world.users[e.approver].admin ==>
                     && e.world.users[e.approver].scoped
                     && exists rule ::
                          && rule in e.world.matrix && rule.enabled && rule.doctype == d.doctype && rule.level == e.level
                          && rule.min <= e.payload.amount && (rule.max.Some? ==> e.payload.amount <= rule.max.value)
                          && (rule.user == Some(e.approver)
                              || (rule.user.None? && rule.role.Some? && rule.role.value in e.world.users[e.approver].roles)))
  {
    RunIsGrounded(s, steps);
    var t := Run(s, steps);
    var e := t.executions[k];
    assert Grounded(t, e);
    var d := t.docs[t.requests[e.request].doc];
    if !e.world.users[e.approver].admin {
      var rule :| GivenTo(e.world, rule, d.doctype, e.approver) && InRange(rule, d.doctype, e.payload.amount) && rule.level == e.level;
      assert rule in e.world.matrix;
    }
  }
}
