/**
  Who may approve: module permissions and ranks, the policy frozen with a request, and the matrix rule that decides the
  level of an approval.
 */
module ApprovalPolicy {
  import opened Common

  // ---------------------------------------------------------------- users and permissions

  /** A permission row of one of the user's active roles, with the actions it allows. */
  datatype Grant = Grant(module_: string, access: bool, actions: set<string>, rank: int)

  /** `scoped` says whether the user may work in the company. */
  datatype User = User(active: bool, admin: bool, scoped: bool, grants: seq<Grant>, roles: set<nat>)

  /** A row of the approval matrix; ids are ordered as the database orders them. */
  datatype Rule = Rule(id: int, doctype: string, user: Option<nat>, role: Option<nat>, min: real, max: Option<real>,
                       level: int, enabled: bool)

  /** Everything an administrator can change while requests are pending, for one company. */
  datatype World = World(engineEnabled: bool, differentApprover: bool, companyEnabled: bool, modules: set<string>,
                         users: map<nat, User>, matrix: seq<Rule>)

  /** The highest explicit rank among the grants for a module. */
  function GrantedRank(grants: seq<Grant>, module_: string): (r: Option<int>)
    ensures r.Some? ==> 1 <= r.value <= 3
  {
    if grants == [] then None
    else
      var rest := GrantedRank(grants[1..], module_);
      var g := grants[0];
      if g.module_ == module_ && 1 <= g.rank <= 3 && (rest.None? || rest.value < g.rank) then Some(g.rank) else rest
  }

  function ModuleRank(w: World, user: nat, module_: string): (r: Option<int>)
    ensures r.Some? ==> 1 <= r.value <= 4
  {
    if user !in w.users then None
    else if w.users[user].admin then Some(4)
    else if module_ in w.modules then GrantedRank(w.users[user].grants, module_)
    else None
  }

  predicate Authorized(w: World, user: nat, module_: string, action: string := "approve") {
    && user in w.users && w.users[user].active
    && w.companyEnabled && module_ in w.modules
    && (w.users[user].admin
        || (w.users[user].scoped
            && (exists g :: g in w.users[user].grants && g.module_ == module_ && g.access)
            && (exists g :: g in w.users[user].grants && g.module_ == module_ && action in g.actions)))
  }

  // ---------------------------------------------------------------- the frozen policy

  datatype Preparer = Preparer(user: nat, rank: int)

  /** What a request freezes about its preparers. */
  datatype Policy = Open | Independent(module_: string, preparers: seq<Preparer>)

  function InsertId(ids: seq<nat>, id: nat): (r: seq<nat>)
    ensures forall x :: x in r <==> x == id || x in ids
  {
    if ids == [] then [id]
    else if id == ids[0] then ids
    else if id < ids[0] then [id] + ids
    else
      var rest := InsertId(ids[1..], id);
      assert ids == [ids[0]] + ids[1..];
      [ids[0]] + rest
  }

  function InsertSome(ids: seq<nat>, id: Option<nat>): (r: seq<nat>)
    ensures forall x :: x in r <==> id == Some(x) || x in ids
  {
    match id
    case None => ids
    case Some(v) => InsertId(ids, v)
  }

  /** Preparers with their ranks, unless one of them is unknown or has no rank. */
  function Ranked(w: World, ids: seq<nat>, module_: string): Option<seq<Preparer>> {
    if ids == [] then Some([])
    else
      var rest := Ranked(w, ids[..|ids| - 1], module_);
      var last := ids[|ids| - 1];
      var rank := ModuleRank(w, last, module_);
      if rest.None? || rank.None? then None else Some(rest.value + [Preparer(last, rank.value)])
  }

  /** The creator, the last editor and the requester, each once. */
  function BuildPolicy(w: World, creator: Option<nat>, editor: Option<nat>, requester: nat, module_: string): Result<Policy> {
    if creator.None? then Err("missing preparer")
    else
      match Ranked(w, InsertId(InsertSome(InsertSome([], creator), editor), requester), module_)
      case None => Err("unclassified preparer")
      case Some(preparers) => Ok(Independent(module_, preparers))
  }

  lemma {:induction false} RankedStaysNone(w: World, ids: seq<nat>, module_: string, k: nat)
    requires k <= |ids| && Ranked(w, ids[..k], module_).None?
    ensures Ranked(w, ids, module_).None?
    decreases |ids| - k
  {
    if k < |ids| {
      assert ids[..k + 1][..k] == ids[..k];
      RankedStaysNone(w, ids, module_, k + 1);
    } else {
      assert ids[..k] == ids;
    }
  }

  /** The loop over the preparers. */
  method BuildPolicyLoop(w: World, creator: Option<nat>, editor: Option<nat>, requester: nat, module_: string)
    returns (r: Result<Policy>)
    ensures r == BuildPolicy(w, creator, editor, requester, module_)
  {
    if creator.None? { return Err("missing preparer"); }
    var ids := InsertId(InsertSome(InsertSome([], creator), editor), requester);
    var preparers: seq<Preparer> := [];
    for i := 0 to |ids|
      invariant Ranked(w, ids[..i], module_) == Some(preparers)
    {
      assert ids[..i + 1][..i] == ids[..i];
      var rank := ModuleRank(w, ids[i], module_);
      if rank.None? {
        RankedStaysNone(w, ids, module_, i + 1);
        return Err("unclassified preparer");
      }
      preparers := preparers + [Preparer(ids[i], rank.value)];
    }
    assert ids[..|ids|] == ids;
    r := Ok(Independent(module_, preparers));
  }

  /** Is `rank` at least every valid preparer rank, and is there a valid one? */
  predicate Outranks(rank: int, preparers: seq<Preparer>) {
    && (exists p :: p in preparers && 1 <= p.rank <= 4)
    && forall p :: p in preparers && 1 <= p.rank <= 4 ==> p.rank <= rank
  }

  predicate IsPreparer(preparers: seq<Preparer>, user: nat) {
    exists p :: p in preparers && p.user == user
  }

  predicate Permits(w: World, policy: Policy, user: nat)
    requires policy.Independent?
  {
    && Authorized(w, user, policy.module_)
    && !IsPreparer(policy.preparers, user)
    && ModuleRank(w, user, policy.module_).Some?
    && Outranks(ModuleRank(w, user, policy.module_).value, policy.preparers)
  }

  // ---------------------------------------------------------------- matrix rules

  predicate Covers(rule: Rule, amount: real) {
    rule.min <= amount && (rule.max.Some? ==> amount <= rule.max.value)
  }

  predicate Applies(rule: Rule, doctype: string) {
    rule.enabled && rule.doctype == doctype
  }

  function Covering(rules: seq<Rule>, amount: real): (r: seq<Rule>)
    ensures forall x :: x in r <==> x in rules && Covers(x, amount)
  {
    if rules == [] then []
    else
      var rest := Covering(rules[..|rules| - 1], amount);
      var last := rules[|rules| - 1];
      assert rules == rules[..|rules| - 1] + [last];
      if Covers(last, amount) then rest + [last] else rest
  }

  function OwnRules(matrix: seq<Rule>, user: nat, doctype: string): (r: seq<Rule>)
    ensures forall x :: x in r <==> x in matrix && Applies(x, doctype) && x.user == Some(user)
  {
    if matrix == [] then []
    else
      var rest := OwnRules(matrix[1..], user, doctype);
      if Applies(matrix[0], doctype) && matrix[0].user == Some(user) then [matrix[0]] + rest else rest
  }

  function RoleRules(matrix: seq<Rule>, roles: set<nat>, doctype: string): (r: seq<Rule>)
    ensures forall x :: x in r <==> x in matrix && Applies(x, doctype) && x.user.None? && x.role.Some? && x.role.value in roles
  {
    if matrix == [] then []
    else
      var rest := RoleRules(matrix[1..], roles, doctype);
      var x := matrix[0];
      if Applies(x, doctype) && x.user.None? && x.role.Some? && x.role.value in roles then [x] + rest else rest
  }

  /** The user's own rules, or else those of the user's roles. */
  function UserRules(w: World, user: nat, doctype: string): (r: seq<Rule>)
    ensures forall x :: x in r ==> x in w.matrix && Applies(x, doctype)
  {
    var own := OwnRules(w.matrix, user, doctype);
    if own != [] then own
    else RoleRules(w.matrix, if user in w.users then w.users[user].roles else {}, doctype)
  }

  /** Most senior level, then highest lower bound, then narrowest upper bound, then id. */
  predicate KeyLess(a: Rule, b: Rule) {
    var ua, ub := a.max.GetOr(1e30), b.max.GetOr(1e30);
    a.level < b.level || (a.level == b.level &&
      (a.min < b.min || (a.min == b.min && (-ua < -ub || (-ua == -ub && a.id < b.id)))))
  }

  /** The first rule with the greatest key. */
  function MaxRule(rules: seq<Rule>): (r: Rule)
    requires rules != []
    ensures r in rules
  {
    if |rules| == 1 then rules[0]
    else
      var best := MaxRule(rules[..|rules| - 1]);
      if KeyLess(best, rules[|rules| - 1]) then rules[|rules| - 1] else best
  }

  /** The rule recorded for an approval; administrators approve at the required level. */
  function ApplicableRule(rules: seq<Rule>, amount: real, admin: bool, required: int): Option<Rule> {
    if admin then Some(Rule(0, "", None, None, 0.0, Some(amount), required, true))
    else if Covering(rules, amount) == [] then None
    else Some(MaxRule(Covering(rules, amount)))
  }

  method FindApplicableRule(rules: seq<Rule>, amount: real, admin: bool, required: int) returns (r: Option<Rule>)
    ensures r == ApplicableRule(rules, amount, admin, required)
  {
    if admin { return Some(Rule(0, "", None, None, 0.0, Some(amount), required, true)); }
    r := None;
    for i := 0 to |rules|
      invariant r == ApplicableRule(rules[..i], amount, false, required)
    {
      assert rules[..i + 1][..i] == rules[..i];
      if Covers(rules[i], amount) {
        ghost var next := Covering(rules[..i + 1], amount);
        assert next[..|next| - 1] == Covering(rules[..i], amount);
        if r.None? || KeyLess(r.value, rules[i]) { r := Some(rules[i]); }
      }
    }
    assert rules[..|rules|] == rules;
  }

  /** The least level among the rules that apply to the amount; 0 when there is none. */
  function RequiredLevel(matrix: seq<Rule>, doctype: string, amount: real): int {
    if exists r :: r in matrix && Applies(r, doctype) && Covers(r, amount) then LeastLevel(matrix, doctype, amount) else 0
  }

  function LeastLevel(matrix: seq<Rule>, doctype: string, amount: real): (m: int)
    requires exists r :: r in matrix && Applies(r, doctype) && Covers(r, amount)
    ensures forall r :: r in matrix && Applies(r, doctype) && Covers(r, amount) ==> m <= r.level
    ensures exists r :: r in matrix && Applies(r, doctype) && Covers(r, amount) && m == r.level
  {
    var first, rest := matrix[0], matrix[1..];
    assert matrix == [first] + rest;
    if exists r :: r in rest && Applies(r, doctype) && Covers(r, amount) then
      var m := LeastLevel(rest, doctype, amount);
      if Applies(first, doctype) && Covers(first, amount) && first.level < m then first.level else m
    else
      assert Applies(first, doctype) && Covers(first, amount);
      first.level
  }

  // ---------------------------------------------------------------- the choice does not depend on the order

  lemma {:induction false} MaxRuleIsGreatest(rules: seq<Rule>, r: Rule)
    requires r in rules
    ensures !KeyLess(MaxRule(rules), r)
  {
    if |rules| > 1 {
      var front, last := rules[..|rules| - 1], rules[|rules| - 1];
      assert rules == front + [last];
      if r in front {
        MaxRuleIsGreatest(front, r);
      }
    }
  }

  predicate DistinctIds(rules: seq<Rule>) {
    forall i, j :: 0 <= i < j < |rules| ==> rules[i].id != rules[j].id
  }

  lemma SameIdSameRule(rules: seq<Rule>, a: Rule, b: Rule)
    requires DistinctIds(rules) && a in rules && b in rules && a.id == b.id
    ensures a == b
  {
  }

  /** The recorded rule is the same for every order in which the database returns the rules. */
  lemma RuleChoiceIgnoresOrder(a: seq<Rule>, b: seq<Rule>, amount: real, admin: bool, required: int)
    requires multiset(a) == multiset(b) && DistinctIds(a)
    ensures ApplicableRule(a, amount, admin, required) == ApplicableRule(b, amount, admin, required)
  {
    var ca, cb := Covering(a, amount), Covering(b, amount);
    forall x ensures x in ca <==> x in cb {
      assert x in a <==> x in multiset(a);
      assert x in b <==> x in multiset(b);
    }
    HeadIsMember(ca);
    HeadIsMember(cb);
    if ca != [] {
      var ma, mb := MaxRule(ca), MaxRule(cb);
      MaxRuleIsGreatest(ca, mb);
      MaxRuleIsGreatest(cb, ma);
      SameIdSameRule(a, ma, mb);
    }
  }

  /** It covers the amount and no other covering rule has a greater key. */
  lemma ApplicableRuleIsBest(rules: seq<Rule>, amount: real, required: int)
    ensures var r := ApplicableRule(rules, amount, false, required);
            && (r.None? <==> forall x :: x in rules ==> !Covers(x, amount))
            && (r.Some? ==> r.value in rules && Covers(r.value, amount)
                            && forall x :: x in rules && Covers(x, amount) ==> !KeyLess(r.value, x))
  {
    var covering := Covering(rules, amount);
    if covering != [] {
      assert covering[0] in covering;
      forall x | x in covering ensures !KeyLess(MaxRule(covering), x) {
        MaxRuleIsGreatest(covering, x);
      }
    } else {
      forall x | x in rules ensures !Covers(x, amount) {
        assert x !in covering;
      }
    }
  }
}
