/** The write, method and scope ceiling: what PROPOSE may grant. */
module Governance {
  import opened Text
  import opened Options
  import opened Values

  datatype WriteOp = Create | Update | Delete

  datatype Class = Financial | Hr | System | General

  datatype MethodGrant = MethodGrant(tier: string, reverse: string)

  /** The mutable policy state. A tenant is its workspace name, "" for none; `scope` is the set of
      enabled module groups, None for all. */
  datatype Policy = Policy(
    writes: map<(string, string, WriteOp), string>,
    methods: map<(string, string, string), MethodGrant>,
    scope: Option<set<string>>)

  datatype Change =
    | GrantWrite(tenant: string, target: string, op: WriteOp, tier: string)
    | GrantMethod(tenant: string, target: string, action: string, grant: MethodGrant)
    | SetModules(scope: Option<set<string>>)
    | Reset

  const SHIPPED := Policy(map[], map[], None)

  function Govern(p: Policy, c: Change): Policy {
    match c
    case GrantWrite(t, m, op, tier) => p.(writes := p.writes[(t, m, op) := tier])
    case GrantMethod(t, m, f, g) => p.(methods := p.methods[(t, m, f) := g])
    case SetModules(s) => p.(scope := s)
    case Reset => SHIPPED
  }

  /** A prefix such as `account.` owns the models under it, and the bare name. */
  predicate Owns(prefix: string, target: string) {
    target == StripDots(prefix) || HasPrefix(target, prefix)
  }

  predicate OwnedBy(prefixes: seq<string>, target: string) {
    exists p | p in prefixes :: Owns(p, target)
  }

  function ModelClass(target: string): Class {
    if OwnedBy(["account."], target) then Financial
    else if OwnedBy(["hr."], target) then Hr
    else if OwnedBy(["res.users", "res.groups", "res.company", "ir."], target) then System
    else General
  }

  /** The models of a module group: the packs' prefixes, overlaid by the built-in table. */
  function GroupModels(group: string): seq<string> {
    if group == "crm" then ["crm.", "res.partner", "res.country", "res.country.state", "res.partner.category"]
    else if group == "sales" then ["sale."]
    else if group == "finance" then ["account."]
    else if group == "inventory" then ["stock.", "product."]
    else if group == "hr" then ["hr."]
    else if group == "manufacturing" then ["mrp."]
    else if group == "project" then ["project."]
    else if group == "purchasing" then ["purchase.", "uom."]
    else []
  }

  predicate ModuleEnabled(p: Policy, target: string) {
    p.scope.None? || exists g | g in p.scope.value :: OwnedBy(GroupModels(g), target)
  }

  const DECLARED_TARGETS: set<string> := {
    "crm.lead", "res.partner", "crm.stage", "crm.tag", "res.partner.category", "crm.team",
    "res.country", "res.country.state", "purchase.order"}

  function CrudTier(op: WriteOp): string {
    if op == Delete then "HIGH" else "MEDIUM"
  }

  function Escalate(target: string, op: WriteOp, tier: string): string {
    if op == Delete && (ModelClass(target) == Financial || ModelClass(target) == Hr) then "CRITICAL" else tier
  }

  /** The tier of a generic write, or None for default-deny. An empty tenant tier is no grant. */
  function WriteTier(p: Policy, target: string, op: WriteOp, tenant: string): Option<string> {
    if !ModuleEnabled(p, target) then None
    else if (tenant, target, op) in p.writes && p.writes[(tenant, target, op)] != "" then
      Some(Escalate(target, op, p.writes[(tenant, target, op)]))
    else if target in DECLARED_TARGETS then Some(Escalate(target, op, CrudTier(op)))
    else None
  }

  /** The packs' own method grants. A pack contributes only while its name passes the scope test. */
  function DefaultMethod(p: Policy, target: string, action: string): Option<MethodGrant> {
    if action == "message_post" && (target == "res.partner" || target == "crm.lead") && ModuleEnabled(p, "crm") then
      Some(MethodGrant("MEDIUM", ""))
    else if action == "button_confirm" && target == "purchase.order" && ModuleEnabled(p, "purchasing") then
      Some(MethodGrant("HIGH", "button_cancel"))
    else None
  }

  function GrantFor(p: Policy, target: string, action: string, tenant: string): Option<MethodGrant> {
    if (tenant, target, action) in p.methods then Some(p.methods[(tenant, target, action)])
    else DefaultMethod(p, target, action)
  }

  function MethodTier(p: Policy, target: string, action: string, tenant: string): Option<string> {
    if !ModuleEnabled(p, target) then None
    else match GrantFor(p, target, action, tenant) case None => None case Some(g) => Some(g.tier)
  }

  /** The inverse of a workflow method, "" when it has none. The scope is not consulted. */
  function MethodReverse(p: Policy, target: string, action: string, tenant: string): string {
    match GrantFor(p, target, action, tenant) case None => "" case Some(g) => g.reverse
  }

  /** The policy as the module keeps it. */
  class PolicyState {
    var policy: Policy

    constructor ()
      ensures policy == SHIPPED
    {
      policy := SHIPPED;
    }

    method ResetPolicy()
      modifies this
      ensures policy == Govern(old(policy), Reset)
    {
      policy := SHIPPED;
    }

    method GrantTenantWrite(tenant: string, target: string, op: WriteOp, tier: string)
      modifies this
      ensures policy == Govern(old(policy), GrantWrite(tenant, target, op, tier))
    {
      policy := policy.(writes := policy.writes[(tenant, target, op) := tier]);
    }

    method GrantTenantMethod(tenant: string, target: string, action: string, grant: MethodGrant)
      modifies this
      ensures policy == Govern(old(policy), GrantMethod(tenant, target, action, grant))
    {
      policy := policy.(methods := policy.methods[(tenant, target, action) := grant]);
    }

    method SetEnabledModules(scope: Option<set<string>>)
      modifies this
      ensures policy == Govern(old(policy), SetModules(scope))
    {
      policy := policy.(scope := scope);
    }
  }

  // ---------------------------------------------------------------- what the policy guarantees

  function GovernAll(p: Policy, cs: seq<Change>): Policy
    decreases |cs|
  {
    if cs == [] then p else GovernAll(Govern(p, cs[0]), cs[1..])
  }

  predicate Concerns(c: Change, tenant: string) {
    match c
    case GrantWrite(t, _, _, _) => t == tenant
    case GrantMethod(t, _, _, _) => t == tenant
    case SetModules(_) => true
    case Reset => true
  }

  /** A grant changes the one tier it names, a scope the scope alone; a reset leaves neither grant nor scope. */
  lemma ChangesMean(p: Policy, tenant: string, target: string, op: WriteOp, tier: string, action: string,
                    grant: MethodGrant, scope: Option<set<string>>)
    ensures var q := Govern(p, GrantWrite(tenant, target, op, tier));
            && q.methods == p.methods && q.scope == p.scope && q.writes.Keys == p.writes.Keys + {(tenant, target, op)}
            && forall k | k in q.writes :: q.writes[k] == if k == (tenant, target, op) then tier else p.writes[k]
    ensures var q := Govern(p, GrantMethod(tenant, target, action, grant));
            && q.writes == p.writes && q.scope == p.scope
            && q.methods.Keys == p.methods.Keys + {(tenant, target, action)}
            && forall k | k in q.methods ::
              q.methods[k] == if k == (tenant, target, action) then grant else p.methods[k]
    ensures var q := Govern(p, SetModules(scope));
            q.writes == p.writes && q.methods == p.methods && q.scope == scope
    ensures var q := Govern(p, Reset);
            q.writes == map[] && q.methods == map[] && q.scope == None
  {
  }

  /** No leak between tenants: any history of grants to others leaves a tenant's tiers alone. */
  lemma {:induction false} GrantsStayWithTheirTenant(p: Policy, cs: seq<Change>, tenant: string, target: string,
                                                     op: WriteOp, action: string)
    requires forall c | c in cs :: !Concerns(c, tenant)
    ensures WriteTier(GovernAll(p, cs), target, op, tenant) == WriteTier(p, target, op, tenant)
    ensures MethodTier(GovernAll(p, cs), target, action, tenant) == MethodTier(p, target, action, tenant)
    decreases |cs|
  {
    if cs != [] {
      assert cs[0] in cs;
      OneChangeStays(p, cs[0], tenant, target, op, action);
      GrantsStayWithTheirTenant(Govern(p, cs[0]), cs[1..], tenant, target, op, action);
    }
  }

  lemma OneChangeStays(p: Policy, c: Change, tenant: string, target: string, op: WriteOp, action: string)
    requires !Concerns(c, tenant)
    ensures WriteTier(Govern(p, c), target, op, tenant) == WriteTier(p, target, op, tenant)
    ensures MethodTier(Govern(p, c), target, action, tenant) == MethodTier(p, target, action, tenant)
  {
    var q := Govern(p, c);
    SameScope(p, q, target);
    SameScope(p, q, "crm");
    SameScope(p, q, "purchasing");
    assert DefaultMethod(q, target, action) == DefaultMethod(p, target, action);
    assert GrantFor(q, target, action, tenant) == GrantFor(p, target, action, tenant);
  }

  lemma SameScope(p: Policy, q: Policy, target: string)
    requires p.scope == q.scope
    ensures ModuleEnabled(p, target) == ModuleEnabled(q, target)
  {
  }

  /** The model has this name, or one below it. */
  predicate Under(target: string, name: string) {
    target == name || (|target| > |name| && target[..|name|] == name && target[|name|] == '.')
  }

  predicate OwnerOnly(target: string, op: WriteOp) {
    op == Delete && (Under(target, "account") || Under(target, "hr"))
  }

  /** The models a module group covers, group by group. */
  predicate Covers(group: string, target: string) {
    if group == "crm" then
      Under(target, "crm") || HasPrefix(target, "res.partner") || HasPrefix(target, "res.country")
    else if group == "sales" then Under(target, "sale")
    else if group == "finance" then Under(target, "account")
    else if group == "inventory" then Under(target, "stock") || Under(target, "product")
    else if group == "hr" then Under(target, "hr")
    else if group == "manufacturing" then Under(target, "mrp")
    else if group == "project" then Under(target, "project")
    else group == "purchasing" && (Under(target, "purchase") || Under(target, "uom"))
  }

  predicate InScope(p: Policy, target: string) {
    p.scope.None? || exists g | g in p.scope.value :: Covers(g, target)
  }

  predicate Widened(p: Policy, target: string, op: WriteOp, tenant: string) {
    (tenant, target, op) in p.writes && p.writes[(tenant, target, op)] != ""
  }

  /** A write is allowed exactly in scope and when it is granted or on a shipped model. Deleting a record
      of `account`, `hr` or a model below them is then CRITICAL whatever was granted; every other write has
      the tier of its grant, or the shipped one. */
  lemma WriteTierIs(p: Policy, target: string, op: WriteOp, tenant: string)
    ensures var tier := WriteTier(p, target, op, tenant);
            && (tier.Some? <==>
                  InScope(p, target) && (Widened(p, target, op, tenant) || target in DECLARED_TARGETS))
            && (tier.Some? ==>
                  tier.value == if OwnerOnly(target, op) then "CRITICAL"
                                else if Widened(p, target, op, tenant) then p.writes[(tenant, target, op)]
                                else if op == Delete then "HIGH" else "MEDIUM")
  {
    ScopeMeans(p, target);
    ClassMeans(target);
  }

  lemma ClassMeans(target: string)
    ensures ModelClass(target) == Financial <==> Under(target, "account")
    ensures ModelClass(target) == Hr <==> Under(target, "hr")
  {
    StripTable();
    DottedOwns("account", target);
    DottedOwns("hr", target);
    assert "account"[0] == 'a' && "hr"[0] == 'h';
    assert Owns("account.", target) <==> OwnedBy(["account."], target);
    assert Owns("hr.", target) <==> OwnedBy(["hr."], target);
    assert Under(target, "account") ==> target[0] == 'a';
    assert Under(target, "hr") ==> target[0] == 'h';
  }

  lemma DottedOwns(name: string, target: string)
    requires StripDots(name + ".") == name
    ensures Owns(name + ".", target) <==> Under(target, name)
  {
    if |target| > |name| {
      assert target[..|name| + 1] == target[..|name|] + [target[|name|]];
    }
  }

  lemma ScopeMeans(p: Policy, target: string)
    ensures ModuleEnabled(p, target) <==> InScope(p, target)
  {
    if p.scope.Some? {
      forall g | g in p.scope.value ensures OwnedBy(GroupModels(g), target) <==> Covers(g, target) {
        GroupMeans(g, target);
      }
    }
  }

  lemma GroupMeans(g: string, target: string)
    ensures OwnedBy(GroupModels(g), target) <==> Covers(g, target)
  {
    StripTable();
    var ms := GroupModels(g);
    if g == "crm" {
      CrmMeans(target);
    } else if |ms| == 2 {
      assert OwnedBy(ms, target) <==> Owns(ms[0], target) || Owns(ms[1], target);
      DottedOwns(if g == "inventory" then "stock" else "purchase", target);
      DottedOwns(if g == "inventory" then "product" else "uom", target);
    } else if |ms| == 1 {
      assert OwnedBy(ms, target) <==> Owns(ms[0], target);
      OneMeans(g, target);
    }
  }

  lemma OneMeans(g: string, target: string)
    requires |GroupModels(g)| == 1
    ensures Owns(GroupModels(g)[0], target) <==> Covers(g, target)
  {
    StripTable();
    DottedOwns("sale", target);
    DottedOwns("account", target);
    DottedOwns("hr", target);
    DottedOwns("mrp", target);
    DottedOwns("project", target);
  }

  lemma CrmMeans(target: string)
    ensures OwnedBy(GroupModels("crm"), target) <==> Covers("crm", target)
  {
    StripTable();
    DottedOwns("crm", target);
    PlainOwns(target);
    var ms := GroupModels("crm");
    assert OwnedBy(ms, target)
           <==> Owns(ms[0], target) || Owns(ms[1], target) || Owns(ms[2], target) || Owns(ms[3], target)
                || Owns(ms[4], target);
  }

  /** The crm group's own reference models. */
  lemma PlainOwns(target: string)
    ensures Owns("res.partner", target) || Owns("res.partner.category", target) <==> HasPrefix(target, "res.partner")
    ensures Owns("res.country", target) || Owns("res.country.state", target) <==> HasPrefix(target, "res.country")
  {
    assert "res.partner.category"[..11] == "res.partner" && "res.country.state"[..11] == "res.country";
    if HasPrefix(target, "res.partner.category") {
      assert target[..11] == target[..20][..11];
    }
    if HasPrefix(target, "res.country.state") {
      assert target[..11] == target[..17][..11];
    }
  }

  /** A tenant's own method grant counts first. Without one, notes can be posted on partners and leads when
      crm is in scope, and purchase orders confirmed while no scope is set at all; the inverse is the
      grant's, whatever the scope says of the model. */
  lemma MethodTierIs(p: Policy, target: string, action: string, tenant: string)
    ensures var own := (tenant, target, action) in p.methods;
            var posts := action == "message_post" && (target == "res.partner" || target == "crm.lead")
                         && (p.scope.None? || "crm" in p.scope.value);
            var confirms := action == "button_confirm" && target == "purchase.order" && p.scope.None?;
            && MethodTier(p, target, action, tenant)
               == (if !InScope(p, target) then None
                   else if own then Some(p.methods[(tenant, target, action)].tier)
                   else if posts then Some("MEDIUM")
                   else if confirms then Some("HIGH") else None)
            && MethodReverse(p, target, action, tenant)
               == (if own then p.methods[(tenant, target, action)].reverse
                   else if confirms then "button_cancel" else "")
  {
    ScopeMeans(p, target);
    PackNamePasses(p, "crm");
    PackNamePasses(p, "purchasing");
  }

  /** The one-way doors: whatever was granted, a permitted delete on a financial or HR model is CRITICAL. */
  lemma DestructiveIsCritical(p: Policy, target: string, tenant: string)
    requires Under(target, "account") || Under(target, "hr")
    requires WriteTier(p, target, Delete, tenant).Some?
    ensures WriteTier(p, target, Delete, tenant).value == "CRITICAL"
  {
    WriteTierIs(p, target, Delete, tenant);
  }

  /** With a module scope set, the shipped `button_confirm` grant on purchase orders is dead even
      when purchasing is in scope and its orders are writable: a module pack is looked up under its own
      name, which only the name of the crm pack passes. */
  lemma ScopeDropsPurchasingMethods(tenant: string)
    ensures var p := SHIPPED.(scope := Some({"purchasing"}));
            WriteTier(p, "purchase.order", Create, tenant) == Some("MEDIUM")
            && MethodTier(p, "purchase.order", "button_confirm", tenant) == None
    ensures MethodTier(SHIPPED, "purchase.order", "button_confirm", tenant) == Some("HIGH")
  {
    var p := SHIPPED.(scope := Some({"purchasing"}));
    assert Owns("purchase.", "purchase.order") && "purchase." in GroupModels("purchasing");
    assert OwnedBy(GroupModels("purchasing"), "purchase.order");
    OrderIsGeneral();
    PackNamePasses(p, "purchasing");
  }

  lemma OrderIsGeneral()
    ensures ModelClass("purchase.order") == General
  {
    forall q | q in ["account.", "hr.", "res.users", "res.groups", "res.company", "ir."]
      ensures !Owns(q, "purchase.order")
    {
      assert q[0] != 'p';
      if Owns(q, "purchase.order") {
        OwnsHead(q, "purchase.order");
      }
    }
  }

  lemma OwnsHead(prefix: string, target: string)
    requires prefix != [] && prefix[0] != '.' && Owns(prefix, target)
    ensures target != [] && target[0] == prefix[0]
  {
    StripKeepsHead(prefix);
    if HasPrefix(target, prefix) {
      assert target[..|prefix|][0] == prefix[0];
    }
  }

  lemma {:induction false} StripKeepsHead(s: string)
    requires s != [] && s[0] != '.'
    ensures StripDots(s) != [] && StripDots(s)[0] == s[0]
  {
    if s[|s| - 1] == '.' {
      StripKeepsHead(s[..|s| - 1]);
    }
  }

  /** Exactly when a pack keeps its default grants: no scope, or a scope group one of whose model
      prefixes owns the module pack's name. Of the shipped groups only `crm` owns its own name. */
  lemma PackNamePasses(p: Policy, pack: string)
    requires pack == "crm" || pack == "purchasing"
    ensures ModuleEnabled(p, pack) <==> p.scope.None? || (pack == "crm" && "crm" in p.scope.value)
  {
    StripTable();
    if p.scope.Some? {
      assert Owns("crm.", "crm") && "crm." in GroupModels("crm");
      forall g | g in p.scope.value && OwnedBy(GroupModels(g), pack) ensures g == "crm" == pack {
        GroupOwnsName(g, pack);
      }
      assert "crm" in p.scope.value ==> OwnedBy(GroupModels("crm"), "crm");
    }
  }

  lemma StripTable()
    ensures StripDots("crm.") == "crm" && StripDots("sale.") == "sale" && StripDots("account.") == "account"
    ensures StripDots("stock.") == "stock" && StripDots("product.") == "product" && StripDots("hr.") == "hr"
    ensures StripDots("mrp.") == "mrp" && StripDots("project.") == "project" && StripDots("purchase.") == "purchase"
    ensures StripDots("uom.") == "uom"
  {
    assert StripDots("crm.") == StripDots("crm") && StripDots("sale.") == StripDots("sale");
    assert StripDots("account.") == StripDots("account") && StripDots("stock.") == StripDots("stock");
    assert StripDots("product.") == StripDots("product") && StripDots("hr.") == StripDots("hr");
    assert StripDots("mrp.") == StripDots("mrp") && StripDots("project.") == StripDots("project");
    assert StripDots("purchase.") == StripDots("purchase") && StripDots("uom.") == StripDots("uom");
  }

  lemma GroupOwnsName(g: string, pack: string)
    requires (pack == "crm" || pack == "purchasing") && OwnedBy(GroupModels(g), pack)
    ensures g == "crm" && pack == "crm"
  {
    StripTable();
    var q :| q in GroupModels(g) && Owns(q, pack);
  }
}
