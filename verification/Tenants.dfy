/**
 Tenants: a row keeps less than the entity, and the user quota follows the plan
 through every interleaving of reads and whole-row saves.
 */
module Tenants {
  import opened Prelude

  const FREE := "free"
  const PRO := "pro"
  const ENTERPRISE := "enterprise"
  const ACTIVE := "active"
  const INACTIVE := "inactive"

  datatype Preferences = Preferences(email: bool, sms: bool, inApp: bool)

  /** allowedDomains and features may be nil, as Go's slices and maps may. */
  datatype Settings = Settings(
    maxUsers: int, allowedDomains: Option<seq<string>>,
    features: Option<map<string, bool>>, preferences: Preferences)

  datatype Tenant = Tenant(
    id: string, name: string, slug: string, plan: string, status: string,
    settings: Settings, maxUsers: int, allowedDomains: Option<seq<string>>,
    createdAt: int, updatedAt: int)

  /** The stored row; a nil list or map is stored as JSON null. */
  datatype Row = Row(
    id: string, name: string, slug: string, plan: string, status: string, maxUsers: int,
    allowedDomains: Option<seq<string>>, features: Option<map<string, bool>>,
    createdAt: int, updatedAt: int)

  const DEFAULT_PREFERENCES := Preferences(true, false, true)

  // ---- Plans ----

  function MaxUsersForPlan(plan: string): int {
    if plan == PRO then 50 else if plan == ENTERPRISE then 1000 else 10
  }

  const BASE_FEATURES := map[
    "audit_logs" := false, "sso" := false, "custom_roles" := false,
    "api_access" := true, "email_alerts" := true, "advanced_reports" := false]

  const PRO_EXTRAS := {"audit_logs", "custom_roles", "advanced_reports"}

  /** defaultFeatures: same keys for every plan; pro adds three to what every plan has, enterprise has all. */
  method DefaultFeatures(plan: string) returns (base: map<string, bool>)
    ensures base == FeaturesFor(plan)
    ensures base.Keys == BASE_FEATURES.Keys
    ensures plan == ENTERPRISE ==> forall k :: k in base ==> base[k]
    ensures plan == PRO ==> forall k :: k in base ==> (base[k] <==> BASE_FEATURES[k] || k in PRO_EXTRAS)
    ensures plan != PRO && plan != ENTERPRISE ==> base == BASE_FEATURES
  {
    base := BASE_FEATURES;
    if plan == PRO {
      base := base["audit_logs" := true];
      base := base["custom_roles" := true];
      base := base["advanced_reports" := true];
    } else if plan == ENTERPRISE {
      var left := base.Keys;
      while left != {}
        invariant base.Keys == BASE_FEATURES.Keys && left <= base.Keys
        invariant forall k :: k in base && k !in left ==> base[k]
        decreases |left|
      {
        var k :| k in left;
        base := base[k := true];
        left := left - {k};
      }
    }
  }

  function FeaturesFor(plan: string): map<string, bool> {
    map k | k in BASE_FEATURES :: BASE_FEATURES[k] || plan == ENTERPRISE || (plan == PRO && k in PRO_EXTRAS)
  }

  /** The features of each plan, by name. */
  lemma FeaturesByName(plan: string)
    ensures var f := FeaturesFor(plan); var paid := plan == "pro" || plan == "enterprise";
      && f.Keys == {"audit_logs", "sso", "custom_roles", "api_access", "email_alerts", "advanced_reports"}
      && f["api_access"] && f["email_alerts"] && (f["sso"] <==> plan == "enterprise")
      && (f["audit_logs"] <==> paid) && (f["custom_roles"] <==> paid) && (f["advanced_reports"] <==> paid)
  {
    assert BASE_FEATURES.Keys ==
      {"audit_logs", "sso", "custom_roles", "api_access", "email_alerts", "advanced_reports"};
  }

  /** A larger plan has every feature of a smaller one. */
  lemma LargerPlansHaveMore(plan: string, feature: string)
    requires feature in BASE_FEATURES && plan != PRO && plan != ENTERPRISE
    ensures FeaturesFor(plan)[feature] ==> FeaturesFor(PRO)[feature]
    ensures FeaturesFor(PRO)[feature] ==> FeaturesFor(ENTERPRISE)[feature]
  {
  }

  // ---- Rows ----

  function Save(t: Tenant): Row {
    Row(t.id, t.name, t.slug, t.plan, t.status, t.maxUsers, t.allowedDomains, t.settings.features,
        t.createdAt, t.updatedAt)
  }

  function OrEmpty(domains: Option<seq<string>>): Option<seq<string>> {
    if domains.None? then Some([]) else domains
  }

  function OrNone(features: Option<map<string, bool>>): Option<map<string, bool>> {
    if features.None? then Some(map[]) else features
  }

  function Load(r: Row): Tenant {
    Tenant(r.id, r.name, r.slug, r.plan, r.status,
           Settings(r.maxUsers, OrEmpty(r.allowedDomains), OrNone(r.features), DEFAULT_PREFERENCES),
           r.maxUsers, OrEmpty(r.allowedDomains), r.createdAt, r.updatedAt)
  }

  /** What a round keeps, and what it puts in place of the rest. */
  lemma RoundTripFields(t: Tenant)
    ensures var u := Load(Save(t));
      && u.id == t.id && u.name == t.name && u.slug == t.slug && u.plan == t.plan && u.status == t.status
      && u.createdAt == t.createdAt && u.updatedAt == t.updatedAt && u.maxUsers == t.maxUsers
      && u.allowedDomains == u.settings.allowedDomains && u.settings.maxUsers == t.maxUsers
      && u.allowedDomains == (if t.allowedDomains.None? then Some([]) else t.allowedDomains)
      && u.settings.features == (if t.settings.features.None? then Some(map[]) else t.settings.features)
      && u.settings.preferences == Preferences(true, false, true)
  {
  }

  /** Saving and loading once loses all that is ever lost. */
  lemma SaveLoadIdempotent(t: Tenant)
    ensures Load(Save(Load(Save(t)))) == Load(Save(t))
  {
  }

  /** A tenant survives saving and loading exactly when it already looks like a loaded one. */
  lemma SurvivesExactly(t: Tenant)
    ensures Load(Save(t)) == t <==>
      && t.settings.maxUsers == t.maxUsers && t.settings.allowedDomains == t.allowedDomains
      && t.allowedDomains.Some? && t.settings.features.Some? && t.settings.preferences == DEFAULT_PREFERENCES
  {
  }

  // ---- The entity edits ----

  datatype Creation = Creation(name: string, slug: string, plan: string)
  datatype Patch = Patch(name: Option<string>, plan: Option<string>, status: Option<string>)

  function PlanOf(req: Creation): string {
    if req.plan == "" then FREE else req.plan
  }

  function Build(req: Creation, id: string, createdAt: int, updatedAt: int): Tenant {
    var plan := PlanOf(req);
    Tenant(id, req.name, req.slug, plan, ACTIVE,
           Settings(MaxUsersForPlan(plan), Some([]), Some(FeaturesFor(plan)), DEFAULT_PREFERENCES),
           MaxUsersForPlan(plan), Some([]), createdAt, updatedAt)
  }

  /** A tenant just built by CreateTenant is stored without loss. */
  lemma BuiltSurvives(req: Creation, id: string, createdAt: int, updatedAt: int)
    ensures Load(Save(Build(req, id, createdAt, updatedAt))) == Build(req, id, createdAt, updatedAt)
  {
  }

  predicate AcceptsPatch(p: Patch) {
    p.name.Some? ==> p.name.value != ""
  }

  function ApplyPatch(t: Tenant, p: Patch, now: int): Tenant {
    var named := if p.name.Some? then t.(name := p.name.value) else t;
    var planned :=
      if p.plan.Some? then
        var quota := MaxUsersForPlan(p.plan.value);
        named.(plan := p.plan.value, maxUsers := quota,
               settings := named.settings.(maxUsers := quota, features := Some(FeaturesFor(p.plan.value))))
      else named;
    (if p.status.Some? then planned.(status := p.status.value) else planned).(updatedAt := now)
  }

  method UpdateTenant(fetched: Tenant, p: Patch, now: int) returns (t: Tenant)
    requires AcceptsPatch(p)
    ensures t == ApplyPatch(fetched, p, now)
    ensures p.plan.Some? ==>
      && t.plan == p.plan.value && t.maxUsers == t.settings.maxUsers == MaxUsersForPlan(t.plan)
      && t.settings.features == Some(FeaturesFor(t.plan))
    ensures p.plan.None? ==> t.plan == fetched.plan && t.maxUsers == fetched.maxUsers && t.settings == fetched.settings
    ensures t.id == fetched.id && t.slug == fetched.slug && t.createdAt == fetched.createdAt
    ensures t.allowedDomains == fetched.allowedDomains && t.settings.allowedDomains == fetched.settings.allowedDomains
    ensures t.settings.preferences == fetched.settings.preferences
    ensures t.name == (if p.name.Some? then p.name.value else fetched.name)
    ensures t.status == (if p.status.Some? then p.status.value else fetched.status)
    ensures t.plan == (if p.plan.Some? then p.plan.value else fetched.plan) && t.updatedAt == now
  {
    t := fetched;
    if p.name.Some? {
      t := t.(name := p.name.value);
    }
    if p.plan.Some? {
      t := t.(plan := p.plan.value);
      t := t.(maxUsers := MaxUsersForPlan(p.plan.value));
      t := t.(settings := t.settings.(maxUsers := t.maxUsers));
      var features := DefaultFeatures(p.plan.value);
      t := t.(settings := t.settings.(features := Some(features)));
    }
    if p.status.Some? {
      t := t.(status := p.status.value);
    }
    t := t.(updatedAt := now);
  }

  /** UpdateSettings: the quota it is given never reaches a column. */
  function ApplySettings(t: Tenant, settings: Settings, now: int): Tenant {
    t.(settings := settings, allowedDomains := settings.allowedDomains, updatedAt := now)
  }

  // ---- The protocol ----

  datatype Change = Update(patch: Patch) | Configure(settings: Settings)

  /** A request between its read and its save; status is the one it read. */
  datatype Pending =
    | Fetched(change: Change, copy: Tenant)
    | Edited(change: Change, status: string, copy: Tenant)

  datatype Step =
    | Create(req: Creation, id: string, createdAt: int, updatedAt: int)
    | Read(r: nat, id: string, change: Change)
    | Edit(r: nat, now: int)
    | Write(r: nat)
    | Deactivate(id: string)
    | Die(r: nat)

  datatype State = State(rows: map<string, Row>, pending: map<nat, Pending>)

  predicate Enabled(s: State, step: Step) {
    match step
    case Create(req, id, _, _) =>
      req.name != "" && id !in s.rows && forall k :: k in s.rows ==> s.rows[k].slug != req.slug
    case Read(r, id, _) => id in s.rows && r !in s.pending
    case Edit(r, _) => r in s.pending && s.pending[r].Fetched?
    case Write(r) => r in s.pending && s.pending[r].Edited?
    case Deactivate(id) => id in s.rows
    case Die(r) => r in s.pending
  }

  function Edits(change: Change, copy: Tenant, now: int): Option<Tenant> {
    match change
    case Update(patch) => if AcceptsPatch(patch) then Some(ApplyPatch(copy, patch, now)) else None
    case Configure(settings) => Some(ApplySettings(copy, settings, now))
  }

  function Apply(s: State, step: Step): State
    requires Enabled(s, step)
  {
    match step
    case Create(req, id, createdAt, updatedAt) =>
      s.(rows := s.rows[id := Save(Build(req, id, createdAt, updatedAt))])
    case Read(r, id, change) => s.(pending := s.pending[r := Fetched(change, Load(s.rows[id]))])
    case Edit(r, now) =>
      var edited := Edits(s.pending[r].change, s.pending[r].copy, now);
      if edited.None? then s.(pending := s.pending - {r})
      else s.(pending := s.pending[r := Edited(s.pending[r].change, s.pending[r].copy.status, edited.value)])
    case Write(r) =>
      State(s.rows[s.pending[r].copy.id := Save(s.pending[r].copy)], s.pending - {r})
    case Deactivate(id) => s.(rows := s.rows[id := s.rows[id].(status := INACTIVE)])
    case Die(r) => s.(pending := s.pending - {r})
  }

  predicate Runs(s: State, steps: seq<Step>)
    decreases steps
  {
    steps == [] || (Enabled(s, steps[0]) && Runs(Apply(s, steps[0]), steps[1..]))
  }

  function Run(s: State, steps: seq<Step>): State
    requires Runs(s, steps)
    decreases steps
  {
    if steps == [] then s else Run(Apply(s, steps[0]), steps[1..])
  }

  /** Quotas follow plans in every row and in every private copy; ids, slugs and creation times are kept. */
  predicate CopyOk(s: State, t: Tenant) {
    && t.maxUsers == MaxUsersForPlan(t.plan)
    && t.id in s.rows && s.rows[t.id].slug == t.slug && s.rows[t.id].createdAt == t.createdAt
  }

  ghost predicate Safe(s: State) {
    && (forall id :: id in s.rows ==> s.rows[id].id == id && s.rows[id].maxUsers == MaxUsersForPlan(s.rows[id].plan))
    && (forall a, b :: a in s.rows && b in s.rows && a != b ==> s.rows[a].slug != s.rows[b].slug)
    && (forall r :: r in s.pending ==> CopyOk(s, s.pending[r].copy))
  }

  /** What a step writes under an id that had a row: the same slug and creation time, and a matching quota. */
  lemma RowKept(s: State, step: Step, id: string)
    requires Enabled(s, step) && id in s.rows
    requires s.rows[id].id == id && s.rows[id].maxUsers == MaxUsersForPlan(s.rows[id].plan)
    requires step.Write? ==> CopyOk(s, s.pending[step.r].copy)
    ensures id in Apply(s, step).rows
    ensures var row := Apply(s, step).rows[id];
      && row.id == id && row.maxUsers == MaxUsersForPlan(row.plan)
      && row.slug == s.rows[id].slug && row.createdAt == s.rows[id].createdAt
  {
  }

  lemma RowAdded(s: State, step: Step, id: string)
    requires Enabled(s, step) && id in Apply(s, step).rows && id !in s.rows
    requires step.Write? ==> CopyOk(s, s.pending[step.r].copy)
    ensures var row := Apply(s, step).rows[id];
      && row.id == id && row.maxUsers == MaxUsersForPlan(row.plan)
      && step.Create? && step.id == id && row.slug == step.req.slug
  {
  }

  lemma EditKept(s: State, step: Step)
    requires Enabled(s, step) && step.Edit? && CopyOk(s, s.pending[step.r].copy)
    ensures step.r in Apply(s, step).pending ==> CopyOk(s, Apply(s, step).pending[step.r].copy)
  {
  }

  lemma CopyKept(s: State, step: Step, r: nat)
    requires Enabled(s, step) && r in Apply(s, step).pending
    requires r in s.pending ==> CopyOk(s, s.pending[r].copy)
    requires step.Read? ==>
      s.rows[step.id].id == step.id && s.rows[step.id].maxUsers == MaxUsersForPlan(s.rows[step.id].plan)
    ensures CopyOk(s, Apply(s, step).pending[r].copy)
  {
    if step.Edit? && step.r == r { EditKept(s, step); }
  }

  lemma StepKeepsSafe(s: State, step: Step)
    requires Safe(s) && Enabled(s, step)
    ensures Safe(Apply(s, step))
  {
    var t := Apply(s, step);
    forall id | id in t.rows
      ensures t.rows[id].id == id && t.rows[id].maxUsers == MaxUsersForPlan(t.rows[id].plan)
      ensures if id in s.rows then t.rows[id].slug == s.rows[id].slug && t.rows[id].createdAt == s.rows[id].createdAt
              else step.Create? && step.id == id && t.rows[id].slug == step.req.slug
    {
      if id in s.rows { RowKept(s, step, id); } else { RowAdded(s, step, id); }
    }
    forall r | r in t.pending
      ensures CopyOk(t, t.pending[r].copy)
    {
      CopyKept(s, step, r);
      RowKept(s, step, t.pending[r].copy.id);
    }
  }

  lemma {:induction false} RunKeepsSafe(s: State, steps: seq<Step>)
    requires Safe(s) && Runs(s, steps)
    ensures Safe(Run(s, steps))
    decreases steps
  {
    if steps == [] {
    } else {
      StepKeepsSafe(s, steps[0]);
      RunKeepsSafe(Apply(s, steps[0]), steps[1..]);
    }
  }

  /**
   In every interleaving, whatever settings are supplied: stored quotas are those
   of the stored plans, and slugs stay apart.
   */
  lemma QuotaFollowsPlan(steps: seq<Step>, id: string)
    requires Runs(State(map[], map[]), steps) && id in Run(State(map[], map[]), steps).rows
    ensures var rows := Run(State(map[], map[]), steps).rows;
      && rows[id].maxUsers ==
           (if rows[id].plan == "pro" then 50 else if rows[id].plan == "enterprise" then 1000 else 10)
      && forall other :: other in rows && other != id ==> rows[other].slug != rows[id].slug
  {
    RunKeepsSafe(State(map[], map[]), steps);
  }

  // ---- How long a deactivation lasts ----

  /** The status a change asks for, when it asks for one. */
  function Asked(change: Change): Option<string> {
    if change.Update? then change.patch.status else None
  }

  /** An edited copy has the status asked for, or else the one that was read. */
  predicate StatusKept(p: Pending) {
    p.Edited? ==> p.copy.status == if Asked(p.change).Some? then Asked(p.change).value else p.status
  }

  ghost predicate StatusesKept(s: State) {
    forall r :: r in s.pending ==> StatusKept(s.pending[r])
  }

  lemma StepKeepsStatuses(s: State, step: Step)
    requires Enabled(s, step) && StatusesKept(s)
    ensures StatusesKept(Apply(s, step))
  {
  }

  /** A save of the tenant that asks for another status, or asks for none and meets another than its request read. */
  predicate Reactivates(s: State, step: Step, id: string)
    requires Enabled(s, step)
  {
    && step.Write? && s.pending[step.r].copy.id == id && id in s.rows
    && var p := s.pending[step.r];
       if Asked(p.change).Some? then Asked(p.change).value != INACTIVE else p.status != s.rows[id].status
  }

  ghost predicate NeverReactivated(s: State, steps: seq<Step>, id: string)
    requires Runs(s, steps)
    decreases steps
  {
    steps == [] || (!Reactivates(s, steps[0], id) && NeverReactivated(Apply(s, steps[0]), steps[1..], id))
  }

  predicate IsInactive(s: State, id: string) {
    id in s.rows && s.rows[id].status == INACTIVE
  }

  ghost predicate AlwaysInactive(s: State, steps: seq<Step>, id: string)
    requires Runs(s, steps)
    decreases steps
  {
    IsInactive(s, id) && (steps == [] || AlwaysInactive(Apply(s, steps[0]), steps[1..], id))
  }

  lemma StepKeepsInactive(s: State, step: Step, id: string)
    requires Enabled(s, step) && StatusesKept(s) && IsInactive(s, id)
    ensures IsInactive(Apply(s, step), id) <==> !Reactivates(s, step, id)
  {
    if step.Write? { assert StatusKept(s.pending[step.r]); }
  }

  lemma {:induction false} InactiveWhileNotReactivated(s: State, steps: seq<Step>, id: string)
    requires StatusesKept(s) && IsInactive(s, id) && Runs(s, steps)
    ensures AlwaysInactive(s, steps, id) <==> NeverReactivated(s, steps, id)
    decreases steps
  {
    if steps == [] {
    } else {
      var t := Apply(s, steps[0]);
      StepKeepsStatuses(s, steps[0]);
      StepKeepsInactive(s, steps[0], id);
      if IsInactive(t, id) {
        InactiveWhileNotReactivated(t, steps[1..], id);
      } else {
        assert !AlwaysInactive(t, steps[1..], id);
      }
    }
  }

  lemma {:induction false} RunKeepsStatuses(s: State, steps: seq<Step>)
    requires StatusesKept(s) && Runs(s, steps)
    ensures StatusesKept(Run(s, steps))
    decreases steps
  {
    if steps == [] {
    } else {
      StepKeepsStatuses(s, steps[0]);
      RunKeepsStatuses(Apply(s, steps[0]), steps[1..]);
    }
  }

  /**
   In every interleaving: a deactivated tenant stays inactive at every later moment
   if and only if no save of it asks for another status, or meets another status
   than its request read and asks for none.
   */
  lemma DeactivationLastsExactly(before: seq<Step>, id: string, after: seq<Step>)
    requires Runs(State(map[], map[]), before) && id in Run(State(map[], map[]), before).rows
    requires Runs(Apply(Run(State(map[], map[]), before), Deactivate(id)), after)
    ensures var s := Apply(Run(State(map[], map[]), before), Deactivate(id));
      AlwaysInactive(s, after, id) <==> NeverReactivated(s, after, id)
  {
    RunKeepsStatuses(State(map[], map[]), before);
    InactiveWhileNotReactivated(Apply(Run(State(map[], map[]), before), Deactivate(id)), after, id);
  }

  /** A stale save reactivates a tenant deactivated after it was read. */
  lemma DeactivationCanBeLost(s: State, id: string, settings: Settings, now: int)
    requires id in s.rows && s.rows[id].id == id && s.rows[id].status == ACTIVE && s.pending == map[]
    ensures var steps := [Read(0, id, Configure(settings)), Edit(0, now), Deactivate(id), Write(0)];
      Runs(s, steps) && id in Run(s, steps).rows && Run(s, steps).rows[id].status == ACTIVE
  {
    var steps := [Read(0, id, Configure(settings)), Edit(0, now), Deactivate(id), Write(0)];
    var a := Apply(s, steps[0]);
    var b := Apply(a, steps[1]);
    var c := Apply(b, steps[2]);
    var d := Apply(c, steps[3]);
    assert Runs(d, []) && Run(d, []) == d;
    assert [Write(0)][1..] == [];
    assert Runs(c, [Write(0)]) && Run(c, [Write(0)]) == d;
    assert [Deactivate(id), Write(0)][1..] == [Write(0)];
    assert Runs(b, [Deactivate(id), Write(0)]) && Run(b, [Deactivate(id), Write(0)]) == d;
    assert steps[1..] == [Edit(0, now), Deactivate(id), Write(0)] && steps[1..][1..] == [Deactivate(id), Write(0)];
    assert Runs(a, steps[1..]) && Run(a, steps[1..]) == d;
  }

  // ---- The service, one call at a time ----

  datatype Error = InvalidInput | SlugTaken | NotFound | StoreFailed

  /** One call that reads the row, edits it and saves it whole. */
  lemma ChangeIsRun(s: State, id: string, change: Change, now: int)
    requires Safe(s) && s.pending == map[] && id in s.rows
    requires Edits(change, Load(s.rows[id]), now).Some?
    ensures Safe(s.(rows := s.rows[id := Save(Edits(change, Load(s.rows[id]), now).value)]))
  {
    var a := Apply(s, Read(0, id, change));
    StepKeepsSafe(s, Read(0, id, change));
    var b := Apply(a, Edit(0, now));
    StepKeepsSafe(a, Edit(0, now));
    StepKeepsSafe(b, Write(0));
    var edited := Edits(change, Load(s.rows[id]), now).value;
    assert edited.id == id;
    var read, held := Fetched(change, Load(s.rows[id])), Edited(change, Load(s.rows[id]).status, edited);
    assert map[0 := read][0 := held] - {0} == map[];
    assert Apply(b, Write(0)) == s.(rows := s.rows[id := Save(edited)]);
  }

  class Service {
    var rows: map<string, Row>

    ghost function View(): State
      reads this
    {
      State(rows, map[])
    }

    ghost predicate Valid()
      reads this
    {
      Safe(View())
    }

    constructor ()
      ensures Valid() && rows == map[]
    {
      rows := map[];
    }

    /** slugShaped: the slug matches the service's pattern. */
    method CreateTenant(req: Creation, slugShaped: bool, id: string, createdAt: int, updatedAt: int, stores: bool)
      returns (r: Result<Tenant, Error>)
      requires Valid() && id !in rows
      modifies this
      ensures Valid()
      ensures r.Ok? <==>
        && req.name != "" && slugShaped && stores
        && forall k :: k in old(rows) ==> old(rows)[k].slug != req.slug
      ensures r == Err(InvalidInput) <==> req.name == "" || !slugShaped
      ensures r == Err(SlugTaken) <==>
        req.name != "" && slugShaped && exists k :: k in old(rows) && old(rows)[k].slug == req.slug
      ensures r.Ok? ==> r.value == Build(req, id, createdAt, updatedAt)
      ensures r.Ok? ==> rows == old(rows)[id := Save(r.value)] && Load(rows[id]) == r.value
      ensures r.Ok? ==>
        && rows[id].id == id && rows[id].name == req.name && rows[id].slug == req.slug
        && rows[id].plan == (if req.plan == "" then "free" else req.plan) && rows[id].status == "active"
        && rows[id].maxUsers == (if req.plan == "pro" then 50 else if req.plan == "enterprise" then 1000 else 10)
        && rows[id].allowedDomains == Some([]) && rows[id].features == Some(FeaturesFor(rows[id].plan))
        && rows[id].createdAt == createdAt && rows[id].updatedAt == updatedAt
        && r.value.settings.preferences == Preferences(true, false, true)
      ensures r.Err? ==> rows == old(rows)
    {
      if req.name == "" || !slugShaped {
        return Err(InvalidInput);
      }
      if exists k :: k in rows && rows[k].slug == req.slug {
        return Err(SlugTaken);
      }
      var plan := req.plan;
      if plan == "" {
        plan := FREE;
      }
      var maxUsers := MaxUsersForPlan(plan);
      var features := DefaultFeatures(plan);
      var tenant := Tenant(id, req.name, req.slug, plan, ACTIVE,
                           Settings(maxUsers, Some([]), Some(features), DEFAULT_PREFERENCES),
                           maxUsers, Some([]), createdAt, updatedAt);
      if !stores {
        return Err(StoreFailed);
      }
      StepKeepsSafe(View(), Create(req, id, createdAt, updatedAt));
      rows := rows[id := Save(tenant)];
      return Ok(tenant);
    }

    method ChangeTenant(id: string, p: Patch, now: int, saves: bool) returns (r: Result<Tenant, Error>)
      requires Valid()
      modifies this
      ensures Valid()
      ensures r.Ok? <==> id in old(rows) && (p.name.Some? ==> p.name.value != "") && saves
      ensures r == Err(NotFound) <==> id !in old(rows)
      ensures r == Err(InvalidInput) <==> id in old(rows) && p.name == Some("")
      ensures r.Ok? ==> r.value == ApplyPatch(Load(old(rows)[id]), p, now) && rows == old(rows)[id := Save(r.value)]
      ensures r.Ok? ==>
        && rows[id].id == id && rows[id].slug == old(rows)[id].slug && rows[id].createdAt == old(rows)[id].createdAt
        && rows[id].name == (if p.name.Some? then p.name.value else old(rows)[id].name)
        && rows[id].status == (if p.status.Some? then p.status.value else old(rows)[id].status)
        && rows[id].plan == (if p.plan.Some? then p.plan.value else old(rows)[id].plan) && rows[id].updatedAt == now
        && rows[id].maxUsers ==
             (if rows[id].plan == "pro" then 50 else if rows[id].plan == "enterprise" then 1000 else 10)
        && rows[id].features ==
             (if p.plan.Some? then Some(FeaturesFor(p.plan.value)) else OrNone(old(rows)[id].features))
        && rows[id].allowedDomains == OrEmpty(old(rows)[id].allowedDomains)
      ensures r.Err? ==> rows == old(rows)
    {
      if id !in rows {
        return Err(NotFound);
      }
      if p.name.Some? && p.name.value == "" {
        return Err(InvalidInput);
      }
      var t := UpdateTenant(Load(rows[id]), p, now);
      if !saves {
        return Err(StoreFailed);
      }
      ChangeIsRun(View(), id, Update(p), now);
      rows := rows[id := Save(t)];
      return Ok(t);
    }

    /** Whatever quota the caller supplies, the stored one stays as it was. */
    method UpdateSettings(id: string, settings: Settings, now: int, saves: bool) returns (r: Result<(), Error>)
      requires Valid()
      modifies this
      ensures Valid()
      ensures r.Ok? <==> id in old(rows) && saves
      ensures r == Err(NotFound) <==> id !in old(rows)
      ensures r.Ok? ==> rows == old(rows)[id := old(rows)[id].(
        allowedDomains := settings.allowedDomains, features := settings.features, updatedAt := now)]
      ensures r.Err? ==> rows == old(rows)
    {
      if id !in rows {
        return Err(NotFound);
      }
      var t := Load(rows[id]);
      t := t.(settings := settings);
      t := t.(allowedDomains := settings.allowedDomains);
      t := t.(updatedAt := now);
      if !saves {
        return Err(StoreFailed);
      }
      ChangeIsRun(View(), id, Configure(settings), now);
      rows := rows[id := Save(t)];
      return Ok(());
    }

    method DeactivateTenant(id: string, saves: bool) returns (r: Result<(), Error>)
      requires Valid()
      modifies this
      ensures Valid()
      ensures r.Ok? <==> id in old(rows) && saves
      ensures r == Err(NotFound) <==> id !in old(rows)
      ensures rows == if r.Ok? then old(rows)[id := old(rows)[id].(status := "inactive")] else old(rows)
    {
      if id !in rows {
        return Err(NotFound);
      }
      if !saves {
        return Err(StoreFailed);
      }
      StepKeepsSafe(View(), Deactivate(id));
      rows := rows[id := rows[id].(status := INACTIVE)];
      return Ok(());
    }
  }
}
