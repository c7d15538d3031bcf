// Two readings of one access policy: the per-memory check of the tool layer,
// and the row filter the search sends to the database.

module ScopeFilter {
  import opened Options

  datatype Tier = User | Project | Campaign | Role | Organizational | Enterprise | Other(name: string)

  // "memory:read:<tier>", or "memory:read" when the tier is missing, and so on.
  datatype Grant =
    | MemoryRead(tier: Option<Tier>)
    | MemoryWrite(tier: Option<Tier>)
    | ThreadsRead(tier: Option<Tier>)
    | ThreadsWrite(tier: Option<Tier>)

  datatype Claims = Claims(
    sub: string,
    tenant: string,
    service: bool,
    scopes: seq<Grant>,
    memberships: seq<string>,
    authorizedTenants: set<string>)

  datatype Flags = Flags(projectIsolation: bool, roleIsolation: bool)

  // The sets resolved before a decision; None when they were not resolved.
  datatype Resolved = Resolved(
    campaigns: Option<set<string>>,
    projects: Option<set<string>>,
    roles: Option<set<string>>)

  datatype Memory = Memory(tenant: string, tier: Tier, owner: string, scopeId: Option<string>)

  const ALL_TIERS: seq<Tier> := [User, Project, Campaign, Role, Organizational, Enterprise]

  predicate Within(scopeId: Option<string>, ids: Option<set<string>>) {
    ids.Some? && scopeId.Some? && scopeId.value in ids.value
  }

  // ----- the per-memory checks -----

  predicate MayRead(c: Claims, tier: Tier) {
    MemoryRead(Some(tier)) in c.scopes || MemoryRead(None) in c.scopes
  }

  predicate AuthorizeRead(f: Flags, c: Claims, m: Memory, r: Resolved) {
    if m.tenant != c.tenant then false
    else if !MayRead(c, m.tier) then false
    else
      match m.tier
      case User => m.owner == c.sub
      case Enterprise => true
      case Organizational => true
      case Project => if !f.projectIsolation then true else Within(m.scopeId, r.projects)
      case Campaign => r.campaigns.Some? && m.owner in r.campaigns.value
      case Role => if !f.roleIsolation then true else Within(m.scopeId, r.roles)
      case Other(_) => false
  }

  predicate AuthorizeWrite(f: Flags, c: Claims, m: Memory, r: Resolved) {
    if m.tenant != c.tenant && m.tenant !in c.authorizedTenants then false
    else if MemoryWrite(Some(m.tier)) !in c.scopes && MemoryWrite(None) !in c.scopes then false
    else
      match m.tier
      case User => m.owner == c.sub || c.service
      case Enterprise => false
      case Organizational => c.service
      case Role => c.service && (!f.roleIsolation || Within(m.scopeId, r.roles))
      case Project => !f.projectIsolation || c.service || Within(m.scopeId, r.projects)
      case Campaign => r.campaigns.Some? && m.owner in r.campaigns.value
      case Other(_) => false
  }

  datatype Thread = Thread(
    tenant: string, tier: Tier, owner: string, scopeId: Option<string>,
    participants: set<string>, access: map<string, string>)

  predicate AuthorizeThreadRead(f: Flags, c: Claims, t: Thread, r: Resolved) {
    if t.tenant != c.tenant then false
    else if t.owner == c.sub || c.sub in t.participants then true
    else if ThreadsRead(Some(t.tier)) !in c.scopes && ThreadsRead(None) !in c.scopes then false
    else
      match t.tier
      case Project => !f.projectIsolation || Within(t.scopeId, r.projects)
      case Enterprise => true
      case Organizational => true
      case _ => false
  }

  predicate AuthorizeThreadWrite(f: Flags, c: Claims, t: Thread, r: Resolved) {
    if t.tenant != c.tenant then false
    else if t.owner == c.sub then true
    else if c.sub in t.access then t.access[c.sub] == "write" || t.access[c.sub] == "admin"
    else if c.sub in t.participants then true
    else if ThreadsWrite(Some(t.tier)) !in c.scopes && ThreadsWrite(None) !in c.scopes then false
    else
      match t.tier
      case Project => !f.projectIsolation || Within(t.scopeId, r.projects)
      case Enterprise => c.service
      case Organizational => c.service
      case _ => false
  }

  // ----- the row filter -----

  datatype Visibility = Owner(id: string) | Ids(ids: seq<string>) | Open

  type Scopes = map<Tier, Visibility>

  // What a tier is limited to, or None when it is left out.
  function TierVisibility(f: Flags, c: Claims, tier: Tier): Option<Visibility> {
    if !MayRead(c, tier) then None
    else if tier.User? then Some(Owner(c.sub))
    else if tier.Project? && f.projectIsolation then
      if c.memberships != [] then Some(Ids(c.memberships)) else None
    else Some(Open)
  }

  method BuildAuthorizedScopes(f: Flags, c: Claims) returns (result: Scopes)
    ensures result == AuthorizedScopes(f, c)
    ensures forall t :: t in result <==>
      && !t.Other? && (MemoryRead(Some(t)) in c.scopes || MemoryRead(None) in c.scopes)
      && !(t.Project? && f.projectIsolation && c.memberships == [])
    ensures forall t :: t in result ==>
      result[t] == (if t.User? then Owner(c.sub) else if t.Project? && f.projectIsolation then Ids(c.memberships) else Open)
  {
    result := map[];
    var blanket := MemoryRead(None) in c.scopes;
    for i := 0 to |ALL_TIERS|
      invariant forall t :: t in result <==> t in ALL_TIERS[..i] && TierVisibility(f, c, t).Some?
      invariant forall t :: t in result ==> Some(result[t]) == TierVisibility(f, c, t)
    {
      var tier := ALL_TIERS[i];
      if blanket || MemoryRead(Some(tier)) in c.scopes {
        if tier.User? {
          result := result[tier := Owner(c.sub)];
        } else if tier.Project? && f.projectIsolation {
          if c.memberships != [] {
            result := result[tier := Ids(c.memberships)];
          }
        } else {
          result := result[tier := Open];
        }
      }
    }
    assert ALL_TIERS[..|ALL_TIERS|] == ALL_TIERS;
    ScopesOpenGranted(f, c);
  }

  /** The tiers a search may look in are the known ones granted by their own read
      scope or the blanket one, but not projects under isolation for a caller
      without memberships; users see their own memories, members those of their
      projects, and the other tiers are open. */
  lemma ScopesOpenGranted(f: Flags, c: Claims)
    ensures forall t :: t in AuthorizedScopes(f, c) <==>
      && !t.Other? && (MemoryRead(Some(t)) in c.scopes || MemoryRead(None) in c.scopes)
      && !(t.Project? && f.projectIsolation && c.memberships == [])
    ensures forall t :: t in AuthorizedScopes(f, c) ==>
      AuthorizedScopes(f, c)[t]
        == (if t.User? then Owner(c.sub) else if t.Project? && f.projectIsolation then Ids(c.memberships) else Open)
  {
    forall t: Tier ensures t in ALL_TIERS <==> !t.Other? {
      assert t.Other? || t == ALL_TIERS[0] || t == ALL_TIERS[1] || t == ALL_TIERS[2]
        || t == ALL_TIERS[3] || t == ALL_TIERS[4] || t == ALL_TIERS[5];
    }
  }

  function AuthorizedScopes(f: Flags, c: Claims): Scopes {
    map t | t in ALL_TIERS && TierVisibility(f, c, t).Some? :: TierVisibility(f, c, t).value
  }

  // The ids a project condition compares with: the resolved set when it is
  // non-empty, else the list carried by the claims.
  function ProjectIds(v: Visibility, projects: Option<set<string>>): set<string> {
    if projects.Some? && projects.value != {} then projects.value
    else if v.Ids? then set id | id in v.ids
    else {}
  }

  // One disjunct of the scope filter, or nothing when the loop skips the tier.
  predicate ScopeCondition(tier: Tier, v: Visibility, m: Memory, r: Resolved) {
    && m.tier == tier
    && match tier
       case Campaign => r.campaigns.Some? && m.owner in r.campaigns.value
       case Project => m.scopeId.Some? && m.scopeId.value in ProjectIds(v, r.projects)
       case Role => Within(m.scopeId, r.roles)
       case _ => v.Owner? ==> m.owner == v.id
  }

  // Tenant and scope predicates of the search query; no condition means no rows.
  predicate FilterAdmits(tenant: string, authorized: Scopes, m: Memory, r: Resolved) {
    m.tenant == tenant && m.tier in authorized && ScopeCondition(m.tier, authorized[m.tier], m, r)
  }

  // ----- what a decision needs, on the claims and the memory -----

  /** Neither reading a memory nor finding it is possible without a read scope for
      its tier or the blanket one; without any read scope nothing is. */
  lemma ReadNeedsGrant(f: Flags, c: Claims, m: Memory, r: Resolved, tenant: string)
    ensures AuthorizeRead(f, c, m, r) ==> MemoryRead(Some(m.tier)) in c.scopes || MemoryRead(None) in c.scopes
    ensures FilterAdmits(tenant, AuthorizedScopes(f, c), m, r) ==>
      m.tenant == tenant && (MemoryRead(Some(m.tier)) in c.scopes || MemoryRead(None) in c.scopes)
    ensures (forall g :: g in c.scopes ==> !g.MemoryRead?) ==>
      !AuthorizeRead(f, c, m, r) && AuthorizedScopes(f, c) == map[]
  {
    ScopesOpenGranted(f, c);
    if forall g :: g in c.scopes ==> !g.MemoryRead? {
      assert MemoryRead(Some(m.tier)) !in c.scopes && MemoryRead(None) !in c.scopes;
      forall t ensures t !in AuthorizedScopes(f, c) {
        assert MemoryRead(Some(t)) !in c.scopes;
      }
    }
  }

  /** Who reads what. */
  lemma ReadRules(f: Flags, c: Claims, m: Memory, r: Resolved)
    ensures AuthorizeRead(f, c, m, r) <==>
      && m.tenant == c.tenant
      && (MemoryRead(Some(m.tier)) in c.scopes || MemoryRead(None) in c.scopes)
      && (|| (m.tier == User && m.owner == c.sub)
          || m.tier == Organizational || m.tier == Enterprise
          || (m.tier == Campaign && r.campaigns.Some? && m.owner in r.campaigns.value)
          || (m.tier == Project && !f.projectIsolation)
          || (m.tier == Project && r.projects.Some? && m.scopeId.Some? && m.scopeId.value in r.projects.value)
          || (m.tier == Role && !f.roleIsolation)
          || (m.tier == Role && r.roles.Some? && m.scopeId.Some? && m.scopeId.value in r.roles.value))
  {
  }

  /** Who writes what: nobody the enterprise tier, only services the organizational
      and role tiers, and only services a user memory of someone else. */
  lemma WriteRules(f: Flags, c: Claims, m: Memory, r: Resolved)
    ensures AuthorizeWrite(f, c, m, r) <==>
      && (m.tenant == c.tenant || m.tenant in c.authorizedTenants)
      && (MemoryWrite(Some(m.tier)) in c.scopes || MemoryWrite(None) in c.scopes)
      && (|| (m.tier == User && (c.service || m.owner == c.sub))
          || (m.tier == Organizational && c.service)
          || (m.tier == Campaign && r.campaigns.Some? && m.owner in r.campaigns.value)
          || (m.tier == Project && (c.service || !f.projectIsolation))
          || (m.tier == Project && r.projects.Some? && m.scopeId.Some? && m.scopeId.value in r.projects.value)
          || (m.tier == Role && c.service && !f.roleIsolation)
          || (m.tier == Role && c.service && r.roles.Some? && m.scopeId.Some? && m.scopeId.value in r.roles.value))
  {
  }

  /** What one may write one may read, given a read scope for the tier, in one's
      own tenant, except what is left to services: the user memories of others,
      and projects they are not members of. */
  lemma WriteWithoutReadIff(f: Flags, c: Claims, m: Memory, r: Resolved)
    requires m.tenant == c.tenant && (MemoryRead(Some(m.tier)) in c.scopes || MemoryRead(None) in c.scopes)
    requires AuthorizeWrite(f, c, m, r)
    ensures !AuthorizeRead(f, c, m, r)
      <==> && c.service
           && (|| (m.tier == User && m.owner != c.sub)
               || (m.tier == Project && f.projectIsolation
                   && !(r.projects.Some? && m.scopeId.Some? && m.scopeId.value in r.projects.value)))
  {
    ReadRules(f, c, m, r);
    WriteRules(f, c, m, r);
  }

  /** Who reads a thread: its owner and participants without any scope; others in
      the tenant with a thread scope, if it is of a project of theirs or of a tier
      open to all. */
  lemma ThreadReadRules(f: Flags, c: Claims, t: Thread, r: Resolved)
    ensures AuthorizeThreadRead(f, c, t, r) <==>
      && t.tenant == c.tenant
      && (|| t.owner == c.sub || c.sub in t.participants
          || (&& (ThreadsRead(Some(t.tier)) in c.scopes || ThreadsRead(None) in c.scopes)
              && (|| t.tier == Enterprise || t.tier == Organizational
                  || (t.tier == Project && !f.projectIsolation)
                  || (t.tier == Project && r.projects.Some? && t.scopeId.Some? && t.scopeId.value in r.projects.value))))
  {
  }

  /** Who writes a thread: its owner; whoever has an entry in its access list, as
      the entry says; other participants; and others with a thread scope, in a
      project of theirs, or a service in a tier open to all. */
  lemma ThreadWriteRules(f: Flags, c: Claims, t: Thread, r: Resolved)
    ensures AuthorizeThreadWrite(f, c, t, r) <==>
      && t.tenant == c.tenant
      && (|| t.owner == c.sub
          || (c.sub in t.access && t.access[c.sub] in {"write", "admin"})
          || (c.sub !in t.access && c.sub in t.participants)
          || (&& c.sub !in t.access
              && (ThreadsWrite(Some(t.tier)) in c.scopes || ThreadsWrite(None) in c.scopes)
              && (|| ((t.tier == Enterprise || t.tier == Organizational) && c.service)
                  || (t.tier == Project && !f.projectIsolation)
                  || (t.tier == Project && r.projects.Some? && t.scopeId.Some? && t.scopeId.value in r.projects.value))))
  {
  }

  // ----- the search tool's use of both -----

  // Project ids: the verified explicit project, else the claims, else the
  // database; nothing is resolved when isolation is off.
  function ResolveProjects(f: Flags, c: Claims, explicit: Option<string>, database: set<string>): Option<set<string>> {
    if !f.projectIsolation then None
    else if explicit.Some? then Some({explicit.value})
    else if c.memberships != [] then Some(set p | p in c.memberships)
    else Some(database)
  }

  function ResolveAll(f: Flags, c: Claims, explicit: Option<string>, campaigns: set<string>,
                      projects: set<string>, roles: set<string>): Resolved {
    Resolved(if explicit.Some? then Some(campaigns) else None,
             ResolveProjects(f, c, explicit, projects),
             if f.roleIsolation then Some(roles) else None)
  }

  // The claims the filter is built from: with isolation on, memberships become
  // the sorted resolved projects. Only their set matters.
  ghost predicate EffectiveClaims(f: Flags, c: Claims, r: Resolved, e: Claims) {
    if !f.projectIsolation then e == c
    else
      && e == c.(memberships := e.memberships)
      && (set p | p in e.memberships) == (if r.projects.Some? then r.projects.value else {})
  }

  // Granted rows of a tier whose isolation flag is off.
  predicate Hidden(f: Flags, c: Claims, m: Memory) {
    (MemoryRead(Some(m.tier)) in c.scopes || MemoryRead(None) in c.scopes)
    && ((m.tier.Project? && !f.projectIsolation) || (m.tier.Role? && !f.roleIsolation))
  }

  /** In the caller's own tenant the search filter admits exactly the memories
      authorize_read accepts, except that switching an isolation flag off, which
      opens a tier to the per-memory check, hides that tier from search: nothing
      was resolved for the filter to compare with. */
  lemma SearchFilterIsAuthorizeRead(f: Flags, c: Claims, e: Claims, m: Memory, explicit: Option<string>,
                                    campaigns: set<string>, projects: set<string>, roles: set<string>)
    requires var r := ResolveAll(f, c, explicit, campaigns, projects, roles); EffectiveClaims(f, c, r, e)
    ensures var r := ResolveAll(f, c, explicit, campaigns, projects, roles);
      FilterAdmits(c.tenant, AuthorizedScopes(f, e), m, r) <==> AuthorizeRead(f, c, m, r) && !Hidden(f, c, m)
  {
    var r := ResolveAll(f, c, explicit, campaigns, projects, roles);
    assert MayRead(e, m.tier) == MayRead(c, m.tier);
    assert m.tier in ALL_TIERS <==> !m.tier.Other?;
    if f.projectIsolation && m.tier.Project? {
      assert e.memberships != [] <==> r.projects.value != {} by {
        if e.memberships != [] {
          assert e.memberships[0] in r.projects.value;
        }
      }
    }
  }

  /** So the two agree on a memory if and only if it is not a hidden one. */
  lemma SearchAgreesIff(f: Flags, c: Claims, e: Claims, m: Memory, explicit: Option<string>,
                        campaigns: set<string>, projects: set<string>, roles: set<string>)
    requires var r := ResolveAll(f, c, explicit, campaigns, projects, roles); EffectiveClaims(f, c, r, e)
    requires m.tenant == c.tenant
    ensures var r := ResolveAll(f, c, explicit, campaigns, projects, roles);
      (FilterAdmits(c.tenant, AuthorizedScopes(f, e), m, r) <==> AuthorizeRead(f, c, m, r)) <==> !Hidden(f, c, m)
  {
    SearchFilterIsAuthorizeRead(f, c, e, m, explicit, campaigns, projects, roles);
  }

  /** It happens: with project isolation off, a caller who may read the project
      tier can read this memory by id and cannot find it by searching. */
  lemma OpenProjectIsUnsearchable(c: Claims, m: Memory, roleIsolation: bool, campaigns: set<string>,
                                  projects: set<string>, roles: set<string>)
    requires MemoryRead(Some(Project)) in c.scopes && m.tier == Project && m.tenant == c.tenant
    ensures var f := Flags(false, roleIsolation);
      var r := ResolveAll(f, c, None, campaigns, projects, roles);
      AuthorizeRead(f, c, m, r) && !FilterAdmits(c.tenant, AuthorizedScopes(f, c), m, r)
  {
    SearchAgreesIff(Flags(false, roleIsolation), c, c, m, None, campaigns, projects, roles);
  }

  // ----- session scopes -----

  function TierGrants(tiers: seq<Tier>): seq<Grant> {
    if tiers == [] then []
    else
      var t := Some(tiers[|tiers| - 1]);
      TierGrants(tiers[..|tiers| - 1]) + [MemoryRead(t), MemoryWrite(t), ThreadsRead(t), ThreadsWrite(t)]
  }

  const BLANKET: seq<Grant> := [MemoryRead(None), MemoryWrite(None), ThreadsRead(None), ThreadsWrite(None)]

  method NormalizeSessionScopes(tiers: seq<Tier>) returns (scopes: seq<Grant>)
    ensures scopes == TierGrants(tiers) + (if forall t :: t in ALL_TIERS ==> t in tiers then BLANKET else [])
    ensures forall g :: g in scopes <==>
      if g.tier.Some? then g.tier.value in tiers
      else User in tiers && Project in tiers && Campaign in tiers && Role in tiers && Organizational in tiers && Enterprise in tiers
  {
    scopes := [];
    for i := 0 to |tiers|
      invariant scopes == TierGrants(tiers[..i])
    {
      assert tiers[..i + 1][..i] == tiers[..i];
      var t := Some(tiers[i]);
      scopes := scopes + [MemoryRead(t), MemoryWrite(t), ThreadsRead(t), ThreadsWrite(t)];
    }
    assert tiers[..|tiers|] == tiers;
    if forall t :: t in ALL_TIERS ==> t in tiers {
      scopes := scopes + BLANKET;
    }
    GrantsExactly(tiers);
  }

  lemma {:induction false} TierGrantsExactly(tiers: seq<Tier>, g: Grant)
    ensures g in TierGrants(tiers) <==> g.tier.Some? && g.tier.value in tiers
  {
    if tiers != [] {
      var (rest, last) := (tiers[..|tiers| - 1], tiers[|tiers| - 1]);
      TierGrantsExactly(rest, g);
      assert g.tier.Some? ==> (g.tier.value in tiers <==> g.tier.value in rest || g.tier.value == last);
    }
  }

  lemma BlanketIs()
    ensures forall g :: g in BLANKET <==> g.tier.None?
  {
    forall g: Grant | g.tier.None? ensures g in BLANKET {
      assert g == BLANKET[0] || g == BLANKET[1] || g == BLANKET[2] || g == BLANKET[3];
    }
  }

  lemma GrantsExactly(tiers: seq<Tier>)
    ensures forall g :: g in TierGrants(tiers) <==> g.tier.Some? && g.tier.value in tiers
    ensures forall g :: g in BLANKET <==> g.tier.None?
    ensures (forall t :: t in ALL_TIERS ==> t in tiers) <==>
      User in tiers && Project in tiers && Campaign in tiers && Role in tiers && Organizational in tiers && Enterprise in tiers
  {
    forall g ensures g in TierGrants(tiers) <==> g.tier.Some? && g.tier.value in tiers {
      TierGrantsExactly(tiers, g);
    }
    BlanketIs();
    if forall t :: t in ALL_TIERS ==> t in tiers {
      assert User in ALL_TIERS && Project in ALL_TIERS && Campaign in ALL_TIERS && Role in ALL_TIERS
        && Organizational in ALL_TIERS && Enterprise in ALL_TIERS;
    }
  }

  // Both grant lists answer every scope question about a known tier alike.
  lemma SameAnswers(tiers: seq<Tier>, tier: Tier, g: Grant)
    requires (forall t :: t in ALL_TIERS ==> t in tiers) && !tier.Other? && g.tier == Some(tier)
    ensures g in TierGrants(tiers) && g in TierGrants(tiers) + BLANKET
  {
    TierGrantsExactly(tiers, g);
    ListedTiers(tier, tiers);
  }

  lemma KnownTierAnswers(tiers: seq<Tier>, tier: Tier)
    requires (forall t :: t in ALL_TIERS ==> t in tiers) && !tier.Other?
    ensures var (narrow, wide) := (TierGrants(tiers), TierGrants(tiers) + BLANKET);
      && MemoryRead(Some(tier)) in narrow && MemoryRead(Some(tier)) in wide
      && MemoryWrite(Some(tier)) in narrow && MemoryWrite(Some(tier)) in wide
      && ThreadsRead(Some(tier)) in narrow && ThreadsRead(Some(tier)) in wide
      && ThreadsWrite(Some(tier)) in narrow && ThreadsWrite(Some(tier)) in wide
  {
    SameAnswers(tiers, tier, MemoryRead(Some(tier)));
    SameAnswers(tiers, tier, MemoryWrite(Some(tier)));
    SameAnswers(tiers, tier, ThreadsRead(Some(tier)));
    SameAnswers(tiers, tier, ThreadsWrite(Some(tier)));
  }

  function Narrow(c: Claims, tiers: seq<Tier>): Claims {
    c.(scopes := TierGrants(tiers))
  }

  function Wide(c: Claims, tiers: seq<Tier>): Claims {
    c.(scopes := TierGrants(tiers) + BLANKET)
  }

  lemma BlanketMemory(f: Flags, c: Claims, tiers: seq<Tier>, m: Memory, r: Resolved)
    requires forall tier :: tier in ALL_TIERS ==> tier in tiers
    ensures AuthorizeRead(f, Narrow(c, tiers), m, r) == AuthorizeRead(f, Wide(c, tiers), m, r)
    ensures AuthorizeWrite(f, Narrow(c, tiers), m, r) == AuthorizeWrite(f, Wide(c, tiers), m, r)
  {
    if !m.tier.Other? {
      KnownTierAnswers(tiers, m.tier);
    }
  }

  lemma BlanketThreads(f: Flags, c: Claims, tiers: seq<Tier>, t: Thread, r: Resolved)
    requires forall tier :: tier in ALL_TIERS ==> tier in tiers
    ensures AuthorizeThreadRead(f, Narrow(c, tiers), t, r) == AuthorizeThreadRead(f, Wide(c, tiers), t, r)
    ensures AuthorizeThreadWrite(f, Narrow(c, tiers), t, r) == AuthorizeThreadWrite(f, Wide(c, tiers), t, r)
  {
    if !t.tier.Other? {
      KnownTierAnswers(tiers, t.tier);
    }
  }

  lemma BlanketScopes(f: Flags, c: Claims, tiers: seq<Tier>)
    requires forall tier :: tier in ALL_TIERS ==> tier in tiers
    ensures AuthorizedScopes(f, Narrow(c, tiers)) == AuthorizedScopes(f, Wide(c, tiers))
  {
    forall tier | tier in ALL_TIERS
      ensures TierVisibility(f, Narrow(c, tiers), tier) == TierVisibility(f, Wide(c, tiers), tier)
    {
      KnownTierAnswers(tiers, tier);
    }
  }

  /** The blanket scopes given to a caller with every tier change no decision:
      reads, writes, threads, and the search filter are as without them. */
  lemma BlanketChangesNothing(f: Flags, c: Claims, tiers: seq<Tier>, m: Memory, t: Thread, r: Resolved)
    requires forall tier :: tier in ALL_TIERS ==> tier in tiers
    ensures var (narrow, wide) := (Narrow(c, tiers), Wide(c, tiers));
      && AuthorizeRead(f, narrow, m, r) == AuthorizeRead(f, wide, m, r)
      && AuthorizeWrite(f, narrow, m, r) == AuthorizeWrite(f, wide, m, r)
      && AuthorizeThreadRead(f, narrow, t, r) == AuthorizeThreadRead(f, wide, t, r)
      && AuthorizeThreadWrite(f, narrow, t, r) == AuthorizeThreadWrite(f, wide, t, r)
      && AuthorizedScopes(f, narrow) == AuthorizedScopes(f, wide)
  {
    BlanketMemory(f, c, tiers, m, r);
    BlanketThreads(f, c, tiers, t, r);
    BlanketScopes(f, c, tiers);
  }

  lemma ListedTiers(tier: Tier, tiers: seq<Tier>)
    requires forall t :: t in ALL_TIERS ==> t in tiers
    ensures tier.Other? || tier in tiers
  {
    assert tier.Other? || tier in ALL_TIERS;
  }
}
