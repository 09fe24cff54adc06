/**
  The bootstrap repair transaction (app/bootstrap.py) over the catalogs, the system
  administrator role, its limits and the administrator account.

  Rows are identified by their natural keys; foreign keys are the invariant `Integrity`. The
  catalogs, the normalised e-mail address and the presence of a password are parameters.
 */
module Bootstrap {
  import opened Common

  datatype Permission = Permission(name: string, description: string)

  datatype Definition = Definition(name: string, unit: string, window: string, description: string)

  datatype Role = Role(name: string, description: string, priority: int, isSystem: bool, policyVersion: nat)

  datatype User = User(isSuperuser: bool, active: bool, retired: bool, assignmentVersion: nat, tokenVersion: nat)

  datatype AuditEvent =
    | PolicyRestored(fromVersion: nat, toVersion: nat)
    | RoleRestored(email: string, fromAssignment: nat, toAssignment: nat, fromToken: nat, toToken: nat)

  // A limit of None is unlimited.
  datatype Db = Db(
    permissions: map<string, Permission>,
    definitions: map<string, Definition>,
    roles: map<string, Role>,
    grants: set<(string, string)>,
    limits: map<(string, string), Option<nat>>,
    users: map<string, User>,
    assignments: set<(string, string)>,
    audit: seq<AuditEvent>)

  datatype Catalog = Catalog(
    permissions: map<string, Permission>, definitions: map<string, Definition>, roleName: string,
      roleDescription: string)

  datatype BootstrapError = NotSuperuser | Inactive | PasswordRequired | UnexpectedRole

  const SYSTEM := "system_admin"
  const PRIORITY := 10000

  // Foreign keys.
  ghost predicate Integrity(d: Db) {
    && (forall g :: g in d.grants ==> g.0 in d.roles && g.1 in d.permissions)
    && (forall l :: l in d.limits ==> l.0 in d.roles && l.1 in d.definitions)
    && (forall a :: a in d.assignments ==> a.0 in d.users && a.1 in d.roles)
  }

  // ---- what a run finds wrong ----

  predicate Agrees<K(==), V(==)>(table: map<K, V>, catalog: map<K, V>) {
    forall k :: k in catalog ==> k in table && table[k] == catalog[k]
  }

  predicate CatalogsAgree(d: Db, c: Catalog) {
    Agrees(d.permissions, c.permissions) && Agrees(d.definitions, c.definitions)
  }

  predicate FullyGranted(grants: set<(string, string)>, codes: set<string>) {
    forall code :: code in codes ==> (SYSTEM, code) in grants
  }

  predicate Unlimited(limits: map<(string, string), Option<nat>>, keys: set<string>) {
    forall key :: key in keys ==> (SYSTEM, key) in limits && limits[(SYSTEM, key)] == None
  }

  predicate PolicyIntact(d: Db, c: Catalog) {
    && CatalogsAgree(d, c)
    && SYSTEM in d.roles && d.roles[SYSTEM].name == c.roleName && d.roles[SYSTEM].description == c.roleDescription
    && FullyGranted(d.grants, c.permissions.Keys)
    && Unlimited(d.limits, c.definitions.Keys)
  }

  // The first reason to refuse, in the order of the source.
  function Refusal(d: Db, email: string, hasPassword: bool): Option<BootstrapError> {
    if email in d.users && !d.users[email].isSuperuser then Some(NotSuperuser)
    else if email in d.users && (d.users[email].retired || !d.users[email].active) then Some(Inactive)
    else if email !in d.users && !hasPassword then Some(PasswordRequired)
    else if SYSTEM in d.roles
      && (!d.roles[SYSTEM].isSystem || d.roles[SYSTEM].priority != PRIORITY) then Some(UnexpectedRole)
    else None
  }

  // The state a run aims at.
  predicate Healthy(d: Db, c: Catalog, email: string) {
    && PolicyIntact(d, c)
    && d.roles[SYSTEM].isSystem && d.roles[SYSTEM].priority == PRIORITY
    && email in d.users && d.users[email].isSuperuser && d.users[email].active && !d.users[email].retired
    && (email, SYSTEM) in d.assignments
  }

  // ---- the transaction, table by table ----

  /** A catalog table: missing rows are added, differing rows overwritten. */
  method SeedTable<V(==)>(table: map<string, V>, catalog: map<string, V>) returns (t: map<string, V>, repaired: bool)
    ensures t == table + catalog
    ensures repaired <==> !Agrees(table, catalog)
  {
    t, repaired := table, false;
    var rest := catalog.Keys;
    while rest != {}
      invariant rest <= catalog.Keys
      invariant t == table + (catalog - rest)
      invariant repaired <==> exists k :: k in catalog && k !in rest && (k !in table || table[k] != catalog[k])
      decreases rest
    {
      var k :| k in rest;
      if k !in t || t[k] != catalog[k] {
        repaired := true;
      }
      t := t[k := catalog[k]];
      rest := rest - {k};
    }
  }

  method SeedGrants(grants: set<(string, string)>, codes: set<string>)
    returns (g: set<(string, string)>, repaired: bool)
    ensures g == grants + set code | code in codes :: (SYSTEM, code)
    ensures repaired <==> !FullyGranted(grants, codes)
  {
    g, repaired := grants, false;
    var rest := codes;
    while rest != {}
      invariant rest <= codes
      invariant g == grants + set code | code in codes && code !in rest :: (SYSTEM, code)
      invariant repaired <==> exists code :: code in codes && code !in rest && (SYSTEM, code) !in grants
      decreases rest
    {
      var code :| code in rest;
      rest := rest - {code};
      if (SYSTEM, code) !in grants {
        g := g + {(SYSTEM, code)};
        repaired := true;
      }
    }
  }

  method SeedLimits(limits: map<(string, string), Option<nat>>, keys: set<string>)
    returns (l: map<(string, string), Option<nat>>, repaired: bool)
    ensures l == limits + NoLimits(keys)
    ensures repaired <==> !Unlimited(limits, keys)
  {
    l, repaired := limits, false;
    var rest := keys;
    while rest != {}
      invariant rest <= keys
      invariant l == limits + NoLimits(keys - rest)
      invariant repaired <==>
                exists key :: key in keys && key !in rest
                              && !((SYSTEM, key) in limits && limits[(SYSTEM, key)] == None)
      decreases rest
    {
      var key :| key in rest;
      if (SYSTEM, key) !in limits || limits[(SYSTEM, key)] != None {
        repaired := true;
      }
      NoLimitsStep(limits, keys - rest, key);
      assert keys - (rest - {key}) == (keys - rest) + {key};
      l := l[(SYSTEM, key) := None];
      rest := rest - {key};
    }
    assert keys - {} == keys;
  }

  function NoLimits(keys: set<string>): map<(string, string), Option<nat>> {
    map key | key in keys :: (SYSTEM, key) := None
  }

  lemma NoLimitsStep(limits: map<(string, string), Option<nat>>, keys: set<string>, key: string)
    ensures limits + NoLimits(keys + {key}) == (limits + NoLimits(keys))[(SYSTEM, key) := None]
  {
  }

  // ---- the whole transaction ----

  function SeededRole(d: Db, c: Catalog): Role {
    if SYSTEM !in d.roles then Role(c.roleName, c.roleDescription, PRIORITY, true, 1)
    else
      var role := d.roles[SYSTEM].(name := c.roleName, description := c.roleDescription);
      if PolicyIntact(d, c) then role else role.(policyVersion := role.policyVersion + 1)
  }

  function SeededUser(d: Db, email: string): User {
    if email !in d.users then User(true, true, false, 1, 0)
    else if (email, SYSTEM) in d.assignments then d.users[email]
    else
      var u := d.users[email];
      u.(assignmentVersion := u.assignmentVersion + 1, tokenVersion := u.tokenVersion + 1)
  }

  function PolicyEvents(d: Db, c: Catalog): seq<AuditEvent> {
    if SYSTEM in d.roles && !PolicyIntact(d, c)
    then [PolicyRestored(d.roles[SYSTEM].policyVersion, d.roles[SYSTEM].policyVersion + 1)] else []
  }

  function UserEvents(d: Db, email: string): seq<AuditEvent> {
    if email in d.users && (email, SYSTEM) !in d.assignments
    then [RoleRestored(email, d.users[email].assignmentVersion, d.users[email].assignmentVersion + 1,
                       d.users[email].tokenVersion, d.users[email].tokenVersion + 1)] else []
  }

  // The catalogs, the role and its limits after a run.
  function SeededPolicyTables(d: Db, c: Catalog): Db {
    d.(permissions := d.permissions + c.permissions,
       definitions := d.definitions + c.definitions,
       roles := d.roles[SYSTEM := SeededRole(d, c)],
       grants := d.grants + (set code | code in c.permissions.Keys :: (SYSTEM, code)),
       limits := d.limits + NoLimits(c.definitions.Keys),
       audit := d.audit + PolicyEvents(d, c))
  }

  function Seeded(d: Db, c: Catalog, email: string): Db {
    SeededPolicyTables(d, c).(
      users := d.users[email := SeededUser(d, email)],
      assignments := d.assignments + {(email, SYSTEM)},
      audit := d.audit + PolicyEvents(d, c) + UserEvents(d, email))
  }

  // The catalogs, the role, its permissions and its limits; the repaired flag decides the version.
  method SeedPolicy(d: Db, c: Catalog) returns (next: Db)
    ensures next == SeededPolicyTables(d, c)
  {
    var permissions, permissionsRepaired := SeedTable(d.permissions, c.permissions);
    var definitions, definitionsRepaired := SeedTable(d.definitions, c.definitions);
    var roleWasCreated := SYSTEM !in d.roles;
    var role := if roleWasCreated then Role(c.roleName, c.roleDescription, PRIORITY, true, 1) else d.roles[SYSTEM];
    var repaired := !roleWasCreated
      && (permissionsRepaired || definitionsRepaired
          || role.name != c.roleName || role.description != c.roleDescription);
    role := role.(name := c.roleName, description := c.roleDescription);
    var grants, grantsRepaired := SeedGrants(d.grants, c.permissions.Keys);
    var limits, limitsRepaired := SeedLimits(d.limits, c.definitions.Keys);
    repaired := repaired || (!roleWasCreated && (grantsRepaired || limitsRepaired));
    assert !roleWasCreated ==> (repaired <==> !PolicyIntact(d, c));
    var audit := d.audit;
    if repaired {
      audit := audit + [PolicyRestored(role.policyVersion, role.policyVersion + 1)];
      role := role.(policyVersion := role.policyVersion + 1);
    }
    assert role == SeededRole(d, c);
    assert audit == d.audit + PolicyEvents(d, c);
    next := d.(permissions := permissions, definitions := definitions, roles := d.roles[SYSTEM := role],
               grants := grants, limits := limits, audit := audit);
  }

  class Store {
    var db: Db

    constructor (db: Db)
      ensures this.db == db
    {
      this.db := db;
    }

    /** A refused run changes nothing; any other run commits exactly the repaired state. */
    method SeedDatabase(c: Catalog, email: string, hasPassword: bool) returns (r: Option<BootstrapError>)
      requires Integrity(db)
      modifies this
      ensures r == Refusal(old(db), email, hasPassword)
      ensures db == if r.Some? then old(db) else Seeded(old(db), c, email)
    {
      var userWasCreated := email !in db.users;
      if !userWasCreated {
        if !db.users[email].isSuperuser { return Some(NotSuperuser); }
        if db.users[email].retired || !db.users[email].active { return Some(Inactive); }
      }
      if userWasCreated && !hasPassword { return Some(PasswordRequired); }
      if SYSTEM in db.roles && (!db.roles[SYSTEM].isSystem || db.roles[SYSTEM].priority != PRIORITY) {
        return Some(UnexpectedRole);
      }
      var next := SeedPolicy(db, c);
      var user := if userWasCreated then User(true, true, false, 1, 0) else db.users[email];
      var audit := next.audit;
      if (email, SYSTEM) !in db.assignments && !userWasCreated {
        audit := audit
          + [RoleRestored(email, user.assignmentVersion, user.assignmentVersion + 1,
                          user.tokenVersion, user.tokenVersion + 1)];
        user := user.(assignmentVersion := user.assignmentVersion + 1, tokenVersion := user.tokenVersion + 1);
      }
      assert user == SeededUser(db, email);
      assert audit == next.audit + UserEvents(db, email);
      db := next.(users := db.users[email := user], assignments := db.assignments + {(email, SYSTEM)}, audit := audit);
      return None;
    }

    /** A second run, with the same settings or without a password, changes nothing. */
    method SeedTwice(c: Catalog, email: string, hasPassword: bool)
      returns (first: Option<BootstrapError>, second: Option<BootstrapError>)
      requires Integrity(db)
      modifies this
      ensures first.None? ==> second.None? && db == Seeded(old(db), c, email) && Healthy(db, c, email)
      ensures first.Some? ==> second == first && db == old(db)
    {
      first := SeedDatabase(c, email, hasPassword);
      if first.None? {
        SeededIsHealthy(old(db), c, email, hasPassword);
        UnchangedIffHealthy(db, c, email);
        second := SeedDatabase(c, email, false);
      } else {
        second := SeedDatabase(c, email, hasPassword);
      }
    }
  }

  // ---- what the repaired state means ----

  /** After any accepted run the state is healthy, keeps its foreign keys and will be accepted again. */
  lemma {:induction false} SeededIsHealthy(d: Db, c: Catalog, email: string, hasPassword: bool)
    requires Integrity(d) && Refusal(d, email, hasPassword).None?
    ensures Healthy(Seeded(d, c, email), c, email) && Integrity(Seeded(d, c, email))
    ensures forall password :: Refusal(Seeded(d, c, email), email, password).None?
  {
    SeededPolicy(d, c, email);
    SeededIntegrity(d, c, email);
  }

  lemma SeededPolicy(d: Db, c: Catalog, email: string)
    ensures PolicyIntact(Seeded(d, c, email), c)
  {
  }

  lemma SeededIntegrity(d: Db, c: Catalog, email: string)
    requires Integrity(d)
    ensures Integrity(Seeded(d, c, email))
  {
  }

  /**
    Which runs are accepted: an existing account must be an active superuser that is not retired,
    a new one needs a password, and an existing system role must still be one, at its priority.
   */
  lemma {:induction false} AcceptedIff(d: Db, email: string, hasPassword: bool)
    ensures Refusal(d, email, hasPassword).None? <==>
            && (email in d.users ==>
                  d.users[email].isSuperuser && d.users[email].active && !d.users[email].retired)
            && (email !in d.users ==> hasPassword)
            && ("system_admin" in d.roles ==>
                  d.roles["system_admin"].isSystem && d.roles["system_admin"].priority == 10000)
  {
  }

  /** What a run creates: the role at policy version 1, and an active superuser who holds it. */
  lemma {:induction false} CreatedRows(d: Db, c: Catalog, email: string)
    ensures var s := Seeded(d, c, email);
            && "system_admin" in s.roles && email in s.users && (email, "system_admin") in s.assignments
            && ("system_admin" !in d.roles ==>
                  s.roles["system_admin"] == Role(c.roleName, c.roleDescription, 10000, true, 1))
            && (email !in d.users ==> s.users[email] == User(true, true, false, 1, 0))
            && ("system_admin" in d.roles ==>
                  s.roles["system_admin"].isSystem == d.roles["system_admin"].isSystem
                  && s.roles["system_admin"].priority == d.roles["system_admin"].priority)
            && ("system_admin" !in d.roles && email !in d.users ==> s.audit == d.audit)
  {
  }

  /** A run changes nothing, audit log included, exactly when the state is healthy already. */
  lemma {:induction false} UnchangedIffHealthy(d: Db, c: Catalog, email: string)
    requires Integrity(d) && Refusal(d, email, true).None?
    ensures Seeded(d, c, email) == d <==> Healthy(d, c, email)
    ensures Healthy(d, c, email) ==> PolicyEvents(d, c) == UserEvents(d, email) == []
  {
    if Healthy(d, c, email) {
      AgreeingTable(d.permissions, c.permissions);
      AgreeingTable(d.definitions, c.definitions);
      assert d.limits + NoLimits(c.definitions.Keys) == d.limits;
      assert d.roles[SYSTEM := d.roles[SYSTEM]] == d.roles;
      assert d.users[email := d.users[email]] == d.users;
    } else {
      SeededIsHealthy(d, c, email, true);
    }
  }

  lemma AgreeingTable<V>(table: map<string, V>, catalog: map<string, V>)
    requires Agrees(table, catalog)
    ensures table + catalog == table
  {
  }

  // What two snapshots show of the role's policy and of who holds the role.
  predicate SamePolicy(d: Db, s: Db)
    requires SYSTEM in d.roles && SYSTEM in s.roles
  {
    && d.permissions == s.permissions && d.definitions == s.definitions
    && d.grants == s.grants && d.limits == s.limits
    && d.roles[SYSTEM].name == s.roles[SYSTEM].name && d.roles[SYSTEM].description == s.roles[SYSTEM].description
  }

  lemma {:induction false} SamePolicyIffIntact(d: Db, c: Catalog, email: string)
    requires SYSTEM in d.roles
    ensures SamePolicy(d, Seeded(d, c, email)) <==> PolicyIntact(d, c)
  {
    var s := Seeded(d, c, email);
    SeededPolicy(d, c, email);
    if PolicyIntact(d, c) {
      AgreeingTable(d.permissions, c.permissions);
      AgreeingTable(d.definitions, c.definitions);
      assert d.limits + NoLimits(c.definitions.Keys) == d.limits;
    }
  }

  /**
    Exact versioning, as a reader of two snapshots sees it: a run raises the policy version of an
    existing role by one exactly when it changed a permission, a definition, a grant, a limit or
    the role's text, and the versions of an existing account exactly when it changed who holds
    the role; one audit event is added for each.
   */
  lemma {:induction false} VersionsAreExact(d: Db, c: Catalog, email: string)
    ensures var s := Seeded(d, c, email);
            SYSTEM in d.roles ==>
              s.roles[SYSTEM].policyVersion == d.roles[SYSTEM].policyVersion + if SamePolicy(d, s) then 0 else 1
    ensures var s := Seeded(d, c, email);
            email in d.users ==>
              && s.users[email].assignmentVersion
                 == d.users[email].assignmentVersion + (if d.assignments == s.assignments then 0 else 1)
              && s.users[email].tokenVersion
                 == d.users[email].tokenVersion + (if d.assignments == s.assignments then 0 else 1)
    ensures var s := Seeded(d, c, email);
            |s.audit| == |d.audit| + (if SYSTEM in d.roles && !SamePolicy(d, s) then 1 else 0)
                                   + (if email in d.users && d.assignments != s.assignments then 1 else 0)
  {
    if SYSTEM in d.roles {
      SamePolicyIffIntact(d, c, email);
    }
    assert (email, SYSTEM) in d.assignments <==> d.assignments == Seeded(d, c, email).assignments;
  }

  /** Nothing outside the catalogs, the system role and the administrator changes. */
  lemma OthersUntouched(d: Db, c: Catalog, email: string)
    requires Integrity(d)
    ensures var s := Seeded(d, c, email);
            && (forall code :: code !in c.permissions ==> (code in s.permissions <==> code in d.permissions))
            && (forall code :: code in d.permissions && code !in c.permissions ==>
               s.permissions[code] == d.permissions[code])
            && (forall role :: role in d.roles && role != SYSTEM ==> role in s.roles && s.roles[role] == d.roles[role])
            && (forall role, code :: role != SYSTEM || code !in c.permissions ==>
               ((role, code) in s.grants <==> (role, code) in d.grants))
            && (forall l :: l in d.limits && (l.0 != SYSTEM || l.1 !in c.definitions) ==>
               l in s.limits && s.limits[l] == d.limits[l])
            && (forall other :: other in d.users && other != email ==>
               other in s.users && s.users[other] == d.users[other])
            && d.assignments <= s.assignments && d.audit <= s.audit
  {
  }

  /** Over any number of accepted runs only the first can change anything. */
  lemma {:induction false} RunsSettle(d: Db, c: Catalog, email: string, n: nat)
    requires Integrity(d) && Refusal(d, email, true).None? && n > 0
    ensures Repeat(d, c, email, n) == Seeded(d, c, email)
    decreases n
  {
    SeededIsHealthy(d, c, email, true);
    UnchangedIffHealthy(Seeded(d, c, email), c, email);
    if n > 1 {
      RunsSettle(Seeded(d, c, email), c, email, n - 1);
    }
  }

  function Repeat(d: Db, c: Catalog, email: string, n: nat): Db
    decreases n
  {
    if n == 0 then d else Repeat(Seeded(d, c, email), c, email, n - 1)
  }
}
