/** Migrations 0003 and 0004 of accounts, forward and backward, and what a round trip gives back. */
module Migrations {
  import opened Text
  import opened SupportRoles

  /** LEGACY_SUPPORT_TYPE_TO_ROLE_NAME */
  const LEGACY: seq<(string, string)> := [("technical", "فنی"), ("financial", "مالی"), ("general", "عمومی")]

  lemma LegacyDistinct(i: nat, j: nat)
    requires i < |LEGACY| && j < |LEGACY| && i != j
    ensures LEGACY[i].0 != LEGACY[j].0 && LEGACY[i].1 != LEGACY[j].1
  {
  }

  // ---- What each migration does to the tables ----

  function Rows(us: seq<Account>, f: Account -> Account): (r: seq<Account>)
    ensures |r| == |us| && forall i | 0 <= i < |us| :: r[i] == f(us[i])
  {
    seq(|us|, i requires 0 <= i < |us| => f(us[i]))
  }

  /** filter(where).update(assign): one bulk update. */
  function Update(us: seq<Account>, where: Account -> bool, assign: Account -> Account): (r: seq<Account>)
    ensures |r| == |us| && forall i | 0 <= i < |us| :: r[i] == if where(us[i]) then assign(us[i]) else us[i]
  {
    seq(|us|, i requires 0 <= i < |us| => if where(us[i]) then assign(us[i]) else us[i])
  }

  function Forward3Row(u: Account): Account {
    if u.userType == "supervisor" then Account("support", Some("general"), None) else Account(u.userType, None, None)
  }

  function Backward3Row(u: Account): Account {
    if u.userType == "support" && u.supportType == Some("general") then Account("supervisor", None, None)
    else Account(u.userType, None, None)
  }

  /** The position of a legacy value in the mapping. */
  function LegacyIndex(t: Option<string>): (k: Option<nat>)
    ensures k.Some? ==> k.value < |LEGACY| && t == Some(LEGACY[k.value].0)
    ensures k.None? ==> forall j | 0 <= j < |LEGACY| :: t != Some(LEGACY[j].0)
  {
    if t == Some(LEGACY[0].0) then Some(0)
    else if t == Some(LEGACY[1].0) then Some(1)
    else if t == Some(LEGACY[2].0) then Some(2)
    else None
  }

  /** filter(name=name).first(), among the ids below n. */
  function RoleNamed(roles: map<nat, Role>, name: string, n: nat): (r: Option<nat>)
    ensures r.Some? ==> r.value < n && r.value in roles && roles[r.value].name == name
    ensures r.None? ==> forall id | id in roles && id < n :: roles[id].name != name
  {
    if n == 0 then None
    else if n - 1 in roles && roles[n - 1].name == name then Some(n - 1)
    else RoleNamed(roles, name, n - 1)
  }

  /** get_or_create(name=name, defaults={"is_active": True}) */
  function GetOrCreate(db: Db, name: string): Db {
    if RoleNamed(db.roles, name, db.nextId).Some? then db
    else db.(roles := db.roles[db.nextId := Role(name, true)], nextId := db.nextId + 1)
  }

  /** The first k legacy roles seeded. */
  function Seeded(db: Db, k: nat): Db
    requires k <= |LEGACY|
  {
    if k == 0 then db else GetOrCreate(Seeded(db, k - 1), LEGACY[k - 1].1)
  }

  /** The role that stands for a legacy value. */
  function RoleFor(db: Db, t: Option<string>): Option<nat> {
    var k := LegacyIndex(t);
    if k.Some? then RoleNamed(db.roles, LEGACY[k.value].1, db.nextId) else None
  }

  /** The legacy value that a role's present name stands for. */
  function TypeFor(roles: map<nat, Role>, r: Option<nat>): Option<string> {
    if r.None? || r.value !in roles then None
    else if roles[r.value].name == LEGACY[0].1 then Some(LEGACY[0].0)
    else if roles[r.value].name == LEGACY[1].1 then Some(LEGACY[1].0)
    else if roles[r.value].name == LEGACY[2].1 then Some(LEGACY[2].0)
    else None
  }

  function Forward3(db: Db): Db {
    db.(users := Rows(db.users, Forward3Row))
  }

  function Backward3(db: Db): Db {
    db.(users := Rows(db.users, Backward3Row))
  }

  function Forward4(db: Db): Db {
    var seeded := Seeded(db.(roles := map[]), |LEGACY|);
    seeded.(users := Rows(db.users, (u: Account) => Account(u.userType, None, RoleFor(seeded, u.supportType))))
  }

  function Backward4(db: Db): Db {
    db.(users := Rows(db.users, (u: Account) => Account(u.userType, TypeFor(db.roles, u.supportRole), None)), roles := map[])
  }

  // ---- The migrations as they run ----

  /** AddField support_type; convert_legacy_supervisor_role. */
  method RunForward3(db: Database)
    modifies db
    ensures db.View() == Forward3(old(db.View()))
  {
    db.users := Rows(db.users, (u: Account) => Account(u.userType, None, None));
    db.users := Update(db.users, (u: Account) => u.userType == "supervisor", (u: Account) => u.(userType := "support", supportType := Some("general")));
    assert db.users == Rows(old(db.users), Forward3Row);
  }

  /** revert_legacy_supervisor_role; AddField undone. */
  method RunBackward3(db: Database)
    modifies db
    ensures db.View() == Backward3(old(db.View()))
  {
    db.users := Update(db.users, (u: Account) => u.userType == "support" && u.supportType == Some("general"),
                       (u: Account) => u.(userType := "supervisor", supportType := None));
    db.users := Rows(db.users, (u: Account) => Account(u.userType, None, None));
    assert db.users == Rows(old(db.users), Backward3Row);
  }

  method SeedDefaultSupportRoles(db: Database)
    modifies db
    ensures db.View() == Seeded(old(db.View()), |LEGACY|)
  {
    for k := 0 to |LEGACY|
      invariant db.View() == Seeded(old(db.View()), k)
    {
      var found := RoleNamed(db.roles, LEGACY[k].1, db.nextId);
      if found.None? {
        db.roles := db.roles[db.nextId := Role(LEGACY[k].1, true)];
        db.nextId := db.nextId + 1;
      }
    }
  }

  /** The row after the first k rounds of the value-to-key loop. */
  function Linked(db: Db, u: Account, k: nat): Account
    requires k <= |LEGACY|
  {
    var i := LegacyIndex(u.supportType);
    if i.Some? && i.value < k && RoleFor(db, u.supportType).Some? then u.(supportRole := RoleFor(db, u.supportType)) else u
  }

  method MigrateSupportTypeValuesToFk(db: Database)
    modifies db`users
    ensures |db.users| == |old(db.users)|
    ensures forall i | 0 <= i < |db.users| :: db.users[i] == Linked(old(db.View()), old(db.users)[i], |LEGACY|)
  {
    for k := 0 to |LEGACY|
      invariant |db.users| == |old(db.users)|
      invariant forall i | 0 <= i < |db.users| :: db.users[i] == Linked(old(db.View()), old(db.users)[i], k)
    {
      var role := RoleNamed(db.roles, LEGACY[k].1, db.nextId);
      if role.Some? {
        db.users := Update(db.users, (u: Account) => u.supportType == Some(LEGACY[k].0), (u: Account) => u.(supportRole := role));
      }
      OneRound(old(db.View()), k);
    }
  }

  /** Round k touches just the rows of legacy value k. */
  lemma OneRound(db: Db, k: nat)
    requires k < |LEGACY|
    ensures forall u: Account :: Linked(db, u, k + 1) ==
              if u.supportType == Some(LEGACY[k].0) && RoleNamed(db.roles, LEGACY[k].1, db.nextId).Some?
              then Linked(db, u, k).(supportRole := RoleNamed(db.roles, LEGACY[k].1, db.nextId)) else Linked(db, u, k)
  {
  }

  /** CreateModel; seed; AddField support_role; values to keys; RemoveField support_type. */
  method RunForward4(db: Database)
    modifies db
    ensures db.View() == Forward4(old(db.View()))
  {
    db.roles := map[];
    SeedDefaultSupportRoles(db);
    SeededUsers(old(db.View()).(roles := map[]), |LEGACY|);
    ghost var seeded := db.View();
    db.users := Rows(db.users, (u: Account) => u.(supportRole := None));
    MigrateSupportTypeValuesToFk(db);
    db.users := Rows(db.users, (u: Account) => u.(supportType := None));
    assert db.users == Forward4(old(db.View())).users;
  }

  lemma SeededUsers(db: Db, k: nat)
    requires k <= |LEGACY|
    ensures Seeded(db, k).users == db.users
  {
  }

  /** The row after the first k rounds of the key-to-value loop, which starts with the column all null. */
  function Named(roles: map<nat, Role>, u: Account, k: nat): Account
    requires k <= |LEGACY|
  {
    var t := TypeFor(roles, u.supportRole);
    var i := LegacyIndex(t);
    if i.Some? && i.value < k then u.(supportType := t) else u
  }

  method MigrateFkValuesBackToSupportType(db: Database)
    modifies db`users
    ensures |db.users| == |old(db.users)|
    ensures forall i | 0 <= i < |db.users| :: db.users[i] == Named(db.roles, old(db.users)[i], |LEGACY|)
  {
    for k := 0 to |LEGACY|
      invariant |db.users| == |old(db.users)|
      invariant forall i | 0 <= i < |db.users| :: db.users[i] == Named(db.roles, old(db.users)[i], k)
    {
      var roles := db.roles;
      db.users := Update(db.users,
                         (u: Account) => u.supportRole.Some? && u.supportRole.value in roles && roles[u.supportRole.value].name == LEGACY[k].1,
                         (u: Account) => u.(supportType := Some(LEGACY[k].0)));
      OneRoundBack(roles, k);
    }
  }

  lemma OneRoundBack(roles: map<nat, Role>, k: nat)
    requires k < |LEGACY|
    ensures forall u: Account :: Named(roles, u, k + 1) ==
              if u.supportRole.Some? && u.supportRole.value in roles && roles[u.supportRole.value].name == LEGACY[k].1
              then Named(roles, u, k).(supportType := Some(LEGACY[k].0)) else Named(roles, u, k)
  {
  }

  predicate IsLegacyName(name: string) {
    name == LEGACY[0].1 || name == LEGACY[1].1 || name == LEGACY[2].1
  }

  /** filter(name__in=...).delete(): the PROTECT foreign key refuses the whole deletion if a user holds one of them. */
  method UnseedDefaultSupportRoles(db: Database) returns (ok: bool)
    modifies db`roles
    ensures ok <==> forall i | 0 <= i < |db.users| ::
              db.users[i].supportRole.Some? && db.users[i].supportRole.value in old(db.roles) ==>
              !IsLegacyName(old(db.roles)[db.users[i].supportRole.value].name)
    ensures db.roles == if ok then map id | id in old(db.roles) && !IsLegacyName(old(db.roles)[id].name) :: old(db.roles)[id] else old(db.roles)
  {
    var roles := db.roles;
    ok := forall i | 0 <= i < |db.users| :: db.users[i].supportRole.Some? && db.users[i].supportRole.value in roles ==>
            !IsLegacyName(roles[db.users[i].supportRole.value].name);
    if ok {
      db.roles := map id | id in roles && !IsLegacyName(roles[id].name) :: roles[id];
    }
  }

  /** RemoveField undone; keys to values; AddField undone; unseed, which PROTECT never refuses here; CreateModel undone. */
  method RunBackward4(db: Database) returns (ok: bool)
    modifies db
    ensures ok && db.View() == Backward4(old(db.View()))
  {
    db.users := Rows(db.users, (u: Account) => u.(supportType := None));
    MigrateFkValuesBackToSupportType(db);
    db.users := Rows(db.users, (u: Account) => u.(supportRole := None));
    assert db.users == Backward4(old(db.View())).users;
    ok := UnseedDefaultSupportRoles(db);
    db.roles := map[];
  }

  // ---- Round trips ----

  lemma {:induction false} SeededFinds(db: Db, k: nat)
    requires k <= |LEGACY| && RolesOk(db)
    ensures var s := Seeded(db, k);
            RolesOk(s) && s.nextId >= db.nextId && forall j | 0 <= j < k :: RoleNamed(s.roles, LEGACY[j].1, s.nextId).Some?
  {
    if k > 0 {
      SeededFinds(db, k - 1);
      var s0, s := Seeded(db, k - 1), Seeded(db, k);
      forall j | 0 <= j < k ensures RoleNamed(s.roles, LEGACY[j].1, s.nextId).Some? {
        if j < k - 1 {
          var id := RoleNamed(s0.roles, LEGACY[j].1, s0.nextId).value;
          assert id in s.roles && s.roles[id].name == LEGACY[j].1;
        } else if s != s0 {
          assert s.roles[s0.nextId].name == LEGACY[j].1;
        }
      }
    }
  }

  /** A schema before 0004: no role column. */
  predicate NoRoles(db: Db) {
    forall i | 0 <= i < |db.users| :: db.users[i].supportRole == None
  }

  /** A schema before 0003: no support columns at all. */
  predicate Legacy(db: Db) {
    NoRoles(db) && forall i | 0 <= i < |db.users| :: db.users[i].supportType == None
  }

  lemma TypeOfRole(db: Db, t: Option<string>)
    ensures var s := Seeded(db.(roles := map[]), |LEGACY|);
            && TypeFor(s.roles, RoleFor(s, t)) == (if LegacyIndex(t).Some? then t else None)
            && (RoleFor(s, t).Some? <==> LegacyIndex(t).Some?)
            && (RoleFor(s, t).Some? ==> RoleFor(s, t).value in s.roles)
            && RolesOk(s)
  {
    SeededFinds(db.(roles := map[]), |LEGACY|);
    var k := LegacyIndex(t);
    if k.Some? {
      forall j: nat | j < |LEGACY| && j != k.value ensures LEGACY[j].1 != LEGACY[k.value].1 {
        LegacyDistinct(j, k.value);
      }
    }
  }

  /** 0004 forward and backward gives back every row exactly when every support_type was null or one of the three
      legacy values; no row loses anything else. */
  lemma RoundTrip4Iff(db: Db)
    requires NoRoles(db)
    ensures Backward4(Forward4(db)).users == db.users <==>
            forall i | 0 <= i < |db.users| :: db.users[i].supportType == None || LegacyIndex(db.users[i].supportType).Some?
    ensures forall i | 0 <= i < |db.users| :: Backward4(Forward4(db)).users[i].userType == db.users[i].userType
  {
    var us := Backward4(Forward4(db)).users;
    forall i | 0 <= i < |db.users|
      ensures us[i] == db.users[i].(supportType := if LegacyIndex(db.users[i].supportType).Some? then db.users[i].supportType else None)
    {
      TypeOfRole(db, db.users[i].supportType);
    }
  }

  /** 0003 and 0004 forward, then 0004 and 0003 backward, give back every legacy table. */
  lemma RoundTrip34(db: Db)
    requires Legacy(db)
    ensures Backward3(Backward4(Forward4(Forward3(db)))).users == db.users
  {
  }

  /** After 0004 a row meets User.clean, with a reference that stands, exactly when it was of type support just in
      case it had one of the three legacy values. */
  lemma Forward4Rule(db: Db)
    requires NoRoles(db)
    ensures RuleHolds(Forward4(db)) <==>
            forall i | 0 <= i < |db.users| :: db.users[i].userType == "support" <==> LegacyIndex(db.users[i].supportType).Some?
  {
    var s := Forward4(db);
    TypeOfRole(db, None);
    forall i | 0 <= i < |db.users|
      ensures Refers(s.users[i], s.roles)
      ensures Clean(s.users[i]) <==> (db.users[i].userType == "support" <==> LegacyIndex(db.users[i].supportType).Some?)
    {
      TypeOfRole(db, db.users[i].supportType);
    }
  }

  /** A table that the first schema could hold, which knew no type support. */
  predicate Original(db: Db) {
    Legacy(db) && forall i | 0 <= i < |db.users| :: db.users[i].userType != "support"
  }

  /** From a legacy table with no user of type support, which was not among its choices, the two forward migrations
      establish the rule, and every run of admin requests after them keeps it. */
  lemma MigratedRunsKeepRule(db: Db, qs: seq<Request>)
    requires Original(db)
    ensures RuleHolds(Run(Forward4(Forward3(db)), qs))
  {
    Forward4Rule(Forward3(db));
    RunKeepsRule(Forward4(Forward3(db)), qs);
  }

  /** The row holds the role of this name just in case it had this value before. */
  ghost predicate RowMoved(db: Db, s: Db, i: nat)
    requires i < |db.users| && |s.users| == |db.users|
  {
    && s.users[i].userType == db.users[i].userType
    && (HoldsRole(s, i, "فنی") <==> db.users[i].supportType == Some("technical"))
    && (HoldsRole(s, i, "مالی") <==> db.users[i].supportType == Some("financial"))
    && (HoldsRole(s, i, "عمومی") <==> db.users[i].supportType == Some("general"))
    && (s.users[i].supportRole.Some? <==> db.users[i].supportType in {Some("technical"), Some("financial"), Some("general")})
  }

  /** What 0004 leaves: three active roles by name and no other, each under one id, and every row with the role that
      its value names. */
  lemma Forward4Exact(db: Db)
    requires NoRoles(db)
    ensures var s := Forward4(db);
            && (forall id | id in s.roles :: s.roles[id].isActive && s.roles[id].name in {"فنی", "مالی", "عمومی"})
            && RolesOk(s) && |s.users| == |db.users|
            && forall i: nat | i < |db.users| :: RowMoved(db, s, i)
  {
    SeededRoles(db.(roles := map[]), |LEGACY|);
    TypeOfRole(db, None);
    forall i: nat | i < |db.users| ensures RowMoved(db, Forward4(db), i) {
      RowMoves(db, i);
    }
  }

  lemma RowMoves(db: Db, i: nat)
    requires NoRoles(db) && i < |db.users|
    ensures RowMoved(db, Forward4(db), i)
  {
    var s := Forward4(db);
    var t := db.users[i].supportType;
    TypeOfRole(db, t);
    assert s.users[i].supportRole == RoleFor(s, t);
    var k := LegacyIndex(t);
    if k.Some? {
      assert s.roles[RoleFor(s, t).value].name == LEGACY[k.value].1;
      forall j: nat | j < |LEGACY| && j != k.value ensures LEGACY[j].0 != LEGACY[k.value].0 && LEGACY[j].1 != LEGACY[k.value].1 {
        LegacyDistinct(j, k.value);
      }
    }
  }

  predicate HoldsRole(db: Db, i: nat, name: string)
    requires i < |db.users|
  {
    db.users[i].supportRole.Some? && db.users[i].supportRole.value in db.roles && db.roles[db.users[i].supportRole.value].name == name
  }

  lemma {:induction false} SeededRoles(db: Db, k: nat)
    requires k <= |LEGACY| && db.roles == map[]
    ensures forall id | id in Seeded(db, k).roles :: Seeded(db, k).roles[id].isActive && IsLegacyName(Seeded(db, k).roles[id].name)
  {
    if k > 0 {
      SeededRoles(db, k - 1);
    }
  }

  /** 0003 on any table: forward, supervisors become support users for general matters, and backward those and no
      others become supervisors; everyone else keeps their type, and the column comes and goes empty for them. */
  lemma Only3Exact(db: Db, i: nat)
    requires i < |db.users|
    ensures var f, b, t := Forward3(db).users[i], Backward3(db).users[i], db.users[i].userType;
            && (if t == "supervisor" then f.userType == "support" && f.supportType == Some("general")
                else f.userType == t && f.supportType == None)
            && b.userType == (if t == "support" && db.users[i].supportType == Some("general") then "supervisor" else t)
            && b.supportType == None
  {
  }

  /** 0004 backward on any table: every row keeps its type and gets the value of its role's name, the roles go. */
  lemma Backward4Exact(db: Db, i: nat)
    requires i < |db.users|
    ensures var b := Backward4(db);
            && |b.users| == |db.users| && b.users[i].userType == db.users[i].userType && b.users[i].supportRole == None && b.roles == map[]
            && (b.users[i].supportType == Some("technical") <==> HoldsRole(db, i, "فنی"))
            && (b.users[i].supportType == Some("financial") <==> HoldsRole(db, i, "مالی"))
            && (b.users[i].supportType == Some("general") <==> HoldsRole(db, i, "عمومی"))
            && b.users[i].supportType in {None, Some("technical"), Some("financial"), Some("general")}
  {
  }

  /** What both migrations make of a table of the first schema: a supervisor becomes a support user with the active
      role for general matters, and everyone else keeps their type and gets no role. */
  lemma ForwardExact(db: Db, i: nat)
    requires Original(db) && i < |db.users|
    ensures var s := Forward4(Forward3(db));
            && |s.users| == |db.users|
            && (db.users[i].userType == "supervisor" ==> s.users[i].userType == "support" && HoldsRole(s, i, "عمومی"))
            && (db.users[i].userType != "supervisor" ==> s.users[i] == db.users[i])
  {
    Forward4Exact(Forward3(db));
    assert RowMoved(Forward3(db), Forward4(Forward3(db)), i);
  }

  // ---- Going back after the admin has worked ----

  function Migrated(db: Db, qs: seq<Request>): Db {
    Run(Forward4(Forward3(db)), qs)
  }

  /** No request makes a supervisor, or takes a row away. */
  lemma {:induction false} RunMakesNoSupervisor(db: Db, qs: seq<Request>)
    requires forall i | 0 <= i < |db.users| :: db.users[i].userType != "supervisor"
    ensures |db.users| <= |Run(db, qs).users|
    ensures forall i | 0 <= i < |Run(db, qs).users| :: Run(db, qs).users[i].userType != "supervisor"
  {
    if qs != [] {
      RunMakesNoSupervisor(db, qs[..|qs| - 1]);
    }
  }

  /** The account is of type support and its role has this name at present. */
  predicate HasRoleNamed(db: Db, u: Account, name: string) {
    u.userType == "support" && u.supportRole.Some? && u.supportRole.value in db.roles && db.roles[u.supportRole.value].name == name
  }

  predicate HasLegacyRole(db: Db, u: Account) {
    HasRoleNamed(db, u, LEGACY[0].1) || HasRoleNamed(db, u, LEGACY[1].1) || HasRoleNamed(db, u, LEGACY[2].1)
  }

  /** 0004 backward, after any admin requests: every row keeps its type, and gets the value that the present name of
      its role stands for. A support_type is lost exactly for the users of type support whose role has none of the
      three names. */
  lemma BackwardAfterRun(db: Db, qs: seq<Request>, i: nat)
    requires Original(db) && i < |Migrated(db, qs).users|
    ensures var after, back := Migrated(db, qs), Backward4(Migrated(db, qs));
            var u := after.users[i];
            && back.users[i].userType == u.userType
            && (forall k | 0 <= k < |LEGACY| :: back.users[i].supportType == Some(LEGACY[k].0) <==> HasRoleNamed(after, u, LEGACY[k].1))
            && (u.userType == "support" && back.users[i].supportType == None <==> u.userType == "support" && !HasLegacyRole(after, u))
  {
    MigratedRunsKeepRule(db, qs);
  }

  /** 0003 backward after that: users whose role is named as "general" become supervisors, and exactly the other users
      of type support keep a type that the first schema does not know. A row of the first table is given back exactly
      when a supervisor holds a role of that name, and anyone else the type they started with. */
  lemma BothBackwardAfterRun(db: Db, qs: seq<Request>, i: nat)
    requires Original(db) && i < |Migrated(db, qs).users|
    ensures var after, back := Migrated(db, qs), Backward3(Backward4(Migrated(db, qs)));
            var u := after.users[i];
            && (back.users[i].userType == "supervisor" <==> HasRoleNamed(after, u, LEGACY[2].1))
            && (back.users[i].userType == "support" <==> u.userType == "support" && !HasRoleNamed(after, u, LEGACY[2].1))
            && (i < |db.users| ==>
                  (back.users[i] == db.users[i] <==>
                   if db.users[i].userType == "supervisor" then HasRoleNamed(after, u, LEGACY[2].1) else u.userType == db.users[i].userType))
  {
    MigratedRunsKeepRule(db, qs);
    RunMakesNoSupervisor(Forward4(Forward3(db)), qs);
    BackwardAfterRun(db, qs, i);
  }

  /** The first schema's table comes back, with no user of type support, exactly when every user of type support has
      a role that is named as "general" at present. */
  lemma BackwardFitsIff(db: Db, qs: seq<Request>)
    requires Original(db)
    ensures Original(Backward3(Backward4(Migrated(db, qs)))) <==>
            forall i | 0 <= i < |Migrated(db, qs).users| ::
              Migrated(db, qs).users[i].userType == "support" ==> HasRoleNamed(Migrated(db, qs), Migrated(db, qs).users[i], LEGACY[2].1)
  {
    var after, back := Migrated(db, qs), Backward3(Backward4(Migrated(db, qs)));
    forall i: nat | i < |after.users|
      ensures back.users[i].userType == "support" <==> after.users[i].userType == "support" && !HasRoleNamed(after, after.users[i], LEGACY[2].1)
    {
      BothBackwardAfterRun(db, qs, i);
    }
  }
}
