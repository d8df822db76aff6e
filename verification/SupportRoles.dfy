/** Support roles and the accounts that hold them: the rule of User.clean, kept by every admin request. */
module SupportRoles {
  import opened Text

  datatype Role = Role(name: string, isActive: bool)

  /** supportType is the column that migration 0004 replaces; a column a schema does not have holds None. */
  datatype Account = Account(userType: string, supportType: Option<string>, supportRole: Option<nat>)

  datatype Db = Db(users: seq<Account>, roles: map<nat, Role>, nextId: nat)

  const USER_TYPES := {"student", "instructor", "teaching_assistant", "admin", "support"}

  // ---- The rule ----

  /** User.clean raises nothing. */
  predicate Clean(u: Account) {
    u.userType == "support" <==> u.supportRole.Some?
  }

  ghost predicate RolesOk(db: Db) {
    && (forall id | id in db.roles :: id < db.nextId)
    && (forall i, j | i in db.roles && j in db.roles && i != j :: db.roles[i].name != db.roles[j].name)
  }

  predicate Refers(u: Account, roles: map<nat, Role>) {
    u.supportRole.Some? ==> u.supportRole.value in roles
  }

  /** A user has a support role iff their type is support, and the role referred to exists. */
  ghost predicate RuleHolds(db: Db) {
    RolesOk(db) && forall i | 0 <= i < |db.users| :: Clean(db.users[i]) && Refers(db.users[i], db.roles)
  }

  // ---- The admin requests ----

  datatype Request =
    | NewAccount
    | ChangeRole(uid: nat, userType: Option<string>, role: Option<nat>)
    | CreateRole(title: string, active: bool)
    | EditRole(id: nat, name: Option<string>, isActive: Option<bool>)
    | DeleteRole(id: nat)

  datatype Response = Done | NotFound | Invalid | Conflict

  datatype Outcome = Outcome(db: Db, response: Response)

  predicate NameTaken(roles: map<nat, Role>, name: string, except: Option<nat>) {
    exists id :: id in roles && Some(id) != except && roles[id].name == name
  }

  predicate NameShape(name: string) {
    1 <= |name| <= 50
  }

  predicate InUse(db: Db, id: nat) {
    exists i :: 0 <= i < |db.users| && db.users[i].supportRole == Some(id)
  }

  /** ChangeUserRoleSerializer accepts. A missing user_type, a KeyError in a partial update, counts as refused. */
  predicate ChangeValid(db: Db, userType: Option<string>, role: Option<nat>) {
    && userType.Some? && userType.value in USER_TYPES
    && (role.Some? ==> role.value in db.roles && db.roles[role.value].isActive)
    && !(userType.value == "support" && role.None?)
    && !(userType.value != "support" && role.Some?)
  }

  function Edited(r: Role, name: Option<string>, isActive: Option<bool>): Role {
    Role(if name.Some? then name.value else r.name, if isActive.Some? then isActive.value else r.isActive)
  }

  function Step(db: Db, q: Request): Outcome {
    match q
    case NewAccount =>
      Outcome(db.(users := db.users + [Account("student", None, None)]), Done)
    case ChangeRole(uid, userType, role) =>
      if uid >= |db.users| then Outcome(db, NotFound)
      else if !ChangeValid(db, userType, role) then Outcome(db, Invalid)
      else Outcome(db.(users := db.users[uid := db.users[uid].(userType := userType.value, supportRole := role)]), Done)
    case CreateRole(name, isActive) =>
      if !NameShape(name) || NameTaken(db.roles, name, None) then Outcome(db, Invalid)
      else Outcome(db.(roles := db.roles[db.nextId := Role(name, isActive)], nextId := db.nextId + 1), Done)
    case EditRole(id, name, isActive) =>
      if id !in db.roles then Outcome(db, NotFound)
      else if name.Some? && (!NameShape(name.value) || NameTaken(db.roles, name.value, Some(id))) then Outcome(db, Invalid)
      else Outcome(db.(roles := db.roles[id := Edited(db.roles[id], name, isActive)]), Done)
    case DeleteRole(id) =>
      if id !in db.roles then Outcome(db, NotFound)
      else if InUse(db, id) then Outcome(db, Conflict)
      else Outcome(db.(roles := db.roles - {id}), Done)
  }

  function Run(db: Db, qs: seq<Request>): Db {
    if qs == [] then db else Step(Run(db, qs[..|qs| - 1]), qs[|qs| - 1]).db
  }

  lemma StepKeepsRule(db: Db, q: Request)
    requires RuleHolds(db)
    ensures RuleHolds(Step(db, q).db)
  {
  }

  /** Every run of admin requests keeps the rule. */
  lemma {:induction false} RunKeepsRule(db: Db, qs: seq<Request>)
    requires RuleHolds(db)
    ensures RuleHolds(Run(db, qs))
  {
    if qs != [] {
      RunKeepsRule(db, qs[..|qs| - 1]);
      StepKeepsRule(Run(db, qs[..|qs| - 1]), qs[|qs| - 1]);
    }
  }

  /** A new account is a student without a support role. */
  lemma NewAccountExact(db: Db)
    ensures Step(db, NewAccount) == Outcome(db.(users := db.users + [Account("student", None, None)]), Done)
  {
  }

  /** When a role change is done, and all it does: the row holds the type and the role given, and every other row,
      every role and the row's old column are as they were. Any other answer changes nothing. */
  lemma ChangeRoleExact(db: Db, uid: nat, userType: Option<string>, role: Option<nat>)
    ensures var o := Step(db, ChangeRole(uid, userType, role));
            && (o.response == Done <==>
                  && uid < |db.users| && userType.Some?
                  && userType.value in {"student", "instructor", "teaching_assistant", "admin", "support"}
                  && (role.Some? <==> userType.value == "support")
                  && (role.Some? ==> role.value in db.roles && db.roles[role.value].isActive))
            && (o.response == Done ==>
                  && |o.db.users| == |db.users| && o.db.roles == db.roles && o.db.nextId == db.nextId
                  && o.db.users[uid].userType == userType.value && o.db.users[uid].supportRole == role
                  && o.db.users[uid].supportType == db.users[uid].supportType
                  && forall i | 0 <= i < |db.users| && i != uid :: o.db.users[i] == db.users[i])
            && (o.response != Done ==> o.db == db)
            && (o.response == NotFound <==> uid >= |db.users|)
  {
  }

  /** When a role is created, and all it does: a new id stands for a role of that name and flag. */
  lemma CreateRoleExact(db: Db, name: string, isActive: bool)
    requires RolesOk(db)
    ensures var o := Step(db, CreateRole(name, isActive));
            && (o.response == Done <==> 1 <= |name| <= 50 && forall id | id in db.roles :: db.roles[id].name != name)
            && (o.response == Done ==>
                  o.db.users == db.users && exists id: nat :: id !in db.roles && o.db.roles == db.roles[id := Role(name, isActive)])
            && (o.response != Done ==> o.db == db)
  {
    var o := Step(db, CreateRole(name, isActive));
    if o.response == Done {
      assert db.nextId !in db.roles && o.db.roles == db.roles[db.nextId := Role(name, isActive)];
    }
  }

  /** When a role is edited, and all it does: the fields given are written, those not given and all other roles and
      users are as they were. */
  lemma EditRoleExact(db: Db, id: nat, name: Option<string>, isActive: Option<bool>)
    ensures var o := Step(db, EditRole(id, name, isActive));
            && (o.response == Done <==>
                  && id in db.roles
                  && (name.Some? ==> 1 <= |name.value| <= 50 && forall j | j in db.roles && j != id :: db.roles[j].name != name.value))
            && (o.response == Done ==>
                  && o.db.users == db.users && o.db.nextId == db.nextId && o.db.roles.Keys == db.roles.Keys
                  && (forall j | j in db.roles && j != id :: o.db.roles[j] == db.roles[j])
                  && (name.Some? ==> o.db.roles[id].name == name.value) && (name.None? ==> o.db.roles[id].name == db.roles[id].name)
                  && (isActive.Some? ==> o.db.roles[id].isActive == isActive.value)
                  && (isActive.None? ==> o.db.roles[id].isActive == db.roles[id].isActive))
            && (o.response != Done ==> o.db == db)
            && (o.response == NotFound <==> id !in db.roles)
  {
  }

  /** Deleting a role goes through, where the rule holds, exactly when taking it away would leave every reference
      standing; otherwise it changes nothing. */
  lemma DeleteIff(db: Db, id: nat)
    requires RuleHolds(db) && id in db.roles
    ensures var o := Step(db, DeleteRole(id));
            && (o.response == Done <==> forall i | 0 <= i < |db.users| :: Refers(db.users[i], db.roles - {id}))
            && (o.response == Done ==> o.db.roles == db.roles - {id} && o.db.users == db.users)
            && (o.response != Done ==> o.db == db)
  {
  }

  /** The serializer accepts a change exactly when the account it would write meets User.clean with a known type
      and an existing, active role. */
  lemma ChangeValidIff(db: Db, u: Account, userType: string, role: Option<nat>)
    ensures ChangeValid(db, Some(userType), role) <==>
            var u' := u.(userType := userType, supportRole := role);
            Clean(u') && Refers(u', db.roles) && userType in USER_TYPES && (role.Some? && role.value in db.roles ==> db.roles[role.value].isActive)
  {
  }

  // ---- The database ----

  class Database {
    var users: seq<Account>
    var roles: map<nat, Role>
    var nextId: nat

    function View(): Db
      reads this
    {
      Db(users, roles, nextId)
    }

    constructor (users: seq<Account>)
      ensures View() == Db(users, map[], 0)
    {
      this.users, roles, nextId := users, map[], 0;
    }

    method AddAccount() returns (r: Response)
      modifies this
      ensures Outcome(View(), r) == Step(old(View()), NewAccount)
    {
      users := users + [Account("student", None, None)];
      r := Done;
    }

    method ChangeUserRole(uid: nat, userType: Option<string>, role: Option<nat>) returns (r: Response)
      modifies this
      ensures Outcome(View(), r) == Step(old(View()), ChangeRole(uid, userType, role))
      ensures r == Done ==>
                uid < |old(users)| && userType.Some? && roles == old(roles)
                && users == old(users)[uid := old(users)[uid].(userType := userType.value, supportRole := role)]
      ensures r != Done ==> View() == old(View())
    {
      if uid >= |users| {
        return NotFound;
      }
      if userType.None? || userType.value !in USER_TYPES {
        return Invalid;
      }
      if role.Some? && (role.value !in roles || !roles[role.value].isActive) {
        return Invalid;
      }
      if userType.value == "support" && role.None? {
        return Invalid;
      }
      if userType.value != "support" && role.Some? {
        return Invalid;
      }
      users := users[uid := users[uid].(userType := userType.value, supportRole := role)];
      r := Done;
    }

    method AddRole(name: string, isActive: bool) returns (r: Response)
      modifies this
      ensures Outcome(View(), r) == Step(old(View()), CreateRole(name, isActive))
    {
      if !NameShape(name) || NameTaken(roles, name, None) {
        return Invalid;
      }
      roles := roles[nextId := Role(name, isActive)];
      nextId := nextId + 1;
      r := Done;
    }

    method UpdateRole(id: nat, name: Option<string>, isActive: Option<bool>) returns (r: Response)
      modifies this
      ensures Outcome(View(), r) == Step(old(View()), EditRole(id, name, isActive))
    {
      if id !in roles {
        return NotFound;
      }
      if name.Some? {
        if !NameShape(name.value) || NameTaken(roles, name.value, Some(id)) {
          return Invalid;
        }
        roles := roles[id := roles[id].(name := name.value)];
      }
      if isActive.Some? {
        roles := roles[id := roles[id].(isActive := isActive.value)];
      }
      assert roles == old(roles)[id := Edited(old(roles)[id], name, isActive)];
      r := Done;
    }

    /** SupportRoleDetailView.destroy: the PROTECT foreign key refuses a role in use. */
    method RemoveRole(id: nat) returns (r: Response)
      modifies this
      ensures Outcome(View(), r) == Step(old(View()), DeleteRole(id))
    {
      if id !in roles {
        return NotFound;
      }
      if InUse(View(), id) {
        return Conflict;
      }
      roles := roles - {id};
      r := Done;
    }
  }
}
