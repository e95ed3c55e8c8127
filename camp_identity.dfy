/**
 * CampIdentityInitializer: seeds the administrator account at start-up.
 *
 * The user and role stores are `IdentityStores`. The four manager calls `Seed` makes
 * (`RoleManager.CreateAsync`, `UserManager.CreateAsync`, `AddToRoleAsync`, `AddClaimAsync`)
 * succeed only when their target is in the right state AND the manager's own verdict, which
 * the model takes as a parameter (password rules, a database error, …), is success.
 * `AddToRoleAsync` throws instead of failing when the role does not exist.
 */
module CampIdentity {

  datatype Claim = Claim(claimType: string, value: string)

  /** A `CampUser` with the roles and claims the user manager keeps for it. */
  datatype User = User(
    userName: string, firstName: string, lastName: string, email: string,
    roles: set<string>, claims: seq<Claim>)

  /** An `IdentityRole` with its claims. */
  datatype Role = Role(name: string, claims: seq<Claim>)

  /** The contents of both stores: users by user name, roles by role name. */
  datatype Stores = Stores(users: map<string, User>, roles: map<string, Role>)

  /** Whether each manager call, if its target allows it, succeeds. */
  datatype Verdicts = Verdicts(createRole: bool, createUser: bool, addToRole: bool, addClaim: bool)

  /** How `Seed` ends: normally, or with `InvalidOperationException(message)`. */
  datatype SeedOutcome = Completed | Threw(message: string)

  /**
   * How `UserManager.AddToRoleAsync` ends: with a result, or with the identity store's
   * exception for a role name it cannot find.
   */
  datatype AddToRoleOutcome = Answered(succeeded: bool) | RoleNotFound

  const SeedUserName := "s.gwozdz"
  const AdminRole := "Admin"
  const AdminClaim := Claim("IsAdmin", "True")
  const SuperUserClaim := Claim("SuperUser", "True")
  const SeedFailure := "Failed to build user and roles"
  /** The identity store's message for a missing role, which names the role upper-cased. */
  const AdminRoleMissing := "Role ADMIN does not exist."
  const SeedUser := User(SeedUserName, "Szymon", "Gwozdz", "test@test.com", {}, [])

  /** `RoleManager.CreateAsync(role)`: fails on a taken role name. */
  function CreateRoleStep(s: Stores, role: Role, ok: bool): (Stores, bool) {
    if ok && role.name !in s.roles then (s.(roles := s.roles[role.name := role]), true) else (s, false)
  }

  /** `UserManager.CreateAsync(user, password)`: fails on a taken user name. */
  function CreateUserStep(s: Stores, user: User, ok: bool): (Stores, bool) {
    if ok && user.userName !in s.users then (s.(users := s.users[user.userName := user]), true) else (s, false)
  }

  /**
   * `UserManager.AddToRoleAsync(user, role)`: throws when the role does not exist; otherwise
   * needs the user, and fails if the user is already in the role.
   */
  function AddToRoleStep(s: Stores, userName: string, role: string, ok: bool): (Stores, AddToRoleOutcome) {
    if role !in s.roles then (s, RoleNotFound)
    else if ok && userName in s.users && role !in s.users[userName].roles then
      var u := s.users[userName];
      (s.(users := s.users[userName := u.(roles := u.roles + {role})]), Answered(true))
    else (s, Answered(false))
  }

  /** `UserManager.AddClaimAsync(user, claim)`: needs the user. */
  function AddClaimStep(s: Stores, userName: string, claim: Claim, ok: bool): (Stores, bool) {
    if ok && userName in s.users then
      var u := s.users[userName];
      (s.(users := s.users[userName := u.(claims := u.claims + [claim])]), true)
    else (s, false)
  }

  /**
   * What `Seed` does, as a function of the stores before it and the managers' verdicts:
   * nothing when the user exists; otherwise the Admin role if absent, then all three user
   * steps, and an exception if any of the three failed. When the Admin role could not be
   * created, `AddToRoleAsync` itself throws and the claim step never runs.
   */
  function SeedSpec(s: Stores, v: Verdicts): (r: (Stores, SeedOutcome))
    ensures forall n :: n in s.users ==> n in r.0.users && r.0.users[n] == s.users[n]
    ensures r.0.users.Keys <= s.users.Keys + {SeedUserName}
    ensures forall n :: n in s.roles ==> n in r.0.roles && r.0.roles[n] == s.roles[n]
    ensures r.0.roles.Keys <= s.roles.Keys + {AdminRole}
    ensures r.1.Threw? ==> r.1.message == SeedFailure || r.1.message == AdminRoleMissing
  {
    if SeedUserName in s.users then (s, Completed)
    else
      var s1 := if AdminRole in s.roles then s else CreateRoleStep(s, Role(AdminRole, [AdminClaim]), v.createRole).0;
      var (s2, userOk) := CreateUserStep(s1, SeedUser, v.createUser);
      var (s3, roleResult) := AddToRoleStep(s2, SeedUserName, AdminRole, v.addToRole);
      if roleResult.RoleNotFound? then (s3, Threw(AdminRoleMissing))
      else
        var (s4, claimOk) := AddClaimStep(s3, SeedUserName, SuperUserClaim, v.addClaim);
        (s4, if !userOk || !roleResult.succeeded || !claimOk then Threw(SeedFailure) else Completed)
  }

  /** With the user already there, `Seed` changes neither store. */
  lemma SeedSkipsExistingUser(s: Stores, v: Verdicts)
    requires SeedUserName in s.users
    ensures SeedSpec(s, v) == (s, Completed)
  {
  }

  /**
   * The Admin role is created only when absent, and then carries exactly the claim
   * `IsAdmin = True`; no other role changes.
   */
  lemma SeedAdminRole(s: Stores, v: Verdicts)
    requires SeedUserName !in s.users
    ensures var roles := SeedSpec(s, v).0.roles;
      && (AdminRole in s.roles ==> roles == s.roles)
      && (AdminRole !in s.roles ==> roles == if v.createRole then s.roles[AdminRole := Role(AdminRole, [AdminClaim])] else s.roles)
  {
  }

  /**
   * `Seed` throws exactly when one of the three user steps fails: with the store's missing-role
   * message when the Admin role is still absent, otherwise with its own message.
   */
  lemma SeedThrowsIffAStepFails(s: Stores, v: Verdicts)
    requires SeedUserName !in s.users
    ensures SeedSpec(s, v).1.Threw? <==> !(v.createUser && v.addToRole && v.addClaim && (AdminRole in s.roles || v.createRole))
    ensures SeedSpec(s, v).1.Threw? ==>
      SeedSpec(s, v).1.message == if AdminRole in s.roles || v.createRole then SeedFailure else AdminRoleMissing
  {
  }

  /**
   * The three user steps are all attempted before any result is looked at: once the user is
   * created, the role and the claim are each added or not on their own verdict. Only a missing
   * Admin role cuts the sequence short, and then neither role nor claim is added.
   */
  lemma SeedAttemptsEveryStep(s: Stores, v: Verdicts)
    requires SeedUserName !in s.users && v.createUser
    ensures var users := SeedSpec(s, v).0.users;
      var adminExists := AdminRole in s.roles || v.createRole;
      && users.Keys == s.users.Keys + {SeedUserName}
      && (forall n :: n in s.users ==> users[n] == s.users[n])
      && users[SeedUserName] == SeedUser.(
           roles := if v.addToRole && adminExists then {AdminRole} else {},
           claims := if v.addClaim && adminExists then [SuperUserClaim] else [])
  {
  }

  /** After a seed that completes from scratch, the user exists, is an Admin, and holds `SuperUser = True`. */
  lemma SeedEstablishesAdmin(s: Stores, v: Verdicts)
    requires SeedUserName !in s.users && SeedSpec(s, v).1 == Completed
    ensures var after := SeedSpec(s, v).0;
      && SeedUserName in after.users && AdminRole in after.roles
      && after.users[SeedUserName].roles == {AdminRole}
      && after.users[SeedUserName].claims == [SuperUserClaim]
  {
    SeedThrowsIffAStepFails(s, v);
  }

  /** A second `Seed` after one that completed is a no-op, whatever the managers would answer. */
  lemma SeedIsIdempotent(s: Stores, v: Verdicts, again: Verdicts)
    requires SeedSpec(s, v).1 == Completed
    ensures SeedSpec(SeedSpec(s, v).0, again) == (SeedSpec(s, v).0, Completed)
  {
    if SeedUserName !in s.users {
      SeedThrowsIffAStepFails(s, v);
    }
  }

  /**
   * A seed that throws after creating the user is never repaired: the next `Seed` finds the
   * user and does nothing, so the user keeps the role and the claim it got, or lacks them, for good.
   */
  lemma FailedSeedIsNotRetried(s: Stores, v: Verdicts, again: Verdicts)
    requires SeedUserName !in s.users && v.createUser && SeedSpec(s, v).1.Threw?
    ensures var after := SeedSpec(s, v).0;
      var adminExists := AdminRole in s.roles || v.createRole;
      && SeedUserName in after.users
      && SeedSpec(after, again) == (after, Completed)
      && (SuperUserClaim in after.users[SeedUserName].claims <==> v.addClaim && adminExists)
      && (AdminRole in after.users[SeedUserName].roles <==> v.addToRole && adminExists)
  {
    SeedAttemptsEveryStep(s, v);
  }

  class IdentityStores {
    var users: map<string, User>
    var roles: map<string, Role>

    function State(): Stores
      reads this
    {
      Stores(users, roles)
    }

    constructor (users: map<string, User>, roles: map<string, Role>)
      ensures State() == Stores(users, roles)
    {
      this.users := users;
      this.roles := roles;
    }

    /** `RoleManager.CreateAsync(role)`. */
    method CreateRole(role: Role, ok: bool) returns (succeeded: bool)
      modifies this
      ensures (State(), succeeded) == CreateRoleStep(old(State()), role, ok)
    {
      succeeded := ok && role.name !in roles;
      if succeeded {
        roles := roles[role.name := role];
      }
    }

    /** `UserManager.CreateAsync(user, password)`. */
    method CreateUser(user: User, ok: bool) returns (succeeded: bool)
      modifies this
      ensures (State(), succeeded) == CreateUserStep(old(State()), user, ok)
    {
      succeeded := ok && user.userName !in users;
      if succeeded {
        users := users[user.userName := user];
      }
    }

    /** `UserManager.AddToRoleAsync(user, role)`. */
    method AddToRole(userName: string, role: string, ok: bool) returns (result: AddToRoleOutcome)
      modifies this
      ensures (State(), result) == AddToRoleStep(old(State()), userName, role, ok)
    {
      if role !in roles {
        return RoleNotFound;
      }
      var succeeded := ok && userName in users && role !in users[userName].roles;
      if succeeded {
        var u := users[userName];
        users := users[userName := u.(roles := u.roles + {role})];
      }
      result := Answered(succeeded);
    }

    /** `UserManager.AddClaimAsync(user, claim)`. */
    method AddClaim(userName: string, claim: Claim, ok: bool) returns (succeeded: bool)
      modifies this
      ensures (State(), succeeded) == AddClaimStep(old(State()), userName, claim, ok)
    {
      succeeded := ok && userName in users;
      if succeeded {
        var u := users[userName];
        users := users[userName := u.(claims := u.claims + [claim])];
      }
    }

    /** `Seed()`, the managers answering as `v` says. */
    method Seed(v: Verdicts) returns (r: SeedOutcome)
      modifies this
      ensures (State(), r) == SeedSpec(old(State()), v)
    {
      if SeedUserName in users {
        return Completed;
      }
      ghost var s0 := State();
      if AdminRole !in roles {
        var role := Role(AdminRole, [AdminClaim]);
        var _ := CreateRole(role, v.createRole);
      }
      ghost var s1 := State();
      assert s1 == if AdminRole in s0.roles then s0 else CreateRoleStep(s0, Role(AdminRole, [AdminClaim]), v.createRole).0;
      var user := SeedUser;
      var userResult := CreateUser(user, v.createUser);
      assert (State(), userResult) == CreateUserStep(s1, SeedUser, v.createUser);
      ghost var s2 := State();
      var roleResult := AddToRole(user.userName, AdminRole, v.addToRole);
      assert (State(), roleResult) == AddToRoleStep(s2, SeedUserName, AdminRole, v.addToRole);
      if roleResult.RoleNotFound? {
        return Threw(AdminRoleMissing);
      }
      ghost var s3 := State();
      var claimResult := AddClaim(user.userName, SuperUserClaim, v.addClaim);
      assert (State(), claimResult) == AddClaimStep(s3, SeedUserName, SuperUserClaim, v.addClaim);
      if !userResult || !roleResult.succeeded || !claimResult {
        return Threw(SeedFailure);
      }
      return Completed;
    }
  }
}
