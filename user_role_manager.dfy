/** Identity provisioning: creating roles, adding an account to a role
    (creating the account first when it is missing) and adding a claim to an
    account, as ordered sequences of calls on the identity store.

    Every method states the calls it made, in order (through the store's
    trace), what the store holds afterwards and what it returns. */
module UserRoleManagement {
  import opened Claims
  import opened IdentityStore

  /** An identifier is treated as an e-mail address iff it contains '@'. */
  function IsEmail(usernameOrEmail: string): bool {
    '@' in usernameOrEmail
  }

  /** The key the identifier is looked up by. */
  function LookupKeyFor(usernameOrEmail: string): LookupKey {
    if IsEmail(usernameOrEmail) then ByEmail else ByUserName
  }

  /** The store call that looks the identifier up. */
  function LookupCall(usernameOrEmail: string): StoreCall {
    if IsEmail(usernameOrEmail) then FindByEmailCall(usernameOrEmail) else FindByNameCall(usernameOrEmail)
  }

  /** What the lookup of the identifier returns on the given accounts. */
  function Lookup(users: seq<User>, usernameOrEmail: string): Option<User> {
    Find(users, LookupKeyFor(usernameOrEmail), usernameOrEmail)
  }

  /** The record `AddUserToRole` constructs before anything else: user name
      and e-mail both the identifier, and a fresh id. */
  function NewAccount(usernameOrEmail: string, freshId: UserId): User {
    User(freshId, usernameOrEmail, usernameOrEmail)
  }

  /** The lookup goes by e-mail for identifiers with '@' and by user name for
      the others, and finds exactly the account keyed by the identifier. */
  lemma LookupFollowsClassification(users: seq<User>, usernameOrEmail: string)
    ensures '@' in usernameOrEmail ==>
              LookupCall(usernameOrEmail) == FindByEmailCall(usernameOrEmail) &&
              Lookup(users, usernameOrEmail) == Find(users, ByEmail, usernameOrEmail)
    ensures '@' !in usernameOrEmail ==>
              LookupCall(usernameOrEmail) == FindByNameCall(usernameOrEmail) &&
              Lookup(users, usernameOrEmail) == Find(users, ByUserName, usernameOrEmail)
    ensures LookupCall("admin") == FindByNameCall("admin")
    ensures LookupCall("admin@site.com") == FindByEmailCall("admin@site.com")
  {
  }

  /** A freshly created account is the one the identifier now finds. */
  lemma {:induction false} CreatedAccountIsFound(users: seq<User>, usernameOrEmail: string, freshId: UserId)
    requires UniqueAccounts(users + [NewAccount(usernameOrEmail, freshId)])
    ensures Lookup(users + [NewAccount(usernameOrEmail, freshId)], usernameOrEmail)
            == Some(NewAccount(usernameOrEmail, freshId))
  {
    var account := NewAccount(usernameOrEmail, freshId);
    assert account == (users + [account])[|users|];
    FindIsUnique(users + [account], LookupKeyFor(usernameOrEmail), account);
  }

  /** `UserRoleManager`: the provisioning operations over one store. */
  class UserRoleManager {
    const store: Store

    constructor (store: Store)
      ensures this.store == store
    {
      this.store := store;
    }

    /** `CreateRole`: one role creation, for a role named exactly `name`,
        with no existence check first; the store's result is returned as is. */
    method CreateRole(name: string) returns (r: IdentityResult)
      requires store.Valid()
      modifies store
      ensures store.Valid()
      ensures r == CreateRoleOutcome(old(store.roles), name, store.acceptsRoleName)
      ensures store.roles == RolesAfterCreate(old(store.roles), name, store.acceptsRoleName)
      ensures store.users == old(store.users) && store.members == old(store.members)
      ensures store.userClaims == old(store.userClaims)
      ensures store.trace == old(store.trace) + [CreateRoleCall(name)]
    {
      r := store.CreateRole(name);
    }

    /** `AddUserToRole`: look the identifier up; when no account is found,
        create the constructed record with the password and return at once
        if that fails; then create the role, ignoring the result; then assign
        the CONSTRUCTED record (not the one found) to the role and return the
        assignment's result. The record's id is fresh, as a new GUID is. */
    method AddUserToRole(usernameOrEmail: string, password: string, roleName: string, freshId: UserId)
      returns (r: IdentityResult)
      requires store.Valid()
      requires freshId !in Ids(store.users)
      modifies store
      ensures store.Valid()
      // no account found and its creation fails: that failure, and nothing else happens
      ensures var account := NewAccount(usernameOrEmail, freshId);
              var created := CreateUserOutcome(old(store.users), account, password, store.acceptsPassword, store.acceptsUser);
              Lookup(old(store.users), usernameOrEmail).None? && created != Success ==>
                && r == created
                && store.Snapshot() == old(store.Snapshot())
                && store.trace == old(store.trace) + [LookupCall(usernameOrEmail), CreateUserCall(account, password)]
      // otherwise: the role creation is attempted and its result ignored, then the
      // constructed record is assigned and the assignment's result returned
      ensures var account := NewAccount(usernameOrEmail, freshId);
              var found := Lookup(old(store.users), usernameOrEmail);
              var created := CreateUserOutcome(old(store.users), account, password, store.acceptsPassword, store.acceptsUser);
              var users := if found.None? then old(store.users) + [account] else old(store.users);
              var roles := RolesAfterCreate(old(store.roles), roleName, store.acceptsRoleName);
              found.Some? || created == Success ==>
                && store.users == users
                && store.roles == roles
                && r == AddToRoleOutcome(users, roles, old(store.members), account, roleName)
                && store.members == (if r == Success then old(store.members) + {(freshId, roleName)} else old(store.members))
                && store.userClaims == old(store.userClaims)
                && store.trace == old(store.trace) + [LookupCall(usernameOrEmail)]
                                  + (if found.None? then [CreateUserCall(account, password)] else [])
                                  + [CreateRoleCall(roleName), AddToRoleCall(account, roleName)]
      // a new account gets the role exactly when the role exists after the ignored creation
      ensures var account := NewAccount(usernameOrEmail, freshId);
              var created := CreateUserOutcome(old(store.users), account, password, store.acceptsPassword, store.acceptsUser);
              var roles := RolesAfterCreate(old(store.roles), roleName, store.acceptsRoleName);
              Lookup(old(store.users), usernameOrEmail).None? && created == Success ==>
                (if roleName in roles then r == Success else r == Failure(RoleNotFound))
      // an existing account is never given the role: the record assigned is not that account
      ensures Lookup(old(store.users), usernameOrEmail).Some? ==>
                r != Success && store.members == old(store.members)
    {
      var userToCreate := NewAccount(usernameOrEmail, freshId);
      var found: Option<User>;
      if IsEmail(usernameOrEmail) {
        found := store.FindByEmail(usernameOrEmail);
      } else {
        found := store.FindByName(usernameOrEmail);
      }
      if found.None? {
        var result := store.CreateUser(userToCreate, password);
        if result != Success {
          return result;
        }
      }
      r := CreateRoleAndAssign(userToCreate, roleName);
    }

    /** `AddClaimToUserAsync`: look the identifier up and add the claim to
        whatever the lookup returned, absent included; nothing else. */
    method AddClaimToUser(usernameOrEmail: string, claim: Claim) returns (r: IdentityResult)
      requires store.Valid()
      modifies store
      ensures store.Valid()
      ensures var found := Lookup(old(store.users), usernameOrEmail);
              && r == AddClaimOutcome(old(store.users), found)
              && (found.Some? <==> r == Success)
              && (found.None? ==> r == Failure(NullUser))
              && store.userClaims == (if found.Some? then old(store.userClaims) + [(found.value.id, claim)]
                                      else old(store.userClaims))
              && store.trace == old(store.trace) + [LookupCall(usernameOrEmail), AddClaimCall(found, claim)]
      ensures store.users == old(store.users) && store.roles == old(store.roles)
      ensures store.members == old(store.members)
    {
      var found: Option<User>;
      if IsEmail(usernameOrEmail) {
        found := store.FindByEmail(usernameOrEmail);
      } else {
        found := store.FindByName(usernameOrEmail);
      }
      r := store.AddClaim(found, claim);
    }

    /** `AddUserToRole` as evidently intended: the same calls, but the account
        assigned to the role is the one found when there is one. Whenever an
        account exists or is created and the role exists, that account ends
        up in the role. */
    method AddUserToRoleAssigningAccount(usernameOrEmail: string, password: string, roleName: string, freshId: UserId)
      returns (r: IdentityResult)
      requires store.Valid()
      requires freshId !in Ids(store.users)
      modifies store
      ensures store.Valid()
      ensures var account := NewAccount(usernameOrEmail, freshId);
              var created := CreateUserOutcome(old(store.users), account, password, store.acceptsPassword, store.acceptsUser);
              Lookup(old(store.users), usernameOrEmail).None? && created != Success ==>
                && r == created
                && store.Snapshot() == old(store.Snapshot())
                && store.trace == old(store.trace) + [LookupCall(usernameOrEmail), CreateUserCall(account, password)]
      ensures var found := Lookup(old(store.users), usernameOrEmail);
              var created := CreateUserOutcome(old(store.users), NewAccount(usernameOrEmail, freshId), password,
                                               store.acceptsPassword, store.acceptsUser);
              var account := if found.Some? then found.value else NewAccount(usernameOrEmail, freshId);
              var users := if found.None? then old(store.users) + [account] else old(store.users);
              var roles := RolesAfterCreate(old(store.roles), roleName, store.acceptsRoleName);
              found.Some? || created == Success ==>
                && store.users == users
                && store.roles == roles
                && r == (if (account.id, roleName) in old(store.members) then Failure(UserAlreadyInRole)
                         else if roleName !in roles then Failure(RoleNotFound)
                         else Success)
                && store.members == (if r == Success then old(store.members) + {(account.id, roleName)} else old(store.members))
                && store.userClaims == old(store.userClaims)
                && store.trace == old(store.trace) + [LookupCall(usernameOrEmail)]
                                  + (if found.None? then [CreateUserCall(account, password)] else [])
                                  + [CreateRoleCall(roleName), AddToRoleCall(account, roleName)]
      ensures var account := NewAccount(usernameOrEmail, freshId);
              var created := CreateUserOutcome(old(store.users), account, password, store.acceptsPassword, store.acceptsUser);
              (Lookup(old(store.users), usernameOrEmail).Some? || created == Success) && roleName in store.roles ==>
                && Lookup(store.users, usernameOrEmail).Some?
                && (Lookup(store.users, usernameOrEmail).value.id, roleName) in store.members
    {
      var userToCreate := NewAccount(usernameOrEmail, freshId);
      var found: Option<User>;
      if IsEmail(usernameOrEmail) {
        found := store.FindByEmail(usernameOrEmail);
      } else {
        found := store.FindByName(usernameOrEmail);
      }
      var account := userToCreate;
      if found.None? {
        var result := store.CreateUser(userToCreate, password);
        if result != Success {
          return result;
        }
        CreatedAccountIsFound(old(store.users), usernameOrEmail, freshId);
      } else {
        account := found.value;
        FindIsUnique(store.users, LookupKeyFor(usernameOrEmail), account);
      }
      r := CreateRoleAndAssign(account, roleName);
    }

    /** The common tail of both versions of `AddUserToRole`: create the role,
        ignoring the result, then assign the given record to it. A stored
        account fails only on an existing membership or a missing role. */
    method CreateRoleAndAssign(account: User, roleName: string) returns (r: IdentityResult)
      requires store.Valid()
      modifies store
      ensures store.Valid()
      ensures store.roles == RolesAfterCreate(old(store.roles), roleName, store.acceptsRoleName)
      ensures r == AddToRoleOutcome(store.users, store.roles, old(store.members), account, roleName)
      ensures account in store.users ==>
                r == (if (account.id, roleName) in old(store.members) then Failure(UserAlreadyInRole)
                      else if roleName !in store.roles then Failure(RoleNotFound)
                      else Success)
      ensures store.members == (if r == Success then old(store.members) + {(account.id, roleName)}
                                else old(store.members))
      ensures store.users == old(store.users) && store.userClaims == old(store.userClaims)
      ensures store.trace == old(store.trace) + [CreateRoleCall(roleName), AddToRoleCall(account, roleName)]
    {
      var _ := CreateRole(roleName);
      r := store.AddToRole(account, roleName);
      if account in store.users {
        StoredAccountAssignment(store.users, store.roles, old(store.members), account, roleName);
      }
    }
  }

  /** The validators the scenarios below use: passwords of at least five
      characters, every account, and every non-empty role name. */
  method NewStore() returns (store: Store)
    ensures fresh(store) && store.Valid()
    ensures store.Snapshot() == Content([], {}, {}, []) && store.trace == []
    ensures forall pw :: store.acceptsPassword(pw) <==> |pw| >= 5
    ensures forall u :: store.acceptsUser(u)
    ensures forall name :: store.acceptsRoleName(name) <==> name != ""
  {
    store := new Store(pw => |pw| >= 5, u => true, name => name != "");
  }

  /** On an empty store, provisioning "a@b.com" as Admin creates the account,
      creates the role and assigns it. */
  method ProvisionOnEmptyStore() returns (r: IdentityResult, accounts: nat, isAdmin: bool)
    ensures r == Success && accounts == 1 && isAdmin
  {
    var store := NewStore();
    var manager := new UserRoleManager(store);
    r := manager.AddUserToRole("a@b.com", "secret", "Admin", 1);
    accounts := |store.users|;
    isAdmin := (1, "Admin") in store.members;
  }

  /** The ignored role creation matters: with a role name the validator
      rejects, the account is created, the role is not, and the assignment
      fails on the missing role. */
  method RejectedRoleNameIsNotAssigned() returns (r: IdentityResult, accounts: nat, roles: nat)
    ensures r == Failure(RoleNotFound) && accounts == 1 && roles == 0
  {
    var store := NewStore();
    var manager := new UserRoleManager(store);
    r := manager.AddUserToRole("a@b.com", "secret", "", 1);
    accounts := |store.users|;
    roles := |store.roles|;
  }

  /** A store in which "a@b.com" has been provisioned as Manager: one
      account with id 1, one role, one membership. */
  method ProvisionedManager() returns (store: Store, manager: UserRoleManager, r: IdentityResult)
    ensures fresh(store) && store.Valid() && manager.store == store
    ensures r == Success
    ensures store.users == [User(1, "a@b.com", "a@b.com")]
    ensures store.roles == {"Manager"} && store.members == {(1, "Manager")}
    ensures forall name :: store.acceptsRoleName(name) <==> name != ""
  {
    store := NewStore();
    manager := new UserRoleManager(store);
    r := manager.AddUserToRole("a@b.com", "secret", "Manager", 1);
  }

  /** As written: an account that already exists is NOT added to a second
      role. The constructed record (a new id) is assigned instead of the
      account found; its user name belongs to that account, so the update is
      rejected. No duplicate account is created. */
  method ExistingAccountIsNotAssigned() returns (first: IdentityResult, second: IdentityResult,
                                                 accounts: nat, isAdmin: bool)
    ensures first == Success && second == Failure(DuplicateUserName)
    ensures accounts == 1 && !isAdmin
  {
    var store, manager;
    store, manager, first := ProvisionedManager();
    var owner := User(1, "a@b.com", "a@b.com");
    assert Lookup(store.users, "a@b.com") == Some(owner);
    label BeforeSecond:
    second := manager.AddUserToRole("a@b.com", "secret", "Admin", 2);
    assert owner in old@BeforeSecond(store.users);
    assert "Admin" in RolesAfterCreate({"Manager"}, "Admin", store.acceptsRoleName);
    assert second == AddToRoleOutcome([owner], {"Manager", "Admin"}, {(1, "Manager")}, NewAccount("a@b.com", 2), "Admin");
    accounts := |store.users|;
    isAdmin := (1, "Admin") in store.members;
  }

  /** As intended: the same two calls put the existing account in the second
      role, still without a duplicate account. */
  method ExistingAccountIsAssigned() returns (first: IdentityResult, second: IdentityResult,
                                              accounts: nat, isAdmin: bool)
    ensures first == Success && second == Success
    ensures accounts == 1 && isAdmin
  {
    var store := NewStore();
    var manager := new UserRoleManager(store);
    first := manager.AddUserToRoleAssigningAccount("a@b.com", "secret", "Manager", 1);
    second := manager.AddUserToRoleAssigningAccount("a@b.com", "secret", "Admin", 2);
    accounts := |store.users|;
    isAdmin := (1, "Admin") in store.members;
  }

  /** A claim for an account that does not exist: the store call is made on
      the absent account and fails, and no claim is stored. */
  method ClaimForMissingAccount() returns (r: IdentityResult, storedClaims: nat)
    ensures r == Failure(NullUser) && storedClaims == 0
  {
    var store := NewStore();
    var manager := new UserRoleManager(store);
    r := manager.AddClaimToUser("missing@x.com", Issue(CountryClaimType, "Canada"));
    storedClaims := |store.userClaims|;
  }
}
