/** The identity store the provisioning code talks to (the Identity library's
    user manager and role manager over their database).

    Its code is not part of this repository: everything in this module is an
    ASSUMED model of that library's observable behaviour, not verified code.
    The assumptions are: lookups by e-mail and by user name compare exactly;
    creating an account fails on a rejected password, on an account the
    library's validator rejects, or on a user name, e-mail or id already
    taken; creating a role fails on a name the role validator rejects or on
    a name already taken; assigning a role fails on an existing membership,
    on a missing role, on a record whose user name or e-mail belongs to
    another account, or on a record that is not stored; adding a claim to an
    absent account fails. Password acceptance and the two validators are
    left abstract as function-valued fields. A result carries one error,
    the first the library would report. */
module IdentityStore {
  import opened Claims

  datatype Option<T> = None | Some(value: T)

  /** The id an account gets when its record is constructed (a fresh GUID). */
  type UserId = nat

  /** An account record: id, user name and e-mail. */
  datatype User = User(id: UserId, userName: string, email: string)

  /** Which key a lookup uses. */
  datatype LookupKey = ByEmail | ByUserName

  /** The outcome the library reports for a mutating call. */
  datatype IdentityError =
    | PasswordRejected
    | InvalidUser
    | DuplicateUserName
    | DuplicateEmail
    | DuplicateUserId
    | DuplicateRoleName
    | InvalidRoleName
    | RoleNotFound        // the exception the role store raises for a missing role
    | ConcurrencyFailure  // the update of a record that has no stored row
    | UserAlreadyInRole
    | NullUser  // the argument-null exception of a call on an absent account

  datatype IdentityResult = Success | Failure(error: IdentityError)

  /** One call made on the store, as recorded in its trace. */
  datatype StoreCall =
    | FindByEmailCall(email: string)
    | FindByNameCall(userName: string)
    | CreateUserCall(user: User, password: string)
    | CreateRoleCall(roleName: string)
    | AddToRoleCall(user: User, roleName: string)
    | AddClaimCall(target: Option<User>, claim: Claim)

  function KeyOf(u: User, key: LookupKey): string {
    if key == ByEmail then u.email else u.userName
  }

  function Ids(users: seq<User>): set<UserId> {
    set u | u in users :: u.id
  }

  /** No two accounts share an id, a user name or an e-mail. */
  ghost predicate UniqueAccounts(users: seq<User>) {
    forall i, j :: 0 <= i < j < |users| ==>
      users[i].id != users[j].id &&
      users[i].userName != users[j].userName &&
      users[i].email != users[j].email
  }

  /** `FindByEmailAsync` / `FindByNameAsync`: the account whose key is
      `value`, or none. */
  function Find(users: seq<User>, key: LookupKey, value: string): (r: Option<User>)
    ensures r.Some? ==> r.value in users && KeyOf(r.value, key) == value
    ensures r.None? <==> forall u :: u in users ==> KeyOf(u, key) != value
  {
    if users == [] then None
    else if KeyOf(users[0], key) == value then Some(users[0])
    else Find(users[1..], key, value)
  }

  /** When keys are unique, a lookup finds the one account with that key. */
  lemma FindIsUnique(users: seq<User>, key: LookupKey, u: User)
    requires UniqueAccounts(users)
    requires u in users
    ensures Find(users, key, KeyOf(u, key)) == Some(u)
  {
  }

  /** Outcome of `UserManager.CreateAsync(user, password)`: the password is
      checked first, then the account, then the uniqueness of its keys. */
  function CreateUserOutcome(users: seq<User>, u: User, password: string,
                             acceptsPassword: string -> bool, acceptsUser: User -> bool): (r: IdentityResult)
    ensures r == Success <==>
              acceptsPassword(password) && acceptsUser(u) &&
              forall v :: v in users ==> v.userName != u.userName && v.email != u.email && v.id != u.id
    ensures !acceptsPassword(password) ==> r == Failure(PasswordRejected)
  {
    if !acceptsPassword(password) then Failure(PasswordRejected)
    else if !acceptsUser(u) then Failure(InvalidUser)
    else if Find(users, ByUserName, u.userName).Some? then Failure(DuplicateUserName)
    else if Find(users, ByEmail, u.email).Some? then Failure(DuplicateEmail)
    else if u.id in Ids(users) then Failure(DuplicateUserId)
    else Success
  }

  /** Outcome of `RoleManager.CreateAsync(role)`: the role validator first
      (it rejects, for one, a null or blank name), then uniqueness. */
  function CreateRoleOutcome(roles: set<string>, name: string, acceptsRoleName: string -> bool): (r: IdentityResult)
    ensures r == Success <==> acceptsRoleName(name) && name !in roles
    ensures !acceptsRoleName(name) ==> r == Failure(InvalidRoleName)
    ensures acceptsRoleName(name) && name in roles ==> r == Failure(DuplicateRoleName)
  {
    if !acceptsRoleName(name) then Failure(InvalidRoleName)
    else if name in roles then Failure(DuplicateRoleName)
    else Success
  }

  /** The role names after a role creation, whatever its outcome. */
  function RolesAfterCreate(roles: set<string>, name: string, acceptsRoleName: string -> bool): (r: set<string>)
    ensures roles <= r <= roles + {name}
    ensures name in r <==> name in roles || acceptsRoleName(name)
  {
    if CreateRoleOutcome(roles, name, acceptsRoleName) == Success then roles + {name} else roles
  }

  /** No account other than `u` (by id) holds `u`'s user name or e-mail. */
  ghost predicate KeysOwnedBy(users: seq<User>, u: User) {
    forall v :: v in users && v.id != u.id ==> v.userName != u.userName && v.email != u.email
  }

  /** Outcome of `UserManager.AddToRoleAsync(user, role)`. The membership
      test comes first, then the role store's lookup of the role; then the
      membership is added and the record is updated, which re-validates it
      (its user name and e-mail must not belong to another account) and
      fails when the record has no stored row. */
  function AddToRoleOutcome(users: seq<User>, roles: set<string>, members: set<(UserId, string)>,
                            u: User, role: string): (r: IdentityResult)
    ensures r == Success <==>
              (u.id, role) !in members && role in roles && KeysOwnedBy(users, u) && u.id in Ids(users)
    ensures (u.id, role) !in members && role !in roles ==> r == Failure(RoleNotFound)
    ensures (u.id, role) !in members && role in roles && u.id !in Ids(users) ==> r != Success
  {
    if (u.id, role) in members then Failure(UserAlreadyInRole)
    else if role !in roles then Failure(RoleNotFound)
    else if exists v :: v in users && v.id != u.id && v.userName == u.userName then Failure(DuplicateUserName)
    else if exists v :: v in users && v.id != u.id && v.email == u.email then Failure(DuplicateEmail)
    else if u.id !in Ids(users) then Failure(ConcurrencyFailure)
    else Success
  }

  /** Outcome of `UserManager.AddClaimAsync(user, claim)`: an absent account
      is refused, and a record without a stored row fails its update. */
  function AddClaimOutcome(users: seq<User>, target: Option<User>): (r: IdentityResult)
    ensures r == Success <==> target.Some? && target.value.id in Ids(users)
    ensures target.None? ==> r == Failure(NullUser)
  {
    if target.None? then Failure(NullUser)
    else if target.value.id !in Ids(users) then Failure(ConcurrencyFailure)
    else Success
  }

  /** In a store with unique keys, a stored account owns its own user name
      and e-mail. */
  lemma StoredAccountOwnsItsKeys(users: seq<User>, u: User)
    requires UniqueAccounts(users)
    requires u in users
    ensures KeysOwnedBy(users, u)
  {
    forall v | v in users && v.id != u.id
      ensures v.userName != u.userName && v.email != u.email
    {
      var i :| 0 <= i < |users| && users[i] == v;
      var j :| 0 <= j < |users| && users[j] == u;
      if i < j {} else {}
    }
  }

  /** Assigning a stored account in a store with unique keys fails only on an
      existing membership or a missing role. */
  lemma StoredAccountAssignment(users: seq<User>, roles: set<string>, members: set<(UserId, string)>,
                                u: User, role: string)
    requires UniqueAccounts(users)
    requires u in users
    ensures AddToRoleOutcome(users, roles, members, u, role) ==
              if (u.id, role) in members then Failure(UserAlreadyInRole)
              else if role !in roles then Failure(RoleNotFound)
              else Success
  {
  }

  /** Appending an account none of whose keys is taken keeps keys unique. */
  lemma AddingFreshAccountKeepsKeysUnique(users: seq<User>, u: User)
    requires UniqueAccounts(users)
    requires forall v :: v in users ==> v.userName != u.userName && v.email != u.email && v.id != u.id
    ensures UniqueAccounts(users + [u])
  {
  }

  /** The whole content of the store, as one value. */
  datatype Content = Content(users: seq<User>, roles: set<string>,
                             members: set<(UserId, string)>, claims: seq<(UserId, Claim)>)

  /** The store: accounts, role names, the membership relation and the claims
      relation, plus a trace of the calls made on it. */
  class Store {
    var users: seq<User>
    var roles: set<string>
    var members: set<(UserId, string)>
    var userClaims: seq<(UserId, Claim)>
    /** Every call made on this store, oldest first. */
    ghost var trace: seq<StoreCall>

    /** The library's password validator under the configured options. */
    const acceptsPassword: string -> bool
    /** The library's account validator (allowed characters, e-mail form). */
    const acceptsUser: User -> bool
    /** The library's role validator (it rejects, for one, a blank name). */
    const acceptsRoleName: string -> bool

    ghost predicate Valid()
      reads this
    {
      && UniqueAccounts(users)
      && (forall m :: m in members ==> m.0 in Ids(users) && m.1 in roles)
      && (forall i :: 0 <= i < |userClaims| ==> userClaims[i].0 in Ids(users))
    }

    function Snapshot(): Content
      reads this
    {
      Content(users, roles, members, userClaims)
    }

    constructor (acceptsPassword: string -> bool, acceptsUser: User -> bool, acceptsRoleName: string -> bool)
      ensures Valid()
      ensures Snapshot() == Content([], {}, {}, []) && trace == []
      ensures this.acceptsPassword == acceptsPassword && this.acceptsUser == acceptsUser
      ensures this.acceptsRoleName == acceptsRoleName
    {
      users, roles, members, userClaims := [], {}, {}, [];
      trace := [];
      this.acceptsPassword := acceptsPassword;
      this.acceptsUser := acceptsUser;
      this.acceptsRoleName := acceptsRoleName;
    }

    method FindByEmail(email: string) returns (r: Option<User>)
      modifies this`trace
      ensures r == Find(users, ByEmail, email)
      ensures trace == old(trace) + [FindByEmailCall(email)]
    {
      r := Find(users, ByEmail, email);
      trace := trace + [FindByEmailCall(email)];
    }

    method FindByName(userName: string) returns (r: Option<User>)
      modifies this`trace
      ensures r == Find(users, ByUserName, userName)
      ensures trace == old(trace) + [FindByNameCall(userName)]
    {
      r := Find(users, ByUserName, userName);
      trace := trace + [FindByNameCall(userName)];
    }

    method CreateUser(u: User, password: string) returns (r: IdentityResult)
      requires Valid()
      modifies this
      ensures Valid()
      ensures r == CreateUserOutcome(old(users), u, password, acceptsPassword, acceptsUser)
      ensures users == if r == Success then old(users) + [u] else old(users)
      ensures roles == old(roles) && members == old(members) && userClaims == old(userClaims)
      ensures trace == old(trace) + [CreateUserCall(u, password)]
    {
      r := CreateUserOutcome(users, u, password, acceptsPassword, acceptsUser);
      if r == Success {
        AddingFreshAccountKeepsKeysUnique(users, u);
        users := users + [u];
      }
      trace := trace + [CreateUserCall(u, password)];
    }

    method CreateRole(name: string) returns (r: IdentityResult)
      requires Valid()
      modifies this
      ensures Valid()
      ensures r == CreateRoleOutcome(old(roles), name, acceptsRoleName)
      ensures roles == if r == Success then old(roles) + {name} else old(roles)
      ensures roles == RolesAfterCreate(old(roles), name, acceptsRoleName)
      ensures users == old(users) && members == old(members) && userClaims == old(userClaims)
      ensures trace == old(trace) + [CreateRoleCall(name)]
    {
      r := CreateRoleOutcome(roles, name, acceptsRoleName);
      if r == Success {
        roles := roles + {name};
      }
      trace := trace + [CreateRoleCall(name)];
    }

    method AddToRole(u: User, role: string) returns (r: IdentityResult)
      requires Valid()
      modifies this
      ensures Valid()
      ensures r == AddToRoleOutcome(old(users), old(roles), old(members), u, role)
      ensures members == if r == Success then old(members) + {(u.id, role)} else old(members)
      ensures users == old(users) && roles == old(roles) && userClaims == old(userClaims)
      ensures trace == old(trace) + [AddToRoleCall(u, role)]
    {
      r := AddToRoleOutcome(users, roles, members, u, role);
      if r == Success {
        members := members + {(u.id, role)};
      }
      trace := trace + [AddToRoleCall(u, role)];
    }

    method AddClaim(target: Option<User>, claim: Claim) returns (r: IdentityResult)
      requires Valid()
      modifies this
      ensures Valid()
      ensures r == AddClaimOutcome(old(users), target)
      ensures userClaims == if r == Success then old(userClaims) + [(target.value.id, claim)] else old(userClaims)
      ensures users == old(users) && roles == old(roles) && members == old(members)
      ensures trace == old(trace) + [AddClaimCall(target, claim)]
    {
      r := AddClaimOutcome(users, target);
      if r == Success {
        userClaims := userClaims + [(target.value.id, claim)];
      }
      trace := trace + [AddClaimCall(target, claim)];
    }
  }
}
