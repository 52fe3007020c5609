# MyMVA authorization and identity provisioning, in Dafny

This project models the two pieces of logic in the MyMVA web application:

- **The "Canadian or Admin" requirement handler** (`CanadianRequirement`). It looks at an
  authenticated principal, meaning a set of role names and a sequence of claims. It signals
  success when the principal is in role `Admin`, or when some claim has the Country claim type
  as its VALUE TYPE and the value `"Canada"`. Otherwise it leaves the authorization context
  undecided. It never signals failure. The model is the pure function
  `CanadianRequirement.HandleRequirement`, which returns `Succeed` or `NoDecision`. Because the
  handler is a function, it cannot change the principal or the requirement, and its only effect
  is its result. The claim test follows the code as written: it compares the claim's `valueType`
  field, not its `claimType`.
- **Identity provisioning** (`UserRoleManager`), modelled as the class
  `UserRoleManagement.UserRoleManager`. It has three operations, each a short ordered sequence of
  calls on an identity store:
  - `CreateRole` creates a role with no existence check first.
  - `AddUserToRole` classifies the identifier as an e-mail iff it contains `'@'`, looks it up by
    e-mail or by user name, and creates the account if it is missing. If that creation fails, it
    returns the failure at once. Otherwise it creates the role, ignoring the result, and then
    assigns the record it constructed at the start to the role.
  - `AddClaimToUser` looks the identifier up and adds the claim to whatever the lookup returned,
    even when no account was found.

The identity store is the Identity library's user manager and role manager. Its code is not
part of this repository. `IdentityStore.Store` is a class holding:
- the accounts (each with an id, a user name and an e-mail);
- the role names;
- the membership relation;
- the claims relation;
- a ghost trace of the calls made on it.

Its behaviour is an **assumption, not verified code**:
- Lookups compare keys exactly.
- Creating an account fails on a rejected password, on an account the library's validator
  rejects, or on a user name, e-mail or id already taken. E-mails are unique because the
  application sets `RequireUniqueEmail`.
- Creating a role fails on a name the role validator rejects (the scenarios' validator rejects
  the empty name) or on a name already taken.
- Assigning a role checks, in this order:
  - an existing membership (`UserAlreadyInRole`);
  - a missing role (`RoleNotFound`, standing for the exception the role store throws);
  - the update of the record: its user name and e-mail must not belong to another account
    (`DuplicateUserName`, `DuplicateEmail`), and it must have a stored row (`ConcurrencyFailure`).
- Adding a claim to an absent account fails.
- A failed call reports one error, the first the library would report.
- Password acceptance, the account validator and the role validator are abstract
  function-valued fields of the store.

The store keeps an invariant, `Store.Valid()`: keys are unique, and memberships and claims refer
to stored accounts. Every store method and every provisioning method preserves it. Each
provisioning method's postconditions state:
- the exact sequence of store calls it made (`store.trace`);
- the new content of the store;
- what it returned, for every path.

Two facts about the code shape the model:
- The claim test compares the claim's `ValueType` with the Country claim type
  (MyMVA/Requirements/CanadianRequirement.cs:33), not its `Type`.
- `AddClaimToUserAsync` has no null check between the lookup and `AddClaimAsync`
  (MyMVA/Data/UserRoleManager.cs:149-156). An absent lookup result goes to the store, which fails.

## Model

| member | source | states |
|---|---|---|
| `CanadianRequirement.HandleRequirement` | MyMVA/Requirements/CanadianRequirement.cs:29-38 | Succeeds iff the principal is in role "Admin" or some claim has value type equal to the Country claim type and value exactly "Canada". When neither holds, the result is NoDecision; there is no failure outcome |
| `CanadianRequirement.HasClaim` | MyMVA/Requirements/CanadianRequirement.cs:33 | The claim scan `HasClaim(match)` is true iff some claim in the sequence satisfies the match predicate; it is existential, so position does not matter |
| `CanadianRequirement.AdminSucceedsWhateverClaims` | MyMVA/Requirements/CanadianRequirement.cs:32 | A principal in role Admin succeeds whatever claims it carries, including none |
| `CanadianRequirement.OneCanadianClaimSuffices` | MyMVA/Requirements/CanadianRequirement.cs:33 | One matching claim at any position suffices, whatever claims come before or after it |
| `CanadianRequirement.ClaimOrderIsIrrelevant` | MyMVA/Requirements/CanadianRequirement.cs:33 | Principals whose claims are permutations of each other get the same decision |
| `CanadianRequirement.CountryTypedClaimIsNotEnough` | MyMVA/Requirements/CanadianRequirement.cs:33 | A non-Admin whose only claim has type Country and value "Canada" but another value type gets NoDecision |
| `CanadianRequirement.ValueTypeDecides` | MyMVA/Requirements/CanadianRequirement.cs:33 | A claim of any type with value "Canada" and the Country value type makes the handler succeed |
| `CanadianRequirement.ValueMustBeExactlyCanada` | MyMVA/Requirements/CanadianRequirement.cs:33 | For a non-Admin with one Country-value-typed claim, success iff the value equals "Canada" exactly; "canada" and "Canada " give NoDecision |
| `CanadianRequirement.MoreRolesAndClaimsKeepSuccess` | MyMVA/Requirements/CanadianRequirement.cs:32-33 | Adding roles or claims to a principal that succeeds keeps it succeeding |
| `CanadianRequirement.IssuedCountryClaimIsIgnored` | MyMVA/Requirements/CanadianRequirement.cs:33 | If every claim carries the default string value type, as `new Claim(type, value)` gives, the handler succeeds iff the principal is an Admin. So the Country claim "Canada" issued that way is never recognised |
| `CanadianRequirement.HandleRequirementByClaimType` | MyMVA/Requirements/CanadianRequirement.cs:32-33 | Corrected decision: succeeds iff Admin or some claim has TYPE Country and value "Canada" |
| `CanadianRequirement.IssuedCountryClaimAdmitsByClaimType` | MyMVA/Requirements/CanadianRequirement.cs:33 | Under the corrected test, the issued Country claim "Canada" admits the principal at any position |
| `CanadianRequirement.ByClaimTypeAgreesWhenTypesCoincide` | MyMVA/Requirements/CanadianRequirement.cs:33 | The corrected and as-written decisions agree whenever no claim's type and value type disagree about being Country |
| `IdentityStore.Find` | MyMVA/Data/UserRoleManager.cs:108-110 | A lookup returns a stored account whose key equals the one asked for. It returns none iff no stored account has that key |
| `IdentityStore.FindIsUnique` | MyMVA/Data/UserRoleManager.cs:108-110 | When keys are unique, the lookup by an account's key returns exactly that account |
| `IdentityStore.CreateUserOutcome` | MyMVA/Data/UserRoleManager.cs:115 | Assumed library behaviour: account creation succeeds iff the password and the account are accepted and no stored account shares its user name, e-mail or id. A rejected password is reported as such |
| `IdentityStore.CreateRoleOutcome` | MyMVA/Data/UserRoleManager.cs:80 | Assumed library behaviour: role creation succeeds iff the role validator accepts the name and the name is new. A rejected name gives InvalidRoleName; an accepted name already taken gives DuplicateRoleName |
| `IdentityStore.RolesAfterCreate` | MyMVA/Data/UserRoleManager.cs:80 | A role creation only ever adds the name asked for. Afterwards the name is a role iff it was one already or the validator accepts it |
| `IdentityStore.AddToRoleOutcome` | MyMVA/Data/UserRoleManager.cs:127 | Assumed library behaviour: assignment succeeds iff the membership is new, the role exists, no other account holds the record's user name or e-mail, and the record's id is stored. A new membership in a missing role gives RoleNotFound. A record that is not stored never succeeds |
| `IdentityStore.StoredAccountOwnsItsKeys` | MyMVA/Data/UserRoleManager.cs:115-127 | In a store with unique keys, no account other than a stored one holds its user name or e-mail |
| `IdentityStore.StoredAccountAssignment` | MyMVA/Data/UserRoleManager.cs:127 | Assigning a stored account fails only on an existing membership (UserAlreadyInRole) or a missing role (RoleNotFound), and succeeds otherwise |
| `IdentityStore.AddClaimOutcome` | MyMVA/Data/UserRoleManager.cs:156 | Assumed library behaviour: adding a claim succeeds iff the target is present and stored; an absent target fails with NullUser |
| `IdentityStore.AddingFreshAccountKeepsKeysUnique` | MyMVA/Data/UserRoleManager.cs:115 | Appending an account none of whose keys is taken keeps all keys unique |
| `IdentityStore.Store.FindByEmail` | MyMVA/Data/UserRoleManager.cs:108 | Returns the account with that e-mail, or none; records the call; changes nothing else |
| `IdentityStore.Store.FindByName` | MyMVA/Data/UserRoleManager.cs:110 | Returns the account with that user name, or none; records the call; changes nothing else |
| `IdentityStore.Store.CreateUser` | MyMVA/Data/UserRoleManager.cs:115 | Keeps the store invariant. Appends the account exactly when creation succeeds, leaves roles, memberships and claims alone, and records the call |
| `IdentityStore.Store.CreateRole` | MyMVA/Data/UserRoleManager.cs:80 | Keeps the store invariant. Returns the creation outcome. The role set gains the name exactly when creation succeeds, so an existing role stays and a rejected name adds nothing. Records the call |
| `IdentityStore.Store.AddToRole` | MyMVA/Data/UserRoleManager.cs:127 | Keeps the store invariant. Adds the membership exactly when assignment succeeds and records the call |
| `IdentityStore.Store.AddClaim` | MyMVA/Data/UserRoleManager.cs:156 | Keeps the store invariant. Appends the claim for the target exactly on success and records the call |
| `UserRoleManagement.LookupFollowsClassification` | MyMVA/Data/UserRoleManager.cs:105-110 | Identifiers with '@' are looked up by e-mail and the others by user name ("admin" by name, "admin@site.com" by e-mail). The same classification serves both operations |
| `UserRoleManagement.CreatedAccountIsFound` | MyMVA/Data/UserRoleManager.cs:98-115 | After the constructed account is stored, looking up the identifier finds exactly that account |
| `UserRoleManagement.UserRoleManager.CreateRole` | MyMVA/Data/UserRoleManager.cs:64-82 | Exactly one store call, a role creation with exactly `name` and no pre-check. Returns the store's result unchanged. The role set gains `name` exactly when the validator accepts it and it is new; nothing else changes |
| `UserRoleManagement.UserRoleManager.AddUserToRole` | MyMVA/Data/UserRoleManager.cs:91-129 | Lookup first, by the '@' classification. If no account is found, the record (identifier as user name and e-mail, a fresh id) is created once with the password. If that fails, its result is returned and the store is unchanged, with no role created or assigned. Otherwise, and always when an account was found (no creation then), the role is created and its result ignored. Then the CONSTRUCTED record is assigned and the assignment's result returned. A new account gets the role iff the role exists afterwards, and RoleNotFound otherwise. When an account was found, the result is never Success and no membership changes |
| `UserRoleManagement.UserRoleManager.CreateRoleAndAssign` | MyMVA/Data/UserRoleManager.cs:122-127 | The role creation and then the assignment, in that order. The roles are those after the creation, the result is the assignment's outcome on them, and the membership is added exactly on success. A stored account fails only on an existing membership or a missing role |
| `UserRoleManagement.UserRoleManager.AddClaimToUser` | MyMVA/Data/UserRoleManager.cs:138-158 | Calls are exactly the lookup, then one claim addition on the lookup result, absent included. It fails with NullUser iff no account was found and never creates accounts, roles or memberships |
| `UserRoleManagement.UserRoleManager.AddUserToRoleAssigningAccount` | MyMVA/Data/UserRoleManager.cs:122-127 | Corrected provisioning: the same calls in the same order, but an existing account is assigned as itself. The result is UserAlreadyInRole if it already was a member, RoleNotFound if the role does not exist after the creation, and Success otherwise. On success exactly that one membership is added. Accounts and claims are as in AddUserToRole. Whenever an account exists or is created and the role exists, the account the identifier finds ends up in the role |
| `UserRoleManagement.ProvisionOnEmptyStore` | MyMVA/Data/UserRoleManager.cs:98-127 | On an empty store, provisioning "a@b.com" as Admin succeeds, creates one account and makes it a member of Admin |
| `UserRoleManagement.RejectedRoleNameIsNotAssigned` | MyMVA/Data/UserRoleManager.cs:115-127 | When the role validator rejects the name, the account is created but no role is, and the ignored creation failure surfaces as RoleNotFound from the assignment |
| `UserRoleManagement.ExistingAccountIsNotAssigned` | MyMVA/Data/UserRoleManager.cs:127 | As written, provisioning an existing account into a second role fails with DuplicateUserName, because the constructed record's user name belongs to the stored account. The account does not get the role, and no duplicate account is created |
| `UserRoleManagement.ExistingAccountIsAssigned` | MyMVA/Data/UserRoleManager.cs:127 | With the correction, the same two calls both succeed and the one account is in the second role |
| `UserRoleManagement.ClaimForMissingAccount` | MyMVA/Data/UserRoleManager.cs:149-156 | Adding a claim for a missing account fails with NullUser and stores no claim |

## Findings

| source | as written | input that shows it | evidently intended | confidence | as-written member | corrected member |
|---|---|---|---|---|---|---|
| MyMVA/Requirements/CanadianRequirement.cs:33 | compares `claim.ValueType` with `ClaimTypes.Country` | a non-Admin principal carrying `new Claim(ClaimTypes.Country, "Canada")`, the claim MyMVA/Startup.cs:182 issues; its value type is the XML-schema string type, so the handler makes no decision | compare `claim.Type`, as the CanadiansOnly policy at MyMVA/Startup.cs:89 does | high; not executed | `CanadianRequirement.IssuedCountryClaimIsIgnored` | `CanadianRequirement.HandleRequirementByClaimType` |
| MyMVA/Data/UserRoleManager.cs:127 | assigns `userToCreate` to the role even when the lookup found an account | `AddUserToRole("a@b.com", "secret", "Manager")` then `AddUserToRole("a@b.com", "secret", "Admin")`: the second call assigns a record with a new id, which is not the stored account. Its user name belongs to the stored account, so the update fails with DuplicateUserName and the account is not in Admin. For every found account and every fresh id, the result is never Success | assign the account the lookup found | high that the account is not assigned; the error reported rests on the assumed library behaviour; not executed | `UserRoleManagement.ExistingAccountIsNotAssigned` | `UserRoleManagement.UserRoleManager.AddUserToRoleAssigningAccount` |

## Left out

- Asynchrony (`async`/`Task`), the service scopes and their disposal, dependency-injection lookup and logging are not modelled. That includes the "Successfully added" messages, which are written before the outcome is known. None of them affects the results.
- The Identity library itself is represented only by the assumed store semantics above. Its persistence, password hashing, security stamps, normalised (upper-cased) lookup keys and concrete validators are not modelled; the validators are abstract fields.
- Exceptions the library throws become failure values: `NullUser` stands for the null-argument exception, and `RoleNotFound` for a missing role in the role store.
- The fresh GUID a new `IdentityUser` record receives is the `freshId` parameter. Role ids and the other account fields are not modelled, since roles are identified by name.
- A principal with several identities is flattened into one role set and one claim sequence. Role membership is tested by name.
- The CanadiansOnly policy is evaluated by the framework's claim requirement, not by repository code. It is left out, apart from serving as the reference for the intended claim test.
- Application start-up (service registration, cookie, OAuth, MVC and database configuration), the repeat tag helper and the privacy page's policy attribute are configuration and rendering, with no logic of their own.
- Concurrent provisioning calls for the same identifier are not modelled. Rejecting duplicates from such races is the store's responsibility.
- IdentityStore.AddToRoleOutcome: a failure carries one error, the first the library would report, not the library's full list. The account validator's re-run on update (allowed characters, e-mail form) is not modelled; only its uniqueness checks are.
- IdentityStore.CreateUserOutcome: a failure carries one error, the first the library would report, not the library's full list of password and account errors.
