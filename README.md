# In-memory identity and access-control store, in Dafny

This project models the core of a small Go library that keeps user
accounts, roles, user-to-role memberships and short-lived authentication
tokens in memory, and answers "does this token currently grant role R?".

- `config.dfy` (module `Config`): the seven error sentinels as the datatype
  `Error`, Go's nil-or-error result as `Status`, and the two configured token
  lifetimes in nanoseconds.
- `db_model.dfy` (module `DbModel`): the four stores of `dbModel/dbModel.go`.
  Each store is a class. Its Go maps are `map` fields that the methods reassign.
  - `UserModel` and `RoleModel` keep records keyed by name.
  - `UserRoleModel` maps a user name to a set of role names.
  - `AuthTokenModel` keeps two indexes: `token` (by token value) and `name` (by owner).
  - Every mutator states exactly which keys change, and what its error is.
- `user_service.dfy` (module `UserService`): the `user.User` orchestration
  type of `user/user.go` as the class `Service`. Its `Valid()` invariant
  (`Consistent`) covers three things:
  - the stores are linked;
  - each store keeps its own invariant;
  - referential integrity: every membership names an existing user and role,
    and every by-owner token names an existing user.
  Every mutating operation preserves `Valid()`. `CheckRole` and the shared
  token check `TokenStatus` are functions of the current state. `AllRoles` is
  a method, because listing the roles is a loop.
- `scenarios.dfy` (module `Scenarios`): the scenarios of `user_test.go`, run
  against fresh stores as verified client methods. Each method's
  postcondition lists the results the test expects.

Outside inputs are parameters:
- The current time (`time.Now().Unix()`) is the parameter `now`.
- The generated token value is the parameter `freshToken`.
- The SHA-1 digest is the function-valued field `Service.hash`. Nothing is
  assumed about it; in particular it is not assumed to be injective.

Where the code and its intended design disagree, the model follows the
code, except for the two inverted checks listed under "## Findings":
- Re-authenticating a user does not remove the user's previous token from
  the by-token index (dbModel/dbModel.go:127-128). The old token keeps
  authorizing, even after its owner is deleted (`Scenarios.Reauthenticate`).
  So "at most one live token per user" does not hold. The invariant that does
  hold is one-directional: every by-owner entry belongs to that owner and is
  mirrored in the by-token index (`AuthTokenModel.Valid`).
- Removing a token by owner name fails with `ErrorToken` when the owner has
  no token (dbModel/dbModel.go:171-175). The source does not treat it as a
  no-op. `DeleteUser` discards that error.
- There is no token-conflict error: the source never checks whether a token
  value is already in use.

## Model

| member | source | states |
|---|---|---|
| `DbModel.InitUser` | dbModel/dbModel.go:40-53 | four fresh, empty stores; the membership and token stores point at the new user and role stores |
| `DbModel.UserModel.GetUser` | dbModel/dbModel.go:58-61 | found exactly when the name is a key; the record found carries that name |
| `DbModel.RoleModel.GetRole` | dbModel/dbModel.go:66-69 | found exactly when the name is a key; the record found carries that name |
| `DbModel.AuthTokenModel.GetToken` | dbModel/dbModel.go:74-77 | found exactly when the value is in the by-token index; the token found carries that value |
| `DbModel.UserRoleModel.CheckUserRoles` | dbModel/dbModel.go:82-85 | true exactly when the role is in the user's set; false for a user with no entry, with no existence check |
| `DbModel.UserRoleModel.GetAllRolesByUserName` | dbModel/dbModel.go:90-96 | the result holds each of the user's roles exactly once (same multiset, no duplicates); empty for an unknown user |
| `DbModel.UserModel.AddUser` | dbModel/dbModel.go:101-107 | a taken name gives ErrorUserExist and no change; otherwise exactly that name is mapped to the record and a lookup then finds it |
| `DbModel.RoleModel.AddRole` | dbModel/dbModel.go:112-118 | a taken name gives ErrorRoleExist and no change; otherwise exactly that name is mapped to the record and a lookup then finds it |
| `DbModel.AuthTokenModel.AddAuthToken` | dbModel/dbModel.go:123-130 | a missing owner gives ErrorToken and no change; otherwise the token is stored under its value and under its owner, and the mirroring invariant is kept |
| `DbModel.UserRoleModel.AddUserRole` | dbModel/dbModel.go:135-144 | a missing user gives ErrorUserNotExist; a present user with a missing role gives ErrorRoleNotExist; otherwise the role joins that user's set only; re-adding changes nothing |
| `DbModel.UserModel.DeleteUser` | dbModel/dbModel.go:149-155 | an absent name gives ErrorUserNotExist and no change; otherwise exactly that key is removed |
| `DbModel.RoleModel.DeleteRole` | dbModel/dbModel.go:160-166 | an absent name gives ErrorRoleNotExist and no change; otherwise exactly that key is removed |
| `DbModel.AuthTokenModel.DeleteAuthTokenByName` | dbModel/dbModel.go:171-179 | an owner with no token gives ErrorToken and no change; otherwise the owner entry and the token it points to are removed, keeping the mirroring invariant |
| `DbModel.AuthTokenModel.DeleteAuthTokenToken` | dbModel/dbModel.go:184-192 | an unknown token gives ErrorToken and no change; otherwise the token and its owner's entry are removed, keeping the mirroring invariant |
| `DbModel.UserRoleModel.DeleteURUser` | dbModel/dbModel.go:197-199 | never fails; the user has no roles afterwards and every other user's set is unchanged |
| `DbModel.UserRoleModel.DeleteURRole` | dbModel/dbModel.go:204-208 | the loop removes the role from every user's set; the set of users with an entry and all other memberships are unchanged |
| `DbModel.AddUserRoleAsWritten` | dbModel/dbModel.go:135-144 | the inverted checks as written: success would need both the user and the role to be missing, and with no inner maps it can never succeed |
| `DbModel.AddUserRoleAsWrittenReportsFoundUser` | dbModel/dbModel.go:136-141 | for an existing user1 and a missing role, the code as written reports ErrorUserNotExist, while user_test.go:151-152 expects ErrorRoleNotExist |
| `DbModel.AddAuthTokenAsWritten` | dbModel/dbModel.go:123-130 | the inverted owner check as written never stores a token: a found owner gives ErrorToken, a missing one reaches the write to the never-created `Name` map |
| `DbModel.AuthenticateAsWrittenStoresNothing` | user/user.go:85-99 | `Authenticate` calls `AddAuthToken` only for a user it has found, so as written the discarded result is always ErrorToken |
| `UserService.SecondsOf` | user/user.go:25 | Go's truncating division by `time.Second`: for a non-negative duration, the largest whole number of seconds not above it; symmetric toward zero for a negative one |
| `UserService.ExpireTimeConstants` | config/config.go:16-17 | the hour lifetime is 3600 seconds and the short lifetime is 5 seconds |
| `UserService.ExpiredIsMonotone` | user/user.go:118 | the strict comparison `now - createTime > expire` stays true at every later time |
| `UserService.Service.InitUser` | user/user.go:24-34 | the service keeps the four stores and the lifetime as whole seconds (`SecondsOf` of the duration) |
| `UserService.Service.GetUser` | user/user.go:152-154 | found exactly when the user exists; the record carries the requested name |
| `UserService.Service.TokenStatus` | user/user.go:114-120 | unknown token gives ErrorToken (checked first); otherwise ErrorTokenExpire exactly when expired, and success exactly when not |
| `UserService.Service.TokenExpiryIsMonotone` | user/user.go:118 | with the stores unchanged, a token reported expired stays expired later, and a token valid later was valid earlier |
| `UserService.Service.CheckRole` | user/user.go:113-123 | the error is the token check's result; the answer is true exactly when the token passes and its owner holds the role |
| `UserService.Service.AllRoles` | user/user.go:128-138 | the error is the token check's result; on error the list is empty; otherwise it holds the owner's roles each once; a role is listed exactly when `CheckRole` says yes |
| `UserService.Service.CreateUser` | user/user.go:39-45 | a taken name gives ErrorUserExist and no change; otherwise the user is stored with the digest of the password and `GetUser` returns that record |
| `UserService.Service.DeleteUser` | user/user.go:50-54 | memberships and the current token are always cleared first; the result is ErrorUserNotExist exactly for an unknown user, which changes nothing; the deleted user's current token then gives ErrorToken; invariants kept |
| `UserService.Service.CreateRole` | user/user.go:59-64 | a taken name gives ErrorRoleExist and no change; otherwise the role is stored |
| `UserService.Service.DeleteRole` | user/user.go:69-72 | the role leaves every user's set and the role store; `CheckRole` for it is false for every token and time; an unknown role gives ErrorRoleNotExist and changes nothing |
| `UserService.Service.AddRoleToUser` | user/user.go:77-79 | a missing user is reported before a missing role; on success only that user's set gains the role; invariants kept |
| `UserService.Service.Authenticate` | user/user.go:84-101 | unknown user gives ("", ErrorUserNotExist), then a digest mismatch gives ("", ErrorPwd), with no change; otherwise the token is returned, stored under both indexes with owner and creation time `now`, and (for a non-negative lifetime) immediately passes `CheckRole` |
| `UserService.Service.Invalidate` | user/user.go:106-108 | never reports an error; afterwards the token is unknown and `CheckRole` on it gives (false, ErrorToken) at every time |
| `Scenarios.NewService` | user_test.go:16-20 | a service over four fresh, empty stores with the lifetime converted to seconds |
| `Scenarios.UserCase` | user_test.go:25-41 | create, duplicate create, delete and repeated delete give nil, nil, ErrorUserExist, nil, ErrorUserNotExist |
| `Scenarios.RoleCase` | user_test.go:46-60 | create, duplicate create, delete and repeated delete give nil, ErrorRoleExist, nil, ErrorRoleNotExist |
| `Scenarios.TokenExpireTime` | user_test.go:65-89 | with a 5-second lifetime both queries succeed 1 second after issue and give ErrorTokenExpire 6 seconds after |
| `Scenarios.LoggedIn` | user_test.go:137-140 | after creating user1 and authenticating, the stores hold exactly that user and that token |
| `Scenarios.TokenErrors` | user_test.go:96-113 | role creation and assignment succeed; a wrong password gives ErrorPwd; an unknown user gives ErrorUserNotExist |
| `Scenarios.TokenInvalidate` | user_test.go:115-129 | invalidating an unknown token leaves the real one working; after invalidating it both queries give ErrorToken |
| `Scenarios.UserRoleNone` | user_test.go:142-148 | a new user's token gives (false, nil) and an empty role list |
| `Scenarios.UserRoleAssign` | user_test.go:150-168 | ErrorRoleNotExist, then ErrorUserNotExist, then success; the role is then granted and listed alone |
| `Scenarios.TwoRoles` | user_test.go:170-173 | user1 holds exactly "role" and "role2" |
| `Scenarios.UserRoleDelete` | user_test.go:174-189 | both roles are granted; after deleting "role" it is no longer granted and only "role2" is listed |
| `Scenarios.UserDelete` | user_test.go:191-197 | deleting the user succeeds and its token then gives ErrorToken for both queries |
| `Scenarios.Reauthenticate` | dbModel/dbModel.go:127-128 | a second authentication of the same user leaves the first token valid, and it stays valid even after the user is deleted |

## Left out

- SHA-1 (user/user.go:143-147) is the uninterpreted field `Service.hash`. The digest format and its one-way property are not modelled.
- The clock and `rand.Int63` (user/user.go:92-93) are parameters. Whether a token can be guessed cannot be stated here.
- `UserService.Service.Authenticate`: requires the generated token value to be absent from the by-token index. This stands in for the random generator. The source does not check it, and a collision would overwrite another user's token entry.
- `DbModel.AuthTokenModel.AddAuthToken`: carries the same requirement that the new token value is unused.
- `UserService.Expired`: `now - createTime` is unbounded here. Go's int64 subtraction could wrap around for extreme values.
- `UserService.SecondsOf`: int64 limits are not modelled. The quotient of an int64 duration by 10^9 always fits.
- Go map iteration order (dbModel/dbModel.go:92): role lists are stated as multisets, so any order is allowed. A nil slice and an empty slice are both the empty sequence.
- Lookups return `Option` instead of Go's zero-value record with a boolean.
- The panics from writing to the never-created `Name` map and inner membership maps appear only in the as-written functions. The stores used by the rest of the model start with empty maps instead.
- The source has no locking and no goroutines, so concurrency is not modelled.
- The test helpers `commonErrCheck` and `deepErrCheck` (user_test.go:201-211) are not modelled. `time.Sleep` is modelled as a later `now`.

## Findings

| source | as written | input that shows it | evidently intended | confidence | as-written member | corrected member |
|---|---|---|---|---|---|---|
| dbModel/dbModel.go:136-142 | a user that is found gives ErrorUserNotExist and a role that is found gives ErrorRoleNotExist. Otherwise it writes to the user's inner map, which is never created, so the write panics | user1 exists and "role" does not (user_test.go:151-152): the code gives ErrorUserNotExist, the test expects ErrorRoleNotExist | a missing user gives ErrorUserNotExist, then a missing role gives ErrorRoleNotExist, otherwise the role is added to the user's set | not executed | `DbModel.AddUserRoleAsWrittenReportsFoundUser` | `DbModel.UserRoleModel.AddUserRole` |
| dbModel/dbModel.go:124-128 | an owner that is found gives ErrorToken and nothing is stored. A missing owner reaches the write to the `Name` map, which `InitUser` never creates (dbModel/dbModel.go:48-51), so the write panics | any successful `Authenticate` (user/user.go:99): the token is never stored, so `CheckRole` on it gives ErrorToken where user_test.go:119-120 expects nil | store the token under both indexes when its owner exists | not executed | `DbModel.AuthenticateAsWrittenStoresNothing` | `DbModel.AuthTokenModel.AddAuthToken` |
