/**
 * The `dbModel` package: four map-backed stores for users, roles,
 * user-role memberships and authentication tokens.
 *
 * Each Go store is a struct behind a pointer whose map fields are updated
 * in place; here each is a class whose map fields the methods reassign.
 * The pointers a store keeps to other stores are never reassigned in the
 * source and are `const` here.
 */
module DbModel {
  import opened Config

  datatype User = User(userName: string, pwd: string)

  datatype Role = Role(roleName: string)

  datatype AuthToken = AuthToken(userName: string, token: string, createTime: int)

  /** Users keyed by name. */
  class UserModel {
    var userData: map<string, User>

    /** Every record is stored under its own name. */
    ghost predicate Valid()
      reads this
    {
      forall n :: n in userData ==> userData[n].userName == n
    }

    constructor ()
      ensures Valid() && userData == map[]
    {
      userData := map[];
    }

    function GetUser(name: string): (r: Option<User>)
      requires Valid()
      reads this
      ensures r.Some? <==> name in userData
      ensures r.Some? ==> r.value == userData[name] && r.value.userName == name
    {
      if name in userData then Some(userData[name]) else None
    }

    /** Fails when the name is taken; otherwise maps exactly that name to the record. */
    method AddUser(newUser: User) returns (err: Status)
      requires Valid()
      modifies this
      ensures Valid()
      ensures old(newUser.userName in userData) ==>
        err == Failure(ErrorUserExist) && userData == old(userData)
      ensures old(newUser.userName !in userData) ==>
        err == Success && userData == old(userData)[newUser.userName := newUser]
      ensures GetUser(newUser.userName).Some?
      ensures err == Success ==> GetUser(newUser.userName) == Some(newUser)
    {
      if newUser.userName in userData {
        return Failure(ErrorUserExist);
      }
      userData := userData[newUser.userName := newUser];
      err := Success;
    }

    /** Fails when the name is absent; otherwise removes exactly that key. */
    method DeleteUser(userName: string) returns (err: Status)
      requires Valid()
      modifies this
      ensures Valid()
      ensures old(userName !in userData) ==>
        err == Failure(ErrorUserNotExist) && userData == old(userData)
      ensures old(userName in userData) ==>
        err == Success && userData == old(userData) - {userName}
      ensures GetUser(userName) == None
    {
      if userName !in userData {
        return Failure(ErrorUserNotExist);
      }
      userData := userData - {userName};
      err := Success;
    }
  }

  /** Roles keyed by name; mirrors `UserModel`. */
  class RoleModel {
    var roleData: map<string, Role>

    ghost predicate Valid()
      reads this
    {
      forall n :: n in roleData ==> roleData[n].roleName == n
    }

    constructor ()
      ensures Valid() && roleData == map[]
    {
      roleData := map[];
    }

    function GetRole(name: string): (r: Option<Role>)
      requires Valid()
      reads this
      ensures r.Some? <==> name in roleData
      ensures r.Some? ==> r.value == roleData[name] && r.value.roleName == name
    {
      if name in roleData then Some(roleData[name]) else None
    }

    method AddRole(newRole: Role) returns (err: Status)
      requires Valid()
      modifies this
      ensures Valid()
      ensures old(newRole.roleName in roleData) ==>
        err == Failure(ErrorRoleExist) && roleData == old(roleData)
      ensures old(newRole.roleName !in roleData) ==>
        err == Success && roleData == old(roleData)[newRole.roleName := newRole]
      ensures GetRole(newRole.roleName).Some?
      ensures err == Success ==> GetRole(newRole.roleName) == Some(newRole)
    {
      if newRole.roleName in roleData {
        return Failure(ErrorRoleExist);
      }
      roleData := roleData[newRole.roleName := newRole];
      err := Success;
    }

    method DeleteRole(roleName: string) returns (err: Status)
      requires Valid()
      modifies this
      ensures Valid()
      ensures old(roleName !in roleData) ==>
        err == Failure(ErrorRoleNotExist) && roleData == old(roleData)
      ensures old(roleName in roleData) ==>
        err == Success && roleData == old(roleData) - {roleName}
      ensures GetRole(roleName) == None
    {
      if roleName !in roleData {
        return Failure(ErrorRoleNotExist);
      }
      roleData := roleData - {roleName};
      err := Success;
    }
  }

  /**
   * The membership relation: user name -> set of role names.
   * Go keeps an inner map per user that is never created before it is
   * written; here a user without an entry simply has no roles.
   */
  class UserRoleModel {
    const userModel: UserModel
    const roleModel: RoleModel
    var userRole: map<string, set<string>>

    constructor (userModel: UserModel, roleModel: RoleModel)
      ensures this.userModel == userModel && this.roleModel == roleModel
      ensures userRole == map[]
    {
      this.userModel := userModel;
      this.roleModel := roleModel;
      userRole := map[];
    }

    /** The roles of a user, empty for a user without an entry. */
    function Roles(userName: string): set<string>
      reads this
    {
      if userName in userRole then userRole[userName] else {}
    }

    /** A pure lookup with no existence validation. */
    function CheckUserRoles(userName: string, roleName: string): (b: bool)
      reads this
      ensures b <==> userName in userRole && roleName in userRole[userName]
      ensures userName !in userRole ==> !b
    {
      roleName in Roles(userName)
    }

    /** Lists each role of the user exactly once, in no particular order. */
    method GetAllRolesByUserName(userName: string) returns (res: seq<string>)
      ensures multiset(res) == multiset(Roles(userName))
      ensures forall i, j :: 0 <= i < j < |res| ==> res[i] != res[j]
      ensures userName !in userRole ==> res == []
    {
      var all := Roles(userName);
      var remaining := all;
      res := [];
      while remaining != {}
        invariant remaining <= all
        invariant multiset(res) + multiset(remaining) == multiset(all)
        invariant forall i, j :: 0 <= i < j < |res| ==> res[i] != res[j]
        invariant forall i :: 0 <= i < |res| ==> res[i] !in remaining
        decreases remaining
      {
        var role :| role in remaining;
        res := res + [role];
        remaining := remaining - {role};
        assert multiset(remaining) + multiset{role} == multiset(remaining + {role});
      }
    }

    /**
     * Assigns a role to a user. The user is checked before the role, and
     * re-adding a membership changes nothing.
     */
    method AddUserRole(userName: string, roleName: string) returns (err: Status)
      requires userModel.Valid() && roleModel.Valid()
      modifies this
      ensures userName !in userModel.userData ==>
        err == Failure(ErrorUserNotExist) && userRole == old(userRole)
      ensures userName in userModel.userData && roleName !in roleModel.roleData ==>
        err == Failure(ErrorRoleNotExist) && userRole == old(userRole)
      ensures userName in userModel.userData && roleName in roleModel.roleData ==>
        err == Success && userRole == old(userRole)[userName := old(Roles(userName)) + {roleName}]
      ensures old(roleName in Roles(userName)) ==> userRole == old(userRole)
    {
      if userModel.GetUser(userName).None? {
        return Failure(ErrorUserNotExist);
      }
      if roleModel.GetRole(roleName).None? {
        return Failure(ErrorRoleNotExist);
      }
      if roleName in Roles(userName) {
        assert Roles(userName) + {roleName} == userRole[userName];
        assert userRole[userName := Roles(userName) + {roleName}] == userRole;
      }
      userRole := userRole[userName := Roles(userName) + {roleName}];
      err := Success;
    }

    /** Drops every membership of one user; never fails. */
    method DeleteURUser(name: string)
      modifies this
      ensures userRole == old(userRole) - {name}
      ensures Roles(name) == {}
      ensures forall u :: u != name ==> Roles(u) == old(Roles(u))
    {
      userRole := userRole - {name};
    }

    /** Removes one role from every user's set, one user at a time. */
    method DeleteURRole(name: string)
      modifies this
      ensures userRole.Keys == old(userRole.Keys)
      ensures forall u :: u in userRole ==> userRole[u] == old(userRole[u]) - {name}
      ensures forall u :: Roles(u) == old(Roles(u)) - {name}
    {
      var users := userRole.Keys;
      while users != {}
        invariant users <= userRole.Keys == old(userRole.Keys)
        invariant forall u :: u in userRole ==>
          userRole[u] == if u in users then old(userRole[u]) else old(userRole[u]) - {name}
        decreases users
      {
        var u :| u in users;
        userRole := userRole[u := userRole[u] - {name}];
        users := users - {u};
      }
    }
  }

  /**
   * Live tokens, indexed by token value (`token`) and by owner (`name`).
   * The source never creates the `name` map; here it starts empty.
   */
  class AuthTokenModel {
    const userModel: UserModel
    var token: map<string, AuthToken>
    var name: map<string, AuthToken>

    /**
     * Every token is stored under its own value, and every by-owner entry
     * belongs to that owner and is mirrored in the by-token index. The
     * converse does not hold: a replaced token stays in `token`.
     */
    ghost predicate Valid()
      reads this
    {
      && (forall t :: t in token ==> token[t].token == t)
      && (forall u :: u in name ==> name[u].userName == u && Mirrored(name[u]))
    }

    ghost predicate Mirrored(a: AuthToken)
      reads this
    {
      a.token in token && token[a.token] == a
    }

    constructor (userModel: UserModel)
      ensures Valid() && this.userModel == userModel
      ensures token == map[] && name == map[]
    {
      this.userModel := userModel;
      token := map[];
      name := map[];
    }

    /** The lookup that the source names both `GetTokenGetToken` and `GetToken`. */
    function GetToken(t: string): (r: Option<AuthToken>)
      requires Valid()
      reads this
      ensures r.Some? <==> t in token
      ensures r.Some? ==> r.value == token[t] && r.value.token == t
    {
      if t in token then Some(token[t]) else None
    }

    /**
     * Stores a token under both indexes when its owner exists (the owner
     * check with the polarity the source evidently intends). The owner's
     * previous token, if any, stays in the by-token index.
     */
    method AddAuthToken(newAuthToken: AuthToken) returns (err: Status)
      requires Valid() && userModel.Valid()
      requires newAuthToken.token !in token
      modifies this
      ensures Valid()
      ensures newAuthToken.userName !in userModel.userData ==>
        err == Failure(ErrorToken) && token == old(token) && name == old(name)
      ensures newAuthToken.userName in userModel.userData ==>
        && err == Success
        && token == old(token)[newAuthToken.token := newAuthToken]
        && name == old(name)[newAuthToken.userName := newAuthToken]
      ensures err == Success ==> GetToken(newAuthToken.token) == Some(newAuthToken)
    {
      if userModel.GetUser(newAuthToken.userName).None? {
        return Failure(ErrorToken);
      }
      token := token[newAuthToken.token := newAuthToken];
      name := name[newAuthToken.userName := newAuthToken];
      err := Success;
    }

    /** Removes the owner's entry and the token it points to. */
    method DeleteAuthTokenByName(userName: string) returns (err: Status)
      requires Valid()
      modifies this
      ensures Valid()
      ensures userName !in name
      ensures old(userName !in name) ==>
        err == Failure(ErrorToken) && token == old(token) && name == old(name)
      ensures old(userName in name) ==>
        && err == Success
        && name == old(name) - {userName}
        && token == old(token) - {old(name[userName].token)}
      ensures old(userName in name) ==> GetToken(old(name[userName].token)) == None
    {
      if userName !in name {
        return Failure(ErrorToken);
      }
      var info := name[userName];
      name := name - {userName};
      token := token - {info.token};
      err := Success;
    }

    /** Removes a token and its owner's by-owner entry. */
    method DeleteAuthTokenToken(t: string) returns (err: Status)
      requires Valid()
      modifies this
      ensures Valid()
      ensures t !in token
      ensures old(t !in token) ==>
        err == Failure(ErrorToken) && token == old(token) && name == old(name)
      ensures old(t in token) ==>
        && err == Success
        && name == old(name) - {old(token[t].userName)}
        && token == old(token) - {t}
      ensures GetToken(t) == None
    {
      if t !in token {
        return Failure(ErrorToken);
      }
      var info := token[t];
      name := name - {info.userName};
      token := token - {t};
      err := Success;
    }
  }

  /** How a Go call ends: with a returned error value, or in a panic from writing to a nil map. */
  datatype Outcome = Returns(status: Status) | Panics

  /**
   * `AddUserRole` as the source writes it: a user that IS found gives
   * ErrorUserNotExist, a role that IS found gives ErrorRoleNotExist, and the
   * final write goes to the user's inner map, which exists only for the
   * users in `innerMaps` (nothing in the source ever creates one).
   */
  function AddUserRoleAsWritten(users: map<string, User>, roles: map<string, Role>, innerMaps: set<string>,
                                userName: string, roleName: string): (r: Outcome)
    ensures r == Returns(Success) ==> userName !in users && roleName !in roles
    ensures innerMaps == {} ==> r != Returns(Success)
  {
    if userName in users then Returns(Failure(ErrorUserNotExist))
    else if roleName in roles then Returns(Failure(ErrorRoleNotExist))
    else if userName in innerMaps then Returns(Success)
    else Panics
  }

  /**
   * The first scenario of the membership test: user1 exists, the role does
   * not, and the test expects ErrorRoleNotExist. As written the user check
   * fires on the found user instead.
   */
  lemma AddUserRoleAsWrittenReportsFoundUser()
    ensures AddUserRoleAsWritten(map["user1" := User("user1", "d")], map[], {}, "user1", "role")
         == Returns(Failure(ErrorUserNotExist))
  {
  }

  /**
   * `AddAuthToken` as the source writes it: an owner that IS found gives
   * ErrorToken and nothing is stored; otherwise the write to the `Name`
   * map, which `InitUser` never creates, panics.
   */
  function AddAuthTokenAsWritten(users: map<string, User>, newAuthToken: AuthToken): (r: Outcome)
    ensures r != Returns(Success)
    ensures r.Returns? <==> newAuthToken.userName in users
  {
    if newAuthToken.userName in users then Returns(Failure(ErrorToken)) else Panics
  }

  /**
   * `Authenticate` calls `AddAuthToken` only for an owner it has just
   * found, so as written no token is ever stored and the discarded error
   * is always ErrorToken.
   */
  lemma AuthenticateAsWrittenStoresNothing(users: map<string, User>, newAuthToken: AuthToken)
    requires newAuthToken.userName in users
    ensures AddAuthTokenAsWritten(users, newAuthToken) == Returns(Failure(ErrorToken))
  {
  }

  /** Builds the four empty stores, linked as the source links them. */
  method InitUser() returns (users: UserModel, roles: RoleModel, userRoles: UserRoleModel, tokens: AuthTokenModel)
    ensures fresh(users) && fresh(roles) && fresh(userRoles) && fresh(tokens)
    ensures users.Valid() && roles.Valid() && tokens.Valid()
    ensures users.userData == map[] && roles.roleData == map[]
    ensures userRoles.userRole == map[] && tokens.token == map[] && tokens.name == map[]
    ensures userRoles.userModel == users && userRoles.roleModel == roles && tokens.userModel == users
  {
    users := new UserModel();
    roles := new RoleModel();
    userRoles := new UserRoleModel(users, roles);
    tokens := new AuthTokenModel(users);
  }
}
