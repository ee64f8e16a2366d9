/**
 * The `user` package: the access-control service on top of the four
 * stores. Go's `user.User` struct is the class `Service` here.
 *
 * The clock, the random token generator and the SHA-1 digest are not part
 * of this model: the current time (in Unix seconds) and the freshly
 * generated token value are method parameters, and the digest is the
 * function `hash` fixed at construction, about which nothing is assumed
 * (in particular not that it is injective).
 */
module UserService {
  import opened Config
  import opened DbModel

  /**
   * Go's `int64(d) / int64(time.Second)`: integer division that truncates
   * toward zero (Dafny's own `/` is Euclidean).
   */
  function SecondsOf(duration: int): (s: int)
    ensures 0 <= duration ==> 0 <= s && s * Second <= duration < (s + 1) * Second
    ensures duration < 0 ==> s <= 0 && (s - 1) * Second < duration <= s * Second
  {
    if 0 <= duration then duration / Second else -((-duration) / Second)
  }

  /** The two configured expiry durations become 3600 and 5 seconds. */
  lemma ExpireTimeConstants()
    ensures SecondsOf(TokenExpireTimeHour) == 3600
    ensures SecondsOf(TokenExpireTimeSec) == 5
  {
  }

  /** Lazy expiry: a token is dead once strictly more than `expire` seconds have passed. */
  predicate Expired(now: int, createTime: int, expire: int)
  {
    now - createTime > expire
  }

  /** Once expired, a token stays expired at every later time. */
  lemma ExpiredIsMonotone(createTime: int, expire: int, now: int, later: int)
    requires now <= later
    ensures Expired(now, createTime, expire) ==> Expired(later, createTime, expire)
  {
  }

  /**
   * How the four stores of a service hang together: linked as `InitUser`
   * links them, each store's own invariant, and referential integrity —
   * every membership names an existing user and an existing role, and
   * every by-owner token entry names an existing user.
   */
  ghost predicate Consistent(users: UserModel, roles: RoleModel, tokens: AuthTokenModel, userRoles: UserRoleModel)
    reads users, roles, tokens, userRoles
  {
    && userRoles.userModel == users
    && userRoles.roleModel == roles
    && tokens.userModel == users
    && users.Valid() && roles.Valid() && tokens.Valid()
    && userRoles.userRole.Keys <= users.userData.Keys
    && (forall u :: u in userRoles.userRole ==> userRoles.userRole[u] <= roles.roleData.Keys)
    && tokens.name.Keys <= users.userData.Keys
  }

  class Service {
    const userModel: UserModel
    const roleModel: RoleModel
    const authTokenModel: AuthTokenModel
    const userRoleModel: UserRoleModel
    /** The token lifetime in whole seconds. */
    const tokenExpireTime: int
    /** The one-way password digest. */
    const hash: string -> string

    ghost predicate Valid()
      reads userModel, roleModel, authTokenModel, userRoleModel
    {
      Consistent(userModel, roleModel, authTokenModel, userRoleModel)
    }

    /** Stores the expiry as whole seconds, truncating the nanosecond duration. */
    constructor InitUser(userModel: UserModel, roleModel: RoleModel, authTokenModel: AuthTokenModel,
                         userRoleModel: UserRoleModel, tokenExpireTime: int, hash: string -> string)
      requires Consistent(userModel, roleModel, authTokenModel, userRoleModel)
      ensures Valid()
      ensures this.userModel == userModel && this.roleModel == roleModel
      ensures this.authTokenModel == authTokenModel && this.userRoleModel == userRoleModel
      ensures this.tokenExpireTime == SecondsOf(tokenExpireTime) && this.hash == hash
    {
      this.userModel := userModel;
      this.roleModel := roleModel;
      this.authTokenModel := authTokenModel;
      this.userRoleModel := userRoleModel;
      this.tokenExpireTime := SecondsOf(tokenExpireTime);
      this.hash := hash;
    }

    function GetUser(userName: string): (r: Option<User>)
      requires Valid()
      reads userModel, roleModel, authTokenModel, userRoleModel
      ensures r.Some? <==> userName in userModel.userData
      ensures r.Some? ==> r.value.userName == userName
    {
      userModel.GetUser(userName)
    }

    /**
     * The token check shared by `CheckRole` and `AllRoles`: an unknown
     * token is reported before an expired one.
     */
    function TokenStatus(t: string, now: int): (s: Status)
      requires Valid()
      reads userModel, roleModel, authTokenModel, userRoleModel
      ensures t !in authTokenModel.token ==> s == Failure(ErrorToken)
      ensures t in authTokenModel.token ==>
        (s == Success <==> !Expired(now, authTokenModel.token[t].createTime, tokenExpireTime))
      ensures t in authTokenModel.token ==>
        (s == Failure(ErrorTokenExpire) <==> Expired(now, authTokenModel.token[t].createTime, tokenExpireTime))
    {
      match authTokenModel.GetToken(t)
      case None => Failure(ErrorToken)
      case Some(a) => if Expired(now, a.createTime, tokenExpireTime) then Failure(ErrorTokenExpire) else Success
    }

    /** A token that is reported expired is reported expired at every later time. */
    lemma TokenExpiryIsMonotone(t: string, now: int, later: int)
      requires Valid()
      requires now <= later
      ensures TokenStatus(t, now) == Failure(ErrorTokenExpire) ==> TokenStatus(t, later) == Failure(ErrorTokenExpire)
      ensures TokenStatus(t, later) == Success ==> TokenStatus(t, now) == Success
    {
    }

    /**
     * Whether the owner of a live token holds a role; false with the
     * token error otherwise.
     */
    function CheckRole(t: string, roleName: string, now: int): (r: (bool, Status))
      requires Valid()
      reads userModel, roleModel, authTokenModel, userRoleModel
      ensures r.1 == TokenStatus(t, now)
      ensures r.0 <==> r.1 == Success && roleName in userRoleModel.Roles(authTokenModel.token[t].userName)
    {
      var s := TokenStatus(t, now);
      if s != Success then (false, s)
      else (userRoleModel.CheckUserRoles(authTokenModel.GetToken(t).value.userName, roleName), Success)
    }

    /** Hashes the password and adds the user; a taken name fails with ErrorUserExist. */
    method CreateUser(userName: string, passwd: string) returns (err: Status)
      requires Valid()
      modifies userModel
      ensures Valid()
      ensures old(userName in userModel.userData) ==>
        err == Failure(ErrorUserExist) && userModel.userData == old(userModel.userData)
      ensures old(userName !in userModel.userData) ==>
        && err == Success
        && userModel.userData == old(userModel.userData)[userName := User(userName, hash(passwd))]
      ensures err == Success ==> GetUser(userName) == Some(User(userName, hash(passwd)))
    {
      err := userModel.AddUser(User(userName, hash(passwd)));
    }

    /**
     * Drops the user's memberships and current token unconditionally, then
     * deletes the user record, whose error alone is reported.
     */
    method DeleteUser(userName: string) returns (err: Status)
      requires Valid()
      modifies userRoleModel, authTokenModel, userModel
      ensures Valid()
      ensures err == if old(userName in userModel.userData) then Success else Failure(ErrorUserNotExist)
      ensures userModel.userData == old(userModel.userData) - {userName}
      ensures userRoleModel.userRole == old(userRoleModel.userRole) - {userName}
      ensures userName !in authTokenModel.name
      ensures old(userName in authTokenModel.name) ==>
        && authTokenModel.name == old(authTokenModel.name) - {userName}
        && authTokenModel.token == old(authTokenModel.token) - {old(authTokenModel.name[userName].token)}
      ensures old(userName !in authTokenModel.name) ==>
        authTokenModel.name == old(authTokenModel.name) && authTokenModel.token == old(authTokenModel.token)
      ensures err != Success ==>
        && userRoleModel.userRole == old(userRoleModel.userRole)
        && authTokenModel.token == old(authTokenModel.token)
      ensures old(userName in authTokenModel.name) ==>
        forall roleName, now :: CheckRole(old(authTokenModel.name[userName].token), roleName, now) == (false, Failure(ErrorToken))
    {
      userRoleModel.DeleteURUser(userName);
      var _ := authTokenModel.DeleteAuthTokenByName(userName);
      err := userModel.DeleteUser(userName);
      assert old(userName !in userModel.userData) ==> userRoleModel.userRole == old(userRoleModel.userRole);
    }

    method CreateRole(roleName: string) returns (err: Status)
      requires Valid()
      modifies roleModel
      ensures Valid()
      ensures old(roleName in roleModel.roleData) ==>
        err == Failure(ErrorRoleExist) && roleModel.roleData == old(roleModel.roleData)
      ensures old(roleName !in roleModel.roleData) ==>
        err == Success && roleModel.roleData == old(roleModel.roleData)[roleName := Role(roleName)]
    {
      err := roleModel.AddRole(Role(roleName));
    }

    /** Removes the role from every user, then deletes the role record. */
    method DeleteRole(roleName: string) returns (err: Status)
      requires Valid()
      modifies userRoleModel, roleModel
      ensures Valid()
      ensures err == if old(roleName in roleModel.roleData) then Success else Failure(ErrorRoleNotExist)
      ensures roleModel.roleData == old(roleModel.roleData) - {roleName}
      ensures userRoleModel.userRole.Keys == old(userRoleModel.userRole.Keys)
      ensures forall u :: userRoleModel.Roles(u) == old(userRoleModel.Roles(u)) - {roleName}
      ensures forall t, now :: !CheckRole(t, roleName, now).0
      ensures err != Success ==> userRoleModel.userRole == old(userRoleModel.userRole)
    {
      ghost var before := userRoleModel.userRole;
      userRoleModel.DeleteURRole(roleName);
      if roleName !in roleModel.roleData {
        // no membership can name a role that does not exist
        assert forall u :: u in before ==> before[u] - {roleName} == before[u];
        assert userRoleModel.userRole == before;
      }
      err := roleModel.DeleteRole(roleName);
    }

    /** Assigns a role: a missing user is reported before a missing role. */
    method AddRoleToUser(userName: string, roleName: string) returns (err: Status)
      requires Valid()
      modifies userRoleModel
      ensures Valid()
      ensures userName !in userModel.userData ==>
        err == Failure(ErrorUserNotExist) && userRoleModel.userRole == old(userRoleModel.userRole)
      ensures userName in userModel.userData && roleName !in roleModel.roleData ==>
        err == Failure(ErrorRoleNotExist) && userRoleModel.userRole == old(userRoleModel.userRole)
      ensures userName in userModel.userData && roleName in roleModel.roleData ==>
        && err == Success
        && userRoleModel.userRole == old(userRoleModel.userRole)[userName := old(userRoleModel.Roles(userName)) + {roleName}]
    {
      err := userRoleModel.AddUserRole(userName, roleName);
    }

    /**
     * Checks the user and then the password digest, and on success issues
     * `freshToken` (the generated value) created at `now`. The user's
     * previous token, if any, is not removed from the by-token index.
     */
    method Authenticate(userName: string, passwd: string, now: int, freshToken: string)
      returns (tok: string, err: Status)
      requires Valid()
      requires freshToken !in authTokenModel.token
      modifies authTokenModel
      ensures Valid()
      ensures userName !in userModel.userData ==>
        && tok == "" && err == Failure(ErrorUserNotExist)
        && authTokenModel.token == old(authTokenModel.token) && authTokenModel.name == old(authTokenModel.name)
      ensures userName in userModel.userData && hash(passwd) != userModel.userData[userName].pwd ==>
        && tok == "" && err == Failure(ErrorPwd)
        && authTokenModel.token == old(authTokenModel.token) && authTokenModel.name == old(authTokenModel.name)
      ensures userName in userModel.userData && hash(passwd) == userModel.userData[userName].pwd ==>
        && tok == freshToken && err == Success
        && authTokenModel.token == old(authTokenModel.token)[tok := AuthToken(userName, tok, now)]
        && authTokenModel.name == old(authTokenModel.name)[userName := AuthToken(userName, tok, now)]
      ensures err == Success && 0 <= tokenExpireTime ==>
        forall roleName :: CheckRole(tok, roleName, now) == (roleName in userRoleModel.Roles(userName), Success)
    {
      var userInfo := userModel.GetUser(userName);
      if userInfo.None? {
        return "", Failure(ErrorUserNotExist);
      }
      if hash(passwd) != userInfo.value.pwd {
        return "", Failure(ErrorPwd);
      }
      var authToken := AuthToken(userName, freshToken, now);
      var _ := authTokenModel.AddAuthToken(authToken);
      tok, err := freshToken, Success;
    }

    /** Logs a token out; an unknown token is silently ignored. */
    method Invalidate(t: string)
      requires Valid()
      modifies authTokenModel
      ensures Valid()
      ensures t !in authTokenModel.token
      ensures old(t in authTokenModel.token) ==>
        && authTokenModel.token == old(authTokenModel.token) - {t}
        && authTokenModel.name == old(authTokenModel.name) - {old(authTokenModel.token[t].userName)}
      ensures old(t !in authTokenModel.token) ==>
        authTokenModel.token == old(authTokenModel.token) && authTokenModel.name == old(authTokenModel.name)
      ensures forall roleName, now :: CheckRole(t, roleName, now) == (false, Failure(ErrorToken))
    {
      var _ := authTokenModel.DeleteAuthTokenToken(t);
    }

    /**
     * The roles of a live token's owner, each once and in no particular
     * order; empty with the token error otherwise.
     */
    method AllRoles(t: string, now: int) returns (res: seq<string>, err: Status)
      requires Valid()
      ensures err == TokenStatus(t, now)
      ensures err != Success ==> res == []
      ensures err == Success ==> multiset(res) == multiset(userRoleModel.Roles(authTokenModel.token[t].userName))
      ensures forall roleName :: roleName in res <==> CheckRole(t, roleName, now).0
    {
      var found := authTokenModel.GetToken(t);
      if found.None? {
        return [], Failure(ErrorToken);
      }
      if Expired(now, found.value.createTime, tokenExpireTime) {
        return [], Failure(ErrorTokenExpire);
      }
      res := userRoleModel.GetAllRolesByUserName(found.value.userName);
      err := Success;
      assert forall roleName :: roleName in res <==> roleName in multiset(res);
    }
  }
}
