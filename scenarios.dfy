/**
 * The scenarios of `user_test.go`, run against the model from freshly
 * built stores. Each method's postcondition lists the results the test
 * expects; waiting with `time.Sleep` becomes a later `now`.
 */
module Scenarios {
  import opened Config
  import opened DbModel
  import opened UserService

  /** Builds the stores and a service over them, as the tests' `initUser` does. */
  method NewService(tokenExpireTime: int, hash: string -> string) returns (s: Service)
    ensures fresh(s) && fresh(s.userModel) && fresh(s.roleModel)
    ensures fresh(s.authTokenModel) && fresh(s.userRoleModel)
    ensures s.Valid()
    ensures s.tokenExpireTime == SecondsOf(tokenExpireTime) && s.hash == hash
    ensures s.userModel.userData == map[] && s.roleModel.roleData == map[]
    ensures s.userRoleModel.userRole == map[]
    ensures s.authTokenModel.token == map[] && s.authTokenModel.name == map[]
  {
    var users, roles, userRoles, tokens := InitUser();
    s := new Service.InitUser(users, roles, tokens, userRoles, tokenExpireTime, hash);
  }

  /** Create, re-create, delete and re-delete a user. */
  method UserCase(hash: string -> string) returns (errs: seq<Status>)
    ensures errs == [Success, Success, Failure(ErrorUserExist), Success, Failure(ErrorUserNotExist)]
  {
    var s := NewService(TokenExpireTimeHour, hash);
    var e1 := s.CreateUser("user1", "pwd1");
    var e2 := s.CreateUser("user2", "pwd2");
    var e3 := s.CreateUser("user1", "pwd3");
    var e4 := s.DeleteUser("user1");
    var e5 := s.DeleteUser("user1");
    errs := [e1, e2, e3, e4, e5];
  }

  /** Create, re-create, delete and re-delete a role. */
  method RoleCase(hash: string -> string) returns (errs: seq<Status>)
    ensures errs == [Success, Failure(ErrorRoleExist), Success, Failure(ErrorRoleNotExist)]
  {
    var s := NewService(TokenExpireTimeHour, hash);
    var e1 := s.CreateRole("role");
    var e2 := s.CreateRole("role");
    var e3 := s.DeleteRole("role");
    var e4 := s.DeleteRole("role");
    errs := [e1, e2, e3, e4];
  }

  /**
   * With a five-second lifetime, a token issued at `created` is live one
   * second later and expired six seconds later.
   */
  method TokenExpireTime(hash: string -> string, created: int, freshToken: string)
    returns (live: seq<Status>, dead: seq<Status>)
    ensures live == [Success, Success]
    ensures dead == [Failure(ErrorTokenExpire), Failure(ErrorTokenExpire)]
  {
    var s := NewService(TokenExpireTimeSec, hash);
    ExpireTimeConstants();
    var _ := s.CreateUser("user1", "pwd1");
    var tok, _ := s.Authenticate("user1", "pwd1", created, freshToken);
    var _, a1 := s.AllRoles(tok, created + 1);
    live := [s.CheckRole(tok, "role", created + 1).1, a1];
    var _, a2 := s.AllRoles(tok, created + 6);
    dead := [s.CheckRole(tok, "role", created + 6).1, a2];
  }

  /**
   * The common start of the token and membership tests: an hour-long
   * lifetime, user1 created with pwd1 and authenticated at `now`.
   */
  method LoggedIn(hash: string -> string, now: int, freshToken: string) returns (s: Service)
    ensures fresh(s) && fresh(s.userModel) && fresh(s.roleModel)
    ensures fresh(s.authTokenModel) && fresh(s.userRoleModel)
    ensures s.Valid() && s.hash == hash && s.tokenExpireTime == 3600
    ensures s.userModel.userData == map["user1" := User("user1", hash("pwd1"))]
    ensures s.roleModel.roleData == map[] && s.userRoleModel.userRole == map[]
    ensures s.authTokenModel.token == map[freshToken := AuthToken("user1", freshToken, now)]
    ensures s.authTokenModel.name == map["user1" := AuthToken("user1", freshToken, now)]
  {
    s := NewService(TokenExpireTimeHour, hash);
    ExpireTimeConstants();
    var _ := s.CreateUser("user1", "pwd1");
    var _, _ := s.Authenticate("user1", "pwd1", now, freshToken);
  }

  /**
   * After a role is assigned, a wrong password and an unknown user are
   * refused. The wrong password must have a different digest.
   */
  method TokenErrors(hash: string -> string, now: int, tok: string, spare: string)
    returns (errs: seq<Status>)
    requires hash("pwd2") != hash("pwd1")
    requires spare != tok
    ensures errs == [Success, Success, Failure(ErrorPwd), Failure(ErrorUserNotExist)]
  {
    var s := LoggedIn(hash, now, tok);
    var e1 := s.CreateRole("role");
    var e2 := s.AddRoleToUser("user1", "role");
    var _, e3 := s.Authenticate("user1", "pwd2", now, spare);
    assert "user3" != "user1";
    var _, e4 := s.Authenticate("user3", "pwd1", now, spare);
    errs := [e1, e2, e3, e4];
  }

  /**
   * Invalidating an unknown token is ignored; invalidating the issued
   * token makes it unknown to both queries.
   */
  method TokenInvalidate(hash: string -> string, now: int, tok: string)
    returns (before: seq<Status>, after: seq<Status>)
    requires tok != "user10"
    ensures before == [Success, Success]
    ensures after == [Failure(ErrorToken), Failure(ErrorToken)]
  {
    var s := LoggedIn(hash, now, tok);
    s.Invalidate("user10");
    var _, a1 := s.AllRoles(tok, now);
    before := [s.CheckRole(tok, "role", now).1, a1];
    s.Invalidate(tok);
    var _, a2 := s.AllRoles(tok, now);
    after := [s.CheckRole(tok, "role", now).1, a2];
  }

  /** A freshly authenticated user holds no role. */
  method UserRoleNone(hash: string -> string, now: int, tok: string)
    returns (check: (bool, Status), roles: seq<string>, err: Status)
    ensures check == (false, Success) && roles == [] && err == Success
  {
    var s := LoggedIn(hash, now, tok);
    check := s.CheckRole(tok, "role", now);
    roles, err := s.AllRoles(tok, now);
    assert |roles| == |multiset(roles)| == 0;
  }

  /**
   * A missing role reported for an existing user, a missing user reported
   * before an existing role, then one successful assignment.
   */
  method UserRoleAssign(hash: string -> string, now: int, tok: string)
    returns (errs: seq<Status>, check: (bool, Status), roles: seq<string>)
    ensures errs == [Failure(ErrorRoleNotExist), Failure(ErrorUserNotExist), Success]
    ensures check == (true, Success)
    ensures roles == ["role"]
  {
    var s := LoggedIn(hash, now, tok);
    var e1 := s.AddRoleToUser("user1", "role");
    var _ := s.CreateRole("role");
    assert "user9" != "user1";
    var e2 := s.AddRoleToUser("user9", "role");
    var e3 := s.AddRoleToUser("user1", "role");
    assert s.userRoleModel.Roles("user1") == {"role"};
    check := s.CheckRole(tok, "role", now);
    var err;
    roles, err := s.AllRoles(tok, now);
    SingletonSeq(roles, "role");
    errs := [e1, e2, e3];
  }

  /** The logged-in user1 holding the roles "role" and "role2". */
  method TwoRoles(hash: string -> string, now: int, tok: string) returns (s: Service)
    ensures fresh(s) && fresh(s.userModel) && fresh(s.roleModel)
    ensures fresh(s.authTokenModel) && fresh(s.userRoleModel)
    ensures s.Valid() && s.tokenExpireTime == 3600
    ensures s.roleModel.roleData.Keys == {"role", "role2"}
    ensures s.userRoleModel.Roles("user1") == {"role", "role2"}
    ensures s.authTokenModel.token == map[tok := AuthToken("user1", tok, now)]
  {
    s := LoggedIn(hash, now, tok);
    var _ := s.CreateRole("role");
    var _ := s.AddRoleToUser("user1", "role");
    assert "role2" != "role";
    var _ := s.CreateRole("role2");
    var _ := s.AddRoleToUser("user1", "role2");
  }

  /** A user holding two roles: deleting one role leaves only the other. */
  method UserRoleDelete(hash: string -> string, now: int, tok: string)
    returns (checks: seq<(bool, Status)>, remaining: seq<string>, errs: seq<Status>)
    ensures checks == [(true, Success), (true, Success), (false, Success)]
    ensures remaining == ["role2"]
    ensures errs == [Success, Success]
  {
    var s := TwoRoles(hash, now, tok);
    var c1 := s.CheckRole(tok, "role", now);
    var c2 := s.CheckRole(tok, "role2", now);
    var e1 := s.DeleteRole("role");
    assert s.userRoleModel.Roles("user1") == {"role2"};
    var c3 := s.CheckRole(tok, "role", now);
    var l, e2 := s.AllRoles(tok, now);
    SingletonSeq(l, "role2");
    checks := [c1, c2, c3];
    remaining := l;
    errs := [e1, e2];
  }

  /** Deleting the user makes its token unknown. */
  method UserDelete(hash: string -> string, now: int, tok: string)
    returns (check: (bool, Status), errs: seq<Status>)
    ensures check == (false, Failure(ErrorToken))
    ensures errs == [Success, Failure(ErrorToken)]
  {
    var s := LoggedIn(hash, now, tok);
    var _ := s.CreateRole("role2");
    var _ := s.AddRoleToUser("user1", "role2");
    var e1 := s.DeleteUser("user1");
    check := s.CheckRole(tok, "role", now);
    var _, e2 := s.AllRoles(tok, now);
    errs := [e1, e2];
  }

  /**
   * Authenticating again does not retire the first token: it still passes
   * the token check, and it even outlives the deletion of its owner.
   */
  method Reauthenticate(hash: string -> string, now: int, first: string, second: string)
    returns (afterReplace: (bool, Status), afterDelete: (bool, Status))
    requires first != second
    ensures afterReplace == (false, Success)
    ensures afterDelete == (false, Success)
  {
    var s := NewService(TokenExpireTimeHour, hash);
    ExpireTimeConstants();
    var _ := s.CreateUser("user1", "pwd1");
    var t1, _ := s.Authenticate("user1", "pwd1", now, first);
    var t2, _ := s.Authenticate("user1", "pwd1", now, second);
    afterReplace := s.CheckRole(t1, "role", now);
    var _ := s.DeleteUser("user1");
    afterDelete := s.CheckRole(t1, "role", now);
  }

  /** A sequence whose multiset is a single element is that element alone. */
  lemma SingletonSeq(s: seq<string>, x: string)
    requires multiset(s) == multiset{x}
    ensures s == [x]
  {
  }
}
