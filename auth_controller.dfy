/**
 * The authentication endpoints as transitions of the stored refresh token and as the guards of
 * the two registration paths. Password checking, hashing, token minting and JWT verification
 * are outside the model: their outcomes arrive as parameters.
 */
module AuthController {
  import opened Wrappers
  import opened Seqs
  import opened Entities
  import opened Repositories
  import UserService
  import CompanyService

  /** The cookie value Spring substitutes when no refresh-token cookie is sent. */
  const DefaultCookie: string := "abc"

  // ---- registration ----

  /** `register`: an e-mail already in use is refused; otherwise the user is created with the hashed password. */
  function Registered(t: Tables, req: UserService.UserRequest, hash: string): (r: (Tables, Result<User, Error>))
    ensures ExistsByEmail(t.users, req.email) ==> r == (t, Err(EmailExists))
    ensures !ExistsByEmail(t.users, req.email) ==>
              r.1.Ok? && r.1.value.email == req.email && r.1.value.password == hash
              && r.0 == t.(users := t.users + [r.1.value])
  {
    if ExistsByEmail(t.users, req.email) then (t, Err(EmailExists))
    else
      var user := UserService.CreatedUser(t, req.(password := hash));
      (t.(users := t.users + [user]), Ok(user))
  }

  method Register(db: Database, req: UserService.UserRequest, hash: string) returns (r: Result<User, Error>)
    modifies db
    ensures (db.Snapshot(), r) == Registered(old(db.Snapshot()), req, hash)
  {
    if ExistsByEmail(db.users, req.email) {
      return Err(EmailExists);
    }
    var user := UserService.HandleCreateUser(db, req.(password := hash));
    return Ok(user);
  }

  /** The body of `register-recruiter`. */
  datatype RecruiterRequest = RecruiterRequest(
    name: string, email: string, password: string, companyName: string, companyAddress: string)

  /** The company `register-recruiter` creates: name, address and creator; description and logo stay null, written as empty. */
  function RecruiterCompany(req: RecruiterRequest): Company {
    Company(0, req.companyName, "", req.companyAddress, "", req.email, NewRowActive)
  }

  /** The user `register-recruiter` creates, linked to company `companyId` and the recruiter role. */
  function RecruiterUser(req: RecruiterRequest, hash: string, companyId: int): UserService.UserRequest {
    UserService.UserRequest(0, req.email, req.name, hash, "", 0, None, "", "", Some(companyId), Some(RecruiterRole))
  }

  /**
   * `register-recruiter`: an e-mail in use is refused before anything is created. The company is
   * saved before the recruiter role is looked up, so a missing role fails with the company kept.
   */
  function RecruiterRegistered(t: Tables, req: RecruiterRequest, hash: string): (r: (Tables, Result<User, Error>))
    ensures ExistsByEmail(t.users, req.email) ==> r == (t, Err(EmailExists))
    ensures !ExistsByEmail(t.users, req.email) ==>
              |r.0.companies| == |t.companies| + 1 && r.0.companies[..|t.companies|] == t.companies
              && r.0.companies[|t.companies|].createdBy == req.email
              && r.0.companies[|t.companies|].name == req.companyName
              && (forall k :: 0 <= k < |t.companies| ==> t.companies[k].id < r.0.companies[|t.companies|].id)
    ensures r.0 == t.(companies := r.0.companies, users := r.0.users)
    ensures !ExistsByEmail(t.users, req.email) && FindRoleById(t.roles, RecruiterRole).Some? ==> r.1.Ok?
    ensures !ExistsByEmail(t.users, req.email) && FindRoleById(t.roles, RecruiterRole).None? ==>
              r.1 == Err(RecruiterRoleMissing) && r.0.users == t.users
    ensures r.1.Ok? ==>
              r.1.value.email == req.email && r.1.value.password == hash
              && r.1.value.role == Some(RecruiterRole)
              && r.1.value.company == Some(r.0.companies[|t.companies|].id)
              && r.0.users == t.users + [r.1.value]
  {
    if ExistsByEmail(t.users, req.email) then (t, Err(EmailExists))
    else
      var company := CompanyService.CompanyCreated(t.companies, RecruiterCompany(req));
      var t1 := t.(companies := t.companies + [company]);
      assert FindCompanyById(t1.companies, company.id).Some? by {
        assert t1.companies[|t.companies|].id == company.id;
      }
      if FindRoleById(t1.roles, RecruiterRole).None? then (t1, Err(RecruiterRoleMissing))
      else
        var user := UserService.CreatedUser(t1, RecruiterUser(req, hash, company.id));
        (t1.(users := t1.users + [user]), Ok(user))
  }

  method RegisterRecruiter(db: Database, req: RecruiterRequest, hash: string) returns (r: Result<User, Error>)
    modifies db
    ensures (db.Snapshot(), r) == RecruiterRegistered(old(db.Snapshot()), req, hash)
  {
    if ExistsByEmail(db.users, req.email) {
      return Err(EmailExists);
    }
    var company := CompanyService.HandleCreateCompany(db, RecruiterCompany(req));
    var hrRole := FindRoleById(db.roles, RecruiterRole);
    if hrRole.None? {
      return Err(RecruiterRoleMissing);
    }
    var user := UserService.HandleCreateUser(db, RecruiterUser(req, hash, company.id));
    return Ok(user);
  }

  // ---- the refresh-token life cycle ----

  /** `login`, given whether authentication succeeded and the refresh token minted for the user. */
  function LoggedIn(t: Tables, username: string, authenticated: bool, refreshToken: string)
    : (r: (Tables, Result<string, Error>))
    ensures !authenticated ==> r == (t, Err(BadCredentials))
    ensures authenticated ==>
              r.1 == Ok(refreshToken)
              && r.0 == t.(users := UserService.TokenUpdated(t.users, Some(refreshToken), username))
  {
    if !authenticated then (t, Err(BadCredentials))
    else (t.(users := UserService.TokenUpdated(t.users, Some(refreshToken), username)), Ok(refreshToken))
  }

  /** After a successful login the user with that name holds the new token. */
  lemma LoginStoresToken(t: Tables, username: string, refreshToken: string)
    requires FindByEmail(t.users, username).Some?
    ensures var users := LoggedIn(t, username, true, refreshToken).0.users;
            users[FindByEmail(t.users, username).value].refreshToken == Some(refreshToken)
  {
  }

  method Login(db: Database, username: string, authenticated: bool, refreshToken: string)
    returns (r: Result<string, Error>)
    modifies db
    ensures (db.Snapshot(), r) == LoggedIn(old(db.Snapshot()), username, authenticated, refreshToken)
  {
    if !authenticated {
      return Err(BadCredentials);
    }
    UserService.UpdateUserToken(db, Some(refreshToken), username);
    return Ok(refreshToken);
  }

  /**
   * `refresh`, given the cookie, the subject the JWT check decodes from it (`None` when the token
   * does not verify) and the newly minted token.
   */
  function Refreshed(t: Tables, cookie: string, subject: Option<string>, newToken: string)
    : (r: (Tables, Result<string, Error>))
    ensures cookie == DefaultCookie ==> r == (t, Err(NoRefreshCookie))
    ensures cookie != DefaultCookie && subject.None? ==> r == (t, Err(InvalidRefreshToken))
    ensures cookie != DefaultCookie && subject.Some?
            && UserService.GetUserByRefreshTokenAndEmail(t.users, cookie, subject.value).None? ==>
              r == (t, Err(InvalidRefreshToken))
    ensures cookie != DefaultCookie && subject.Some?
            && UserService.GetUserByRefreshTokenAndEmail(t.users, cookie, subject.value).Some? ==>
              r.1 == Ok(newToken)
    ensures r.1.Ok? ==>
              r.1.value == newToken && subject.Some?
              && (exists k :: 0 <= k < |t.users| && t.users[k].refreshToken == Some(cookie)
                                                  && t.users[k].email == subject.value)
              && r.0 == t.(users := UserService.TokenUpdated(t.users, Some(newToken), subject.value))
  {
    if cookie == DefaultCookie then (t, Err(NoRefreshCookie))
    else if subject.None? then (t, Err(InvalidRefreshToken))
    else if UserService.GetUserByRefreshTokenAndEmail(t.users, cookie, subject.value).None?
    then (t, Err(InvalidRefreshToken))
    else (t.(users := UserService.TokenUpdated(t.users, Some(newToken), subject.value)), Ok(newToken))
  }

  method GetRefreshToken(db: Database, cookie: string, subject: Option<string>, newToken: string)
    returns (r: Result<string, Error>)
    modifies db
    ensures (db.Snapshot(), r) == Refreshed(old(db.Snapshot()), cookie, subject, newToken)
  {
    if cookie == DefaultCookie {
      return Err(NoRefreshCookie);
    }
    if subject.None? {
      return Err(InvalidRefreshToken);
    }
    var email := subject.value;
    var currentUser := UserService.GetUserByRefreshTokenAndEmail(db.users, cookie, email);
    if currentUser.None? {
      return Err(InvalidRefreshToken);
    }
    UserService.UpdateUserToken(db, Some(newToken), email);
    return Ok(newToken);
  }

  ghost predicate UniqueEmails(users: seq<User>) {
    forall i, j :: 0 <= i < j < |users| ==> users[i].email != users[j].email
  }

  /**
   * Rotation: after a successful refresh with a different new token, the old token no longer
   * passes the stored-token check, and the new one does.
   */
  lemma {:induction false} RefreshRotatesToken(t: Tables, cookie: string, email: string, newToken: string)
    requires UniqueEmails(t.users)
    requires newToken != cookie
    requires Refreshed(t, cookie, Some(email), newToken).1.Ok?
    ensures var users := Refreshed(t, cookie, Some(email), newToken).0.users;
            && UserService.GetUserByRefreshTokenAndEmail(users, cookie, email).None?
            && UserService.GetUserByRefreshTokenAndEmail(users, newToken, email).Some?
  {
    var users := Refreshed(t, cookie, Some(email), newToken).0.users;
    var k := FindByEmail(t.users, email).value;
    assert users == t.users[k := t.users[k].(refreshToken := Some(newToken))];
    forall i | 0 <= i < |users| ensures users[i].refreshToken != Some(cookie) || users[i].email != email {
      if i != k && users[i].email == email {
        assert false;
      }
    }
    assert users[k].refreshToken == Some(newToken) && users[k].email == email;
  }

  /** `logout`, given the login of the current user (`None` without one). */
  function LoggedOut(t: Tables, currentLogin: Option<string>): (r: (Tables, Option<Error>))
    ensures currentLogin.GetOr("") == "" ==> r == (t, Some(InvalidAccessToken))
    ensures currentLogin.GetOr("") != "" ==>
              r == (t.(users := UserService.TokenUpdated(t.users, None, currentLogin.value)), None)
  {
    var email := currentLogin.GetOr("");
    if email == "" then (t, Some(InvalidAccessToken))
    else (t.(users := UserService.TokenUpdated(t.users, None, email)), None)
  }

  /** After logout the current user's stored token is null, so no refresh token of theirs passes. */
  lemma LogoutClearsToken(t: Tables, email: string, token: string)
    requires UniqueEmails(t.users)
    requires email != ""
    ensures UserService.GetUserByRefreshTokenAndEmail(LoggedOut(t, Some(email)).0.users, token, email).None?
  {
    var users := LoggedOut(t, Some(email)).0.users;
    if FindByEmail(t.users, email).Some? {
      var k := FindByEmail(t.users, email).value;
      forall i | 0 <= i < |users| ensures users[i].refreshToken != Some(token) || users[i].email != email {
        if i != k && users[i].email == email {
          assert false;
        }
      }
    } else {
      assert users == t.users;
    }
  }

  method Logout(db: Database, currentLogin: Option<string>) returns (failure: Option<Error>)
    modifies db
    ensures (db.Snapshot(), failure) == LoggedOut(old(db.Snapshot()), currentLogin)
  {
    var email := currentLogin.GetOr("");
    if email == "" {
      return Some(InvalidAccessToken);
    }
    UserService.UpdateUserToken(db, None, email);
    return None;
  }
}
