/**
 * The user service: creation and update (with company and role normalised to stored rows),
 * soft delete and restore with their cascades onto resumes and the recruiter's company,
 * and the refresh-token column.
 */
module UserService {
  import opened Wrappers
  import opened Seqs
  import opened Entities
  import opened Repositories

  /** A user as it arrives in a request body; `company` and `role` are the ids sent, if any. */
  datatype UserRequest = UserRequest(
    id: int, email: string, name: string, password: string, address: string, age: int,
    gender: Option<string>, avatar: string, cv: string, company: Option<int>, role: Option<int>)

  /** A referenced company, kept only when a row with that id exists. */
  function ResolvedCompany(companies: seq<Company>, company: Option<int>): (r: Option<int>)
    ensures r.Some? <==> company.Some? && exists k :: 0 <= k < |companies| && companies[k].id == company.value
    ensures r.Some? ==> r == company
  {
    if company.Some? && FindCompanyById(companies, company.value).Some? then company else None
  }

  /** A referenced role, kept only when a row with that id exists. */
  function ResolvedRole(roles: seq<Role>, role: Option<int>): (r: Option<int>)
    ensures r.Some? <==> role.Some? && exists k :: 0 <= k < |roles| && roles[k].id == role.value
    ensures r.Some? ==> r == role
  {
    if role.Some? && FindRoleById(roles, role.value).Some? then role else None
  }

  // ---- create ----

  /** The row `handleCreateUser` stores. */
  function CreatedUser(t: Tables, req: UserRequest): (u: User)
    ensures u.email == req.email && u.name == req.name && u.password == req.password
            && u.address == req.address && u.age == req.age && u.gender == req.gender
            && u.avatar == req.avatar && u.cv == req.cv && u.refreshToken == None
    ensures u.company == ResolvedCompany(t.companies, req.company)
    ensures u.role == ResolvedRole(t.roles, req.role)
    ensures forall k :: 0 <= k < |t.users| ==> t.users[k].id < u.id
  {
    User(NewUserId(t.users), req.email, req.name, req.password, req.address, req.age, req.gender,
         req.avatar, req.cv, ResolvedCompany(t.companies, req.company), ResolvedRole(t.roles, req.role),
         None, NewRowActive)
  }

  method HandleCreateUser(db: Database, req: UserRequest) returns (user: User)
    modifies db
    ensures user == CreatedUser(old(db.Snapshot()), req)
    ensures db.Snapshot() == old(db.Snapshot()).(users := old(db.users) + [user])
  {
    var company := req.company;
    if company.Some? {
      var found := FindCompanyById(db.companies, company.value);
      company := if found.Some? then company else None;
    }
    var role := req.role;
    if role.Some? {
      var found := FindRoleById(db.roles, role.value);
      role := if found.Some? then role else None;
    }
    user := User(NewUserId(db.users), req.email, req.name, req.password, req.address, req.age,
                 req.gender, req.avatar, req.cv, company, role, None, NewRowActive);
    db.users := db.users + [user];
  }

  // ---- update ----

  /** The user table and the result of `handleUpdateUser(req)`; `None` for an unknown id. */
  function UserUpdated(t: Tables, req: UserRequest): (r: (seq<User>, Option<User>))
    ensures |r.0| == |t.users|
    ensures FindUserById(t.users, req.id).None? ==> r == (t.users, None)
    ensures FindUserById(t.users, req.id).Some? ==>
              var k := FindUserById(t.users, req.id).value;
              var old_ := t.users[k];
              var u := r.0[k];
              r.1 == Some(u) && |r.0| == |t.users| && r.0 == t.users[k := u]
              && u.address == req.address && u.age == req.age && u.name == req.name
              && u.avatar == req.avatar && u.cv == req.cv
              && u.gender == (if req.gender.Some? then req.gender else old_.gender)
              && u.company == (if req.company.Some? then ResolvedCompany(t.companies, req.company) else old_.company)
              && u.role == (if req.role.Some? then ResolvedRole(t.roles, req.role) else old_.role)
              && u.id == old_.id && u.email == old_.email && u.password == old_.password
              && u.refreshToken == old_.refreshToken && u.active == old_.active
  {
    match FindUserById(t.users, req.id)
    case None => (t.users, None)
    case Some(k) =>
      var old_ := t.users[k];
      var u := old_.(address := req.address,
                     gender := if req.gender.Some? then req.gender else old_.gender,
                     age := req.age, name := req.name, avatar := req.avatar, cv := req.cv,
                     company := if req.company.Some? then ResolvedCompany(t.companies, req.company) else old_.company,
                     role := if req.role.Some? then ResolvedRole(t.roles, req.role) else old_.role);
      (t.users[k := u], Some(u))
  }

  method HandleUpdateUser(db: Database, req: UserRequest) returns (result: Option<User>)
    modifies db
    ensures (db.users, result) == UserUpdated(old(db.Snapshot()), req)
    ensures db.Snapshot() == old(db.Snapshot()).(users := db.users)
  {
    var found := FindUserById(db.users, req.id);
    if found.None? {
      return None;
    }
    var currentUser := db.users[found.value];
    currentUser := currentUser.(address := req.address);
    if req.gender.Some? {
      currentUser := currentUser.(gender := req.gender);
    }
    currentUser := currentUser.(age := req.age, name := req.name, avatar := req.avatar, cv := req.cv);
    if req.company.Some? {
      var company := FindCompanyById(db.companies, req.company.value);
      currentUser := currentUser.(company := if company.Some? then req.company else None);
    }
    if req.role.Some? {
      var role := FindRoleById(db.roles, req.role.value);
      currentUser := currentUser.(role := if role.Some? then req.role else None);
    }
    db.users := db.users[found.value := currentUser];
    return Some(currentUser);
  }

  // ---- soft delete and restore ----

  /** The user is a recruiter (role id 2) attached to a company. */
  predicate RecruiterWithCompany(u: User) {
    u.company.Some? && u.role == Some(RecruiterRole)
  }

  /** Some active user of company `c` other than the one at row `k` remains. */
  predicate HasOtherActiveUser(users: seq<User>, c: int, k: nat)
    ensures UniqueKeys(users, (u: User) => u.id) && k < |users| ==>
              (HasOtherActiveUser(users, c, k) <==>
                 exists u :: u in FindByCompanyAndActiveTrue(users, c) && u.id != users[k].id)
  {
    OtherActiveUserListed(users, c, k);
    exists i :: 0 <= i < |users| && i != k && users[i].company == Some(c) && users[i].active
  }

  /**
   * With unique ids, another active user of the company at a row other than `k` is exactly a
   * member of `findByCompanyAndActiveTrue(company)` left after removing row `k`'s user.
   */
  lemma OtherActiveUserListed(users: seq<User>, c: int, k: nat)
    ensures UniqueKeys(users, (u: User) => u.id) && k < |users| ==>
              ((exists i :: 0 <= i < |users| && i != k && users[i].company == Some(c) && users[i].active)
               <==> exists u :: u in FindByCompanyAndActiveTrue(users, c) && u.id != users[k].id)
  {
    if UniqueKeys(users, (u: User) => u.id) && k < |users| {
      var listed := FindByCompanyAndActiveTrue(users, c);
      if exists i :: 0 <= i < |users| && i != k && users[i].company == Some(c) && users[i].active {
        var i :| 0 <= i < |users| && i != k && users[i].company == Some(c) && users[i].active;
        assert users[i] in listed;
        assert users[i].id != users[k].id;
      }
      if exists u :: u in listed && u.id != users[k].id {
        var u :| u in listed && u.id != users[k].id;
        var i :| 0 <= i < |users| && users[i] == u;
        assert i != k;
      }
    }
  }

  /** Every resume of user `userId`, active or not, gets the flag `active`. */
  function ResumesOfUserSet(resumes: seq<Resume>, userId: int, active: bool): (r: seq<Resume>)
    ensures |r| == |resumes|
    ensures forall i :: 0 <= i < |r| && resumes[i].user == Some(userId) ==> r[i] == resumes[i].(active := active)
    ensures forall i :: 0 <= i < |r| && resumes[i].user != Some(userId) ==> r[i] == resumes[i]
  {
    seq(|resumes|, i requires 0 <= i < |resumes| =>
      if resumes[i].user == Some(userId) then resumes[i].(active := active) else resumes[i])
  }

  /** Company `c`, when stored, gets the flag `active`. */
  function CompanySet(companies: seq<Company>, c: int, active: bool): (r: seq<Company>)
    ensures |r| == |companies|
    ensures FindCompanyById(companies, c).None? ==> r == companies
    ensures FindCompanyById(companies, c).Some? ==>
              var j := FindCompanyById(companies, c).value;
              r == companies[j := companies[j].(active := active)]
  {
    match FindCompanyById(companies, c)
    case None => companies
    case Some(j) => companies[j := companies[j].(active := active)]
  }

  /** Whether deleting the user at row `k` also deactivates the user's company. */
  predicate DeleteClosesCompany(users: seq<User>, k: nat)
    requires k < |users|
  {
    RecruiterWithCompany(users[k]) && !HasOtherActiveUser(users, users[k].company.value, k)
  }

  /** The store after `handleDeleteUser(id)`. */
  function UserDeleted(t: Tables, id: int): (r: Tables)
    ensures FindUserById(t.users, id).None? ==> r == t
    ensures FindUserById(t.users, id).Some? ==>
              var k := FindUserById(t.users, id).value;
              var u := t.users[k];
              r == t.(users := t.users[k := u.(active := false)],
                      resumes := ResumesOfUserSet(t.resumes, id, false),
                      companies := r.companies)
              && (DeleteClosesCompany(t.users, k) ==> r.companies == CompanySet(t.companies, u.company.value, false))
              && (!DeleteClosesCompany(t.users, k) ==> r.companies == t.companies)
  {
    match FindUserById(t.users, id)
    case None => t
    case Some(k) =>
      var u := t.users[k];
      t.(users := t.users[k := u.(active := false)],
         resumes := ResumesOfUserSet(t.resumes, u.id, false),
         companies := if DeleteClosesCompany(t.users, k) then CompanySet(t.companies, u.company.value, false)
                      else t.companies)
  }

  /** Deleting a user who is not a recruiter with a company leaves every company as it was. */
  lemma DeleteNonRecruiterKeepsCompanies(t: Tables, id: int)
    requires FindUserById(t.users, id).Some? ==> !RecruiterWithCompany(t.users[FindUserById(t.users, id).value])
    ensures UserDeleted(t, id).companies == t.companies
  {
  }

  method HandleDeleteUser(db: Database, id: int)
    modifies db
    ensures db.Snapshot() == UserDeleted(old(db.Snapshot()), id)
  {
    var found := FindUserById(db.users, id);
    if found.None? {
      return;
    }
    var k := found.value;
    var user := db.users[k];
    db.users := db.users[k := user.(active := false)];
    SetResumesOfUser(db, user.id, false);
    if user.company.Some? && user.role == Some(RecruiterRole) {
      var otherHRs := HasOtherActiveUser(db.users, user.company.value, k);
      assert forall i :: 0 <= i < |db.users| && i != k ==> db.users[i] == old(db.users)[i];
      assert otherHRs == HasOtherActiveUser(old(db.users), user.company.value, k);
      if !otherHRs {
        SetCompany(db, user.company.value, false);
      }
    }
  }

  /** The loop over a user's resumes, setting each one's flag. */
  method SetResumesOfUser(db: Database, userId: int, active: bool)
    modifies db
    ensures db.Snapshot() == old(db.Snapshot()).(resumes := ResumesOfUserSet(old(db.resumes), userId, active))
  {
    ghost var target := ResumesOfUserSet(db.resumes, userId, active);
    var i := 0;
    while i < |db.resumes|
      modifies db`resumes
      invariant 0 <= i <= |db.resumes| == |target|
      invariant forall j :: 0 <= j < i ==> db.resumes[j] == target[j]
      invariant forall j :: i <= j < |db.resumes| ==> db.resumes[j] == old(db.resumes)[j]
    {
      var resume := db.resumes[i];
      if resume.user == Some(userId) {
        db.resumes := db.resumes[i := resume.(active := active)];
      }
      i := i + 1;
    }
    assert db.resumes == target;
  }

  method SetCompany(db: Database, c: int, active: bool)
    modifies db
    ensures db.Snapshot() == old(db.Snapshot()).(companies := CompanySet(old(db.companies), c, active))
  {
    var found := FindCompanyById(db.companies, c);
    if found.Some? {
      db.companies := db.companies[found.value := db.companies[found.value].(active := active)];
    }
  }

  /** Whether restoring the user at row `k` also reactivates the user's company. */
  predicate RestoreOpensCompany(t: Tables, k: nat)
    requires k < |t.users|
  {
    var u := t.users[k];
    RecruiterWithCompany(u) && FindByCompanyAndActiveTrue(t.users, u.company.value) == []
    && FindCompanyById(t.companies, u.company.value).Some?
    && !t.companies[FindCompanyById(t.companies, u.company.value).value].active
  }

  /** The store and the result of `restoreUser(id)`; `None` unless the user exists and is inactive. */
  function UserRestored(t: Tables, id: int): (r: (Tables, Option<User>))
    ensures FindUserByIdAndActiveFalse(t.users, id).None? ==> r == (t, None)
    ensures FindUserByIdAndActiveFalse(t.users, id).Some? ==>
              var k := FindUserByIdAndActiveFalse(t.users, id).value;
              var u := t.users[k];
              r.1 == Some(u.(active := true))
              && r.0 == t.(users := t.users[k := u.(active := true)],
                           resumes := ResumesOfUserSet(t.resumes, id, true),
                           companies := r.0.companies)
              && (RestoreOpensCompany(t, k) ==> r.0.companies == CompanySet(t.companies, u.company.value, true))
              && (!RestoreOpensCompany(t, k) ==> r.0.companies == t.companies)
  {
    match FindUserByIdAndActiveFalse(t.users, id)
    case None => (t, None)
    case Some(k) =>
      var u := t.users[k];
      (t.(users := t.users[k := u.(active := true)],
          resumes := ResumesOfUserSet(t.resumes, u.id, true),
          companies := if RestoreOpensCompany(t, k) then CompanySet(t.companies, u.company.value, true)
                       else t.companies),
       Some(u.(active := true)))
  }

  method RestoreUser(db: Database, id: int) returns (result: Option<User>)
    modifies db
    ensures (db.Snapshot(), result) == UserRestored(old(db.Snapshot()), id)
  {
    var found := FindUserByIdAndActiveFalse(db.users, id);
    if found.None? {
      return None;
    }
    var k := found.value;
    var user := db.users[k];
    SetResumesOfUser(db, user.id, true);
    if user.company.Some? && user.role == Some(RecruiterRole) {
      var otherHRs := FindByCompanyAndActiveTrue(db.users, user.company.value);
      var company := FindCompanyById(db.companies, user.company.value);
      if otherHRs == [] && company.Some? && !db.companies[company.value].active {
        SetCompany(db, user.company.value, true);
      }
    }
    db.users := db.users[k := user.(active := true)];
    return Some(user.(active := true));
  }

  /**
   * Deleting a user and then restoring it leaves the user and all of their resumes active,
   * and reopens the company the delete closed.
   */
  lemma {:induction false} DeleteThenRestore(t: Tables, id: int)
    requires UniqueKeys(t.users, (u: User) => u.id)
    requires FindUserById(t.users, id).Some?
    ensures var k := FindUserById(t.users, id).value;
            var t' := UserRestored(UserDeleted(t, id), id).0;
            && t'.users[k].active
            && (forall i :: 0 <= i < |t'.resumes| && t.resumes[i].user == Some(id) ==> t'.resumes[i].active)
            && (DeleteClosesCompany(t.users, k) ==>
                  var j := FindCompanyById(t.companies, t.users[k].company.value);
                  j.Some? ==> t'.companies[j.value].active)
  {
    var k := FindUserById(t.users, id).value;
    var t1 := UserDeleted(t, id);
    assert forall i :: 0 <= i < |t1.users| ==> t1.users[i].id == t.users[i].id;
    assert FindUserByIdAndActiveFalse(t1.users, id) == Some(k);
    if DeleteClosesCompany(t.users, k) && FindCompanyById(t.companies, t.users[k].company.value).Some? {
      ClosedCompanyReopens(t, id);
    }
  }

  /** A company closed by deleting its last active recruiter is reopened by restoring that user. */
  lemma ClosedCompanyReopens(t: Tables, id: int)
    requires FindUserById(t.users, id).Some?
    requires DeleteClosesCompany(t.users, FindUserById(t.users, id).value)
    requires FindCompanyById(t.companies, t.users[FindUserById(t.users, id).value].company.value).Some?
    ensures var k := FindUserById(t.users, id).value;
            var c := t.users[k].company.value;
            && FindCompanyById(UserDeleted(t, id).companies, c) == FindCompanyById(t.companies, c)
            && RestoreOpensCompany(UserDeleted(t, id), k)
  {
    var k := FindUserById(t.users, id).value;
    var t1 := UserDeleted(t, id);
    var c := t.users[k].company.value;
    var j := FindCompanyById(t.companies, c);
    assert forall i :: 0 <= i < |t1.companies| ==> t1.companies[i].id == t.companies[i].id;
    assert FindCompanyById(t1.companies, c) == j;
    assert !t1.companies[j.value].active;
    forall u | u in t1.users ensures !(u.company == Some(c) && u.active) {
      var i :| 0 <= i < |t1.users| && t1.users[i] == u;
    }
    FilterNone(t1.users, (u: User) => u.company == Some(c) && u.active);
  }

  // ---- the refresh-token column ----

  /** `updateUserToken(token, email)`: the user with that e-mail gets the token (`None` is null). */
  function TokenUpdated(users: seq<User>, token: Option<string>, email: string): (r: seq<User>)
    ensures FindByEmail(users, email).None? ==> r == users
    ensures FindByEmail(users, email).Some? ==>
              var k := FindByEmail(users, email).value;
              r == users[k := users[k].(refreshToken := token)]
  {
    match FindByEmail(users, email)
    case None => users
    case Some(k) => users[k := users[k].(refreshToken := token)]
  }

  method UpdateUserToken(db: Database, token: Option<string>, email: string)
    modifies db
    ensures db.Snapshot() == old(db.Snapshot()).(users := TokenUpdated(old(db.users), token, email))
  {
    var found := FindByEmail(db.users, email);
    if found.Some? {
      var currentUser := db.users[found.value];
      db.users := db.users[found.value := currentUser.(refreshToken := token)];
    }
  }

  function GetUserByRefreshTokenAndEmail(users: seq<User>, token: string, email: string): (r: Option<User>)
    ensures r.Some? ==> r.value in users && r.value.refreshToken == Some(token) && r.value.email == email
    ensures r.None? <==> forall k :: 0 <= k < |users| ==>
                           users[k].refreshToken != Some(token) || users[k].email != email
  {
    match FindByRefreshTokenAndEmail(users, token, email)
    case None => None
    case Some(k) => Some(users[k])
  }
}
