/**
 * The company service: create, the four-field update, and the soft delete and restore that
 * cascade onto the company's jobs and users.
 */
module CompanyService {
  import opened Wrappers
  import opened Seqs
  import opened Entities
  import opened Repositories

  /** The fields of a company that an update request may change. */
  datatype CompanyRequest = CompanyRequest(id: int, name: string, description: string, address: string, logo: string)

  /** `handleCreateCompany(c)` stores `c` as sent, under a fresh id. */
  function CompanyCreated(companies: seq<Company>, c: Company): (r: Company)
    ensures r == c.(id := r.id)
    ensures forall k :: 0 <= k < |companies| ==> companies[k].id < r.id
  {
    c.(id := NewCompanyId(companies))
  }

  method HandleCreateCompany(db: Database, c: Company) returns (company: Company)
    modifies db
    ensures company == CompanyCreated(old(db.companies), c)
    ensures db.Snapshot() == old(db.Snapshot()).(companies := old(db.companies) + [company])
  {
    company := c.(id := NewCompanyId(db.companies));
    db.companies := db.companies + [company];
  }

  /** The company table and result of `handleUpdateCompany(req)`; `None` for an unknown id. */
  function CompanyUpdated(companies: seq<Company>, req: CompanyRequest): (r: (seq<Company>, Option<Company>))
    ensures FindCompanyById(companies, req.id).None? ==> r == (companies, None)
    ensures FindCompanyById(companies, req.id).Some? ==>
              var k := FindCompanyById(companies, req.id).value;
              r.1.Some? && r.0 == companies[k := r.1.value]
              && r.1.value == companies[k].(logo := req.logo, name := req.name,
                                            description := req.description, address := req.address)
              && r.1.value.active == companies[k].active && r.1.value.id == companies[k].id
  {
    match FindCompanyById(companies, req.id)
    case None => (companies, None)
    case Some(k) =>
      var c := companies[k].(logo := req.logo, name := req.name, description := req.description,
                             address := req.address);
      (companies[k := c], Some(c))
  }

  method HandleUpdateCompany(db: Database, req: CompanyRequest) returns (result: Option<Company>)
    modifies db
    ensures (db.companies, result) == CompanyUpdated(old(db.companies), req)
    ensures db.Snapshot() == old(db.Snapshot()).(companies := db.companies)
  {
    var found := FindCompanyById(db.companies, req.id);
    if found.None? {
      return None;
    }
    var currentCompany := db.companies[found.value];
    currentCompany := currentCompany.(logo := req.logo);
    currentCompany := currentCompany.(name := req.name);
    currentCompany := currentCompany.(description := req.description);
    currentCompany := currentCompany.(address := req.address);
    db.companies := db.companies[found.value := currentCompany];
    return Some(currentCompany);
  }

  // ---- soft delete and restore ----

  /** Every job of company `c` gets the flag `active`. */
  function JobsOfCompanySet(jobs: seq<Job>, c: int, active: bool): (r: seq<Job>)
    ensures |r| == |jobs|
    ensures forall i :: 0 <= i < |r| && jobs[i].company == Some(c) ==> r[i] == jobs[i].(active := active)
    ensures forall i :: 0 <= i < |r| && jobs[i].company != Some(c) ==> r[i] == jobs[i]
  {
    seq(|jobs|, i requires 0 <= i < |jobs| =>
      if jobs[i].company == Some(c) then jobs[i].(active := active) else jobs[i])
  }

  /** Every user of company `c` (`findByCompany`) gets the flag `active`. */
  function UsersOfCompanySet(users: seq<User>, c: int, active: bool): (r: seq<User>)
    ensures |r| == |users|
    ensures forall i :: 0 <= i < |r| && users[i].company == Some(c) ==> r[i] == users[i].(active := active)
    ensures forall i :: 0 <= i < |r| && users[i].company != Some(c) ==> r[i] == users[i]
  {
    seq(|users|, i requires 0 <= i < |users| =>
      if users[i].company == Some(c) then users[i].(active := active) else users[i])
  }

  /** The store after `handleDeleteCompany(id)`; resumes are not touched. */
  function CompanyDeleted(t: Tables, id: int): (r: Tables)
    ensures FindCompanyById(t.companies, id).None? ==> r == t
    ensures FindCompanyById(t.companies, id).Some? ==>
              var k := FindCompanyById(t.companies, id).value;
              r == t.(jobs := JobsOfCompanySet(t.jobs, id, false),
                      users := UsersOfCompanySet(t.users, id, false),
                      companies := t.companies[k := t.companies[k].(active := false)])
  {
    match FindCompanyById(t.companies, id)
    case None => t
    case Some(k) =>
      t.(jobs := JobsOfCompanySet(t.jobs, id, false),
         users := UsersOfCompanySet(t.users, id, false),
         companies := t.companies[k := t.companies[k].(active := false)])
  }

  /** The store and result of `restoreCompany(id)`; `None` unless the company exists and is inactive. */
  function CompanyRestored(t: Tables, id: int): (r: (Tables, Option<Company>))
    ensures FindCompanyByIdAndActiveFalse(t.companies, id).None? ==> r == (t, None)
    ensures FindCompanyByIdAndActiveFalse(t.companies, id).Some? ==>
              var k := FindCompanyByIdAndActiveFalse(t.companies, id).value;
              r.1 == Some(t.companies[k].(active := true))
              && r.0 == t.(jobs := JobsOfCompanySet(t.jobs, id, true),
                           users := UsersOfCompanySet(t.users, id, true),
                           companies := t.companies[k := t.companies[k].(active := true)])
  {
    match FindCompanyByIdAndActiveFalse(t.companies, id)
    case None => (t, None)
    case Some(k) =>
      var c := t.companies[k].(active := true);
      (t.(jobs := JobsOfCompanySet(t.jobs, id, true),
          users := UsersOfCompanySet(t.users, id, true),
          companies := t.companies[k := c]),
       Some(c))
  }

  /**
   * Deleting a company and then restoring it leaves the company and all of its jobs and users
   * active, including ones that had been deactivated individually before.
   */
  lemma {:induction false} DeleteThenRestore(t: Tables, id: int)
    requires UniqueKeys(t.companies, (c: Company) => c.id)
    requires FindCompanyById(t.companies, id).Some?
    ensures var k := FindCompanyById(t.companies, id).value;
            var t' := CompanyRestored(CompanyDeleted(t, id), id).0;
            && t'.companies[k].active
            && (forall i :: 0 <= i < |t'.jobs| && t.jobs[i].company == Some(id) ==> t'.jobs[i].active)
            && (forall i :: 0 <= i < |t'.users| && t.users[i].company == Some(id) ==> t'.users[i].active)
            && t'.resumes == t.resumes
  {
    var k := FindCompanyById(t.companies, id).value;
    var t1 := CompanyDeleted(t, id);
    assert forall i :: 0 <= i < |t1.companies| ==> t1.companies[i].id == t.companies[i].id;
    assert FindCompanyByIdAndActiveFalse(t1.companies, id) == Some(k);
  }

  method HandleDeleteCompany(db: Database, id: int)
    modifies db
    ensures db.Snapshot() == CompanyDeleted(old(db.Snapshot()), id)
  {
    var found := FindCompanyById(db.companies, id);
    if found.None? {
      return;
    }
    SetJobsOfCompany(db, id, false);
    SetUsersOfCompany(db, id, false);
    db.companies := db.companies[found.value := db.companies[found.value].(active := false)];
  }

  method RestoreCompany(db: Database, id: int) returns (result: Option<Company>)
    modifies db
    ensures (db.Snapshot(), result) == CompanyRestored(old(db.Snapshot()), id)
  {
    var found := FindCompanyByIdAndActiveFalse(db.companies, id);
    if found.None? {
      return None;
    }
    SetJobsOfCompany(db, id, true);
    SetUsersOfCompany(db, id, true);
    var company := db.companies[found.value].(active := true);
    db.companies := db.companies[found.value := company];
    return Some(company);
  }

  /** The loop over the company's jobs. */
  method SetJobsOfCompany(db: Database, c: int, active: bool)
    modifies db
    ensures db.Snapshot() == old(db.Snapshot()).(jobs := JobsOfCompanySet(old(db.jobs), c, active))
  {
    ghost var target := JobsOfCompanySet(db.jobs, c, active);
    var i := 0;
    while i < |db.jobs|
      modifies db`jobs
      invariant 0 <= i <= |db.jobs| == |target|
      invariant forall j :: 0 <= j < i ==> db.jobs[j] == target[j]
      invariant forall j :: i <= j < |db.jobs| ==> db.jobs[j] == old(db.jobs)[j]
    {
      var job := db.jobs[i];
      if job.company == Some(c) {
        db.jobs := db.jobs[i := job.(active := active)];
      }
      i := i + 1;
    }
    assert db.jobs == target;
  }

  /** The loop over the company's users. */
  method SetUsersOfCompany(db: Database, c: int, active: bool)
    modifies db
    ensures db.Snapshot() == old(db.Snapshot()).(users := UsersOfCompanySet(old(db.users), c, active))
  {
    ghost var target := UsersOfCompanySet(db.users, c, active);
    var i := 0;
    while i < |db.users|
      modifies db`users
      invariant 0 <= i <= |db.users| == |target|
      invariant forall j :: 0 <= j < i ==> db.users[j] == target[j]
      invariant forall j :: i <= j < |db.users| ==> db.users[j] == old(db.users)[j]
    {
      var user := db.users[i];
      if user.company == Some(c) {
        db.users := db.users[i := user.(active := active)];
      }
      i := i + 1;
    }
    assert db.users == target;
  }
}
