/**
 * The resume service: the admission check for a new application, soft delete, the fetch
 * projection, the active-only listing and the sweep that closes jobs whose quota is filled.
 */
module ResumeService {
  import opened Wrappers
  import opened Seqs
  import opened Entities
  import opened Repositories

  // ---- admission of a new application ----

  /**
   * `checkResumeExistByUserAndJob`: false when the user or the job is missing or unknown,
   * an error when that user already applied for that job (active or not), true otherwise.
   */
  function CheckResumeExistByUserAndJob(t: Tables, userId: Option<int>, jobId: Option<int>)
    : (r: Result<bool, Error>)
    ensures r == Ok(false) <==>
              userId.None? || FindUserById(t.users, userId.value).None?
              || jobId.None? || FindJobById(t.jobs, jobId.value).None?
    ensures r.Err? ==> r.error == AlreadyApplied
    ensures r.Err? <==>
              userId.Some? && jobId.Some?
              && (exists i :: 0 <= i < |t.users| && t.users[i].id == userId.value)
              && (exists i :: 0 <= i < |t.jobs| && t.jobs[i].id == jobId.value)
              && (exists i :: 0 <= i < |t.resumes| && t.resumes[i].user == userId
                                                    && t.resumes[i].job == jobId)
    ensures r == Ok(true) ==>
              forall i :: 0 <= i < |t.resumes| ==> t.resumes[i].user != userId || t.resumes[i].job != jobId
  {
    if userId.None? || FindUserById(t.users, userId.value).None? then Ok(false)
    else if jobId.None? || FindJobById(t.jobs, jobId.value).None? then Ok(false)
    else if ExistsByUserIdAndJobId(t.resumes, userId.value, jobId.value) then Err(AlreadyApplied)
    else Ok(true)
  }

  // ---- soft delete ----

  /** The resume table after `delete(id)`: the resume is kept but made inactive. */
  function ResumeDeleted(resumes: seq<Resume>, id: int): (r: seq<Resume>)
    ensures |r| == |resumes|
    ensures FindResumeById(resumes, id).None? ==> r == resumes
    ensures FindResumeById(resumes, id).Some? ==>
              var k := FindResumeById(resumes, id).value;
              r == resumes[k := resumes[k].(active := false)] && !r[k].active
  {
    match FindResumeById(resumes, id)
    case None => resumes
    case Some(k) => resumes[k := resumes[k].(active := false)]
  }

  lemma ResumeDeletedIdempotent(resumes: seq<Resume>, id: int)
    ensures ResumeDeleted(ResumeDeleted(resumes, id), id) == ResumeDeleted(resumes, id)
  {
    var r := ResumeDeleted(resumes, id);
    if FindResumeById(resumes, id).Some? {
      var k := FindResumeById(resumes, id).value;
      assert forall i :: 0 <= i < |r| ==> r[i].id == resumes[i].id;
      assert FindResumeById(r, id) == Some(k);
    } else {
      assert r == resumes;
    }
  }

  method Delete(db: Database, id: int)
    modifies db
    ensures db.Snapshot() == old(db.Snapshot()).(resumes := ResumeDeleted(old(db.resumes), id))
  {
    var found := FindResumeById(db.resumes, id);
    if found.Some? {
      var resume := db.resumes[found.value];
      db.resumes := db.resumes[found.value := resume.(active := false)];
    }
  }

  // ---- the fetch projection ----

  datatype ResumeDto = ResumeDto(
    id: int, email: string, url: string, status: ResumeState,
    createdAt: int, createdBy: string, updatedAt: int, updatedBy: string,
    companyName: Option<string>, userId: int, userName: string, jobId: int, jobName: string)

  /**
   * `getResume`: the projection of a resume with its applicant, job and the job's company.
   * The user, the job and the job's company are all dereferenced, so a missing one fails.
   */
  function GetResume(t: Tables, res: Resume): (r: Result<ResumeDto, Error>)
    ensures r.Err? <==>
              res.user.None? || res.job.None?
              || FindUserById(t.users, res.user.value).None?
              || FindJobById(t.jobs, res.job.value).None?
              || t.jobs[FindJobById(t.jobs, res.job.value).value].company.None?
              || FindCompanyById(t.companies,
                   t.jobs[FindJobById(t.jobs, res.job.value).value].company.value).None?
    ensures r.Ok? ==>
              && r.value.id == res.id && r.value.email == res.email && r.value.url == res.url
              && r.value.status == res.status
              && r.value.createdAt == res.audit.createdAt && r.value.createdBy == res.audit.createdBy
              && r.value.updatedAt == res.audit.updatedAt && r.value.updatedBy == res.audit.updatedBy
              && Some(r.value.userId) == res.user && Some(r.value.jobId) == res.job
              && r.value.userName == t.users[FindUserById(t.users, res.user.value).value].name
              && r.value.jobName == t.jobs[FindJobById(t.jobs, res.job.value).value].name
              && var job := t.jobs[FindJobById(t.jobs, res.job.value).value];
                 r.value.companyName
                 == Some(t.companies[FindCompanyById(t.companies, job.company.value).value].name)
  {
    if res.user.None? || res.job.None? then Err(MissingReference)
    else if FindUserById(t.users, res.user.value).None? then Err(MissingReference)
    else if FindJobById(t.jobs, res.job.value).None? then Err(MissingReference)
    else
      var user := t.users[FindUserById(t.users, res.user.value).value];
      var job := t.jobs[FindJobById(t.jobs, res.job.value).value];
      if job.company.None? || FindCompanyById(t.companies, job.company.value).None? then Err(MissingReference)
      else
        var company := t.companies[FindCompanyById(t.companies, job.company.value).value];
        Ok(ResumeDto(res.id, res.email, res.url, res.status,
                     res.audit.createdAt, res.audit.createdBy, res.audit.updatedAt, res.audit.updatedBy,
                     Some(company.name), user.id, user.name, job.id, job.name))
  }

  /** The projections of `rs`, in order, or the first failure. */
  function GetResumes(t: Tables, rs: seq<Resume>): (r: Result<seq<ResumeDto>, Error>)
    ensures r.Ok? ==> |r.value| == |rs|
                      && forall i :: 0 <= i < |rs| ==> GetResume(t, rs[i]) == Ok(r.value[i])
    ensures r.Err? ==> exists i :: 0 <= i < |rs| && GetResume(t, rs[i]).Err?
  {
    if rs == [] then Ok([])
    else match (GetResume(t, rs[0]), GetResumes(t, rs[1..]))
      case (Ok(d), Ok(ds)) => Ok([d] + ds)
      case (Err(e), _) => Err(e)
      case (_, Err(e)) =>
        assert exists i :: 0 <= i < |rs[1..]| && GetResume(t, rs[1..][i]).Err?;
        var i :| 0 <= i < |rs[1..]| && GetResume(t, rs[1..][i]).Err?;
        assert GetResume(t, rs[i + 1]).Err?;
        Err(e)
  }

  /** `fetchAllResume`: the caller's filter, restricted to active resumes, then projected. */
  function FetchAllResume(t: Tables, spec: Resume -> bool): (r: Result<seq<ResumeDto>, Error>)
    ensures r.Ok? ==>
              forall d :: d in r.value ==>
                exists x :: x in t.resumes && x.active && spec(x) && d.id == x.id && GetResume(t, x) == Ok(d)
    ensures r.Ok? ==>
              forall x :: x in t.resumes && x.active && spec(x) ==> GetResume(t, x).Ok? && GetResume(t, x).value in r.value
  {
    var selected := Filter(t.resumes, (x: Resume) => x.active && spec(x));
    GetResumesFrom(t, selected);
    GetResumes(t, selected)
  }

  lemma GetResumesFrom(t: Tables, rs: seq<Resume>)
    ensures GetResumes(t, rs).Ok? ==>
              forall d :: d in GetResumes(t, rs).value ==>
                exists x :: x in rs && d.id == x.id && GetResume(t, x) == Ok(d)
    ensures GetResumes(t, rs).Ok? ==>
              forall x :: x in rs ==> GetResume(t, x).Ok? && GetResume(t, x).value in GetResumes(t, rs).value
  {
    var r := GetResumes(t, rs);
    if r.Ok? {
      forall d | d in r.value
        ensures exists x :: x in rs && d.id == x.id && GetResume(t, x) == Ok(d)
      {
        var i :| 0 <= i < |r.value| && r.value[i] == d;
        assert rs[i] in rs;
      }
      forall x | x in rs
        ensures GetResume(t, x).Ok? && GetResume(t, x).value in r.value
      {
        var i :| 0 <= i < |rs| && rs[i] == x;
        assert r.value[i] in r.value;
      }
    }
  }

  // ---- closing jobs whose hiring quota is filled ----

  /** The job filled its quota: its HIRED resumes number at least its quantity. */
  predicate QuotaFilled(resumes: seq<Resume>, job: Job)
    ensures job.quantity <= 0 ==> QuotaFilled(resumes, job)
    ensures |resumes| < job.quantity ==> !QuotaFilled(resumes, job)
  {
    CountByJobIdAndStatus(resumes, job.id, Hired) >= job.quantity
  }

  /** The job table after `autoDeactivateJobsWhenHiredFull`. */
  function HiredFullSwept(jobs: seq<Job>, resumes: seq<Resume>): (r: seq<Job>)
    ensures |r| == |jobs|
    ensures forall k :: 0 <= k < |r| ==> r[k] == jobs[k].(active := r[k].active)
    ensures forall k :: 0 <= k < |r| && r[k].active ==> !QuotaFilled(resumes, r[k])
    ensures forall k :: 0 <= k < |r| && (!jobs[k].active || !QuotaFilled(resumes, jobs[k])) ==>
              r[k] == jobs[k]
  {
    seq(|jobs|, k requires 0 <= k < |jobs| =>
      if jobs[k].active && QuotaFilled(resumes, jobs[k]) then jobs[k].(active := false) else jobs[k])
  }

  lemma HiredFullSweptIdempotent(jobs: seq<Job>, resumes: seq<Resume>)
    ensures HiredFullSwept(HiredFullSwept(jobs, resumes), resumes) == HiredFullSwept(jobs, resumes)
  {
  }

  method AutoDeactivateJobsWhenHiredFull(db: Database)
    modifies db
    ensures db.Snapshot() == old(db.Snapshot()).(jobs := HiredFullSwept(old(db.jobs), old(db.resumes)))
  {
    ghost var target := HiredFullSwept(db.jobs, db.resumes);
    var i := 0;
    while i < |db.jobs|
      modifies db`jobs
      invariant 0 <= i <= |db.jobs| == |target|
      invariant forall k :: 0 <= k < i ==> db.jobs[k] == target[k]
      invariant forall k :: i <= k < |db.jobs| ==> db.jobs[k] == old(db.jobs)[k]
    {
      var job := db.jobs[i];
      if job.active {
        var hiredCount := CountByJobIdAndStatus(db.resumes, job.id, Hired);
        if hiredCount >= job.quantity {
          db.jobs := db.jobs[i := job.(active := false)];
        }
      }
      i := i + 1;
    }
    assert db.jobs == target;
  }
}
