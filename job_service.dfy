/**
 * The job service: creation (with the poster's company), the field-by-field update, the
 * soft-delete cascade onto resumes, the listing of a company's jobs and the nightly sweep
 * closing expired jobs.
 */
module JobService {
  import opened Wrappers
  import opened Seqs
  import opened Entities
  import opened Repositories

  /** A job as it arrives in a request body; `skills` is `None` for a null list. */
  datatype JobRequest = JobRequest(
    name: string, salary: real, quantity: int, location: string, level: string,
    startDate: int, endDate: Option<int>, active: bool, company: Option<int>,
    skills: Option<seq<int>>)

  /** The company of the logged-in user, when there is a known user with a company. */
  function CompanyOfCurrentUser(users: seq<User>, currentUserId: Option<int>): (r: Option<int>)
    ensures r.Some? ==> exists k :: 0 <= k < |users| && Some(users[k].id) == currentUserId
                                    && users[k].company == r
  {
    if currentUserId.None? then None
    else match FindUserById(users, currentUserId.value)
         case None => None
         case Some(k) => users[k].company
  }

  /** The skills a request links: the stored ones among the requested ids (`findByIdIn`). */
  function LinkedSkills(skills: seq<Skill>, requested: seq<int>): (r: seq<int>)
    ensures forall x :: x in r <==> x in requested && exists k :: 0 <= k < |skills| && skills[k].id == x
  {
    FindSkillIdsByIdIn(skills, requested)
  }

  /** The row `create` stores for `req` posted by `currentUserId`. */
  function CreatedJob(t: Tables, req: JobRequest, currentUserId: Option<int>): (j: Job)
    ensures j.company == (if CompanyOfCurrentUser(t.users, currentUserId).Some?
                          then CompanyOfCurrentUser(t.users, currentUserId) else req.company)
    ensures j.name == req.name && j.salary == req.salary && j.quantity == req.quantity
            && j.location == req.location && j.level == req.level && j.startDate == req.startDate
            && j.endDate == req.endDate && j.active == req.active
    ensures req.skills.None? ==> j.skills == []
    ensures req.skills.Some? ==> forall x :: x in j.skills <==>
              x in req.skills.value && exists k :: 0 <= k < |t.skills| && t.skills[k].id == x
    ensures forall k :: 0 <= k < |t.jobs| ==> t.jobs[k].id < j.id
  {
    var company := CompanyOfCurrentUser(t.users, currentUserId);
    Job(NewJobId(t.jobs), req.name, req.salary, req.quantity, req.location, req.level,
        req.startDate, req.endDate, req.active,
        if company.Some? then company else req.company,
        if req.skills.Some? then LinkedSkills(t.skills, req.skills.value) else [])
  }

  method Create(db: Database, req: JobRequest, currentUserId: Option<int>) returns (job: Job)
    modifies db
    ensures job == CreatedJob(old(db.Snapshot()), req, currentUserId)
    ensures db.Snapshot() == old(db.Snapshot()).(jobs := old(db.jobs) + [job])
  {
    var company := req.company;
    if currentUserId.Some? {
      var found := FindUserById(db.users, currentUserId.value);
      if found.Some? {
        var currentUser := db.users[found.value];
        if currentUser.company.Some? {
          company := currentUser.company;
        }
      }
    }
    var skills := [];
    if req.skills.Some? {
      skills := LinkedSkills(db.skills, req.skills.value);
    }
    job := Job(NewJobId(db.jobs), req.name, req.salary, req.quantity, req.location, req.level,
               req.startDate, req.endDate, req.active, company, skills);
    db.jobs := db.jobs + [job];
  }

  /**
   * The job table after `update(req, jobInDB)` where `jobInDB` is row `k`. The poster's company
   * is written to the request object, never to the stored row, so the company is kept.
   */
  function JobUpdated(jobs: seq<Job>, skills: seq<Skill>, k: nat, req: JobRequest): (r: seq<Job>)
    requires k < |jobs|
    ensures |r| == |jobs| && r[..k] == jobs[..k] && r[k + 1..] == jobs[k + 1..]
    ensures r[k].id == jobs[k].id && r[k].company == jobs[k].company
    ensures r[k].name == req.name && r[k].salary == req.salary && r[k].quantity == req.quantity
            && r[k].location == req.location && r[k].level == req.level
            && r[k].startDate == req.startDate && r[k].endDate == req.endDate
            && r[k].active == req.active
    ensures req.skills.None? ==> r[k].skills == jobs[k].skills
    ensures req.skills.Some? ==> forall x :: x in r[k].skills <==>
              x in req.skills.value && exists i :: 0 <= i < |skills| && skills[i].id == x
  {
    var old_ := jobs[k];
    var linked := if req.skills.Some? then LinkedSkills(skills, req.skills.value) else old_.skills;
    jobs[k := old_.(name := req.name, salary := req.salary, quantity := req.quantity,
                   location := req.location, level := req.level, startDate := req.startDate,
                   endDate := req.endDate, active := req.active, skills := linked)]
  }

  method Update(db: Database, k: nat, req: JobRequest)
    requires k < |db.jobs|
    modifies db
    ensures db.Snapshot() == old(db.Snapshot()).(jobs := JobUpdated(old(db.jobs), old(db.skills), k, req))
  {
    var jobInDB := db.jobs[k];
    if req.skills.Some? {
      jobInDB := jobInDB.(skills := LinkedSkills(db.skills, req.skills.value));
    }
    jobInDB := jobInDB.(name := req.name);
    jobInDB := jobInDB.(salary := req.salary);
    jobInDB := jobInDB.(quantity := req.quantity);
    jobInDB := jobInDB.(location := req.location);
    jobInDB := jobInDB.(level := req.level);
    jobInDB := jobInDB.(startDate := req.startDate);
    jobInDB := jobInDB.(endDate := req.endDate);
    jobInDB := jobInDB.(active := req.active);
    db.jobs := db.jobs[k := jobInDB];
  }

  // ---- soft delete ----

  /** The resume table after every active resume of job `jobId` is made inactive. */
  function ResumesOfJobDeactivated(resumes: seq<Resume>, jobId: int): (r: seq<Resume>)
    ensures |r| == |resumes|
    ensures forall i :: 0 <= i < |r| ==> r[i] == resumes[i].(active := r[i].active)
    ensures forall i :: 0 <= i < |r| && resumes[i].job == Some(jobId) ==> !r[i].active
    ensures forall i :: 0 <= i < |r| && resumes[i].job != Some(jobId) ==> r[i] == resumes[i]
  {
    seq(|resumes|, i requires 0 <= i < |resumes| =>
      if resumes[i].job == Some(jobId) && resumes[i].active then resumes[i].(active := false)
      else resumes[i])
  }

  /** The store after `handleDeleteJob(id)`. */
  function JobDeleted(t: Tables, id: int): (r: Tables)
    ensures FindJobById(t.jobs, id).None? ==> r == t
    ensures FindJobById(t.jobs, id).Some? ==>
              var k := FindJobById(t.jobs, id).value;
              r == t.(jobs := t.jobs[k := t.jobs[k].(active := false)],
                      resumes := ResumesOfJobDeactivated(t.resumes, id))
  {
    match FindJobById(t.jobs, id)
    case None => t
    case Some(k) =>
      t.(jobs := t.jobs[k := t.jobs[k].(active := false)],
         resumes := ResumesOfJobDeactivated(t.resumes, t.jobs[k].id))
  }

  method HandleDeleteJob(db: Database, id: int)
    modifies db
    ensures db.Snapshot() == JobDeleted(old(db.Snapshot()), id)
  {
    var found := FindJobById(db.jobs, id);
    if found.None? {
      return;
    }
    var job := db.jobs[found.value];
    db.jobs := db.jobs[found.value := job.(active := false)];
    ghost var target := ResumesOfJobDeactivated(db.resumes, job.id);
    var i := 0;
    while i < |db.resumes|
      modifies db`resumes
      invariant 0 <= i <= |db.resumes| == |target|
      invariant forall k :: 0 <= k < i ==> db.resumes[k] == target[k]
      invariant forall k :: i <= k < |db.resumes| ==> db.resumes[k] == old(db.resumes)[k]
    {
      var resume := db.resumes[i];
      if resume.job == Some(job.id) && resume.active {
        db.resumes := db.resumes[i := resume.(active := false)];
      }
      i := i + 1;
    }
    assert db.resumes == target;
  }

  // ---- listing a company's jobs ----

  /** `fetchByCompanyId`: the jobs of the company (active or not) that pass the caller's filter. */
  function FetchByCompanyId(jobs: seq<Job>, companyId: int, spec: Option<Job -> bool>): (r: seq<Job>)
    ensures forall j :: j in r <==> j in jobs && j.company == Some(companyId)
                                     && (spec.None? || spec.value(j))
  {
    Filter(jobs, (j: Job) => j.company == Some(companyId) && (spec.None? || spec.value(j)))
  }

  // ---- closing expired jobs ----

  /** The job table after `deactivateExpiredJobs` at time `now`. */
  function ExpiredSwept(jobs: seq<Job>, now: int): (r: seq<Job>)
    ensures |r| == |jobs|
    ensures forall k :: 0 <= k < |r| ==> r[k] == jobs[k].(active := r[k].active)
    ensures forall k :: 0 <= k < |r| && r[k].active ==> !EndsBefore(r[k], now)
    ensures forall k :: 0 <= k < |r| && !EndsBefore(jobs[k], now) ==> r[k] == jobs[k]
  {
    seq(|jobs|, k requires 0 <= k < |jobs| =>
      if EndsBefore(jobs[k], now) && jobs[k].active then jobs[k].(active := false) else jobs[k])
  }

  lemma ExpiredSweptIdempotent(jobs: seq<Job>, now: int)
    ensures ExpiredSwept(ExpiredSwept(jobs, now), now) == ExpiredSwept(jobs, now)
  {
  }

  /** After the sweep the expired-and-active query finds nothing. */
  lemma ExpiredSweptLeavesNoneExpired(jobs: seq<Job>, now: int)
    ensures FindByEndDateBeforeAndActiveTrue(ExpiredSwept(jobs, now), now) == []
  {
    var r := ExpiredSwept(jobs, now);
    forall j | j in r ensures !(EndsBefore(j, now) && j.active) {
      var k :| 0 <= k < |r| && r[k] == j;
    }
    FilterNone(r, (j: Job) => EndsBefore(j, now) && j.active);
  }

  method DeactivateExpiredJobs(db: Database, now: int)
    modifies db
    ensures db.Snapshot() == old(db.Snapshot()).(jobs := ExpiredSwept(old(db.jobs), now))
  {
    ghost var target := ExpiredSwept(db.jobs, now);
    var i := 0;
    while i < |db.jobs|
      modifies db`jobs
      invariant 0 <= i <= |db.jobs| == |target|
      invariant forall k :: 0 <= k < i ==> db.jobs[k] == target[k]
      invariant forall k :: i <= k < |db.jobs| ==> db.jobs[k] == old(db.jobs)[k]
    {
      var job := db.jobs[i];
      if EndsBefore(job, now) && job.active {
        db.jobs := db.jobs[i := job.(active := false)];
      }
      i := i + 1;
    }
    assert db.jobs == target;
  }
}
