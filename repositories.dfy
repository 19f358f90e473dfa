/**
 * The relational store: one table per repository, rows in primary-key order, plus the
 * e-mail cache of sent job ids and the outbox of e-mails handed to the mail transport.
 * The derived-query methods of the Spring Data repositories are functions over the tables.
 */
module Repositories {
  import opened Wrappers
  import opened Seqs
  import opened Entities

  /** A snapshot of the whole store. */
  datatype Tables = Tables(
    users: seq<User>, companies: seq<Company>, roles: seq<Role>, jobs: seq<Job>,
    skills: seq<Skill>, resumes: seq<Resume>, subscribers: seq<Subscriber>,
    notifications: seq<Notification>,
    sentJobs: map<string, set<int>>,   // the cache: key "sent_jobs:" + email -> ids of jobs mailed
    outbox: seq<Mail>)

  class Database {
    var users: seq<User>
    var companies: seq<Company>
    var roles: seq<Role>
    var jobs: seq<Job>
    var skills: seq<Skill>
    var resumes: seq<Resume>
    var subscribers: seq<Subscriber>
    var notifications: seq<Notification>
    var sentJobs: map<string, set<int>>
    var outbox: seq<Mail>

    constructor ()
      ensures Snapshot() == Tables([], [], [], [], [], [], [], [], map[], [])
    {
      users, companies, roles, jobs, skills := [], [], [], [], [];
      resumes, subscribers, notifications, sentJobs, outbox := [], [], [], map[], [];
    }

    function Snapshot(): Tables
      reads this
    {
      Tables(users, companies, roles, jobs, skills, resumes, subscribers, notifications,
             sentJobs, outbox)
    }
  }

  /** No two rows of a table share a primary key. */
  ghost predicate UniqueKeys<T>(s: seq<T>, key: T -> int) {
    forall i, j :: 0 <= i < j < |s| ==> key(s[i]) != key(s[j])
  }

  // ---- UserRepository ----

  function FindUserById(users: seq<User>, id: int): Option<nat> {
    FindIndex(users, (u: User) => u.id == id)
  }

  /** `findByEmail`: the user with that e-mail (the first, should several share it). */
  function FindByEmail(users: seq<User>, email: string): (r: Option<nat>)
    ensures r.Some? ==> r.value < |users| && users[r.value].email == email
                        && forall k :: 0 <= k < r.value ==> users[k].email != email
    ensures r.None? <==> forall k :: 0 <= k < |users| ==> users[k].email != email
  {
    FindIndex(users, (u: User) => u.email == email)
  }

  /** `existsByEmail`, which agrees with `findByEmail`. */
  predicate ExistsByEmail(users: seq<User>, email: string)
    ensures ExistsByEmail(users, email) <==> FindByEmail(users, email).Some?
  {
    exists i :: 0 <= i < |users| && users[i].email == email
  }

  function FindByRefreshTokenAndEmail(users: seq<User>, token: string, email: string): (r: Option<nat>)
    ensures r.Some? ==> r.value < |users| && users[r.value].refreshToken == Some(token)
                        && users[r.value].email == email
    ensures r.None? <==> forall k :: 0 <= k < |users| ==>
                          users[k].refreshToken != Some(token) || users[k].email != email
  {
    FindIndex(users, (u: User) => u.refreshToken == Some(token) && u.email == email)
  }

  function FindByCompanyAndActiveTrue(users: seq<User>, company: int): (r: seq<User>)
    ensures forall u :: u in r <==> u in users && u.company == Some(company) && u.active
  {
    Filter(users, (u: User) => u.company == Some(company) && u.active)
  }

  function FindUserByIdAndActiveFalse(users: seq<User>, id: int): (r: Option<nat>)
    ensures r.Some? ==> r.value < |users| && users[r.value].id == id && !users[r.value].active
    ensures r.None? <==> forall k :: 0 <= k < |users| ==> users[k].id != id || users[k].active
  {
    FindIndex(users, (u: User) => u.id == id && !u.active)
  }

  function NewUserId(users: seq<User>): int {
    FreshKey(users, (u: User) => u.id)
  }

  // ---- CompanyRepository, RoleRepository ----

  function FindCompanyById(companies: seq<Company>, id: int): Option<nat> {
    FindIndex(companies, (c: Company) => c.id == id)
  }

  function FindCompanyByIdAndActiveFalse(companies: seq<Company>, id: int): (r: Option<nat>)
    ensures r.Some? ==> r.value < |companies| && companies[r.value].id == id
                        && !companies[r.value].active
    ensures r.None? <==> forall k :: 0 <= k < |companies| ==>
                           companies[k].id != id || companies[k].active
  {
    FindIndex(companies, (c: Company) => c.id == id && !c.active)
  }

  function NewCompanyId(companies: seq<Company>): int {
    FreshKey(companies, (c: Company) => c.id)
  }

  function FindRoleById(roles: seq<Role>, id: int): Option<nat> {
    FindIndex(roles, (r: Role) => r.id == id)
  }

  // ---- JobRepository, SkillRepository ----

  function FindJobById(jobs: seq<Job>, id: int): Option<nat> {
    FindIndex(jobs, (j: Job) => j.id == id)
  }

  function NewJobId(jobs: seq<Job>): int {
    FreshKey(jobs, (j: Job) => j.id)
  }

  function FindByActiveTrue(jobs: seq<Job>): (r: seq<Job>)
    ensures forall j :: j in r <==> j in jobs && j.active
  {
    Filter(jobs, (j: Job) => j.active)
  }

  /** A job is expired at `now` when its end date is strictly before `now` (a null date is not). */
  predicate EndsBefore(j: Job, now: int)
    ensures j.endDate.None? ==> !EndsBefore(j, now)
  {
    j.endDate.Some? && j.endDate.value < now
  }

  /** A job expired at `now` stays expired at every later time. */
  lemma ExpiredStaysExpired(j: Job, now: int, later: int)
    requires EndsBefore(j, now) && now <= later
    ensures EndsBefore(j, later)
  {
  }

  function FindByEndDateBeforeAndActiveTrue(jobs: seq<Job>, now: int): (r: seq<Job>)
    ensures forall j :: j in r <==> j in jobs && EndsBefore(j, now) && j.active
  {
    Filter(jobs, (j: Job) => EndsBefore(j, now) && j.active)
  }

  /** `findBySkillsInAndActiveTrue`: the active jobs requiring at least one of `skills`. */
  function FindBySkillsInAndActiveTrue(jobs: seq<Job>, skills: seq<int>): (r: seq<Job>)
    ensures forall j :: j in r <==> j in jobs && j.active && exists s :: s in j.skills && s in skills
  {
    Filter(jobs, (j: Job) => j.active && exists s :: s in j.skills && s in skills)
  }

  /** `findByIdIn`: the ids of the stored skills whose id is requested, in table order. */
  function FindSkillIdsByIdIn(skills: seq<Skill>, ids: seq<int>): (r: seq<int>)
    ensures forall x :: x in r <==> x in ids && exists k :: 0 <= k < |skills| && skills[k].id == x
  {
    if skills == [] then []
    else (if skills[0].id in ids then [skills[0].id] else []) + FindSkillIdsByIdIn(skills[1..], ids)
  }

  // ---- ResumeRepository ----

  function FindResumeById(resumes: seq<Resume>, id: int): Option<nat> {
    FindIndex(resumes, (r: Resume) => r.id == id)
  }

  function CountByJobIdAndStatus(resumes: seq<Resume>, jobId: int, status: ResumeState): (r: nat)
    ensures r <= |resumes|
    ensures r == 0 <==> forall i :: 0 <= i < |resumes| ==>
                          resumes[i].job != Some(jobId) || resumes[i].status != status
  {
    Count(resumes, (x: Resume) => x.job == Some(jobId) && x.status == status)
  }

  predicate ExistsByUserIdAndJobId(resumes: seq<Resume>, userId: int, jobId: int)
    ensures ExistsByUserIdAndJobId(resumes, userId, jobId) <==>
              exists x :: x in resumes && x.user == Some(userId) && x.job == Some(jobId)
  {
    exists i :: 0 <= i < |resumes| && resumes[i].user == Some(userId) && resumes[i].job == Some(jobId)
  }

  /**
   * `findByJobIdAndActiveTrue`, which the job service calls but the resume repository does
   * not declare; modelled by the meaning Spring Data gives the method name.
   */
  function FindByJobIdAndActiveTrue(resumes: seq<Resume>, jobId: int): (r: seq<Resume>)
    ensures forall x :: x in r <==> x in resumes && x.job == Some(jobId) && x.active
  {
    Filter(resumes, (x: Resume) => x.job == Some(jobId) && x.active)
  }

  // ---- SubscriberRepository, NotificationRepository ----

  function FindSubscriberById(subscribers: seq<Subscriber>, id: int): Option<nat> {
    FindIndex(subscribers, (s: Subscriber) => s.id == id)
  }

  function NewNotificationId(notifications: seq<Notification>): int {
    FreshKey(notifications, (n: Notification) => n.id)
  }
}
