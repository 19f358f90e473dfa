/**
 * The recruiter's resume status update (with its hiring-quota guard, e-mails, notification
 * and "last hire" message) and the candidate's interview confirmation.
 */
module ResumeController {
  import opened Wrappers
  import opened Seqs
  import opened Entities
  import opened Repositories
  import WebSocketService

  /** The job object of a request body: only its id and quantity are read. */
  datatype JobRef = JobRef(id: int, quantity: int)

  /** The request body: the resume id, the new status (null when absent) and an optional job. */
  datatype ResumeUpdate = ResumeUpdate(id: int, status: Option<ResumeState>, job: Option<JobRef>)

  /** The response body: audit fields of the saved resume and the optional "last hire" message. */
  datatype UpdateResponse = UpdateResponse(createdAt: int, createdBy: string, message: Option<string>)

  const LastHireMessage: string := "Đã tuyển đủ số lượng ứng viên cho công việc này."

  /** The stored job of a resume, as a job reference, when the resume has one that resolves. */
  function StoredJobRef(t: Tables, res: Resume): (r: Option<JobRef>)
    ensures r.Some? <==> res.job.Some? && FindJobById(t.jobs, res.job.value).Some?
    ensures r.Some? ==> exists k :: 0 <= k < |t.jobs| && t.jobs[k].id == r.value.id == res.job.value
                                    && t.jobs[k].quantity == r.value.quantity
  {
    if res.job.None? then None
    else match FindJobById(t.jobs, res.job.value)
         case None => None
         case Some(k) => Some(JobRef(t.jobs[k].id, t.jobs[k].quantity))
  }

  /** The job the HIRED quota is checked against: the request's job, else the stored one. */
  function CheckedJob(t: Tables, req: ResumeUpdate, res: Resume): (r: Option<JobRef>)
    ensures req.job.Some? ==> r == req.job
    ensures r.None? <==> req.job.None? && StoredJobRef(t, res).None?
  {
    if req.job.Some? then req.job else StoredJobRef(t, res)
  }

  /** The e-mail template each status sends; the other statuses send none. */
  function Template(s: ResumeState): (r: Option<string>)
    ensures r.Some? <==> s == Approved || s == Failed || s == Hired
    ensures r.Some? ==> Message(s, "").Some?
  {
    match s
    case Approved => Some("interview-invitation")
    case Failed => Some("interview-failed")
    case Hired => Some("hired")
    case _ => None
  }

  /** The notification message of each status, for the job named `jobName`. */
  function Message(s: ResumeState, jobName: string): (r: Option<string>)
    ensures r.None? <==> s == Pending || s == Reviewing || s == InterviewConfirmed || s == InterviewRejected
    ensures r.Some? && s != Rejected ==> |jobName| <= |r.value| && r.value[|r.value| - |jobName|..] == jobName
  {
    match s
    case Approved => Some("Bạn đã được mời phỏng vấn cho vị trí " + jobName)
    case Rejected => Some("Đơn ứng tuyển của bạn đã bị từ chối")
    case Failed => Some("Bạn đã không vượt qua vòng phỏng vấn cho vị trí " + jobName)
    case Hired => Some("Chúc mừng! Bạn đã được nhận vào vị trí " + jobName)
    case _ => None
  }

  /**
   * The stored job of a resume when everything the e-mail arguments dereference resolves:
   * the job, the job's company and the applicant.
   */
  function MailJob(t: Tables, res: Resume): (r: Option<Job>)
    ensures r.Some? ==> res.job == Some(r.value.id) && r.value in t.jobs
  {
    if res.job.None? || res.user.None? then None
    else match FindJobById(t.jobs, res.job.value)
         case None => None
         case Some(k) =>
           var job := t.jobs[k];
           if job.company.None? || FindCompanyById(t.companies, job.company.value).None?
              || FindUserById(t.users, res.user.value).None?
           then None
           else Some(job)
  }

  /** What the guards of `update` establish: the stored resume, the new status and the jobs. */
  datatype Admitted = Admitted(k: nat, status: ResumeState, checked: Option<JobRef>, job: Option<Job>)

  /** The guards of `update`, in order: the first one that fails is the error. */
  function Admission(t: Tables, req: ResumeUpdate): (r: Result<Admitted, Error>)
    ensures r.Ok? ==> Admissible(t, r.value)
  {
    match FindResumeById(t.resumes, req.id)
    case None => Err(ResumeNotFound)
    case Some(k) =>
      var res := t.resumes[k];
      var checked := CheckedJob(t, req, res);
      if res.user.None? then Err(ResumeWithoutUser)
      else if req.status == Some(Hired) && checked.None? then Err(MissingReference)
      else if req.status == Some(Hired)
              && CountByJobIdAndStatus(t.resumes, checked.value.id, Hired) >= checked.value.quantity
      then Err(HiringQuotaReached)
      else if req.status.None? then Err(MissingStatus)
      else if Template(req.status.value).Some? && MailJob(t, res).None? then Err(MissingReference)
      else Ok(Admitted(k, req.status.value, checked, MailJob(t, res)))
  }

  ghost predicate Admissible(t: Tables, a: Admitted) {
    a.k < |t.resumes| && t.resumes[a.k].user.Some?
    && (a.status == Hired ==> a.checked.Some?)
    && (Template(a.status).Some? ==> a.job.Some?)
  }

  /** The notification `update` sends for an admitted request at time `now`. */
  function UpdateNotification(t: Tables, a: Admitted, now: int): NotificationDto
    requires Admissible(t, a)
  {
    var res := t.resumes[a.k];
    var jobName := if a.job.Some? then a.job.value.name else "";
    NotificationDto(a.status.Name(), Message(a.status, jobName), None, None, Some(res.id),
                    Some(res.user.value), now)
  }

  /** The effects of an admitted request: e-mail, notification, the saved status and the reply. */
  function Applied(t: Tables, a: Admitted, now: int): (r: (Tables, UpdateResponse))
    requires Admissible(t, a)
    ensures r.0 == t.(outbox := r.0.outbox, notifications := r.0.notifications, resumes := r.0.resumes)
    ensures r.0.resumes == t.resumes[a.k := t.resumes[a.k].(status := a.status)]
    ensures |r.0.outbox| == |t.outbox| + (if Template(a.status).Some? then 1 else 0)
            && r.0.outbox[..|t.outbox|] == t.outbox
    ensures r.1.message.Some? ==> a.status == Hired
  {
    var res := t.resumes[a.k];
    var mails := if Template(a.status).Some? then [Mail(res.email, Template(a.status).value, [a.job.value.id])] else [];
    var resumes' := t.resumes[a.k := res.(status := a.status)];
    var t' := t.(outbox := t.outbox + mails,
                 notifications := WebSocketService.NotificationSent(
                   t.users, t.notifications, res.user.value, UpdateNotification(t, a, now)),
                 resumes := resumes');
    var lastHire := a.status == Hired && CountByJobIdAndStatus(resumes', a.checked.value.id, Hired)
                                         == a.checked.value.quantity;
    (t', UpdateResponse(res.audit.createdAt, res.audit.createdBy,
                        if lastHire then Some(LastHireMessage) else None))
  }

  /** The store and the response after `update(req)` at time `now`. */
  function Updated(t: Tables, req: ResumeUpdate, now: int): (r: (Tables, Result<UpdateResponse, Error>))
    ensures r.1.Ok? <==> Admission(t, req).Ok?
    ensures r.1.Err? ==> r.0 == t && r.1.error == Admission(t, req).error
    ensures r.1.Ok? ==> |r.0.resumes| == |t.resumes|
                        && r.0.resumes[Admission(t, req).value.k].status == req.status.value
  {
    match Admission(t, req)
    case Err(e) => (t, Err(e))
    case Ok(a) => (Applied(t, a, now).0, Ok(Applied(t, a, now).1))
  }

  method Update(db: Database, req: ResumeUpdate, now: int) returns (r: Result<UpdateResponse, Error>)
    modifies db
    ensures (db.Snapshot(), r) == Updated(old(db.Snapshot()), req, now)
  {
    var found := FindResumeById(db.resumes, req.id);
    if found.None? {
      return Err(ResumeNotFound);
    }
    var k := found.value;
    var res := db.resumes[k];
    if res.user.None? {
      return Err(ResumeWithoutUser);
    }
    var checked := CheckedJob(db.Snapshot(), req, res);
    if req.status == Some(Hired) {
      if checked.None? {
        return Err(MissingReference);
      }
      var hiredCount := CountByJobIdAndStatus(db.resumes, checked.value.id, Hired);
      if hiredCount >= checked.value.quantity {
        return Err(HiringQuotaReached);
      }
    }
    if req.status.None? {
      return Err(MissingStatus);
    }
    var job := MailJob(db.Snapshot(), res);
    if Template(req.status.value).Some? && job.None? {
      return Err(MissingReference);
    }
    var response := ApplyStatus(db, Admitted(k, req.status.value, checked, job), now);
    return Ok(response);
  }

  /** The part of `update` after its guards, step by step. */
  method ApplyStatus(db: Database, a: Admitted, now: int) returns (response: UpdateResponse)
    requires Admissible(db.Snapshot(), a)
    modifies db
    ensures (db.Snapshot(), response) == Applied(old(db.Snapshot()), a, now)
  {
    ghost var t := db.Snapshot();
    var res := db.resumes[a.k];
    var s := a.status;
    var dto := UpdateNotification(db.Snapshot(), a, now);
    if Template(s).Some? {
      db.outbox := db.outbox + [Mail(res.email, Template(s).value, [a.job.value.id])];
    }
    WebSocketService.SendNotificationToUser(db, res.user.value, dto);
    assert db.notifications == WebSocketService.NotificationSent(t.users, t.notifications, res.user.value, dto);
    db.resumes := db.resumes[a.k := res.(status := s)];
    assert db.Snapshot() == Applied(t, a, now).0;
    var message := None;
    if s == Hired {
      var hiredCountAfter := CountByJobIdAndStatus(db.resumes, a.checked.value.id, Hired);
      if hiredCountAfter == a.checked.value.quantity {
        message := Some(LastHireMessage);
      }
    }
    return UpdateResponse(res.audit.createdAt, res.audit.createdBy, message);
  }

  // ---- properties of update ----

  /** An unknown resume id, or a stored resume without a user, fails and changes nothing. */
  lemma UpdateRejectsUnknownResume(t: Tables, req: ResumeUpdate, now: int)
    requires FindResumeById(t.resumes, req.id).None?
             || t.resumes[FindResumeById(t.resumes, req.id).value].user.None?
    ensures Updated(t, req, now).0 == t
    ensures Updated(t, req, now).1.Err?
    ensures FindResumeById(t.resumes, req.id).None? ==> Updated(t, req, now).1 == Err(ResumeNotFound)
  {
  }

  /** HIRED is refused when the checked job's HIRED count has already reached its quantity. */
  lemma UpdateRefusesHireOverQuota(t: Tables, req: ResumeUpdate, now: int, k: nat)
    requires FindResumeById(t.resumes, req.id) == Some(k)
    requires t.resumes[k].user.Some?
    requires req.status == Some(Hired)
    requires CheckedJob(t, req, t.resumes[k]).Some?
    requires CountByJobIdAndStatus(t.resumes, CheckedJob(t, req, t.resumes[k]).value.id, Hired)
             >= CheckedJob(t, req, t.resumes[k]).value.quantity
    ensures Updated(t, req, now) == (t, Err(HiringQuotaReached))
  {
  }

  /**
   * What a successful update changes: the stored resume's status (to any requested status,
   * whatever the current one), the outbox and the notifications; its job, user, email, url and
   * every other table are kept.
   */
  lemma UpdateChangesOnlyStatus(t: Tables, req: ResumeUpdate, now: int)
    requires Updated(t, req, now).1.Ok?
    ensures var t' := Updated(t, req, now).0;
            var k := FindResumeById(t.resumes, req.id).value;
            req.status.Some? && FindResumeById(t.resumes, req.id).Some?
            && t'.resumes == t.resumes[k := t.resumes[k].(status := req.status.value)]
            && t' == t.(resumes := t'.resumes, notifications := t'.notifications, outbox := t'.outbox)
  {
  }

  /** Whether an update is accepted, stated without the resume's current status. */
  ghost predicate UpdateAccepted(t: Tables, req: ResumeUpdate) {
    exists k :: 0 <= k < |t.resumes| && FindResumeById(t.resumes, req.id) == Some(k)
      && t.resumes[k].user.Some? && req.status.Some?
      && (req.status == Some(Hired) ==>
            CheckedJob(t, req, t.resumes[k]).Some?
            && CountByJobIdAndStatus(t.resumes, CheckedJob(t, req, t.resumes[k]).value.id, Hired)
               < CheckedJob(t, req, t.resumes[k]).value.quantity)
      && (Template(req.status.value).Some? ==> MailJob(t, t.resumes[k]).Some?)
  }

  lemma UpdateSucceedsIff(t: Tables, req: ResumeUpdate, now: int)
    ensures Updated(t, req, now).1.Ok? <==> UpdateAccepted(t, req)
  {
    if Updated(t, req, now).1.Ok? {
      var k := FindResumeById(t.resumes, req.id).value;
      assert 0 <= k < |t.resumes| && FindResumeById(t.resumes, req.id) == Some(k);
    }
  }

  /** The e-mail a successful update sends is chosen by the new status; REJECTED and the rest send none. */
  lemma UpdateSendsMail(t: Tables, req: ResumeUpdate, now: int)
    requires Updated(t, req, now).1.Ok?
    ensures var t' := Updated(t, req, now).0;
            var res := t.resumes[FindResumeById(t.resumes, req.id).value];
            var s := req.status.value;
            && (s == Approved ==> t'.outbox == t.outbox + [Mail(res.email, "interview-invitation", [res.job.value])])
            && (s == Failed ==> t'.outbox == t.outbox + [Mail(res.email, "interview-failed", [res.job.value])])
            && (s == Hired ==> t'.outbox == t.outbox + [Mail(res.email, "hired", [res.job.value])])
            && (s !in {Approved, Failed, Hired} ==> t'.outbox == t.outbox)
  {
    var a := Admission(t, req).value;
    assert Updated(t, req, now).0 == Applied(t, a, now).0;
  }

  /**
   * A successful update stores one notification to the stored resume's user, typed with the
   * status name and carrying the resume id, whenever the status has a message.
   */
  lemma UpdateNotifies(t: Tables, req: ResumeUpdate, now: int)
    requires Updated(t, req, now).1.Ok?
    ensures var t' := Updated(t, req, now).0;
            var res := t.resumes[FindResumeById(t.resumes, req.id).value];
            var s := req.status.value;
            && (Message(s, "").Some? && FindUserById(t.users, res.user.value).Some? ==>
                  |t'.notifications| == |t.notifications| + 1
                  && t'.notifications[..|t.notifications|] == t.notifications
                  && var n := t'.notifications[|t.notifications|];
                     n.user == res.user.value && n.kind == s.Name() && n.resumeId == Some(res.id)
                     && !n.read && n.timestamp == now)
            && (Message(s, "").None? ==> t'.notifications == t.notifications)
  {
    var a := Admission(t, req).value;
    assert a.k == FindResumeById(t.resumes, req.id).value && a.status == req.status.value;
    assert Updated(t, req, now).0 == Applied(t, a, now).0;
    AppliedNotifies(t, a, now);
  }

  /** The notification half of the effects of an admitted request. */
  lemma AppliedNotifies(t: Tables, a: Admitted, now: int)
    requires Admissible(t, a)
    ensures var ns := Applied(t, a, now).0.notifications;
            var res := t.resumes[a.k];
            && (Message(a.status, "").Some? && FindUserById(t.users, res.user.value).Some? ==>
                  |ns| == |t.notifications| + 1
                  && ns[..|t.notifications|] == t.notifications
                  && var n := ns[|t.notifications|];
                     n.user == res.user.value && n.kind == a.status.Name() && n.resumeId == Some(res.id)
                     && !n.read && n.timestamp == now)
            && (Message(a.status, "").None? ==> ns == t.notifications)
  {
    var dto := UpdateNotification(t, a, now);
    assert dto.message.Some? <==> Message(a.status, "").Some?;
  }

  /** The "last hire" message is sent exactly when HIRED was set and the job is now full. */
  lemma UpdateLastHireMessage(t: Tables, req: ResumeUpdate, now: int)
    requires Updated(t, req, now).1.Ok?
    ensures var (t', r) := Updated(t, req, now);
            var res := t.resumes[FindResumeById(t.resumes, req.id).value];
            var checked := CheckedJob(t, req, res);
            r.value.message.Some? <==>
              req.status == Some(Hired)
              && CountByJobIdAndStatus(t'.resumes, checked.value.id, Hired) == checked.value.quantity
  {
  }

  // ---- the hiring quota ----

  /** No job has more HIRED resumes than its quantity. */
  ghost predicate QuotaRespected(t: Tables) {
    forall j :: 0 <= j < |t.jobs| ==>
      CountByJobIdAndStatus(t.resumes, t.jobs[j].id, Hired) <= t.jobs[j].quantity
  }

  /**
   * An update whose request carries no job, or the resume's stored job as it is stored, checks
   * the stored job, so it keeps every job within its quota.
   */
  lemma {:induction false} UpdateKeepsQuota(t: Tables, req: ResumeUpdate, now: int)
    requires QuotaRespected(t)
    requires UniqueKeys(t.jobs, (j: Job) => j.id)
    requires req.job.None? || (FindResumeById(t.resumes, req.id).Some?
               && req.job == StoredJobRef(t, t.resumes[FindResumeById(t.resumes, req.id).value]))
    ensures QuotaRespected(Updated(t, req, now).0)
  {
    var t' := Updated(t, req, now).0;
    if Updated(t, req, now).1.Ok? {
      var k := FindResumeById(t.resumes, req.id).value;
      var res := t.resumes[k];
      var s := req.status.value;
      assert t'.resumes == t.resumes[k := res.(status := s)] && t'.jobs == t.jobs;
      forall j | 0 <= j < |t.jobs|
        ensures CountByJobIdAndStatus(t'.resumes, t.jobs[j].id, Hired) <= t.jobs[j].quantity
      {
        var id := t.jobs[j].id;
        var p := (x: Resume) => x.job == Some(id) && x.status == Hired;
        CountUpdate(t.resumes, k, res.(status := s), p);
        if p(res.(status := s)) && !p(res) {
          var m := FindJobById(t.jobs, res.job.value).value;
          assert t.jobs[m].id == t.jobs[j].id;
          assert m == j;
        }
      }
    }
  }

  /** A job with quantity one, already filled by one hire, and a second pending applicant. */
  function QuotaSample(): Tables {
    var job := Job(1, "dev", 0.0, 1, "", "", 0, None, true, Some(1), []);
    var audit := Audit(0, "", 0, "");
    var hired := Resume(1, "a@x", "", Hired, Some(1), Some(1), true, audit);
    var pending := Resume(2, "b@x", "", Pending, Some(2), Some(1), true, audit);
    var user := User(2, "b@x", "b", "", "", 0, None, "", "", None, None, None, true);
    Tables([user], [Company(1, "c", "", "", "", "", true)], [], [job], [],
           [hired, pending], [], [], map[], [])
  }

  /** Hiring the pending applicant, with a request body that claims a quantity of five. */
  function QuotaSampleRequest(): ResumeUpdate {
    ResumeUpdate(2, Some(Hired), Some(JobRef(1, 5)))
  }

  /** The guards admit the sample request: the check uses the body's quantity of five. */
  lemma QuotaSampleAdmitted()
    ensures QuotaRespected(QuotaSample())
    ensures Admission(QuotaSample(), QuotaSampleRequest())
            == Ok(Admitted(1, Hired, Some(JobRef(1, 5)), Some(QuotaSample().jobs[0])))
  {
    var t := QuotaSample();
    assert FindResumeById(t.resumes, 2) == Some(1) by {
      assert t.resumes[0].id != 2 && t.resumes[1].id == 2;
    }
    assert CountByJobIdAndStatus(t.resumes, 1, Hired) == 1 by {
      assert t.resumes[1..][1..] == [];
    }
    assert FindJobById(t.jobs, 1) == Some(0);
    assert FindCompanyById(t.companies, 1) == Some(0);
    assert FindUserById(t.users, 2) == Some(0);
    assert MailJob(t, t.resumes[1]) == Some(t.jobs[0]);
  }

  /** Two hires of a job with quantity one break its quota. */
  lemma TwoHiresBreakQuota(t: Tables)
    requires |t.jobs| == 1 && t.jobs[0].id == 1 && t.jobs[0].quantity == 1
    requires |t.resumes| == 2 && forall i :: 0 <= i < 2 ==> t.resumes[i].job == Some(1) && t.resumes[i].status == Hired
    ensures !QuotaRespected(t)
  {
    var p := (x: Resume) => x.job == Some(1) && x.status == Hired;
    assert t.resumes[1..][1..] == [];
    assert Count(t.resumes[1..], p) == 1;
    assert Count(t.resumes, p) == 2;
  }

  /**
   * The quantity of a job given in the request body is trusted: a body claiming a larger
   * quantity than the stored job's lets a second hire through a quota of one.
   */
  lemma RequestQuantityOverridesStoredQuota(t: Tables, req: ResumeUpdate)
    requires t == QuotaSample() && req == QuotaSampleRequest()
    ensures QuotaRespected(t) && Updated(t, req, 0).1.Ok? && !QuotaRespected(Updated(t, req, 0).0)
  {
    QuotaSampleAdmitted();
    var a := Admitted(1, Hired, Some(JobRef(1, 5)), Some(t.jobs[0]));
    assert Admission(t, req) == Ok(a);
    var t' := Applied(t, a, 0).0;
    assert Updated(t, req, 0).0 == t';
    TwoHiresBreakQuota(t');
  }

  // ---- interview confirmation ----

  /** The store and the response after the candidate confirms the interview of resume `id`. */
  function Confirmed(t: Tables, id: int): (r: (Tables, Result<UpdateResponse, Error>))
    ensures r.1.Ok? <==> FindResumeById(t.resumes, id).Some?
                         && t.resumes[FindResumeById(t.resumes, id).value].status == Approved
    ensures r.1.Err? ==> r.0 == t
    ensures FindResumeById(t.resumes, id).None? ==> r.1 == Err(ResumeNotFound)
    ensures r.1.Ok? ==>
              var k := FindResumeById(t.resumes, id).value;
              r.0 == t.(resumes := t.resumes[k := t.resumes[k].(status := InterviewConfirmed)])
  {
    match FindResumeById(t.resumes, id)
    case None => (t, Err(ResumeNotFound))
    case Some(k) =>
      var res := t.resumes[k];
      if res.status != Approved then (t, Err(NotApproved))
      else (t.(resumes := t.resumes[k := res.(status := InterviewConfirmed)]),
            Ok(UpdateResponse(res.audit.createdAt, res.audit.createdBy, None)))
  }

  method ConfirmInterview(db: Database, id: int) returns (r: Result<UpdateResponse, Error>)
    modifies db
    ensures (db.Snapshot(), r) == Confirmed(old(db.Snapshot()), id)
  {
    var found := FindResumeById(db.resumes, id);
    if found.None? {
      return Err(ResumeNotFound);
    }
    var res := db.resumes[found.value];
    if res.status != Approved {
      return Err(NotApproved);
    }
    db.resumes := db.resumes[found.value := res.(status := InterviewConfirmed)];
    return Ok(UpdateResponse(res.audit.createdAt, res.audit.createdBy, None));
  }
}
