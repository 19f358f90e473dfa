# job-hunter-server core, modelled in Dafny

This project models the rule-driven core of the job-hunter server, a Spring service where
candidates apply to jobs and recruiters move the applications ("resumes") through a hiring
workflow. The model covers:

- the resume hiring workflow: status updates with a hiring quota, e-mail and notification events, and interview confirmation;
- the two scheduled sweeps: expired jobs, and jobs whose hiring quota is full;
- the soft-delete and restore cascades of users, companies and jobs;
- the subscriber job digest, de-duplicated through a per-address "sent jobs" cache;
- the persisted notifications and their read state;
- the refresh-token life cycle and the registration guards;
- the file-name rules of the upload endpoint.

The store is one `Database` object (module `Repositories`). It has a `seq` field per table:
users, companies, roles, jobs, skills, resumes, subscribers and notifications. It also has a
map for the cache, from "sent_jobs:" + email to job ids, and an outbox that records every
e-mail sent as a `Mail` event (recipient, template, job ids). Rows are datatypes. Foreign keys
are optional ids. Spring Data's derived queries (`countByJobIdAndStatus`,
`findByEndDateBeforeAndActiveTrue`, ...) are filter, count and search functions over the tables.

Each service operation is an imperative `method` on the `Database`, written with the loops
and field writes of the Java code. Its `ensures` ties the new state and its result to a pure
function of the old state: `Tables` is a snapshot of every table. The properties the code
promises are stated about those functions, as their own `ensures` and as lemmas. These cover:

- quota bounds;
- "only the status changes";
- idempotence of the sweeps, of marking notifications read and of resume deletion;
- delete-then-restore round trips;
- de-duplication of the digest, so a second run sends nothing;
- rotation of the refresh token.

Things outside the program's logic become parameters:

- the clock (`now`) and the current user;
- the outcome of password authentication, and the password hash;
- newly minted tokens;
- the subject decoded from a JWT (`None` when it does not verify);
- the UUID used in file names.

New rows get the id `1 + max id`, standing in for the database's IDENTITY column. Thrown exceptions are
the `Err` case of a `Result` (or the `Some` case of an `Option<Error>`). Null dereferences
that the code does not guard against are the error `MissingReference`.

Where the code and its intent diverge, the model follows the code:

- `update` checks the HIRED quota against the quantity of the job *in the request body*.
  `RequestQuantityOverridesStoredQuota` shows that this lets a request break the quota.
- A notification whose message is null is not stored, because the `message` column is `nullable = false`.
  The model reads the method's `catch` without its transaction: the failure is logged and the caller carries on.
- `JobService.update` writes the current user's company onto the request object, never onto the stored job.
- The upload's extension is the second dot-separated segment, not the last.

## Model

| member | source | states |
|---|---|---|
| Entities.NameInjective | src/main/java/vn/ctiep/jobhunter/util/constant/ResumeStateEnum.java:3-12 | the eight resume states have distinct names, so the notification type identifies the status |
| Repositories.Database.constructor | src/main/java/vn/ctiep/jobhunter/repository/UserRepository.java:20-30 | a new store has every table empty |
| Repositories.FindByCompanyAndActiveTrue | src/main/java/vn/ctiep/jobhunter/repository/UserRepository.java:28 | a user is returned iff it belongs to the company and is active |
| Repositories.FindUserByIdAndActiveFalse | src/main/java/vn/ctiep/jobhunter/repository/UserRepository.java:30 | a row is found iff some user has that id and is inactive, and the row found is one |
| Repositories.FindCompanyByIdAndActiveFalse | src/main/java/vn/ctiep/jobhunter/repository/CompanyRepository.java:21 | a row is found iff some company has that id and is inactive |
| Repositories.FindByActiveTrue | src/main/java/vn/ctiep/jobhunter/repository/JobRepository.java:23 | a job is returned iff it is stored and active |
| Repositories.FindByEndDateBeforeAndActiveTrue | src/main/java/vn/ctiep/jobhunter/repository/JobRepository.java:24 | a job is returned iff it is active and its end date is strictly before `now` |
| Repositories.FindBySkillsInAndActiveTrue | src/main/java/vn/ctiep/jobhunter/repository/JobRepository.java:22 | a job is returned iff it is active and shares a skill with the list |
| Repositories.FindSkillIdsByIdIn | src/main/java/vn/ctiep/jobhunter/service/JobService.java:73-80 | an id is kept iff it was requested and a skill with that id exists |
| Repositories.CountByJobIdAndStatus | src/main/java/vn/ctiep/jobhunter/repository/ResumeRepository.java:15 | the count is at most the number of resumes, and zero iff no resume of that job has that status |
| Repositories.FindByJobIdAndActiveTrue | src/main/java/vn/ctiep/jobhunter/service/JobService.java:177 | a resume is returned iff it belongs to the job and is active |
| Repositories.FindByEmail | src/main/java/vn/ctiep/jobhunter/repository/UserRepository.java:20 | the row found has that e-mail and is the first such; nothing is found iff no user has it |
| Repositories.ExistsByEmail | src/main/java/vn/ctiep/jobhunter/repository/UserRepository.java:22 | holds iff `findByEmail` finds a user |
| Repositories.FindByRefreshTokenAndEmail | src/main/java/vn/ctiep/jobhunter/repository/UserRepository.java:24 | the row found holds both the token and the e-mail; nothing is found iff no user holds both |
| Repositories.EndsBefore | src/main/java/vn/ctiep/jobhunter/repository/JobRepository.java:24 | a job without an end date is never expired |
| Repositories.ExpiredStaysExpired | src/main/java/vn/ctiep/jobhunter/repository/JobRepository.java:24 | a job expired at some time stays expired at every later time |
| Repositories.ExistsByUserIdAndJobId | src/main/java/vn/ctiep/jobhunter/repository/ResumeRepository.java:16 | holds iff some stored resume links that user and that job |
| WebSocketService.ToDto | src/main/java/vn/ctiep/jobhunter/service/WebSocketService.java:79-89 | the DTO copies the type, message, job name, company name, resume id and timestamp, and carries the owner's id |
| WebSocketService.NotificationSent | src/main/java/vn/ctiep/jobhunter/service/WebSocketService.java:33-59 | an unknown user or a null message stores nothing; otherwise exactly one unread notification owned by the user is appended, with a fresh id, and its DTO equals the one sent |
| WebSocketService.SendNotificationToUser | src/main/java/vn/ctiep/jobhunter/service/WebSocketService.java:33-59 | only the notifications table changes, as `NotificationSent` says |
| WebSocketService.SortNewestFirst | src/main/java/vn/ctiep/jobhunter/repository/NotificationRepository.java:9 | the result is ordered newest first and is a permutation of the input |
| WebSocketService.UnreadOf | src/main/java/vn/ctiep/jobhunter/repository/NotificationRepository.java:9 | newest first; holds exactly the user's unread notifications, each as often as in the table |
| WebSocketService.GetUnreadNotifications | src/main/java/vn/ctiep/jobhunter/service/WebSocketService.java:61-68 | fails iff the user is unknown; otherwise one DTO per unread notification of the user, each owned by that user |
| WebSocketService.ReadMarked | src/main/java/vn/ctiep/jobhunter/service/WebSocketService.java:71-77 | only the read flag changes, other users' notifications are untouched, and each of the user's notifications is read |
| WebSocketService.ReadMarkedLeavesNoUnread | src/main/java/vn/ctiep/jobhunter/service/WebSocketService.java:71-77 | afterwards the user has no unread notification |
| WebSocketService.ReadMarkedIdempotent | src/main/java/vn/ctiep/jobhunter/service/WebSocketService.java:71-77 | marking twice is marking once |
| WebSocketService.MarkNotificationsAsRead | src/main/java/vn/ctiep/jobhunter/service/WebSocketService.java:71-77 | an unknown user fails with no change; otherwise the notifications become `ReadMarked` |
| ResumeController.StoredJobRef | src/main/java/vn/ctiep/jobhunter/controller/ResumeController.java:97-101 | the stored resume's job is found iff it is linked and present, and the reference carries its id |
| ResumeController.CheckedJob | src/main/java/vn/ctiep/jobhunter/controller/ResumeController.java:97-103 | the job checked for quota is the request's when it carries one; it is absent iff the request has none and the stored resume's job is absent too |
| ResumeController.Template | src/main/java/vn/ctiep/jobhunter/controller/ResumeController.java:119-163 | exactly APPROVED, FAILED and HIRED send an e-mail, and each of them also has a notification message |
| ResumeController.Message | src/main/java/vn/ctiep/jobhunter/controller/ResumeController.java:119-163 | PENDING, REVIEWING, INTERVIEW_CONFIRMED and INTERVIEW_REJECTED have no message; the messages of APPROVED, FAILED and HIRED end with the job's name |
| ResumeController.Applied | src/main/java/vn/ctiep/jobhunter/controller/ResumeController.java:109-183 | an admitted update writes only the resume's status, one e-mail when the status has a template, and the notification; every other table is kept, and only HIRED can produce the last-hire message |
| ResumeController.Updated | src/main/java/vn/ctiep/jobhunter/controller/ResumeController.java:81-186 | the update succeeds iff the guards admit it; a refused update changes nothing and throws the first failing guard's error; a successful one stores the requested status |
| ResumeController.MailJob | src/main/java/vn/ctiep/jobhunter/controller/ResumeController.java:119-163 | a job resolved for an e-mail is the resume's own stored job |
| ResumeController.Admission | src/main/java/vn/ctiep/jobhunter/controller/ResumeController.java:83-110 | every update that passes the guards is admissible: the resume exists, has a user, and any e-mail status has its job and company |
| ResumeController.Update | src/main/java/vn/ctiep/jobhunter/controller/ResumeController.java:81-186 | the new store and the response are those of the pure update, guards first, then the events, then the save |
| ResumeController.ApplyStatus | src/main/java/vn/ctiep/jobhunter/controller/ResumeController.java:110-183 | the effects of an admitted update: e-mail, notification, status save and last-hire message |
| ResumeController.UpdateRejectsUnknownResume | src/main/java/vn/ctiep/jobhunter/controller/ResumeController.java:83-94 | an unknown resume, or one without a user, fails and changes nothing |
| ResumeController.UpdateRefusesHireOverQuota | src/main/java/vn/ctiep/jobhunter/controller/ResumeController.java:97-107 | HIRED is refused with no change when the checked job, from the request or else the stored resume, already has as many hires as its quantity |
| ResumeController.UpdateChangesOnlyStatus | src/main/java/vn/ctiep/jobhunter/controller/ResumeController.java:89-110 | on success the resume's status becomes the requested one, whatever it was; the rest of the row and every other table except notifications and outbox are unchanged |
| ResumeController.UpdateSucceedsIff | src/main/java/vn/ctiep/jobhunter/controller/ResumeController.java:83-163 | an update succeeds exactly when these hold: the resume exists and has a user; a status is given; a HIRED job is below quota; an e-mail status has a job and company |
| ResumeController.UpdateSendsMail | src/main/java/vn/ctiep/jobhunter/controller/ResumeController.java:119-163 | APPROVED, FAILED and HIRED send their template to the resume's address about its job; every other status, REJECTED included, sends nothing |
| ResumeController.UpdateNotifies | src/main/java/vn/ctiep/jobhunter/controller/ResumeController.java:113-117 | when the new status has a message, exactly one unread notification is stored for the stored resume's user, typed with the status name and carrying the resume id and time, provided the resume's user is stored; without a message none |
| ResumeController.AppliedNotifies | src/main/java/vn/ctiep/jobhunter/controller/ResumeController.java:113-165 | the same for the effect stage of an admitted request |
| ResumeController.UpdateLastHireMessage | src/main/java/vn/ctiep/jobhunter/controller/ResumeController.java:171-183 | the response message is set iff the status is HIRED and the hires after the save equal the job quantity |
| ResumeController.UpdateKeepsQuota | src/main/java/vn/ctiep/jobhunter/controller/ResumeController.java:97-110 | when the request carries no job, or the resume's stored job with its stored quantity, an update keeps every job's hires within its quantity |
| ResumeController.RequestQuantityOverridesStoredQuota | src/main/java/vn/ctiep/jobhunter/controller/ResumeController.java:97-107 | a request naming a larger quantity than the stored job's lets a second hire through a quota of one |
| ResumeController.QuotaSampleAdmitted | src/main/java/vn/ctiep/jobhunter/controller/ResumeController.java:83-107 | in the sample store the quota holds, and the guards admit the HIRED request because the check reads the body's quantity of five |
| ResumeController.Confirmed | src/main/java/vn/ctiep/jobhunter/controller/ResumeController.java:281-299 | succeeds iff the resume exists and is APPROVED, then sets INTERVIEW_CONFIRMED; an unknown id is ResumeNotFound; every failure changes nothing |
| ResumeController.ConfirmInterview | src/main/java/vn/ctiep/jobhunter/controller/ResumeController.java:281-299 | the new store and result are those of `Confirmed` |
| ResumeService.CheckResumeExistByUserAndJob | src/main/java/vn/ctiep/jobhunter/service/ResumeService.java:61-88 | the result is false iff the user or job is null or unknown; the call throws AlreadyApplied iff both exist and some resume, active or not, links them; true iff both exist and none does |
| ResumeService.ResumeDeleted | src/main/java/vn/ctiep/jobhunter/service/ResumeService.java:111-118 | an unknown id is a no-op; otherwise only that resume's active flag is cleared |
| ResumeService.ResumeDeletedIdempotent | src/main/java/vn/ctiep/jobhunter/service/ResumeService.java:111-118 | deleting twice is deleting once |
| ResumeService.Delete | src/main/java/vn/ctiep/jobhunter/service/ResumeService.java:111-118 | only the resumes table changes, as `ResumeDeleted` says |
| ResumeService.GetResume | src/main/java/vn/ctiep/jobhunter/service/ResumeService.java:120-137 | fails iff the user, the job or the job's company is missing; otherwise id, email, url, status and audit fields are copied, with the ids and names of the stored user and job and the name of the job's company |
| ResumeService.GetResumes | src/main/java/vn/ctiep/jobhunter/service/ResumeService.java:139-163 | on success one DTO per resume; a failure comes from some resume's failure |
| ResumeService.GetResumesFrom | src/main/java/vn/ctiep/jobhunter/service/ResumeService.java:139-163 | on success every DTO is the conversion of some listed resume, and every listed resume's DTO is present |
| ResumeService.FetchAllResume | src/main/java/vn/ctiep/jobhunter/service/ResumeService.java:139-163 | on success the DTOs are exactly those of resumes that are active and match the caller's filter |
| ResumeService.QuotaFilled | src/main/java/vn/ctiep/jobhunter/service/ResumeService.java:198-199 | a job with quantity zero or less is always full, and one whose quantity exceeds the number of resumes never is |
| ResumeService.HiredFullSwept | src/main/java/vn/ctiep/jobhunter/service/ResumeService.java:195-205 | only active flags change, no job left active has its quota filled, and inactive or below-quota jobs are unchanged |
| ResumeService.HiredFullSweptIdempotent | src/main/java/vn/ctiep/jobhunter/service/ResumeService.java:195-205 | sweeping twice is sweeping once |
| ResumeService.AutoDeactivateJobsWhenHiredFull | src/main/java/vn/ctiep/jobhunter/service/ResumeService.java:195-205 | the loop leaves the jobs as `HiredFullSwept` and every other table unchanged |
| JobService.CompanyOfCurrentUser | src/main/java/vn/ctiep/jobhunter/service/JobService.java:60-71 | a company is found only through an existing current user |
| JobService.LinkedSkills | src/main/java/vn/ctiep/jobhunter/service/JobService.java:73-80 | a skill id is linked iff it was requested and exists |
| JobService.CreatedJob | src/main/java/vn/ctiep/jobhunter/service/JobService.java:58-106 | the company is the current user's when they have one, else the request's. Fields are copied and the skills are the found subset. The id is fresh |
| JobService.Create | src/main/java/vn/ctiep/jobhunter/service/JobService.java:58-106 | appends exactly `CreatedJob` and nothing else |
| JobService.JobUpdated | src/main/java/vn/ctiep/jobhunter/service/JobService.java:108-165 | name, salary, quantity, location, level, dates and active come from the request. Id and company are kept. Skills are replaced only by a non-null list, with the found subset. Other jobs are unchanged |
| JobService.Update | src/main/java/vn/ctiep/jobhunter/service/JobService.java:108-165 | only the jobs table changes, as `JobUpdated` says |
| JobService.ResumesOfJobDeactivated | src/main/java/vn/ctiep/jobhunter/service/JobService.java:176-181 | every resume of the job becomes inactive, only the flag changes, and other resumes are untouched |
| JobService.JobDeleted | src/main/java/vn/ctiep/jobhunter/service/JobService.java:167-183 | an unknown id is a no-op; otherwise the job and its resumes become inactive |
| JobService.HandleDeleteJob | src/main/java/vn/ctiep/jobhunter/service/JobService.java:167-183 | the loops leave the store as `JobDeleted` |
| JobService.FetchByCompanyId | src/main/java/vn/ctiep/jobhunter/service/JobService.java:203-224 | a job is returned iff it belongs to the company and passes the optional filter |
| JobService.ExpiredSwept | src/main/java/vn/ctiep/jobhunter/service/JobService.java:228-238 | only active flags change, no job left active ended before `now`, and jobs not expired are unchanged |
| JobService.ExpiredSweptIdempotent | src/main/java/vn/ctiep/jobhunter/service/JobService.java:228-238 | sweeping twice with the same `now` is sweeping once |
| JobService.ExpiredSweptLeavesNoneExpired | src/main/java/vn/ctiep/jobhunter/service/JobService.java:228-238 | afterwards the expired-and-active query is empty |
| JobService.DeactivateExpiredJobs | src/main/java/vn/ctiep/jobhunter/service/JobService.java:228-238 | the loop leaves the jobs as `ExpiredSwept` and touches no other table |
| UserService.ResolvedCompany | src/main/java/vn/ctiep/jobhunter/service/UserService.java:42-45 | the company is kept iff it is given and exists |
| UserService.ResolvedRole | src/main/java/vn/ctiep/jobhunter/service/UserService.java:47-50 | the role is kept iff it is given and exists |
| UserService.CreatedUser | src/main/java/vn/ctiep/jobhunter/service/UserService.java:40-52 | fields come from the request; company and role are kept only when they resolve; the id is fresh |
| UserService.HandleCreateUser | src/main/java/vn/ctiep/jobhunter/service/UserService.java:40-52 | appends exactly `CreatedUser` and nothing else |
| UserService.UserUpdated | src/main/java/vn/ctiep/jobhunter/service/UserService.java:122-147 | an unknown id returns null with no change. Otherwise address, age, name, avatar and cv are overwritten, and gender only by a non-null value. Email, password, token and active are kept |
| UserService.HandleUpdateUser | src/main/java/vn/ctiep/jobhunter/service/UserService.java:122-147 | only the users table changes, as `UserUpdated` says |
| UserService.ResumesOfUserSet | src/main/java/vn/ctiep/jobhunter/service/UserService.java:62-67 | the user's resumes get the flag; only the flag changes, others are untouched |
| UserService.CompanySet | src/main/java/vn/ctiep/jobhunter/service/UserService.java:70-81 | sets only the active flag of the company with that id |
| UserService.UserDeleted | src/main/java/vn/ctiep/jobhunter/service/UserService.java:55-85 | an unknown id is a no-op. Otherwise the user and their resumes become inactive. The company is closed iff the user has role 2 and a company, and no other active user of it remains |
| UserService.HasOtherActiveUser | src/main/java/vn/ctiep/jobhunter/service/UserService.java:73-77 | with unique ids, another active user of the company remains iff `findByCompanyAndActiveTrue` still lists a user after the deleted one is removed |
| UserService.OtherActiveUserListed | src/main/java/vn/ctiep/jobhunter/service/UserService.java:73-77 | with unique ids, an active user of the company at another row is exactly a listed user with another id |
| UserService.DeleteNonRecruiterKeepsCompanies | src/main/java/vn/ctiep/jobhunter/service/UserService.java:70 | deleting a user without role 2 or without a company changes no company |
| UserService.HandleDeleteUser | src/main/java/vn/ctiep/jobhunter/service/UserService.java:55-85 | the new store is `UserDeleted` |
| UserService.SetResumesOfUser | src/main/java/vn/ctiep/jobhunter/service/UserService.java:62-67 | the loop leaves the resumes as `ResumesOfUserSet` |
| UserService.SetCompany | src/main/java/vn/ctiep/jobhunter/service/UserService.java:76-80 | the companies become `CompanySet` |
| UserService.UserRestored | src/main/java/vn/ctiep/jobhunter/service/UserService.java:234-265 | only an inactive user is restored (otherwise null, no change). Restoring reactivates the user and their resumes. The company reopens iff the user has role 2, the company has no active user and it is inactive |
| UserService.RestoreUser | src/main/java/vn/ctiep/jobhunter/service/UserService.java:234-265 | the new store and result are those of `UserRestored` |
| UserService.DeleteThenRestore | src/main/java/vn/ctiep/jobhunter/service/UserService.java:55-85 | delete then restore leaves the user and all their resumes active, and reopens the company the delete closed |
| UserService.ClosedCompanyReopens | src/main/java/vn/ctiep/jobhunter/service/UserService.java:248-258 | a company closed by deleting its last active recruiter satisfies the reopening condition of the restore |
| UserService.TokenUpdated | src/main/java/vn/ctiep/jobhunter/service/UserService.java:222-228 | only the refresh token of the user with that e-mail changes; an unknown e-mail is a no-op |
| UserService.UpdateUserToken | src/main/java/vn/ctiep/jobhunter/service/UserService.java:222-228 | only the users table changes, as `TokenUpdated` says |
| UserService.GetUserByRefreshTokenAndEmail | src/main/java/vn/ctiep/jobhunter/service/UserService.java:230-232 | a user is returned only if it holds that token and e-mail, and nothing iff no user does |
| CompanyService.CompanyCreated | src/main/java/vn/ctiep/jobhunter/service/CompanyService.java:31-33 | the saved company is the given one with a fresh id |
| CompanyService.HandleCreateCompany | src/main/java/vn/ctiep/jobhunter/service/CompanyService.java:31-33 | appends exactly `CompanyCreated` |
| CompanyService.CompanyUpdated | src/main/java/vn/ctiep/jobhunter/service/CompanyService.java:51-62 | an unknown id returns null with no change; otherwise only logo, name, description and address are copied |
| CompanyService.HandleUpdateCompany | src/main/java/vn/ctiep/jobhunter/service/CompanyService.java:51-62 | only the companies table changes, as `CompanyUpdated` says |
| CompanyService.JobsOfCompanySet | src/main/java/vn/ctiep/jobhunter/service/CompanyService.java:69-74 | the company's jobs get the flag, others are untouched |
| CompanyService.UsersOfCompanySet | src/main/java/vn/ctiep/jobhunter/service/CompanyService.java:76-81 | the company's users get the flag, others are untouched |
| CompanyService.CompanyDeleted | src/main/java/vn/ctiep/jobhunter/service/CompanyService.java:64-88 | an unknown id is a no-op. Otherwise the company, its jobs and its users become inactive, and resumes are untouched |
| CompanyService.CompanyRestored | src/main/java/vn/ctiep/jobhunter/service/CompanyService.java:94-119 | only an inactive company is restored (otherwise null, no change), with all its jobs and users |
| CompanyService.DeleteThenRestore | src/main/java/vn/ctiep/jobhunter/service/CompanyService.java:64-119 | delete then restore leaves the company and all its jobs and users active, and resumes unchanged |
| CompanyService.HandleDeleteCompany | src/main/java/vn/ctiep/jobhunter/service/CompanyService.java:64-88 | the loops leave the store as `CompanyDeleted` |
| CompanyService.RestoreCompany | src/main/java/vn/ctiep/jobhunter/service/CompanyService.java:94-119 | the new store and result are those of `CompanyRestored` |
| CompanyService.SetJobsOfCompany | src/main/java/vn/ctiep/jobhunter/service/CompanyService.java:69-74 | the loop leaves the jobs as `JobsOfCompanySet` |
| CompanyService.SetUsersOfCompany | src/main/java/vn/ctiep/jobhunter/service/CompanyService.java:76-81 | the loop leaves the users as `UsersOfCompanySet` |
| SubscriberService.SentKeyInjective | src/main/java/vn/ctiep/jobhunter/service/SubscriberService.java:111 | distinct addresses have distinct cache keys |
| SubscriberService.JobIds | src/main/java/vn/ctiep/jobhunter/service/SubscriberService.java:133-135 | exactly the ids of the listed jobs |
| SubscriberService.FilterNewJobs | src/main/java/vn/ctiep/jobhunter/service/SubscriberService.java:109-120 | a job is kept iff its id is not in the address's sent set; with no entry every job is kept |
| SubscriberService.FilterNewJobsKeepsOrder | src/main/java/vn/ctiep/jobhunter/service/SubscriberService.java:109-120 | the filter distributes over concatenation, so the original order is kept |
| SubscriberService.MarkedAsSent | src/main/java/vn/ctiep/jobhunter/service/SubscriberService.java:124-138 | the new sent set is the old one plus the jobs' ids, and no address loses an id |
| SubscriberService.MarkedJobsAreNotNew | src/main/java/vn/ctiep/jobhunter/service/SubscriberService.java:111-137 | after marking, filtering the same jobs gives nothing |
| SubscriberService.MarkJobsAsSent | src/main/java/vn/ctiep/jobhunter/service/SubscriberService.java:124-138 | the loop leaves the cache as `MarkedAsSent` |
| SubscriberService.MatchedJobs | src/main/java/vn/ctiep/jobhunter/service/SubscriberService.java:149 | a job is matched iff it is active and shares a skill with the subscriber |
| SubscriberService.JobIdSeq | src/main/java/vn/ctiep/jobhunter/service/SubscriberService.java:155-157 | the ids of the e-mailed jobs, in order |
| SubscriberService.DigestStep | src/main/java/vn/ctiep/jobhunter/service/SubscriberService.java:144-168 | a subscriber without skills, or with no new jobs, changes nothing. With new jobs the step fails iff one of them has no stored company; otherwise one e-mail to them lists exactly the new jobs, which are marked, and the count grows by one |
| SubscriberService.Digest | src/main/java/vn/ctiep/jobhunter/service/SubscriberService.java:140-171 | a run that has already thrown stops; the count only grows, and the outbox keeps what it had and gains exactly one e-mail per subscriber counted |
| SubscriberService.StepCounts | src/main/java/vn/ctiep/jobhunter/service/SubscriberService.java:153-168 | one subscriber's turn adds one to the count exactly when it appends one e-mail, and keeps the e-mails already sent |
| SubscriberService.DigestSentBound | src/main/java/vn/ctiep/jobhunter/service/SubscriberService.java:140-171 | the count is at most the number of subscribers |
| SubscriberService.StepCovers | src/main/java/vn/ctiep/jobhunter/service/SubscriberService.java:144-168 | after a subscriber's turn the cache only grows, and every job matched for them is marked as sent |
| SubscriberService.DigestCovers | src/main/java/vn/ctiep/jobhunter/service/SubscriberService.java:140-171 | after a run without failure every subscriber's matched jobs are in their sent set |
| SubscriberService.CoveredGrows | src/main/java/vn/ctiep/jobhunter/service/SubscriberService.java:124-138 | a subscriber stays covered as the cache grows |
| SubscriberService.DigestIdle | src/main/java/vn/ctiep/jobhunter/service/SubscriberService.java:140-171 | when every subscriber is covered a run changes nothing and sends nothing |
| SubscriberService.SecondRunSendsNothing | src/main/java/vn/ctiep/jobhunter/service/SubscriberService.java:140-171 | a second run over the same jobs with the cache the first one left sends 0 e-mails and changes nothing |
| SubscriberService.SendSubscribersEmailJobs | src/main/java/vn/ctiep/jobhunter/service/SubscriberService.java:140-171 | the loop leaves the cache and outbox as `Digest` and returns its count, or its failure |
| SubscriberService.SendToSubscriber | src/main/java/vn/ctiep/jobhunter/service/SubscriberService.java:145-168 | one loop iteration: a failure leaves the cache and outbox unchanged, otherwise they and the count become those of `DigestStep` |
| SubscriberService.EmailJobs | src/main/java/vn/ctiep/jobhunter/service/SubscriberService.java:159-166 | appends the digest e-mail listing the jobs, then marks them as sent |
| SubscriberService.SubscriberUpdated | src/main/java/vn/ctiep/jobhunter/service/SubscriberService.java:58-69 | only the skills change, and only for a non-null request list, which becomes the found subset |
| SubscriberService.Update | src/main/java/vn/ctiep/jobhunter/service/SubscriberService.java:58-69 | only the subscribers table changes, as `SubscriberUpdated` says |
| SubscriberService.UpdateRelinks | src/main/java/vn/ctiep/jobhunter/service/SubscriberService.java:58-69 | with unique ids, the updated subscriber is linked to exactly the skills of its new list, and every other subscriber of every skill keeps its links |
| SubscriberService.SubscriberDeleted | src/main/java/vn/ctiep/jobhunter/service/SubscriberService.java:78-92 | fails with SubscriberNotFound iff the id is unknown, and with the null dereference iff the found row has no skill list; a success removes exactly that subscriber's row, keeps the other rows in order, and changes no other table |
| SubscriberService.DeleteLeavesNoTrace | src/main/java/vn/ctiep/jobhunter/service/SubscriberService.java:78-92 | with unique ids, afterwards no row keeps the subscriber's id and every skill's subscribers are the old ones minus it |
| SubscriberService.Delete | src/main/java/vn/ctiep/jobhunter/service/SubscriberService.java:78-92 | a failure changes nothing; a success leaves the store as `SubscriberDeleted` |
| AuthController.Registered | src/main/java/vn/ctiep/jobhunter/controller/AuthController.java:231-242 | an existing e-mail fails with no change; otherwise one user with that e-mail and the hashed password is appended |
| AuthController.Register | src/main/java/vn/ctiep/jobhunter/controller/AuthController.java:231-242 | the new store and result are those of `Registered` |
| AuthController.RecruiterRegistered | src/main/java/vn/ctiep/jobhunter/controller/AuthController.java:245-276 | an existing e-mail fails before anything is created. Otherwise a company created by that e-mail is appended with a fresh id, and the call succeeds iff role 2 exists; if it is missing the company is kept and no user is added. On success the user is linked to the new company and role 2. Only the companies and users tables change |
| AuthController.RegisterRecruiter | src/main/java/vn/ctiep/jobhunter/controller/AuthController.java:245-276 | the new store and result are those of `RecruiterRegistered` |
| AuthController.LoggedIn | src/main/java/vn/ctiep/jobhunter/controller/AuthController.java:71-119 | failed authentication changes nothing; otherwise the issued refresh token is stored for the user |
| AuthController.LoginStoresToken | src/main/java/vn/ctiep/jobhunter/controller/AuthController.java:104-107 | after login the user with that name holds the issued token |
| AuthController.Login | src/main/java/vn/ctiep/jobhunter/controller/AuthController.java:71-119 | the new store and result are those of `LoggedIn` |
| AuthController.Refreshed | src/main/java/vn/ctiep/jobhunter/controller/AuthController.java:150-203 | three cases fail and change nothing: the default cookie "abc", a token that does not verify, and a token that is not the one stored for the subject. In every other case the call succeeds with the new token, which is stored for the subject |
| AuthController.GetRefreshToken | src/main/java/vn/ctiep/jobhunter/controller/AuthController.java:150-203 | the new store and result are those of `Refreshed` |
| AuthController.RefreshRotatesToken | src/main/java/vn/ctiep/jobhunter/controller/AuthController.java:160-191 | with unique e-mails, after a refresh the old token no longer passes the stored-token check and the new one does |
| AuthController.LoggedOut | src/main/java/vn/ctiep/jobhunter/controller/AuthController.java:207-227 | no current user fails with no change; otherwise the stored token becomes null |
| AuthController.LogoutClearsToken | src/main/java/vn/ctiep/jobhunter/controller/AuthController.java:207-227 | after logout no refresh token passes the check for that user |
| AuthController.Logout | src/main/java/vn/ctiep/jobhunter/controller/AuthController.java:207-227 | the new store and result are those of `LoggedOut` |
| JavaText.Segments | src/main/java/vn/ctiep/jobhunter/service/FileService.java:119-121 | at least one segment, none containing '.' |
| JavaText.JoinSegments | src/main/java/vn/ctiep/jobhunter/service/FileService.java:119-121 | joining the segments with '.' gives the string back |
| JavaText.LastSegmentEmpty | src/main/java/vn/ctiep/jobhunter/service/FileService.java:119-121 | the last segment is empty iff the string is empty or ends with '.' |
| JavaText.DropTrailingEmpty | src/main/java/vn/ctiep/jobhunter/service/FileService.java:120 | drops exactly the trailing empty strings |
| JavaText.SplitOnDot | src/main/java/vn/ctiep/jobhunter/service/FileService.java:120 | no segment contains '.', and a name without '.' is its own single segment |
| JavaText.SplitOnDotJoin | src/main/java/vn/ctiep/jobhunter/service/FileService.java:120 | for a name not ending in '.', joining the split with '.' gives the name back |
| FileService.GetFileName | src/main/java/vn/ctiep/jobhunter/service/FileService.java:119-121 | no segment contains '.' |
| FileService.Extension | src/main/java/vn/ctiep/jobhunter/service/FileService.java:46 | fails iff there are fewer than two segments; otherwise it is the second segment lower-cased |
| FileService.GeneratePublicValue | src/main/java/vn/ctiep/jobhunter/service/FileService.java:114-117 | absent iff there is no segment; otherwise the UUID, then '_', then the first segment |
| FileService.PlanUpload | src/main/java/vn/ctiep/jobhunter/service/FileService.java:42-67 | fails iff there are fewer than two segments. Otherwise the public id is `generatePublicValue`'s, the PDF branch is taken iff the extension is "pdf", and the temp file is named after the raw second segment |
| FileController.Upload | src/main/java/vn/ctiep/jobhunter/controller/FileController.java:37-59 | a null or empty file is rejected, then a name without an allowed lower-cased ending, all before the upload; the rest is planned by `uploadToCloudinary` |
| FileController.ToLowerCaseAppend | src/main/java/vn/ctiep/jobhunter/controller/FileController.java:49 | lower-casing commutes with concatenation |
| FileController.AcceptsSingleDotName | src/main/java/vn/ctiep/jobhunter/controller/FileController.java:46-55 | `base.ext` with an allowed extension in any case is accepted, with the public id from `base`, and the PDF branch iff the extension is "pdf" |
| FileController.UpperCasePdfAccepted | src/main/java/vn/ctiep/jobhunter/controller/FileController.java:49 | "CV.PDF" is accepted and converted from PDF |
| FileController.DotlessNameFailsAfterWhitelist | src/main/java/vn/ctiep/jobhunter/controller/FileController.java:49 | "resumepdf" passes the ending test, then fails in the extension lookup |
| FileController.GifRefused | src/main/java/vn/ctiep/jobhunter/controller/FileController.java:47-52 | "photo.gif" is refused |
| FileController.MultiDotNameUsesSecondSegment | src/main/java/vn/ctiep/jobhunter/service/FileService.java:46 | for `a.b.c` with an allowed ending the extension used is `b`, so "my.cv.pdf" is not converted |
| FileController.ThreeSegments | src/main/java/vn/ctiep/jobhunter/service/FileService.java:119-121 | `a.b.c` splits into `a`, `b`, `c` |
| FileController.SegmentsAfterDot | src/main/java/vn/ctiep/jobhunter/service/FileService.java:119-121 | the segments of `a.b` are `a` followed by those of `b` |
| FileController.SegmentsNoDot | src/main/java/vn/ctiep/jobhunter/service/FileService.java:119-121 | a string without '.' is one segment |

Proof helpers have no row: `SubscriberService.PrefixOfPrefix`, `SubscriberService.RowRemoved`, `SubscriberService.RemovedRowUnlinks` and `ResumeController.TwoHiresBreakQuota` state facts about sequences and counts that the rows above rely on.

## Left out

- Mail transport and Thymeleaf templating (EmailService): each send is a `Mail` event with recipient, template and job ids. Subject lines and template variables are not kept.
- The WebSocket push (`convertAndSend`) and the broker configuration: only persisted notifications are modelled.
- Password checking, hashing, JWT minting and verification, and Google sign-in: their outcomes are parameters. The login response DTO and cookies are not modelled.
- The chatbot service, the dashboard's SQL aggregates, the path-permission interceptor and the thin controllers (user, job, company, subscriber, notification, chat, e-mail): outside this model.
- Pagination metadata and the spring-filter query language: a caller's filter is a predicate parameter.
- The Redis 30-day expiry, `@Scheduled` timing, `@Async` and `@Transactional` rollback: a failure in the model keeps what was written before it, as the code without a transaction would.
- The rollback-only rule of `@Transactional`: a failed insert inside `sendNotificationToUser` marks its transaction rollback-only, so the `catch` most likely does not save the caller. Under that rule a resume update to PENDING, REVIEWING, INTERVIEW_CONFIRMED or INTERVIEW_REJECTED, whose notification has a null message, would most likely fail at commit instead of succeeding without a notification. The model follows the `catch` alone.
- Audit stamping (createdAt, createdBy, ...) done by JPA listeners: rows carry the audit fields as data.
- The `case PASSED` branch of `ResumeController.update`: that constant is not in `ResumeStateEnum`, so it is left out and only the eight enum values are modelled.
- `ResumeRepository.findByJobIdAndActiveTrue` is not declared in the repository. It is modelled by the meaning Spring Data gives its name.
- `JobService.restoreJob`, `approveJob`, `rejectJob`, `countByStatus`, and `ResumeService.handleDeleteResume` and `restoreResume`: their bodies are not part of this model.
- UserService.CreatedUser, UserService.HandleCreateUser, AuthController.Registered, AuthController.Register, JobService.CreatedJob, JobService.Create, CompanyService.CompanyCreated and CompanyService.HandleCreateCompany: the posted entity is taken to carry no id, so a new row is always appended. A body that carries a stored row's id makes `save` merge into that row instead, which these members do not model.
- Entity defaults are not shown: new users and companies are taken to start active (`NewRowActive`).
- Denormalised entity lists (`company.getJobs()`, `user.getResumes()`): each list is the set of rows whose foreign key points back. The subscriber–skill join table is stored once, as each subscriber's skill list; `skill.getSubscribers()` is derived from it (`SubscribersOfSkill`), so the in-memory removals at line 84 of `SubscriberService.delete` have no separate effect.
- `findBySkillsInAndActiveTrue` may repeat a job that matches several skills because of the join. The model returns each job once.
- Repositories.FindByEmail and Repositories.FindByRefreshTokenAndEmail: the source's single-result queries throw when two users match; the model takes the first match instead, so token updates, login, refresh and logout do not fail on a shared e-mail. The lemmas about tokens assume unique e-mails.
- The PDF-to-PNG rendering, temp files and the Cloudinary upload: the model stops at the upload plan (public id, PDF branch, temp suffix). Lower-casing is ASCII only.
- The `folder` request parameter of the upload endpoint: the code does not use it.
- ResumeController.UpdateKeepsQuota: holds only for requests that carry no job or the resume's stored job with its stored quantity. A request naming another job or another quantity is checked against that job instead, so the quota is not kept, as `RequestQuantityOverridesStoredQuota` shows.
- JobService.JobUpdated and SubscriberService.SubscriberUpdated take the stored row as given (`k < |rows|`), as the Java methods receive the entity already loaded by the controller.
