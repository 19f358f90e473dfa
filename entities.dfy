/** The persisted entities of the job board, as rows: foreign keys are the ids of other rows. */
module Entities {
  import opened Wrappers

  /** The hiring states of a resume (application). */
  datatype ResumeState =
    | Pending | Reviewing | Approved | Rejected
    | InterviewConfirmed | InterviewRejected | Failed | Hired
  {
    /** The enum constant's name, as `toString()` gives it. */
    function Name(): (r: string)
      ensures r != []
    {
      match this
      case Pending => "PENDING"
      case Reviewing => "REVIEWING"
      case Approved => "APPROVED"
      case Rejected => "REJECTED"
      case InterviewConfirmed => "INTERVIEW_CONFIRMED"
      case InterviewRejected => "INTERVIEW_REJECTED"
      case Failed => "FAILED"
      case Hired => "HIRED"
    }
  }

  /** Distinct states have distinct names, so a notification's type identifies the state. */
  lemma NameInjective(a: ResumeState, b: ResumeState)
    requires a.Name() == b.Name()
    ensures a == b
  {
  }

  /** The audit columns every entity carries. */
  datatype Audit = Audit(createdAt: int, createdBy: string, updatedAt: int, updatedBy: string)

  datatype User = User(
    id: int, email: string, name: string, password: string,
    address: string, age: int, gender: Option<string>, avatar: string, cv: string,
    company: Option<int>, role: Option<int>, refreshToken: Option<string>, active: bool)

  datatype Company = Company(
    id: int, name: string, description: string, address: string, logo: string,
    createdBy: string, active: bool)

  datatype Role = Role(id: int, name: string)

  /** The id of the recruiter (HR) role. */
  const RecruiterRole: int := 2

  datatype Job = Job(
    id: int, name: string, salary: real, quantity: int, location: string, level: string,
    startDate: int, endDate: Option<int>, active: bool, company: Option<int>, skills: seq<int>)

  /** A skill; its subscribers are the ones whose skill list names it. */
  datatype Skill = Skill(id: int, name: string)

  datatype Resume = Resume(
    id: int, email: string, url: string, status: ResumeState,
    user: Option<int>, job: Option<int>, active: bool, audit: Audit)

  /** An e-mail recipient matched to jobs by skills; `skills` is `None` for a null list. */
  datatype Subscriber = Subscriber(id: int, email: string, name: string, skills: Option<seq<int>>)

  datatype Notification = Notification(
    id: int, kind: string, message: Option<string>, jobName: Option<string>,
    companyName: Option<string>, resumeId: Option<int>, user: int, timestamp: int, read: bool)

  /** The notification as sent to and received from clients. */
  datatype NotificationDto = NotificationDto(
    kind: string, message: Option<string>, jobName: Option<string>,
    companyName: Option<string>, resumeId: Option<int>, userId: Option<int>, timestamp: int)

  /** An e-mail handed to the mail transport: recipient, template name and the jobs it lists. */
  datatype Mail = Mail(to: string, template: string, jobs: seq<int>)

  /** New users and companies are stored active. */
  const NewRowActive: bool := true

  /** The exceptions the modelled operations throw. */
  datatype Error =
    | ResumeNotFound          // "Resume với id = ... không tồn tại"
    | ResumeWithoutUser       // the stored resume has no user
    | MissingStatus           // a null status dereferenced
    | MissingReference        // a null or dangling job, company or user dereferenced
    | HiringQuotaReached      // HIRED count already at the job's quantity
    | NotApproved             // confirmInterview outside APPROVED
    | AlreadyApplied          // the user already applied for the job
    | UserNotFound
    | SubscriberNotFound
    | EmailExists
    | RecruiterRoleMissing
    | BadCredentials
    | NoRefreshCookie
    | InvalidRefreshToken
    | InvalidAccessToken
    | EmptyFile
    | BadExtension
    | NoExtension             // `split(...)[1]` out of bounds
}
