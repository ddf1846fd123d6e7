/**
 * The two login routes: each compares the submitted username and password
 * with one fixed pair, and reads and writes no stored collection.
 */
module Auth {
  import opened Records

  datatype Role = Student | Warden

  /** What a login route answers: a dashboard page, or a rejection text. */
  datatype LoginReply = Dashboard(page: string) | Rejected(message: string)

  /** `username === 'student' && password === '1234'`; a missing field is never equal. */
  predicate StudentCredentialsOk(body: Body)
  {
    "username" in body && body["username"] == "student" && "password" in body && body["password"] == "1234"
  }

  /** `username === 'warden' && password === '5678'`. */
  predicate WardenCredentialsOk(body: Body)
  {
    "username" in body && body["username"] == "warden" && "password" in body && body["password"] == "5678"
  }

  /** The reply of `/student-login` or `/warden-login`. */
  function Login(role: Role, body: Body): (reply: LoginReply)
    ensures reply.Dashboard? <==>
      && "username" in body && "password" in body
      && (body["username"], body["password"]) == (if role == Student then ("student", "1234") else ("warden", "5678"))
    ensures reply.Dashboard? ==>
      reply.page == (if role == Student then "student_dashboard.html" else "warden_dashboard.html")
    ensures reply.Rejected? ==>
      reply.message == (if role == Student then "Invalid Student Credentials" else "Invalid Warden Credentials")
  {
    match role
    case Student =>
      if StudentCredentialsOk(body) then Dashboard("student_dashboard.html") else Rejected("Invalid Student Credentials")
    case Warden =>
      if WardenCredentialsOk(body) then Dashboard("warden_dashboard.html") else Rejected("Invalid Warden Credentials")
  }

  /** Exactly one username and password pair opens each dashboard. */
  lemma OnePairPerRole(role: Role, b1: Body, b2: Body)
    requires Login(role, b1).Dashboard? && Login(role, b2).Dashboard?
    ensures b1["username"] == b2["username"] && b1["password"] == b2["password"]
  {
  }

  /** No submitted form opens both dashboards. */
  lemma RolesExclusive(body: Body)
    ensures !(Login(Student, body).Dashboard? && Login(Warden, body).Dashboard?)
  {
  }
}
