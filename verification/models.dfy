/**
 * The GORM records of internal/models, as values: their status predicates,
 * the timestamp hooks, the request rules and the `ToResponse` projections.
 * Timestamps are instants on an integer clock; has-many association
 * slices are not part of these records.
 */
module Models {
  import opened Wrappers

  type Time = int

  // ---------------------------------------------------------------- users

  datatype User = User(
    id: nat, username: string, email: string, password: string, role: string, avatar: string,
    phone: string, studentId: string, major: string, grade: string, status: string,
    createdAt: Time, updatedAt: Time, deletedAt: Option<Time>)

  /** `UserResponse`: eleven public fields, no password. */
  datatype UserResponse = UserResponse(
    id: nat, username: string, email: string, role: string, avatar: string, phone: string,
    studentId: string, major: string, grade: string, status: string, createdAt: Time)

  predicate IsAdmin(u: User) { u.role == "admin" }

  predicate IsStudent(u: User) { u.role == "student" }

  predicate IsActive(u: User) { u.status == "active" }

  lemma UserRolesExclusive(u: User)
    ensures !(IsAdmin(u) && IsStudent(u))
  {
  }

  function UserToResponse(u: User): (r: UserResponse)
    ensures r.id == u.id && r.email == u.email && r.role == u.role && r.status == u.status
  {
    UserResponse(u.id, u.username, u.email, u.role, u.avatar, u.phone, u.studentId, u.major,
                 u.grade, u.status, u.createdAt)
  }

  /** Two users look the same to clients iff they differ only in password, update time and deletion mark. */
  lemma UserResponseForgetsExactlyPrivateFields(u: User, v: User)
    ensures UserToResponse(u) == UserToResponse(v) <==>
      u.(password := v.password, updatedAt := v.updatedAt, deletedAt := v.deletedAt) == v
  {
  }

  /** The password never reaches the response. */
  lemma UserResponseHidesPassword(u: User, password: string)
    ensures UserToResponse(u.(password := password)) == UserToResponse(u)
  {
  }

  /** `BeforeCreate` reads the clock twice, once per timestamp; nothing else changes. */
  function UserBeforeCreate(u: User, now1: Time, now2: Time): (r: User)
    ensures r.createdAt == now1 && r.updatedAt == now2
    ensures r.(createdAt := u.createdAt, updatedAt := u.updatedAt) == u
  {
    u.(createdAt := now1, updatedAt := now2)
  }

  function UserBeforeUpdate(u: User, now: Time): (r: User)
    ensures r.updatedAt == now && r.(updatedAt := u.updatedAt) == u
  {
    u.(updatedAt := now)
  }

  /** `UserUpdateRequest`. */
  datatype UserUpdateRequest = UserUpdateRequest(
    username: string, phone: string, studentId: string, major: string, grade: string, avatar: string)

  /** Its rules: `omitempty,min=3,max=20` on the user name and `omitempty,len=11` on the phone. */
  predicate UserUpdateRequestValid(req: UserUpdateRequest) {
    (req.username == "" || 3 <= |req.username| <= 20) && (req.phone == "" || |req.phone| == 11)
  }

  lemma EmptyUpdateRequestValid()
    ensures UserUpdateRequestValid(UserUpdateRequest("", "", "", "", "", ""))
  {
  }

  // ---------------------------------------------------------------- labs

  datatype Lab = Lab(
    id: nat, name: string, description: string, requirements: string, maxMembers: int,
    currentMembers: int, contactEmail: string, contactPhone: string, location: string,
    tags: seq<string>, coverImage: string, status: string, createdBy: nat,
    createdAt: Time, updatedAt: Time, deletedAt: Option<Time>, creator: User)

  datatype LabResponse = LabResponse(
    id: nat, name: string, description: string, requirements: string, maxMembers: int,
    currentMembers: int, contactEmail: string, contactPhone: string, location: string,
    tags: seq<string>, coverImage: string, status: string, createdBy: nat,
    creator: Option<UserResponse>, createdAt: Time, updatedAt: Time)

  predicate LabIsActive(l: Lab) { l.status == "active" }

  predicate IsFull(l: Lab) { l.currentMembers >= l.maxMembers }

  function GetAvailableSlots(l: Lab): (n: int)
    ensures n >= 0
    ensures n == 0 || n == l.maxMembers - l.currentMembers
    ensures n >= l.maxMembers - l.currentMembers
  {
    var available := l.maxMembers - l.currentMembers;
    if available < 0 then 0 else available
  }

  /** A lab is full exactly when it has no slot left. */
  lemma FullIffNoSlots(l: Lab)
    ensures IsFull(l) <==> GetAvailableSlots(l) == 0
  {
  }

  /** One more member takes one slot, until the lab is full. */
  lemma JoiningTakesASlot(l: Lab)
    requires !IsFull(l)
    ensures GetAvailableSlots(l.(currentMembers := l.currentMembers + 1)) == GetAvailableSlots(l) - 1
  {
  }

  function LabToResponse(l: Lab): (r: LabResponse)
    ensures r.creator.Some? <==> l.creator.id != 0
    ensures r.creator.Some? ==> r.creator.value == UserToResponse(l.creator)
  {
    LabResponse(l.id, l.name, l.description, l.requirements, l.maxMembers, l.currentMembers,
                l.contactEmail, l.contactPhone, l.location, l.tags, l.coverImage, l.status,
                l.createdBy, if l.creator.id != 0 then Some(UserToResponse(l.creator)) else None,
                l.createdAt, l.updatedAt)
  }

  /** Labs with the same creator projection agree in the response iff they agree on every scalar field. */
  lemma LabResponseCopiesScalars(l: Lab, m: Lab)
    requires l.creator == m.creator
    ensures LabToResponse(l) == LabToResponse(m) <==> l.(deletedAt := m.deletedAt) == m
  {
  }

  function LabBeforeCreate(l: Lab, now1: Time, now2: Time): (r: Lab)
    ensures r.createdAt == now1 && r.updatedAt == now2
    ensures r.(createdAt := l.createdAt, updatedAt := l.updatedAt) == l
  {
    l.(createdAt := now1, updatedAt := now2)
  }

  function LabBeforeUpdate(l: Lab, now: Time): (r: Lab)
    ensures r.updatedAt == now && r.(updatedAt := l.updatedAt) == l
  {
    l.(updatedAt := now)
  }

  // ---------------------------------------------------------------- lab applications

  datatype Application = Application(
    id: nat, userId: nat, labId: nat, motivation: string, skills: seq<string>, experience: string,
    availableTime: string, resumeUrl: string, status: string, feedback: string,
    reviewedBy: Option<nat>, reviewedAt: Option<Time>, createdAt: Time, updatedAt: Time,
    deletedAt: Option<Time>, user: User, lab: Lab, reviewer: Option<User>)

  datatype ApplicationResponse = ApplicationResponse(
    id: nat, userId: nat, labId: nat, motivation: string, skills: seq<string>, experience: string,
    availableTime: string, resumeUrl: string, status: string, feedback: string,
    reviewedBy: Option<nat>, reviewedAt: Option<Time>, createdAt: Time, updatedAt: Time,
    user: Option<UserResponse>, lab: Option<LabResponse>, reviewer: Option<UserResponse>)

  predicate ApplicationIsPending(a: Application) { a.status == "pending" }

  predicate IsAccepted(a: Application) { a.status == "accepted" }

  predicate ApplicationIsRejected(a: Application) { a.status == "rejected" }

  predicate IsReviewed(a: Application) { a.status == "accepted" || a.status == "rejected" }

  lemma ReviewedIffDecided(a: Application)
    ensures IsReviewed(a) <==> IsAccepted(a) || ApplicationIsRejected(a)
    ensures !(ApplicationIsPending(a) && IsAccepted(a))
    ensures !(ApplicationIsPending(a) && ApplicationIsRejected(a))
    ensures !(IsAccepted(a) && ApplicationIsRejected(a))
    ensures ApplicationIsPending(a) ==> !IsReviewed(a)
  {
  }

  /** `ApplicationReviewRequest`: `required,oneof=accepted rejected`. */
  predicate ReviewRequestValid(status: string) {
    status in {"accepted", "rejected"}
  }

  /** A valid review always leaves the application reviewed. */
  lemma ValidReviewDecides(a: Application, status: string)
    requires ReviewRequestValid(status)
    ensures IsReviewed(a.(status := status))
  {
  }

  function ApplicationToResponse(a: Application): (r: ApplicationResponse)
    ensures r.user.Some? <==> a.user.id != 0
    ensures r.user.Some? ==> r.user.value == UserToResponse(a.user)
    ensures r.lab.Some? <==> a.lab.id != 0
    ensures r.lab.Some? ==> r.lab.value == LabToResponse(a.lab)
    ensures r.reviewer.Some? <==> a.reviewer.Some? && a.reviewer.value.id != 0
    ensures r.reviewer.Some? ==> r.reviewer.value == UserToResponse(a.reviewer.value)
  {
    ApplicationResponse(
      a.id, a.userId, a.labId, a.motivation, a.skills, a.experience, a.availableTime, a.resumeUrl,
      a.status, a.feedback, a.reviewedBy, a.reviewedAt, a.createdAt, a.updatedAt,
      if a.user.id != 0 then Some(UserToResponse(a.user)) else None,
      if a.lab.id != 0 then Some(LabToResponse(a.lab)) else None,
      if a.reviewer.Some? && a.reviewer.value.id != 0 then Some(UserToResponse(a.reviewer.value)) else None)
  }

  /** With the same associations, two applications agree in the response iff they agree on every scalar field. */
  lemma ApplicationResponseCopiesScalars(a: Application, b: Application)
    requires a.user == b.user && a.lab == b.lab && a.reviewer == b.reviewer
    ensures ApplicationToResponse(a) == ApplicationToResponse(b) <==> a.(deletedAt := b.deletedAt) == b
  {
  }

  function ApplicationBeforeCreate(a: Application, now1: Time, now2: Time): (r: Application)
    ensures r.createdAt == now1 && r.updatedAt == now2
    ensures r.(createdAt := a.createdAt, updatedAt := a.updatedAt) == a
  {
    a.(createdAt := now1, updatedAt := now2)
  }

  function ApplicationBeforeUpdate(a: Application, now: Time): (r: Application)
    ensures r.updatedAt == now && r.(updatedAt := a.updatedAt) == a
  {
    a.(updatedAt := now)
  }

  // ---------------------------------------------------------------- interview applications

  datatype InterviewApplication = InterviewApplication(
    id: nat, name: string, email: string, phone: string, studentId: string, major: string,
    grade: string, interviewTime: string, status: string, adminRemarks: string,
    createdAt: Time, updatedAt: Time, deletedAt: Option<Time>)

  datatype InterviewApplicationResponse = InterviewApplicationResponse(
    id: nat, name: string, email: string, phone: string, studentId: string, major: string,
    grade: string, interviewTime: string, status: string, adminRemarks: string,
    createdAt: Time, updatedAt: Time)

  predicate IsPending(ia: InterviewApplication) { ia.status == "pending" }

  predicate IsInterviewed(ia: InterviewApplication) { ia.status == "interviewed" }

  predicate IsPassed(ia: InterviewApplication) { ia.status == "passed" }

  predicate IsRejected(ia: InterviewApplication) { ia.status == "rejected" }

  /** Each predicate is one literal, so at most one holds, and none for a status outside the enum. */
  lemma InterviewStatusesExclusive(ia: InterviewApplication)
    ensures IsPending(ia) ==> !IsInterviewed(ia) && !IsPassed(ia) && !IsRejected(ia)
    ensures IsInterviewed(ia) ==> !IsPassed(ia) && !IsRejected(ia)
    ensures IsPassed(ia) ==> !IsRejected(ia)
    ensures ia.status !in InterviewStatuses ==>
      !IsPending(ia) && !IsInterviewed(ia) && !IsPassed(ia) && !IsRejected(ia)
  {
  }

  const InterviewStatuses: set<string> := {"pending", "interviewed", "passed", "rejected"}

  function InterviewToResponse(ia: InterviewApplication): (r: InterviewApplicationResponse)
    ensures r.id == ia.id && r.email == ia.email && r.status == ia.status
  {
    InterviewApplicationResponse(ia.id, ia.name, ia.email, ia.phone, ia.studentId, ia.major,
                                 ia.grade, ia.interviewTime, ia.status, ia.adminRemarks,
                                 ia.createdAt, ia.updatedAt)
  }

  /** The response keeps all twelve public fields and forgets only the deletion mark. */
  lemma InterviewResponseForgetsOnlyDeletion(a: InterviewApplication, b: InterviewApplication)
    ensures InterviewToResponse(a) == InterviewToResponse(b) <==> a.(deletedAt := b.deletedAt) == b
  {
  }

  function InterviewBeforeCreate(ia: InterviewApplication, now1: Time, now2: Time): (r: InterviewApplication)
    ensures r.createdAt == now1 && r.updatedAt == now2
    ensures r.(createdAt := ia.createdAt, updatedAt := ia.updatedAt) == ia
  {
    ia.(createdAt := now1, updatedAt := now2)
  }

  function InterviewBeforeUpdate(ia: InterviewApplication, now: Time): (r: InterviewApplication)
    ensures r.updatedAt == now && r.(updatedAt := ia.updatedAt) == ia
  {
    ia.(updatedAt := now)
  }

  /** Updating twice is the same as updating once with the later clock reading. */
  lemma BeforeUpdateLastWins(ia: InterviewApplication, t1: Time, t2: Time)
    ensures InterviewBeforeUpdate(InterviewBeforeUpdate(ia, t1), t2) == InterviewBeforeUpdate(ia, t2)
  {
  }

  /** `InterviewApplicationUpdateRequest`. */
  datatype InterviewUpdateRequest = InterviewUpdateRequest(status: string, adminRemarks: string)

  /** `required,oneof=pending interviewed passed rejected`; the remarks may be anything. */
  predicate InterviewUpdateRequestValid(req: InterviewUpdateRequest) {
    req.status in InterviewStatuses
  }

  lemma ValidUpdateRequestNamesOneStatus(req: InterviewUpdateRequest, ia: InterviewApplication)
    requires InterviewUpdateRequestValid(req)
    ensures var u := ia.(status := req.status);
      IsPending(u) || IsInterviewed(u) || IsPassed(u) || IsRejected(u)
  {
  }

  /** `InterviewApplicationStats`. */
  datatype InterviewStats = InterviewStats(total: nat, pending: nat, interviewed: nat, passed: nat, rejected: nat)

  // ---------------------------------------------------------------- notifications

  datatype Notification = Notification(
    id: nat, userId: nat, title: string, content: string, kind: string, isRead: bool,
    relatedId: Option<nat>, createdAt: Time, updatedAt: Time, deletedAt: Option<Time>, user: User)

  datatype NotificationResponse = NotificationResponse(
    id: nat, userId: nat, title: string, content: string, kind: string, isRead: bool,
    relatedId: Option<nat>, createdAt: Time, updatedAt: Time, user: Option<UserResponse>)

  predicate IsSystemNotification(n: Notification) { n.kind == "system" }

  predicate IsApplicationNotification(n: Notification) { n.kind == "application" }

  predicate IsLabNotification(n: Notification) { n.kind == "lab" }

  lemma NotificationKindsExclusive(n: Notification)
    ensures !(IsSystemNotification(n) && IsApplicationNotification(n))
    ensures !(IsSystemNotification(n) && IsLabNotification(n))
    ensures !(IsApplicationNotification(n) && IsLabNotification(n))
  {
  }

  /** `MarkAsRead`: sets the read flag and nothing else. */
  function MarkAsRead(n: Notification): (r: Notification)
    ensures r.isRead && r.(isRead := n.isRead) == n
  {
    n.(isRead := true)
  }

  lemma MarkAsReadIdempotent(n: Notification)
    ensures MarkAsRead(MarkAsRead(n)) == MarkAsRead(n)
    ensures n.isRead ==> MarkAsRead(n) == n
  {
  }

  function NotificationToResponse(n: Notification): (r: NotificationResponse)
    ensures r.user.Some? <==> n.user.id != 0
    ensures r.user.Some? ==> r.user.value == UserToResponse(n.user)
  {
    NotificationResponse(n.id, n.userId, n.title, n.content, n.kind, n.isRead, n.relatedId,
                         n.createdAt, n.updatedAt,
                         if n.user.id != 0 then Some(UserToResponse(n.user)) else None)
  }

  lemma NotificationResponseCopiesScalars(n: Notification, m: Notification)
    requires n.user == m.user
    ensures NotificationToResponse(n) == NotificationToResponse(m) <==> n.(deletedAt := m.deletedAt) == m
  {
  }

  function NotificationBeforeCreate(n: Notification, now1: Time, now2: Time): (r: Notification)
    ensures r.createdAt == now1 && r.updatedAt == now2
    ensures r.(createdAt := n.createdAt, updatedAt := n.updatedAt) == n
  {
    n.(createdAt := now1, updatedAt := now2)
  }

  function NotificationBeforeUpdate(n: Notification, now: Time): (r: Notification)
    ensures r.updatedAt == now && r.(updatedAt := n.updatedAt) == n
  {
    n.(updatedAt := now)
  }
}
