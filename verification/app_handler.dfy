/**
 * The application handler of the GORM-based backend
 * (internal/handlers/application_handler.go): the process-wide store of
 * single-use verification codes, the send-code and apply endpoints, the
 * admin list and status-update endpoints. Request decoding, the random
 * draw, the validation library's email check, the clock and the outcome
 * of sending mail are parameters.
 */
module AppHandler {
  import opened Wrappers
  import opened Strs
  import opened Models
  import opened Response
  import opened Validator
  import InterviewService

  /** The code `Apply` and `verifyCode` accept without looking at the store. */
  const TestCode := "999999"

  /** `5 * time.Minute`, with `Time` counted in seconds. */
  const CodeLifetime := 300

  datatype VerificationCode = VerificationCode(code: string, email: string, expiresAt: Time)

  type CodeMap = map<string, VerificationCode>

  const ContentTypeMessage := "Content-Type必须为application/json"
  const BadParams := "请求参数错误"
  const CodeGenerationFailed := "生成验证码失败"
  const MailFailed := "邮件发送失败，请稍后重试"
  const CodeSent := "验证码已发送到邮箱，请注意查收"
  const CodeRejected := "验证码错误或已过期"
  const Applied := "🎉 申请提交成功！我们会尽快联系您安排面试"
  const InvalidId := "无效的申请ID"
  const StatusUpdated := "申请状态更新成功"

  // ---------------------------------------------------------------- content type

  /** The only two `Content-Type` values the JSON endpoints take, compared exactly. */
  predicate JsonContentType(ct: string) {
    ct == "application/json" || ct == "application/json; charset=utf-8"
  }

  /** The comparison is exact: no case folding, no other spacing, no other parameters. */
  lemma ContentTypeIsExact()
    ensures !JsonContentType("Application/json")
    ensures !JsonContentType("application/json;charset=utf-8")
    ensures !JsonContentType("application/json; charset=UTF-8")
    ensures !JsonContentType("")
  {
  }

  // ---------------------------------------------------------------- codes

  /**
   * `generateVerificationCode`: `draw` is `rand.Int(rand.Reader, 1000000)`,
   * `None` when the random source fails; the number is printed with `%06d`.
   */
  function GenerateVerificationCode(draw: Option<nat>): (r: Result<string, string>)
    requires draw.Some? ==> draw.value < 1000000
    ensures draw.None? <==> r.Err?
    ensures r.Err? ==> r.error == CodeGenerationFailed
    ensures r.Ok? ==> |r.value| == 6 && AllDigits(r.value) && DecimalValue(r.value) == draw.value
  {
    if draw.None? then Err(CodeGenerationFailed) else Ok(ZeroPad6(draw.value))
  }

  /** Distinct draws give distinct codes, so every one of the 10^6 codes can be drawn. */
  lemma CodesAreInjective(n: nat, m: nat)
    requires n < 1000000 && m < 1000000 && n != m
    ensures GenerateVerificationCode(Some(n)).value != GenerateVerificationCode(Some(m)).value
  {
    var a := GenerateVerificationCode(Some(n)).value;
    var b := GenerateVerificationCode(Some(m)).value;
    assert DecimalValue(a) == n && DecimalValue(b) == m;
  }

  /** Whether `verifyCode(email, code)` answers true at time `now`. */
  predicate CodeAccepted(codes: CodeMap, email: string, code: string, now: Time) {
    code == TestCode || (email in codes && codes[email].code == code && now < codes[email].expiresAt)
  }

  /** The store after `verifyCode`: the bypass leaves it; any other attempt deletes the email's entry. */
  function CodesAfterVerify(codes: CodeMap, email: string, code: string): CodeMap {
    if code == TestCode then codes else codes - {email}
  }

  /** A code that was accepted cannot be accepted a second time. */
  lemma CodeIsSingleUse(codes: CodeMap, email: string, code: string, now: Time, later: Time)
    requires code != TestCode && CodeAccepted(codes, email, code, now)
    ensures !CodeAccepted(CodesAfterVerify(codes, email, code), email, code, later)
  {
  }

  /** A wrong or expired attempt burns the stored code: no later attempt but the bypass succeeds. */
  lemma FailedAttemptBurnsCode(codes: CodeMap, email: string, code: string, now: Time, code2: string, later: Time)
    requires code != TestCode && !CodeAccepted(codes, email, code, now)
    requires code2 != TestCode
    ensures !CodeAccepted(CodesAfterVerify(codes, email, code), email, code2, later)
  {
  }

  /** Without an entry only the bypass code is accepted; with one, exactly its unexpired code is. */
  lemma AcceptanceIff(codes: CodeMap, email: string, code: string, now: Time)
    requires code != TestCode
    ensures CodeAccepted(codes, email, code, now) <==>
      email in codes && codes[email].code == code && now < codes[email].expiresAt
    ensures email !in codes ==> !CodeAccepted(codes, email, code, now)
  {
  }

  /** A code stops working at its expiry instant: `time.Now().Before` is strict. */
  lemma CodeExpiresAtDeadline(codes: CodeMap, email: string, code: string)
    requires code != TestCode && email in codes && codes[email].code == code
    ensures CodeAccepted(codes, email, code, codes[email].expiresAt - 1)
    ensures !CodeAccepted(codes, email, code, codes[email].expiresAt)
  {
  }

  /** Verifying one email's code never touches another email's entry. */
  lemma VerifyIsolatesEmails(codes: CodeMap, email: string, code: string, other: string)
    requires other != email && other in codes
    ensures other in CodesAfterVerify(codes, email, code)
    ensures CodesAfterVerify(codes, email, code)[other] == codes[other]
  {
  }

  /** The global `verificationCodes` map. */
  class CodeStore {
    var codes: CodeMap

    constructor ()
      ensures codes == map[]
    {
      codes := map[];
    }

    /** `verifyCode`. */
    method VerifyCode(email: string, code: string, now: Time) returns (ok: bool)
      modifies this
      ensures ok == CodeAccepted(old(codes), email, code, now)
      ensures codes == CodesAfterVerify(old(codes), email, code)
    {
      if code == TestCode {
        return true;
      }
      if email !in codes {
        return false;
      }
      var vc := codes[email];
      if vc.code == code && now < vc.expiresAt {
        codes := codes - {email};
        return true;
      }
      codes := codes - {email};
      return false;
    }
  }

  // ---------------------------------------------------------------- request rules

  /** The json tags of `SendCodeRequest`. */
  const SendCodeFields: StructFields := map["Email" := "email"]

  /** What `validate:"required,email"` reports; `isEmail` is the library's email-format check. */
  function SendCodeErrors(email: string, isEmail: EmailCheck): (errs: seq<FieldError>)
    ensures errs == [] <==> email != "" && isEmail(email)
    ensures |errs| <= 1
  {
    if email == "" then [FieldError("Email", "required", "")]
    else if !isEmail(email) then [FieldError("Email", "email", "")]
    else []
  }

  datatype ApplyRequest = ApplyRequest(
    name: string, email: string, phone: string, studentId: string, major: string,
    grade: string, interviewTime: string, verificationCode: string)

  /** The json tags of `ApplyRequest`. */
  const ApplyFields: StructFields := map[
    "Name" := "name", "Email" := "email", "Phone" := "phone", "StudentID" := "student_id",
    "Major" := "major", "Grade" := "grade", "InterviewTime" := "interview_time",
    "VerificationCode" := "verification_code"]

  function Required(field: string, value: string): seq<FieldError> {
    if value == "" then [FieldError(field, "required", "")] else []
  }

  /** Every field is `required`; the email is also `email`. Failures come in field order. */
  function ApplyErrors(req: ApplyRequest, isEmail: EmailCheck): (errs: seq<FieldError>)
  {
    Required("Name", req.name) + SendCodeErrors(req.email, isEmail) + Required("Phone", req.phone)
    + Required("StudentID", req.studentId) + Required("Major", req.major) + Required("Grade", req.grade)
    + Required("InterviewTime", req.interviewTime) + Required("VerificationCode", req.verificationCode)
  }

  /** An apply request passes validation exactly when every field is filled and the email is well formed. */
  lemma ApplyErrorsEmptyIff(req: ApplyRequest, isEmail: EmailCheck)
    ensures ApplyErrors(req, isEmail) == [] <==>
      req.name != "" && req.email != "" && isEmail(req.email) && req.phone != "" && req.studentId != ""
      && req.major != "" && req.grade != "" && req.interviewTime != "" && req.verificationCode != ""
  {
    var errs := ApplyErrors(req, isEmail);
    if req.name == "" { assert errs[0] == FieldError("Name", "required", ""); }
  }

  /** Each failed rule names its field: one error per empty field, in declaration order. */
  lemma ApplyErrorsCount(req: ApplyRequest, isEmail: EmailCheck)
    ensures |ApplyErrors(req, isEmail)| ==
      |Required("Name", req.name)| + |SendCodeErrors(req.email, isEmail)| + |Required("Phone", req.phone)|
      + |Required("StudentID", req.studentId)| + |Required("Major", req.major)| + |Required("Grade", req.grade)|
      + |Required("InterviewTime", req.interviewTime)| + |Required("VerificationCode", req.verificationCode)|
    ensures |ApplyErrors(req, isEmail)| <= 8
  {
  }

  datatype UpdateBody = UpdateBody(status: string, adminRemarks: string)

  const UpdateFields: StructFields := map["Status" := "status", "AdminRemarks" := "admin_remarks"]

  const StatusOneOf := "pending interviewed passed rejected"

  /** `validate:"required,oneof=pending interviewed passed rejected"` on the status. */
  function UpdateErrors(body: UpdateBody): (errs: seq<FieldError>)
    ensures errs == [] <==> body.status in InterviewStatuses
    ensures body.status == "" ==> errs == [FieldError("Status", "required", "")]
  {
    if body.status == "" then [FieldError("Status", "required", "")]
    else if body.status !in InterviewStatuses then [FieldError("Status", "oneof", StatusOneOf)]
    else []
  }

  /** `ListApplications`' own clamp: page < 1 becomes 1; size < 1 or > 100 becomes 10. */
  function ListParams(pageQuery: Option<string>, sizeQuery: Option<string>): (r: Paging)
    ensures r.page >= 1 && 1 <= r.size <= 100
    ensures Atoi(pageQuery.GetOr("1")).value >= 1 ==> r.page == Atoi(pageQuery.GetOr("1")).value
    ensures Atoi(pageQuery.GetOr("1")).value < 1 ==> r.page == 1
    ensures 1 <= Atoi(sizeQuery.GetOr("10")).value <= 100 ==> r.size == Atoi(sizeQuery.GetOr("10")).value
    ensures !(1 <= Atoi(sizeQuery.GetOr("10")).value <= 100) ==> r.size == 10
  {
    var page := Atoi(pageQuery.GetOr("1")).value;
    var size := Atoi(sizeQuery.GetOr("10")).value;
    var page := if page < 1 then 1 else page;
    var size := if size < 1 || size > 100 then 10 else size;
    Paging(page, size)
  }

  /** Unlike `GetPaginationParams`, an oversized page size falls back to 10 rather than to 100. */
  lemma ListParamsOversizeDiffers()
    ensures ListParams(None, Some("101")).size == 10
    ensures GetPaginationParams(None, Some("101")).size == 100
  {
    assert IntToDecimal(101) == "101" by {
      assert NatToDecimal(101) == NatToDecimal(10) + [DigitChar(1)];
      assert NatToDecimal(10) == NatToDecimal(1) + [DigitChar(0)];
    }
    AtoiRoundTrip(101);
  }

  /** The reply data of a successful `Apply`. */
  datatype ApplyData = ApplyData(applicationId: nat, application: InterviewApplicationResponse)

  // ---------------------------------------------------------------- handler

  class ApplicationHandler {
    const store: CodeStore
    const service: InterviewService.InterviewApplicationService

    ghost predicate Valid()
      reads this, service
    {
      service.Valid()
    }

    constructor (store: CodeStore)
      ensures Valid() && this.store == store && fresh(service) && service.rows == []
    {
      this.store := store;
      service := new InterviewService.InterviewApplicationService();
    }

    /**
     * `SendCode`: content type, decoding, validation, code generation; then
     * the code is stored for five minutes, replacing any earlier one, and
     * removed again when the mail cannot be sent.
     */
    method SendCode(contentType: string, req: Option<string>, isEmail: EmailCheck,
                    draw: Option<nat>, sendOk: bool, now: Time) returns (reply: Reply<()>)
      requires draw.Some? ==> draw.value < 1000000
      modifies store
      ensures !JsonContentType(contentType) ==> reply == BadRequest(ContentTypeMessage) && store.codes == old(store.codes)
      ensures JsonContentType(contentType) && req.None? ==> reply == BadRequest(BadParams) && store.codes == old(store.codes)
      ensures JsonContentType(contentType) && req.Some? && SendCodeErrors(req.value, isEmail) != [] ==>
        reply == ValidationError(ValidationText(SendCodeFields, SendCodeErrors(req.value, isEmail)))
        && store.codes == old(store.codes)
      ensures JsonContentType(contentType) && req.Some? && SendCodeErrors(req.value, isEmail) == [] ==>
        (draw.None? ==> reply == InternalServerError(CodeGenerationFailed) && store.codes == old(store.codes))
        && (draw.Some? && sendOk ==>
              reply == SuccessWithMessage(CodeSent, ())
              && store.codes == old(store.codes)[req.value :=
                   VerificationCode(GenerateVerificationCode(draw).value, req.value, now + CodeLifetime)])
        && (draw.Some? && !sendOk ==>
              reply == InternalServerError(MailFailed) && store.codes == old(store.codes) - {req.value})
    {
      if !JsonContentType(contentType) {
        return BadRequest(ContentTypeMessage);
      }
      if req.None? {
        return BadRequest(BadParams);
      }
      var email := req.value;
      var ok, failure := ValidateRequest(SendCodeFields, SendCodeErrors(email, isEmail));
      if !ok {
        return failure.value;
      }
      var code := GenerateVerificationCode(draw);
      if code.Err? {
        return InternalServerError(CodeGenerationFailed);
      }
      store.codes := store.codes[email := VerificationCode(code.value, email, now + CodeLifetime)];
      if !sendOk {
        store.codes := store.codes - {email};
        return InternalServerError(MailFailed);
      }
      return SuccessWithMessage(CodeSent, ());
    }

    /**
     * `Apply`: content type, decoding, validation, then the code gate (the
     * bypass code skips the store), then the insert. A code that passes the
     * gate is spent even when the insert then refuses a duplicate email.
     */
    method Apply(contentType: string, req: Option<ApplyRequest>, isEmail: EmailCheck,
                 now: Time, now1: Time, now2: Time) returns (reply: Reply<ApplyData>)
      requires Valid()
      modifies store, service
      ensures Valid()
      ensures !JsonContentType(contentType) || req.None? || ApplyErrors(req.value, isEmail) != [] ==>
        store.codes == old(store.codes) && service.rows == old(service.rows)
      ensures !JsonContentType(contentType) ==> reply == BadRequest(ContentTypeMessage)
      ensures JsonContentType(contentType) && req.None? ==> reply == BadRequest(BadParams)
      ensures JsonContentType(contentType) && req.Some? && ApplyErrors(req.value, isEmail) != [] ==>
        reply == ValidationError(ValidationText(ApplyFields, ApplyErrors(req.value, isEmail)))
      ensures JsonContentType(contentType) && req.Some? && ApplyErrors(req.value, isEmail) == [] ==>
        var r := req.value;
        store.codes == CodesAfterVerify(old(store.codes), r.email, r.verificationCode)
        && (!CodeAccepted(old(store.codes), r.email, r.verificationCode, now) ==>
              reply == BadRequest(CodeRejected) && service.rows == old(service.rows))
        && (CodeAccepted(old(store.codes), r.email, r.verificationCode, now)
            && InterviewService.EmailTaken(old(service.rows), r.email) ==>
              reply == BadRequest(InterviewService.DuplicateEmail) && service.rows == old(service.rows))
        && (CodeAccepted(old(store.codes), r.email, r.verificationCode, now)
            && !InterviewService.EmailTaken(old(service.rows), r.email) ==>
              var row := InterviewApplication(old(service.nextId), r.name, r.email, r.phone, r.studentId,
                                              r.major, r.grade, r.interviewTime, "pending", "", now1, now2, None);
              service.rows == old(service.rows) + [row]
              && reply == SuccessWithMessage(Applied, ApplyData(row.id, InterviewToResponse(row))))
    {
      if !JsonContentType(contentType) {
        return BadRequest(ContentTypeMessage);
      }
      if req.None? {
        return BadRequest(BadParams);
      }
      var r := req.value;
      var ok, failure := ValidateRequest(ApplyFields, ApplyErrors(r, isEmail));
      if !ok {
        return ValidationError(ValidationText(ApplyFields, ApplyErrors(r, isEmail)));
      }
      if r.verificationCode != TestCode {
        var verified := store.VerifyCode(r.email, r.verificationCode, now);
        if !verified {
          return BadRequest(CodeRejected);
        }
      }
      var application := service.CreateApplication(r.name, r.email, r.phone, r.studentId, r.major,
                                                   r.grade, r.interviewTime, now1, now2);
      if application.Err? {
        return BadRequest(application.error);
      }
      return SuccessWithMessage(Applied, ApplyData(application.value.id, InterviewToResponse(application.value)));
    }

    /** `ListApplications`: the handler's clamp, then the service's filtered, ordered page. */
    method ListApplications(pageQuery: Option<string>, sizeQuery: Option<string>, status: string, name: string)
      returns (reply: Reply<InterviewService.ListResult>)
      ensures var p := ListParams(pageQuery, sizeQuery);
        reply == Success(InterviewService.ListResult(
          |InterviewService.Filtered(service.rows, status, name)|, p.page, p.size,
          InterviewService.Responses(InterviewService.PageRows(service.rows, p.page, p.size, status, name))))
    {
      var p := ListParams(pageQuery, sizeQuery);
      var result := service.ListApplications(p.page, p.size, status, name);
      return Success(result);
    }

    /**
     * `UpdateApplication`: the path id must parse as an unsigned 32-bit
     * decimal, then content type, decoding and the status rule; a missing
     * row is reported with status 400, not 404.
     */
    method UpdateApplication(idText: string, contentType: string, req: Option<UpdateBody>, now: Time)
      returns (reply: Reply<InterviewApplicationResponse>)
      requires Valid()
      modifies service
      ensures Valid()
      ensures ParseUint32(idText).Err? ==> reply == BadRequest(InvalidId)
      ensures ParseUint32(idText).Ok? && !JsonContentType(contentType) ==> reply == BadRequest(ContentTypeMessage)
      ensures ParseUint32(idText).Ok? && JsonContentType(contentType) && req.None? ==> reply == BadRequest(BadParams)
      ensures ParseUint32(idText).Ok? && JsonContentType(contentType) && req.Some? && UpdateErrors(req.value) != [] ==>
        reply == ValidationError(ValidationText(UpdateFields, UpdateErrors(req.value)))
      ensures ParseUint32(idText).Err? || !JsonContentType(contentType) || req.None? || UpdateErrors(req.value) != [] ==>
        service.rows == old(service.rows)
      ensures ParseUint32(idText).Ok? && JsonContentType(contentType) && req.Some? && UpdateErrors(req.value) == [] ==>
        var k := InterviewService.FindLive(old(service.rows), ParseUint32(idText).value);
        (k == -1 ==> reply == BadRequest(InterviewService.NotFound) && service.rows == old(service.rows))
        && (k >= 0 ==>
              var row := old(service.rows)[k].(status := req.value.status, adminRemarks := req.value.adminRemarks,
                                                updatedAt := now);
              service.rows == old(service.rows)[k := row]
              && reply == SuccessWithMessage(StatusUpdated, InterviewToResponse(row)))
    {
      var id := ParseUint32(idText);
      if id.Err? {
        return BadRequest(InvalidId);
      }
      if !JsonContentType(contentType) {
        return BadRequest(ContentTypeMessage);
      }
      if req.None? {
        return BadRequest(BadParams);
      }
      var ok, failure := ValidateRequest(UpdateFields, UpdateErrors(req.value));
      if !ok {
        return ValidationError(ValidationText(UpdateFields, UpdateErrors(req.value)));
      }
      var application := service.UpdateApplication(id.value, req.value.status, req.value.adminRemarks, now);
      if application.Err? {
        return BadRequest(application.error);
      }
      return SuccessWithMessage(StatusUpdated, InterviewToResponse(application.value));
    }
  }

  /** A status the update rule accepts is one of the four interview statuses, and every one of them passes. */
  lemma UpdateRuleIsTheStatusEnum(status: string, remarks: string)
    ensures UpdateErrors(UpdateBody(status, remarks)) == [] <==>
      status == "pending" || status == "interviewed" || status == "passed" || status == "rejected"
  {
  }
}
