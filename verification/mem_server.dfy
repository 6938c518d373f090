/**
 * The in-memory recruitment server (main.go), the one the admin dashboard
 * calls under `/api/v1`. Its state is three process-wide maps and a
 * counter: applicants by id, single-use verification codes by email, and
 * issued admin tokens with their expiry. Request decoding (with its
 * `binding` rules), random draws, token signing, base64url decoding, the
 * clock and mail delivery are parameters. `Time` counts seconds.
 */
module MemServer {
  import opened Wrappers
  import opened Strs
  import Mail

  type Time = int

  datatype Applicant = Applicant(
    id: int, name: string, email: string, phone: string, studentId: string, major: string, grade: string,
    interviewTime: string, status: string, firstRemark: string, secondRemark: string, thirdRemark: string,
    createdAt: Time, updatedAt: Time)

  datatype Admin = Admin(id: int, email: string, password: string, role: string)

  /** The one hard-coded administrator account. */
  const AdminAccount := Admin(1, "1234567@qq.com", "epi666", "admin")

  datatype StoredCode = StoredCode(code: string, expiresAt: Time)

  /** `ApiResponse` with the HTTP status it is written with; `code` always repeats the status. */
  datatype ApiReply<T> = ApiReply(status: int, code: int, message: string, data: Option<T>)

  /** A refusal: the status repeated as `code`, the message, no data. */
  function Refuse<T>(status: int, message: string): ApiReply<T>
  {
    ApiReply(status, status, message, None)
  }

  function Answer<T>(message: string, data: Option<T>): (r: ApiReply<T>)
    ensures r.status == r.code == 200 && r.message == message && r.data == data
  {
    ApiReply(200, 200, message, data)
  }

  const CodeLifetime := 300
  const TokenLifetime := 86400
  const BindPrefix := "请求参数错误: "
  const BadCredentials := "邮箱或密码错误"
  const AlreadyApplied := "该邮箱已提交过申请"
  const MailFailed := "邮件发送失败，请稍后重试"
  const CodeSent := "验证码已发送到邮箱，请注意查收"
  const CodeRejected := "验证码错误或已过期"
  const Applied := "申请提交成功"
  const Listed := "获取申请者列表成功"
  const InvalidId := "无效的申请ID"
  const NoSuchApplicant := "申请记录不存在"
  const StatusUpdated := "状态更新成功"
  const Fetched := "获取申请详情成功"
  const Deleted := "申请记录删除成功"
  const LoggedIn := "登录成功"

  /** The send-code reply in test mode carries the code itself. */
  function TestModeMessage(code: string): string {
    "测试模式 - 验证码：" + code + "（5分钟内有效）"
  }

  // ---------------------------------------------------------------- codes and tokens

  /** `generateVerificationCode`: `draw` is `mrand.Intn(900000)`; the code is `100000 + draw` printed with `%d`. */
  function GenerateVerificationCode(draw: nat): (code: string)
    requires draw < 900000
    ensures |code| == 6 && AllDigits(code) && code[0] != '0'
    ensures 100000 <= DecimalValue(code) <= 999999 && DecimalValue(code) == 100000 + draw
  {
    var code := NatToDecimal(100000 + draw);
    assert Pow10(5) == 100000 && Pow10(6) == 1000000;
    DecimalLength(100000 + draw, 6);
    DecimalRoundTrip(100000 + draw);
    code
  }

  /** Whether `verifyCode` answers true. There is no bypass code in this server. */
  predicate CodeAccepted(codes: map<string, StoredCode>, email: string, code: string, now: Time) {
    email in codes && codes[email].code == code && now < codes[email].expiresAt
  }

  /** A used code is gone, and so is one that was tried wrongly or late. */
  lemma CodeIsSingleUse(codes: map<string, StoredCode>, email: string, code: string, now: Time,
                        code2: string, later: Time)
    ensures !CodeAccepted(codes - {email}, email, code2, later)
    ensures email !in codes ==> !CodeAccepted(codes, email, code, now)
  {
  }

  /** `verifyAdminLogin`: both fields must equal the hard-coded account's. */
  predicate VerifyAdminLogin(email: string, password: string) {
    email == AdminAccount.email && password == AdminAccount.password
  }

  /** The number of occurrences of `c` in `s`; `strings.Split(s, ".")` has one more part than `s` has dots. */
  function Count(s: string, c: char): (n: nat)
    ensures n <= |s|
    ensures n == 0 <==> c !in s
  {
    if s == [] then 0 else Count(s[1..], c) + (if s[0] == c then 1 else 0)
  }

  /** The part between the first and the second dot. */
  function SecondPart(s: string): string {
    var i := IndexOf(s, '.');
    if i < 0 then "" else BeforeFirst(s[i + 1..], '.')
  }

  /** Base64url decoding of a token part, `None` on malformed input; the decoder is not part of this model. */
  type Base64Decoder = string -> Option<string>

  /**
   * `verifyToken`: three dot-separated parts, an issued and unexpired
   * token, a payload that decodes and mentions the admin's email.
   * `decode` is base64url decoding, `None` on malformed input.
   */
  function VerifyToken(tokens: map<string, Time>, token: string, decode: Base64Decoder, now: Time): (r: Option<string>)
    ensures r.Some? ==> r.value == AdminAccount.email
    ensures r.Some? <==>
      Count(token, '.') == 2 && token in tokens && now < tokens[token]
      && decode(SecondPart(token)).Some? && Contains(decode(SecondPart(token)).value, AdminAccount.email)
  {
    if Count(token, '.') != 2 then None
    else if token in tokens && now < tokens[token] then
      match decode(SecondPart(token))
      case None => None
      case Some(payload) => if Contains(payload, AdminAccount.email) then Some(AdminAccount.email) else None
    else None
  }

  /** Tokens are only ever good for the admin, and a token issued at `t` stops working 24 hours later. */
  lemma TokenExpires(tokens: map<string, Time>, token: string, decode: Base64Decoder, issued: Time)
    requires token in tokens && tokens[token] == issued + TokenLifetime
    ensures VerifyToken(tokens, token, decode, issued + TokenLifetime) == None
    ensures forall later :: later >= issued + TokenLifetime ==> VerifyToken(tokens, token, decode, later) == None
  {
  }

  /** A string with fewer or more than two dots is refused before the token store is consulted. */
  lemma TokenNeedsThreeParts(tokens: map<string, Time>, decode: Base64Decoder, now: Time)
    ensures VerifyToken(tokens, "a.b", decode, now) == None
    ensures VerifyToken(tokens, "a.b.c.d", decode, now) == None
  {
    assert Count("a.b", '.') == 1;
    assert Count("a.b.c.d", '.') == 3;
  }

  datatype LoginRequest = LoginRequest(email: string, password: string)
  datatype LoginResponse = LoginResponse(token: string, user: Admin)

  datatype ApplicationRequest = ApplicationRequest(
    name: string, email: string, phone: string, studentId: string, major: string, grade: string,
    interviewTime: string, verificationCode: string)

  datatype StatusUpdateRequest = StatusUpdateRequest(
    status: string, firstRemark: string, secondRemark: string, thirdRemark: string)

  /** The applicant an accepted `/apply` creates. */
  function NewApplicant(id: int, req: ApplicationRequest, now: Time): (a: Applicant)
    ensures a.id == id && a.email == req.email && a.status == "pending" && a.createdAt == a.updatedAt == now
    ensures a.firstRemark == a.secondRemark == a.thirdRemark == ""
  {
    Applicant(id, req.name, req.email, req.phone, req.studentId, req.major, req.grade, req.interviewTime,
              "pending", "", "", "", now, now)
  }

  /** `/applicants/:id/status` overwrites status and the three remarks and stamps the time. */
  function WithStatus(a: Applicant, req: StatusUpdateRequest, now: Time): (r: Applicant)
    ensures r.status == req.status && r.firstRemark == req.firstRemark && r.secondRemark == req.secondRemark
    ensures r.thirdRemark == req.thirdRemark && r.updatedAt == now
    ensures r.(status := a.status, firstRemark := a.firstRemark, secondRemark := a.secondRemark,
               thirdRemark := a.thirdRemark, updatedAt := a.updatedAt) == a
  {
    a.(status := req.status, firstRemark := req.firstRemark, secondRemark := req.secondRemark,
       thirdRemark := req.thirdRemark, updatedAt := now)
  }

  /** Updating twice with the same request is updating once at the later time. */
  lemma WithStatusLastWins(a: Applicant, req: StatusUpdateRequest, t1: Time, t2: Time)
    ensures WithStatus(WithStatus(a, req, t1), req, t2) == WithStatus(a, req, t2)
  {
  }

  predicate EmailIn(applicants: map<int, Applicant>, email: string) {
    exists id :: id in applicants && applicants[id].email == email
  }

  /** The applicants with ids 1 up to `n` (exclusive), in ascending id order. */
  function Listing(applicants: map<int, Applicant>, n: int): seq<Applicant>
    decreases n
  {
    if n <= 1 then []
    else Listing(applicants, n - 1) + (if n - 1 in applicants then [applicants[n - 1]] else [])
  }

  /** When every key is its applicant's id, the listing holds exactly the applicants below `n`, ids strictly ascending. */
  lemma {:induction false} ListingMembers(applicants: map<int, Applicant>, n: int)
    requires forall id :: id in applicants ==> applicants[id].id == id
    decreases n
    ensures forall a :: a in Listing(applicants, n) <==> exists id :: id in applicants && 1 <= id < n && applicants[id] == a
    ensures forall i :: 0 <= i < |Listing(applicants, n)| ==> 1 <= Listing(applicants, n)[i].id < n
    ensures forall i, j :: 0 <= i < j < |Listing(applicants, n)| ==> Listing(applicants, n)[i].id < Listing(applicants, n)[j].id
  {
    if n > 1 {
      ListingMembers(applicants, n - 1);
      var prev := Listing(applicants, n - 1);
      var list := Listing(applicants, n);
      forall a | exists id :: id in applicants && 1 <= id < n && applicants[id] == a
        ensures a in list
      {
        var k :| k in applicants && 1 <= k < n && applicants[k] == a;
        if k < n - 1 {
          assert exists id :: id in applicants && 1 <= id < n - 1 && applicants[id] == a;
          assert a in prev;
        }
      }
      if n - 1 in applicants {
        assert list == prev + [applicants[n - 1]];
        assert applicants[n - 1].id == n - 1;
      } else {
        assert list == prev;
      }
    }
  }

  // ---------------------------------------------------------------- the server

  ghost predicate SixCharacterCodes(codes: map<string, StoredCode>) {
    forall e :: e in codes ==> |codes[e].code| == 6
  }

  lemma StoringKeepsSixCharacterCodes(codes: map<string, StoredCode>, email: string, stored: StoredCode)
    requires SixCharacterCodes(codes) && |stored.code| == 6
    ensures SixCharacterCodes(codes[email := stored]) && SixCharacterCodes(codes - {email})
  {
  }

  class Server {
    var applicants: map<int, Applicant>
    var nextID: int
    var verificationCodes: map<string, StoredCode>
    var adminTokens: map<string, Time>

    /**
     * Keys are ids, ids are below `nextID`, no two applicants share an
     * email, and every stored verification code has six characters (the
     * only codes `SendCode` stores are `GenerateVerificationCode`'s).
     */
    ghost predicate Valid()
      reads this
    {
      nextID >= 1
      && (forall id :: id in applicants ==> applicants[id].id == id && 1 <= id < nextID)
      && (forall i, j :: i in applicants && j in applicants && i != j ==> applicants[i].email != applicants[j].email)
      && SixCharacterCodes(verificationCodes)
    }

    constructor ()
      ensures Valid() && applicants == map[] && nextID == 1
      ensures verificationCodes == map[] && adminTokens == map[]
    {
      applicants := map[];
      nextID := 1;
      verificationCodes := map[];
      adminTokens := map[];
    }

    /** `verifyCode`: the email's entry, if any, is deleted whatever the outcome. */
    method VerifyCode(email: string, code: string, now: Time) returns (ok: bool)
      modifies this
      ensures ok == CodeAccepted(old(verificationCodes), email, code, now)
      ensures verificationCodes == old(verificationCodes) - {email}
      ensures applicants == old(applicants) && nextID == old(nextID) && adminTokens == old(adminTokens)
      ensures old(Valid()) ==> Valid()
    {
      if email in verificationCodes {
        var vc := verificationCodes[email];
        if vc.code == code && now < vc.expiresAt {
          verificationCodes := verificationCodes - {email};
          return true;
        }
        verificationCodes := verificationCodes - {email};
      }
      return false;
    }

    /**
     * The `for _, applicant := range applicants` duplicate-email scan. Go
     * visits the map in an unspecified order; the model visits keys in
     * ascending order, which is one of them, and the answer does not
     * depend on the order.
     */
    method EmailTaken(email: string) returns (taken: bool)
      requires Valid()
      ensures taken <==> EmailIn(applicants, email)
    {
      var id := 1;
      while id < nextID
        invariant 1 <= id <= nextID
        invariant forall k :: k in applicants && k < id ==> applicants[k].email != email
      {
        if id in applicants && applicants[id].email == email {
          return true;
        }
        id := id + 1;
      }
      return false;
    }

    /** `/auth/login`: the hard-coded account only; the issued token is stored for 24 hours. */
    method Login(req: Result<LoginRequest, string>, token: string, now: Time) returns (reply: ApiReply<LoginResponse>)
      modifies this
      ensures applicants == old(applicants) && nextID == old(nextID) && verificationCodes == old(verificationCodes)
      ensures old(Valid()) ==> Valid()
      ensures req.Err? ==> reply == Refuse(400, BindPrefix + req.error) && adminTokens == old(adminTokens)
      ensures req.Ok? && !VerifyAdminLogin(req.value.email, req.value.password) ==>
        reply == Refuse(401, BadCredentials) && adminTokens == old(adminTokens)
      ensures req.Ok? && VerifyAdminLogin(req.value.email, req.value.password) ==>
        reply == Answer(LoggedIn, Some(LoginResponse(token, AdminAccount)))
        && adminTokens == old(adminTokens)[token := now + TokenLifetime]
    {
      if req.Err? {
        return Refuse(400, BindPrefix + req.error);
      }
      if !VerifyAdminLogin(req.value.email, req.value.password) {
        return Refuse(401, BadCredentials);
      }
      adminTokens := adminTokens[token := now + TokenLifetime];
      return Answer(LoggedIn, Some(LoginResponse(token, AdminAccount)));
    }

    /**
     * `/send-code`: refuses an email that already applied; stores a fresh
     * code for five minutes (replacing any earlier one) and removes it if
     * the mail cannot be sent. In test mode nothing is sent and the reply
     * shows the code.
     */
    method SendCode(req: Result<string, string>, draw: nat, env: Mail.Env, sendOk: bool, now: Time)
      returns (reply: ApiReply<()>)
      requires Valid() && draw < 900000
      modifies this
      ensures Valid()
      ensures applicants == old(applicants) && nextID == old(nextID) && adminTokens == old(adminTokens)
      ensures req.Err? ==> reply == Refuse(400, BindPrefix + req.error) && verificationCodes == old(verificationCodes)
      ensures req.Ok? && EmailIn(applicants, req.value) ==>
        reply == Refuse(409, AlreadyApplied) && verificationCodes == old(verificationCodes)
      ensures req.Ok? && !EmailIn(applicants, req.value) ==>
        var code := GenerateVerificationCode(draw);
        var testMode := Mail.GetEmailConfig(env).smtpHost == "test";
        (testMode || sendOk ==>
           verificationCodes == old(verificationCodes)[req.value := StoredCode(code, now + CodeLifetime)]
           && reply == Answer(if testMode then TestModeMessage(code) else CodeSent, None))
        && (!testMode && !sendOk ==>
           verificationCodes == old(verificationCodes) - {req.value} && reply == Refuse(500, MailFailed))
    {
      if req.Err? {
        return Refuse(400, BindPrefix + req.error);
      }
      var email := req.value;
      var taken := EmailTaken(email);
      if taken {
        return Refuse(409, AlreadyApplied);
      }
      var code := GenerateVerificationCode(draw);
      StoredCodesHaveSixDigits(draw);
      StoringKeepsSixCharacterCodes(verificationCodes, email, StoredCode(code, now + CodeLifetime));
      ghost var before := verificationCodes;
      verificationCodes := verificationCodes[email := StoredCode(code, now + CodeLifetime)];
      assert applicants == old(applicants) && nextID == old(nextID);
      assert SixCharacterCodes(verificationCodes);
      var testMode := Mail.GetEmailConfig(env).smtpHost == "test";
      if !testMode && !sendOk {
        verificationCodes := verificationCodes - {email};
        assert verificationCodes == before - {email};
        assert SixCharacterCodes(verificationCodes);
        return Refuse(500, MailFailed);
      }
      var message := CodeSent;
      if testMode {
        message := TestModeMessage(code);
      }
      return Answer(message, None);
    }

    /**
     * `/apply`: the code is checked (and spent) first, then the duplicate
     * scan, then the applicant is stored under `nextID`.
     */
    method Apply(req: Result<ApplicationRequest, string>, now: Time) returns (reply: ApiReply<Applicant>)
      requires Valid()
      modifies this
      ensures Valid() && adminTokens == old(adminTokens)
      ensures req.Err? ==>
        reply == Refuse(400, BindPrefix + req.error) && verificationCodes == old(verificationCodes)
        && applicants == old(applicants) && nextID == old(nextID)
      ensures req.Ok? ==> verificationCodes == old(verificationCodes) - {req.value.email}
      ensures req.Ok? && !CodeAccepted(old(verificationCodes), req.value.email, req.value.verificationCode, now) ==>
        reply == Refuse(400, CodeRejected) && applicants == old(applicants) && nextID == old(nextID)
      ensures req.Ok? && CodeAccepted(old(verificationCodes), req.value.email, req.value.verificationCode, now)
              && EmailIn(old(applicants), req.value.email) ==>
        reply == Refuse(409, AlreadyApplied) && applicants == old(applicants) && nextID == old(nextID)
      ensures req.Ok? && CodeAccepted(old(verificationCodes), req.value.email, req.value.verificationCode, now)
              && !EmailIn(old(applicants), req.value.email) ==>
        old(nextID) !in old(applicants)
        && applicants == old(applicants)[old(nextID) := NewApplicant(old(nextID), req.value, now)]
        && nextID == old(nextID) + 1
        && reply == Answer(Applied, Some(NewApplicant(old(nextID), req.value, now)))
    {
      if req.Err? {
        return Refuse(400, BindPrefix + req.error);
      }
      var r := req.value;
      var verified := VerifyCode(r.email, r.verificationCode, now);
      if !verified {
        return Refuse(400, CodeRejected);
      }
      var taken := EmailTaken(r.email);
      if taken {
        return Refuse(409, AlreadyApplied);
      }
      var applicant := NewApplicant(nextID, r, now);
      applicants := applicants[nextID := applicant];
      nextID := nextID + 1;
      return Answer(Applied, Some(applicant));
    }

    /** `/applicants`: every applicant exactly once, in the scan order of `EmailTaken`. */
    method ListApplicants() returns (reply: ApiReply<seq<Applicant>>)
      requires Valid()
      ensures reply.status == 200 && reply.message == Listed && reply.data == Some(Listing(applicants, nextID))
      ensures var list := reply.data.value;
        (forall a :: a in list <==> exists id :: id in applicants && applicants[id] == a)
        && (forall i, j :: 0 <= i < j < |list| ==> list[i].id != list[j].id)
    {
      var list: seq<Applicant> := [];
      var id := 1;
      while id < nextID
        invariant 1 <= id <= nextID
        invariant list == Listing(applicants, id)
      {
        if id in applicants {
          list := list + [applicants[id]];
        }
        id := id + 1;
      }
      ListingMembers(applicants, nextID);
      return Answer(Listed, Some(list));
    }

    /**
     * `/applicants/:id/status`: the id must parse, then the applicant must
     * exist (checked before the body is decoded), then the body must bind.
     * `req` binds only with a non-empty status.
     */
    method UpdateStatus(idText: string, req: Result<StatusUpdateRequest, string>, now: Time)
      returns (reply: ApiReply<Applicant>)
      requires Valid()
      requires req.Ok? ==> req.value.status != ""
      modifies this
      ensures Valid() && nextID == old(nextID)
      ensures verificationCodes == old(verificationCodes) && adminTokens == old(adminTokens)
      ensures Atoi(idText).err.Some? ==> reply == Refuse(400, InvalidId) && applicants == old(applicants)
      ensures Atoi(idText).err.None? && Atoi(idText).value !in old(applicants) ==>
        reply == Refuse(404, NoSuchApplicant) && applicants == old(applicants)
      ensures Atoi(idText).err.None? && Atoi(idText).value in old(applicants) && req.Err? ==>
        reply == Refuse(400, BindPrefix + req.error) && applicants == old(applicants)
      ensures Atoi(idText).err.None? && Atoi(idText).value in old(applicants) && req.Ok? ==>
        var id := Atoi(idText).value;
        applicants == old(applicants)[id := WithStatus(old(applicants)[id], req.value, now)]
        && reply == Answer(StatusUpdated, Some(applicants[id]))
    {
      var parsed := Atoi(idText);
      if parsed.err.Some? {
        return Refuse(400, InvalidId);
      }
      var id := parsed.value;
      if id !in applicants {
        return Refuse(404, NoSuchApplicant);
      }
      var applicant := applicants[id];
      if req.Err? {
        return Refuse(400, BindPrefix + req.error);
      }
      applicant := applicant.(status := req.value.status);
      applicant := applicant.(firstRemark := req.value.firstRemark);
      applicant := applicant.(secondRemark := req.value.secondRemark);
      applicant := applicant.(thirdRemark := req.value.thirdRemark);
      applicant := applicant.(updatedAt := now);
      applicants := applicants[id := applicant];
      return Answer(StatusUpdated, Some(applicant));
    }

    /** `GET /applicants/:id`. */
    method GetApplicant(idText: string) returns (reply: ApiReply<Applicant>)
      ensures Atoi(idText).err.Some? ==> reply == Refuse(400, InvalidId)
      ensures Atoi(idText).err.None? && Atoi(idText).value !in applicants ==> reply == Refuse(404, NoSuchApplicant)
      ensures Atoi(idText).err.None? && Atoi(idText).value in applicants ==>
        reply == Answer(Fetched, Some(applicants[Atoi(idText).value]))
    {
      var parsed := Atoi(idText);
      if parsed.err.Some? {
        return Refuse(400, InvalidId);
      }
      if parsed.value !in applicants {
        return Refuse(404, NoSuchApplicant);
      }
      return Answer(Fetched, Some(applicants[parsed.value]));
    }

    /** `DELETE /applicants/:id`: removes exactly that key. */
    method DeleteApplicant(idText: string) returns (reply: ApiReply<()>)
      requires Valid()
      modifies this
      ensures Valid() && nextID == old(nextID)
      ensures verificationCodes == old(verificationCodes) && adminTokens == old(adminTokens)
      ensures Atoi(idText).err.Some? ==> reply == Refuse(400, InvalidId) && applicants == old(applicants)
      ensures Atoi(idText).err.None? && Atoi(idText).value !in old(applicants) ==>
        reply == Refuse(404, NoSuchApplicant) && applicants == old(applicants)
      ensures Atoi(idText).err.None? && Atoi(idText).value in old(applicants) ==>
        reply == Answer(Deleted, None) && applicants == old(applicants) - {Atoi(idText).value}
    {
      var parsed := Atoi(idText);
      if parsed.err.Some? {
        return Refuse(400, InvalidId);
      }
      if parsed.value !in applicants {
        return Refuse(404, NoSuchApplicant);
      }
      applicants := applicants - {parsed.value};
      return Answer(Deleted, None);
    }
  }

  /** Deleting leaves every other applicant as it was. */
  lemma DeleteIsolated(applicants: map<int, Applicant>, id: int, other: int)
    requires other != id && other in applicants
    ensures other in applicants - {id} && (applicants - {id})[other] == applicants[other]
  {
  }

  /** The admin dashboard's "add" sends the code "admin", which no stored code equals: it always fails. */
  lemma AdminPlaceholderCodeRejected(codes: map<string, StoredCode>, email: string, now: Time)
    requires forall e :: e in codes ==> |codes[e].code| == 6
    ensures !CodeAccepted(codes, email, "admin", now)
  {
  }

  /** The code `SendCode` stores has six characters: the fact `Server.Valid` keeps for every stored code. */
  lemma StoredCodesHaveSixDigits(draw: nat)
    requires draw < 900000
    ensures |GenerateVerificationCode(draw)| == 6 && GenerateVerificationCode(draw) != "admin"
  {
  }

  /** On any server state `Valid` describes, the dashboard's placeholder code "admin" is refused. */
  lemma ServerRefusesPlaceholderCode(server: Server, email: string, now: Time)
    requires server.Valid()
    ensures !CodeAccepted(server.verificationCodes, email, "admin", now)
  {
    AdminPlaceholderCodeRejected(server.verificationCodes, email, now);
  }
}
