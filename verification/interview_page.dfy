/**
 * The public application form (frontend/src/pages/InterviewApplication.tsx):
 * sending a verification code with its 60-second resend countdown,
 * submitting the form, the text shown for each kind of server refusal, the
 * interview date-time string the form sends, and the field rules. The
 * page's React state is a class; each fetch's outcome and each timer
 * firing is an explicit input or event.
 */
module InterviewPage {
  import opened Wrappers
  import opened Strs
  import MemServer
  import AppHandler
  import InterviewService

  const CountdownStart := 60

  const EnterEmailFirst := "请先输入邮箱地址"
  const CodeSentText := "📧 验证码已发送到邮箱，请注意查收"
  const NetworkText := "❌ 网络错误，请稍后重试"

  const SendDefault := "❌ 发送验证码失败，请稍后重试"
  const SendBadEmail := "❌ 邮箱格式不正确，请输入有效的邮箱地址"
  const SendNoEmail := "❌ 请输入邮箱地址"
  const SystemText := "❌ 系统错误，请刷新页面重试"

  const SubmitDefault := "❌ 申请提交失败，请检查信息或稍后重试"
  const SubmitBadCode := "❌ 验证码错误或已过期，请重新获取验证码"
  const SubmitDuplicate := "❌ 该邮箱已提交过申请，请勿重复申请"
  const SubmitIncomplete := "❌ 请填写完整的申请信息"
  const SubmitBadFormat := "❌ 请检查邮箱或手机号格式是否正确"
  const SubmittedText := "🎉 申请提交成功！我们会尽快联系您安排面试。"

  /** The parsed JSON reply of `/send-code` or `/apply`: its `code` and its `message`, when present. */
  datatype Reply = Reply(code: int, message: Option<string>)

  // ------------------------------------------------------------ error texts

  /** `data.message` is truthy. */
  predicate HasText(message: Option<string>) { message.Some? && message.value != "" }

  /** The send-code failure text: the first substring that matches decides, else the raw message. */
  function SendCodeErrorText(message: Option<string>): (t: string)
    ensures !HasText(message) ==> t == SendDefault
    ensures HasText(message) ==>
      var m := message.value;
      (Contains(m, "email格式不正确") ==> t == SendBadEmail)
      && (!Contains(m, "email格式不正确") && Contains(m, "email不能为空") ==> t == SendNoEmail)
      && (!Contains(m, "email格式不正确") && !Contains(m, "email不能为空") && Contains(m, "Content-Type") ==> t == SystemText)
      && (!Contains(m, "email格式不正确") && !Contains(m, "email不能为空") && !Contains(m, "Content-Type") ==> t == "❌ " + m)
  {
    if !HasText(message) then SendDefault
    else
      var m := message.value;
      if Contains(m, "email格式不正确") then SendBadEmail
      else if Contains(m, "email不能为空") then SendNoEmail
      else if Contains(m, "Content-Type") then SystemText
      else "❌ " + m
  }

  /** The submit failure text, checked in the page's order. */
  function SubmitErrorText(message: Option<string>): (t: string)
    ensures !HasText(message) ==> t == SubmitDefault
    ensures HasText(message) ==>
      var m := message.value;
      ((Contains(m, "验证码错误") || Contains(m, "验证码已过期")) ==> t == SubmitBadCode)
      && (!Contains(m, "验证码错误") && !Contains(m, "验证码已过期") && Contains(m, "该邮箱已提交过申请") ==> t == SubmitDuplicate)
      && ((!Contains(m, "验证码错误") && !Contains(m, "验证码已过期") && !Contains(m, "该邮箱已提交过申请")
           && Contains(m, "不能为空")) ==> t == SubmitIncomplete)
      && ((!Contains(m, "验证码错误") && !Contains(m, "验证码已过期") && !Contains(m, "该邮箱已提交过申请")
           && !Contains(m, "不能为空") && Contains(m, "格式不正确")) ==> t == SubmitBadFormat)
      && ((!Contains(m, "验证码错误") && !Contains(m, "验证码已过期") && !Contains(m, "该邮箱已提交过申请")
           && !Contains(m, "不能为空") && !Contains(m, "格式不正确") && Contains(m, "Content-Type")) ==> t == SystemText)
      && ((!Contains(m, "验证码错误") && !Contains(m, "验证码已过期") && !Contains(m, "该邮箱已提交过申请")
           && !Contains(m, "不能为空") && !Contains(m, "格式不正确") && !Contains(m, "Content-Type")) ==> t == "❌ " + m)
  {
    if !HasText(message) then SubmitDefault
    else
      var m := message.value;
      if Contains(m, "验证码错误") || Contains(m, "验证码已过期") then SubmitBadCode
      else if Contains(m, "该邮箱已提交过申请") then SubmitDuplicate
      else if Contains(m, "不能为空") then SubmitIncomplete
      else if Contains(m, "格式不正确") then SubmitBadFormat
      else if Contains(m, "Content-Type") then SystemText
      else "❌ " + m
  }

  /** The refusal both backends send for a wrong or expired code is shown as the code text. */
  lemma CodeRefusalRecognised()
    ensures SubmitErrorText(Some(MemServer.CodeRejected)) == SubmitBadCode
    ensures SubmitErrorText(Some(AppHandler.CodeRejected)) == SubmitBadCode
  {
    ContainsInfix("", "验证码错误", "或已过期");
    assert MemServer.CodeRejected == "" + "验证码错误" + "或已过期";
  }

  /** Any message that opens with the duplicate phrase and never mentions the code is shown as the duplicate text. */
  lemma DuplicatePhraseRecognised(m: string)
    requires "该邮箱已提交过申请" <= m && '验' !in m
    ensures SubmitErrorText(Some(m)) == SubmitDuplicate
  {
    ContainsNeedsFirst(m, "验证码错误");
    ContainsNeedsFirst(m, "验证码已过期");
  }

  /** The in-memory server's 409 for a second application from the same email is shown as the duplicate text. */
  lemma DuplicateRefusalRecognised()
    ensures SubmitErrorText(Some(MemServer.AlreadyApplied)) == SubmitDuplicate
  {
    DuplicatePhraseRecognised(MemServer.AlreadyApplied);
  }

  /** So is the database-backed service's refusal of a second application. */
  lemma ServiceDuplicateRecognised()
    ensures SubmitErrorText(Some(InterviewService.DuplicateEmail)) == SubmitDuplicate
  {
    DuplicatePhraseRecognised(InterviewService.DuplicateEmail);
  }

  // ------------------------------------------------------------- countdown

  /** One firing of the resend timer: `prev <= 1 ? 0 : prev - 1`. */
  function TickValue(prev: int): (next: int)
    ensures next >= 0
    ensures next == 0 <==> prev <= 1
    ensures prev > 1 ==> next == prev - 1
  {
    if prev <= 1 then 0 else prev - 1
  }

  /** The countdown after `k` firings. */
  function AfterTicks(prev: int, k: nat): int
    decreases k
  {
    if k == 0 then prev else AfterTicks(TickValue(prev), k - 1)
  }

  /** After `k >= 1` firings the countdown is `prev - k`, floored at zero; from 60 it reaches 0 after 60 firings. */
  lemma {:induction false} TicksCountDown(prev: int, k: nat)
    requires k >= 1
    ensures AfterTicks(prev, k) == (if prev - k <= 0 then 0 else prev - k)
    decreases k
  {
    if k > 1 {
      TicksCountDown(TickValue(prev), k - 1);
    }
  }

  /** The send button is disabled while the countdown runs. */
  predicate ButtonDisabled(countdown: int) { countdown > 0 }

  /** The send button's label: the remaining seconds while counting down. */
  function ButtonLabel(countdown: int): (text: string)
    ensures countdown > 0 ==> text == IntToDecimal(countdown) + "s后重发"
    ensures countdown <= 0 ==> text == "发送验证码"
  {
    if countdown > 0 then IntToDecimal(countdown) + "s后重发" else "发送验证码"
  }

  /** The label reads "发送验证码" exactly when the button is enabled. */
  lemma LabelMatchesButton(countdown: int)
    ensures ButtonLabel(countdown) == "发送验证码" <==> !ButtonDisabled(countdown)
  {
    if countdown > 0 {
      var text := ButtonLabel(countdown);
      var digits := IntToDecimal(countdown);
      assert IsDigit(digits[0]);
      assert text[0] == digits[0];
      assert text[0] != "发送验证码"[0];
    }
  }

  // ------------------------------------------------------- interview time

  datatype Date = Date(year: nat, month: nat, day: nat)
  datatype Clock = Clock(hour: nat, minute: nat)

  predicate ValidDate(d: Date) { d.year < 10000 && 1 <= d.month <= 12 && 1 <= d.day <= 31 }
  predicate ValidClock(c: Clock) { c.hour < 24 && c.minute < 60 }

  /** `n` written with exactly `k` digits, zero-padded, as dayjs's `YYYY`, `MM`, `DD`, `HH` and `mm` do. */
  function PadDigits(n: nat, k: nat): (s: string)
    ensures |s| == k && AllDigits(s)
    decreases k
  {
    if k == 0 then "" else PadDigits(n / 10, k - 1) + [DigitChar(n % 10)]
  }

  lemma {:induction false} PadDigitsValue(n: nat, k: nat)
    requires n < Pow10(k)
    ensures DecimalValue(PadDigits(n, k)) == n
    decreases k
  {
    if k > 0 {
      var s := PadDigits(n, k);
      assert s[..|s| - 1] == PadDigits(n / 10, k - 1);
      PadDigitsValue(n / 10, k - 1);
    }
  }

  /** The date's day with the time-picker's hour and minute, as 'YYYY-MM-DD HH:mm'. */
  function InterviewDateTime(d: Date, c: Clock): (s: string)
    requires ValidDate(d) && ValidClock(c)
    ensures |s| == 16 && s[4] == '-' && s[7] == '-' && s[10] == ' ' && s[13] == ':'
  {
    PadDigits(d.year, 4) + "-" + PadDigits(d.month, 2) + "-" + PadDigits(d.day, 2)
      + " " + PadDigits(c.hour, 2) + ":" + PadDigits(c.minute, 2)
  }

  /** Reading the fields back out of the string gives the date and time that went in. */
  lemma InterviewDateTimeRoundTrip(d: Date, c: Clock)
    requires ValidDate(d) && ValidClock(c)
    ensures var s := InterviewDateTime(d, c);
      AllDigits(s[0..4]) && AllDigits(s[5..7]) && AllDigits(s[8..10]) && AllDigits(s[11..13]) && AllDigits(s[14..16])
      && DecimalValue(s[0..4]) == d.year && DecimalValue(s[5..7]) == d.month && DecimalValue(s[8..10]) == d.day
      && DecimalValue(s[11..13]) == c.hour && DecimalValue(s[14..16]) == c.minute
  {
    var s := InterviewDateTime(d, c);
    var p1, p2, p3, p4, p5 := PadDigits(d.year, 4), PadDigits(d.month, 2), PadDigits(d.day, 2),
                              PadDigits(c.hour, 2), PadDigits(c.minute, 2);
    var q := p1 + "-" + p2 + "-" + p3 + " " + p4;
    assert s == q + ":" + p5;
    assert s[..13] == q;
    assert q[0..4] == p1 && q[5..7] == p2 && q[8..10] == p3 && q[11..13] == p4;
    assert s[0..4] == p1 && s[5..7] == p2 && s[8..10] == p3 && s[11..13] == p4;
    assert s[14..16] == p5;
    assert Pow10(2) == 100 && Pow10(4) == 10000;
    PadDigitsValue(d.year, 4);
    PadDigitsValue(d.month, 2);
    PadDigitsValue(d.day, 2);
    PadDigitsValue(c.hour, 2);
    PadDigitsValue(c.minute, 2);
  }

  // ------------------------------------------------------------ field rules

  datatype FormValues = FormValues(
    name: string, email: string, phone: string, studentId: string, major: string, grade: string,
    date: Date, time: Clock, verificationCode: string)

  /** `^1[3-9]\d{9}$` */
  predicate PhonePattern(p: string) {
    |p| == 11 && p[0] == '1' && '3' <= p[1] <= '9' && AllDigits(p[2..])
  }

  predicate NameRule(name: string) { name != "" && 2 <= |name| <= 20 }
  predicate EmailRule(email: string, isEmail: EmailCheck) { email != "" && isEmail(email) && |email| <= 100 }
  predicate PhoneRule(phone: string) { phone != "" && PhonePattern(phone) && |phone| == 11 }
  predicate StudentIdRule(id: string) { id != "" && 6 <= |id| <= 20 }

  /** Every rule of the form holds; only then does `onFinish` run the submit handler. */
  predicate FormPasses(v: FormValues, isEmail: EmailCheck) {
    NameRule(v.name) && EmailRule(v.email, isEmail) && PhoneRule(v.phone) && StudentIdRule(v.studentId)
    && v.major != "" && v.grade != "" && v.verificationCode != ""
  }

  /** The pattern already forces eleven characters, so the `len: 11` rule never adds an error. */
  lemma PhonePatternIsEnough(phone: string)
    ensures PhoneRule(phone) <==> PhonePattern(phone)
    ensures PhoneRule("13800138000") && !PhoneRule("12800138000") && !PhoneRule("1380013800")
  {
    assert AllDigits("13800138000"[2..]);
  }

  /** `disabledDate`: a day is disabled exactly when it starts before today does. */
  predicate DateDisabled(dayStart: int, todayStart: int) { dayStart < todayStart }

  // ------------------------------------------------------------ the page

  /** The JSON body `handleSubmit` posts to `/apply`. */
  datatype ApplyBody = ApplyBody(
    name: string, email: string, phone: string, studentId: string, major: string, grade: string,
    interviewTime: string, verificationCode: string)

  class ApplicationPage {
    /** The form's initial values, which `resetFields` restores. */
    const initial: FormValues
    var form: FormValues
    var loading: bool
    var codeLoading: bool
    var codeSent: bool
    var countdown: int
    /** Intervals started by successful sends and not yet cleared. */
    var timers: nat
    var resetScheduled: bool
    var notices: seq<string>
    var sent: seq<ApplyBody>

    constructor (initial: FormValues)
      ensures this.initial == initial && form == initial
      ensures !loading && !codeLoading && !codeSent && countdown == 0 && timers == 0
      ensures !resetScheduled && notices == [] && sent == []
    {
      this.initial := initial;
      form := initial;
      loading := false;
      codeLoading := false;
      codeSent := false;
      countdown := 0;
      timers := 0;
      resetScheduled := false;
      notices := [];
      sent := [];
    }

    /**
     * `handleSendCode`: nothing is requested without an email; a 200 starts
     * the 60-second countdown and one more interval; anything else shows its
     * classified text. `reply` is `None` when the fetch or the JSON parse
     * throws.
     */
    method SendCode(reply: Option<Reply>)
      modifies this
      ensures form == old(form) && loading == old(loading) && resetScheduled == old(resetScheduled) && sent == old(sent)
      ensures form.email == "" ==>
        notices == old(notices) + [EnterEmailFirst] && codeLoading == old(codeLoading)
        && codeSent == old(codeSent) && countdown == old(countdown) && timers == old(timers)
      ensures form.email != "" ==> !codeLoading
      ensures form.email != "" && reply.Some? && reply.value.code == 200 ==>
        codeSent && countdown == CountdownStart && timers == old(timers) + 1 && notices == old(notices) + [CodeSentText]
      ensures form.email != "" && !(reply.Some? && reply.value.code == 200) ==>
        codeSent == old(codeSent) && countdown == old(countdown) && timers == old(timers)
        && notices == old(notices) + [if reply.None? then NetworkText else SendCodeErrorText(reply.value.message)]
    {
      if form.email == "" {
        notices := notices + [EnterEmailFirst];
        return;
      }
      codeLoading := true;
      if reply.None? {
        notices := notices + [NetworkText];
      } else if reply.value.code == 200 {
        notices := notices + [CodeSentText];
        codeSent := true;
        countdown := CountdownStart;
        timers := timers + 1;
      } else {
        notices := notices + [SendCodeErrorText(reply.value.message)];
      }
      codeLoading := false;
    }

    /** One interval firing: the countdown steps down, and the interval clears itself when it reaches zero. */
    method Tick()
      requires timers > 0
      modifies this
      ensures countdown == TickValue(old(countdown))
      ensures timers == (if old(countdown) <= 1 then old(timers) - 1 else old(timers))
      ensures form == old(form) && codeSent == old(codeSent) && notices == old(notices) && sent == old(sent)
      ensures loading == old(loading) && codeLoading == old(codeLoading) && resetScheduled == old(resetScheduled)
    {
      if countdown <= 1 {
        timers := timers - 1;
      }
      countdown := TickValue(countdown);
    }

    /**
     * `handleSubmit` for values that passed the rules: post the body with
     * the combined interview time; a 200 schedules the reset, anything else
     * shows its classified text.
     */
    method Submit(values: FormValues, reply: Option<Reply>)
      requires ValidDate(values.date) && ValidClock(values.time)
      modifies this
      ensures !loading && form == old(form) && codeSent == old(codeSent) && countdown == old(countdown)
      ensures codeLoading == old(codeLoading) && timers == old(timers)
      ensures sent == old(sent) + [ApplyBody(values.name, values.email, values.phone, values.studentId,
                                             values.major, values.grade,
                                             InterviewDateTime(values.date, values.time), values.verificationCode)]
      ensures reply.Some? && reply.value.code == 200 ==>
        resetScheduled && notices == old(notices) + [SubmittedText]
      ensures !(reply.Some? && reply.value.code == 200) ==>
        resetScheduled == old(resetScheduled)
        && notices == old(notices) + [if reply.None? then NetworkText else SubmitErrorText(reply.value.message)]
    {
      loading := true;
      var when := InterviewDateTime(values.date, values.time);
      sent := sent + [ApplyBody(values.name, values.email, values.phone, values.studentId,
                                values.major, values.grade, when, values.verificationCode)];
      if reply.None? {
        notices := notices + [NetworkText];
      } else if reply.value.code == 200 {
        notices := notices + [SubmittedText];
        resetScheduled := true;
      } else {
        notices := notices + [SubmitErrorText(reply.value.message)];
      }
      loading := false;
    }

    /** The one-second timeout after a successful submit: the form, `codeSent` and the countdown go back to their start. */
    method ResetFires()
      requires resetScheduled
      modifies this
      ensures form == initial && !codeSent && countdown == 0 && !resetScheduled
      ensures timers == old(timers) && notices == old(notices) && sent == old(sent)
      ensures loading == old(loading) && codeLoading == old(codeLoading)
    {
      form := initial;
      codeSent := false;
      countdown := 0;
      resetScheduled := false;
    }
  }
}
