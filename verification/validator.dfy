/**
 * Request validation messages (pkg/validator): the per-tag message table,
 * the JSON-tag field naming, the `"; "`-joined validation reply, and the
 * password and phone rules.
 */
module Validator {
  import opened Wrappers
  import opened Strs
  import opened Response

  /** One failed rule as the validation library reports it. */
  datatype FieldError = FieldError(field: string, tag: string, param: string)

  /**
   * What `reflect` finds for the request struct: Go field name to its
   * `json` tag (the empty string when the field has none). A field the
   * library names but the map lacks is one `FieldByName` does not find.
   */
  type StructFields = map<string, string>

  /** `getFieldName`: the json tag up to its first comma, unless it is empty or "-". */
  function FieldName(fields: StructFields, field: string): (r: string)
    ensures field !in fields ==> r == field
    ensures field in fields && fields[field] != "" && fields[field] != "-" ==>
      r <= fields[field] && ',' !in r && (|r| < |fields[field]| ==> fields[field][|r|] == ',')
    ensures field in fields && (fields[field] == "" || fields[field] == "-") ==> r == field
  {
    if field !in fields then field
    else
      var jsonTag := fields[field];
      if jsonTag != "" && jsonTag != "-" then BeforeFirst(jsonTag, ',') else field
  }

  /** An option-only tag such as ",omitempty" names the field with the empty string. */
  lemma OptionOnlyTagGivesEmptyName(fields: StructFields, field: string)
    requires field in fields && |fields[field]| > 0 && fields[field][0] == ','
    ensures FieldName(fields, field) == ""
  {
  }

  /** Tags whose message carries the rule's parameter. */
  predicate UsesParam(tag: string) {
    tag in {"min", "max", "len", "oneof", "gt", "gte", "lt", "lte", "eq", "ne"}
  }

  /** Tags with a message of their own. */
  predicate KnownTag(tag: string) {
    UsesParam(tag) || tag in {"required", "email", "numeric", "alpha", "alphanum", "url",
                              "file", "image", "datetime", "date", "time"}
  }

  const DefaultSuffix := "验证失败"

  /** `getErrorMessage`. */
  function ErrorMessage(fieldName: string, tag: string, param: string): (r: string)
    ensures fieldName <= r
    ensures !KnownTag(tag) ==> r == fieldName + DefaultSuffix
  {
    match tag
    case "required" => fieldName + "不能为空"
    case "email" => fieldName + "格式不正确"
    case "min" => fieldName + "长度不能少于" + param + "个字符"
    case "max" => fieldName + "长度不能超过" + param + "个字符"
    case "len" => fieldName + "长度必须为" + param + "个字符"
    case "oneof" => fieldName + "必须是以下值之一: " + param
    case "numeric" => fieldName + "必须是数字"
    case "alpha" => fieldName + "只能包含字母"
    case "alphanum" => fieldName + "只能包含字母和数字"
    case "url" => fieldName + "必须是有效的URL"
    case "file" => fieldName + "必须是有效的文件"
    case "image" => fieldName + "必须是有效的图片文件"
    case "datetime" => fieldName + "必须是有效的日期时间格式"
    case "date" => fieldName + "必须是有效的日期格式"
    case "time" => fieldName + "必须是有效的时间格式"
    case "gt" => fieldName + "必须大于" + param
    case "gte" => fieldName + "必须大于等于" + param
    case "lt" => fieldName + "必须小于" + param
    case "lte" => fieldName + "必须小于等于" + param
    case "eq" => fieldName + "必须等于" + param
    case "ne" => fieldName + "不能等于" + param
    case _ => fieldName + DefaultSuffix
  }

  /** Tags that take no parameter produce the same message whatever the parameter. */
  lemma MessageIgnoresParam(fieldName: string, tag: string, p1: string, p2: string)
    requires !UsesParam(tag)
    ensures ErrorMessage(fieldName, tag, p1) == ErrorMessage(fieldName, tag, p2)
  {
  }

  lemma {:induction false} CancelAround(a: string, p1: string, p2: string, b: string)
    requires a + p1 + b == a + p2 + b
    ensures p1 == p2
  {
    var s := a + p1 + b;
    assert |p1| == |p2|;
    assert p1 == s[|a|..|a| + |p1|];
    assert p2 == (a + p2 + b)[|a|..|a| + |p2|];
  }

  /** For the parameterised tags the parameter can be read back: distinct parameters give distinct messages. */
  lemma MessageDeterminesParam(fieldName: string, tag: string, p1: string, p2: string)
    requires UsesParam(tag)
    requires ErrorMessage(fieldName, tag, p1) == ErrorMessage(fieldName, tag, p2)
    ensures p1 == p2
  {
    var m1 := ErrorMessage(fieldName, tag, p1);
    var m2 := ErrorMessage(fieldName, tag, p2);
    match tag
    case "min" => CancelAround(fieldName + "长度不能少于", p1, p2, "个字符");
    case "max" => CancelAround(fieldName + "长度不能超过", p1, p2, "个字符");
    case "len" => CancelAround(fieldName + "长度必须为", p1, p2, "个字符");
    case "oneof" => CancelAround(fieldName + "必须是以下值之一: ", p1, p2, "");
    case "gt" => CancelAround(fieldName + "必须大于", p1, p2, "");
    case "gte" => CancelAround(fieldName + "必须大于等于", p1, p2, "");
    case "lt" => CancelAround(fieldName + "必须小于", p1, p2, "");
    case "lte" => CancelAround(fieldName + "必须小于等于", p1, p2, "");
    case "eq" => CancelAround(fieldName + "必须等于", p1, p2, "");
    case "ne" => CancelAround(fieldName + "不能等于", p1, p2, "");
  }

  /** The message of each rule failure, in the library's order. */
  function Messages(fields: StructFields, errs: seq<FieldError>): (r: seq<string>)
    ensures |r| == |errs|
    ensures forall k :: 0 <= k < |errs| ==> r[k] == ErrorMessage(FieldName(fields, errs[k].field), errs[k].tag, errs[k].param)
  {
    seq(|errs|, k requires 0 <= k < |errs| => ErrorMessage(FieldName(fields, errs[k].field), errs[k].tag, errs[k].param))
  }

  /** The text after "验证失败: " when validation fails. */
  function ValidationText(fields: StructFields, errs: seq<FieldError>): string {
    Join(Messages(fields, errs), "; ")
  }

  /**
   * `ValidateRequest`: `errs` is what `validate.Struct` reports for the
   * request. Returns whether the request is valid and, when it is not, the
   * reply written to the client.
   */
  method ValidateRequest(fields: StructFields, errs: seq<FieldError>) returns (ok: bool, reply: Option<Reply<()>>)
    ensures ok <==> errs == []
    ensures ok ==> reply == None
    ensures !ok ==> reply == Some(ValidationError(ValidationText(fields, errs)))
  {
    if errs == [] {
      return true, None;
    }
    var errors: seq<string> := [];
    var i := 0;
    while i < |errs|
      invariant 0 <= i <= |errs|
      invariant errors == Messages(fields, errs[..i])
    {
      var e := errs[i];
      var fieldName := FieldName(fields, e.field);
      var message := ErrorMessage(fieldName, e.tag, e.param);
      assert errs[..i + 1][..i] == errs[..i];
      assert Messages(fields, errs[..i + 1]) == Messages(fields, errs[..i]) + [message];
      errors := errors + [message];
      i := i + 1;
    }
    assert errs[..i] == errs;
    return false, Some(ValidationError(Join(errors, "; ")));
  }

  /** Every failed rule's message appears in the validation reply. */
  lemma EveryFailureReported(fields: StructFields, errs: seq<FieldError>, k: int)
    requires 0 <= k < |errs|
    ensures Contains(ValidationText(fields, errs),
                     ErrorMessage(FieldName(fields, errs[k].field), errs[k].tag, errs[k].param))
  {
    JoinContainsParts(Messages(fields, errs), "; ", k);
  }

  // ---------------------------------------------------------------- rules

  /**
   * The validation library's `numeric`: an optional sign, digits, and an
   * optional fraction of a dot and digits.
   */
  predicate IsNumeric(s: string) {
    var body := if |s| > 0 && (s[0] == '-' || s[0] == '+') then s[1..] else s;
    exists k :: 0 < k <= |body| && AllDigits(body[..k])
      && (k == |body| || (body[k] == '.' && k + 1 < |body| && AllDigits(body[k + 1..])))
  }

  /** `ValidatePassword`: `required,min=6,alphanum`. */
  predicate ValidatePassword(password: string) {
    password != "" && |password| >= 6 && AllAlnum(password)
  }

  /** `ValidatePhone`: `required,len=11,numeric`. */
  predicate ValidatePhone(phone: string) {
    phone != "" && |phone| == 11 && IsNumeric(phone)
  }

  /** What the rule lets through and what it refuses: length counts characters, and only ASCII letters and digits are allowed. */
  lemma PasswordRule()
    ensures ValidatePassword("abc123") && ValidatePassword("ABCDEFGH")
    ensures !ValidatePassword("abc12")
    ensures !ValidatePassword("abc 123") && !ValidatePassword("abc-123")
    ensures !ValidatePassword("密码abc123")
  {
    assert !IsAlnum(" "[0]) && "abc 123"[3] == ' ';
    assert "abc-123"[3] == '-';
    assert "密码abc123"[0] == '密';
  }

  /** As written, six digits pass although the rule is documented as needing letters and digits. */
  lemma DigitsOnlyPasswordAccepted()
    ensures ValidatePassword("123456") && ValidatePassword("abcdef")
    ensures !ValidatePasswordIntended("123456") && !ValidatePasswordIntended("abcdef")
  {
    assert "123456"[0] == '1';
    assert "abcdef"[0] == 'a';
    assert forall i :: 0 <= i < 6 ==> !IsAsciiLetter("123456"[i]);
    assert forall i :: 0 <= i < 6 ==> !IsDigit("abcdef"[i]);
  }

  /** The documented password strength: at least six ASCII letters and digits, with at least one of each. */
  predicate ValidatePasswordIntended(password: string) {
    ValidatePassword(password)
    && (exists i :: 0 <= i < |password| && IsAsciiLetter(password[i]))
    && (exists j :: 0 <= j < |password| && IsDigit(password[j]))
  }

  /**
   * The documented rule is the written one plus the mixture: a password
   * passes it iff it passes `ValidatePassword` and is neither all letters
   * nor all digits.
   */
  lemma PasswordIntendedRule(password: string)
    ensures ValidatePasswordIntended(password) ==> ValidatePassword(password)
    ensures ValidatePasswordIntended(password) <==>
      ValidatePassword(password) && !AllDigits(password)
      && !(forall i :: 0 <= i < |password| ==> IsAsciiLetter(password[i]))
  {
    if ValidatePassword(password) && !AllDigits(password)
       && !(forall i :: 0 <= i < |password| ==> IsAsciiLetter(password[i])) {
      var i :| 0 <= i < |password| && !IsDigit(password[i]);
      var j :| 0 <= j < |password| && !IsAsciiLetter(password[j]);
      assert IsAlnum(password[i]) && IsAlnum(password[j]);
    }
  }

  /** Eleven digits always pass the phone rule. */
  lemma ElevenDigitsArePhones(phone: string)
    requires |phone| == 11 && AllDigits(phone)
    ensures ValidatePhone(phone)
  {
    assert phone[..11] == phone;
  }

  /** A phone that passes the rule is eleven characters of digits with at most a sign and a dot among them. */
  lemma PhoneCharacters(phone: string)
    requires ValidatePhone(phone)
    ensures |phone| == 11
    ensures forall i :: 0 <= i < |phone| ==> IsDigit(phone[i]) || phone[i] == '+' || phone[i] == '-' || phone[i] == '.'
  {
    var signed := phone[0] == '-' || phone[0] == '+';
    var off := if signed then 1 else 0;
    var body := phone[off..];
    var k :| 0 < k <= |body| && AllDigits(body[..k])
      && (k == |body| || (body[k] == '.' && k + 1 < |body| && AllDigits(body[k + 1..])));
    forall i | 0 <= i < |phone|
      ensures IsDigit(phone[i]) || phone[i] == '+' || phone[i] == '-' || phone[i] == '.'
    {
      if i < off {
        assert phone[i] == '-' || phone[i] == '+';
      } else {
        var j := i - off;
        assert body[j] == phone[i];
        if j < k {
          assert AllDigits(body[..k]);
          assert 0 <= j < |body[..k]|;
          assert body[..k][j] == body[j];
          assert IsDigit(body[..k][j]);
        } else if j > k {
          assert k < |body| && AllDigits(body[k + 1..]);
          assert body[k + 1..][j - k - 1] == body[j];
          assert IsDigit(body[k + 1..][j - k - 1]);
        } else {
          assert phone[i] == '.';
        }
      }
    }
  }

  /** The phone rule is looser than "eleven digits": a signed number passes too. */
  lemma SignedPhoneAccepted()
    ensures ValidatePhone("+1234567890")
  {
    var phone := "+1234567890";
    var body := phone[1..];
    assert body == "1234567890";
    assert body[..10] == body;
    assert AllDigits(body);
    assert IsNumeric(phone);
  }
}
