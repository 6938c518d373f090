# Laboratory recruitment platform — a Dafny model

The repository is a student-recruitment platform for a university lab. A
student applies through a public form: they ask for an e-mail verification
code, then submit name, e-mail, phone, student id, major, grade, an interview
time and the code. An administrator signs in and reviews the applicants on a
dashboard: lists, status changes, deletions and statistics.

There are two backends:

- `main.go` is an in-memory server that the dashboard actually calls. It
  keeps three global maps (applicants, verification codes, admin tokens) and a
  `nextID` counter.
- The `internal/` tree is a GORM-based server. It has an application handler
  with its own code store and a `999999` test bypass, two services over
  database tables, a JWT middleware, an auth handler, plus validation,
  response and configuration helpers and the record models.

The React frontend adds a session store (`authSlice.ts`), route guards, the
axios instance's interceptors, the application page and the admin dashboard.

Each part is modelled in the form the source takes:

- State the source changes step by step is a `class`. Its fields are the Go
  maps, the database table as a `seq`, the Gin context, the Redux state, the
  browser's local storage and the React component state. Each method's
  `ensures` states the whole new state.
- Decisions and formatting are functions with named results. Lemmas prove the
  promised properties about them: codes are single-use; ids are unique and
  increasing; e-mails are never duplicated; an operation changes nothing
  outside its target; pagination bounds hold; round trips close (decimal
  formatting, `host:port`, the interview date-time string, the edit-form
  prefill); the error classification picks the first match.

The clock, randomness, bcrypt, JWT signing and parsing, base64url decoding,
SMTP, the library e-mail check and the database's own failures are parameters
of the operations that use them.

Files:

| file | models |
|---|---|
| `wrappers.dfy` | `Option` / `Result` |
| `strs.dfy` | substring search, prefixes, joining, and decimal formatting and parsing, as Go's `strconv` does them |
| `response.dfy` | `pkg/response/response.go` |
| `validator.dfy` | `pkg/validator/validator.go` |
| `config.dfy` | `internal/config/config.go` |
| `email_config.dfy` | `email_config.go` (module `Mail`) |
| `models.dfy` | `internal/models/*.go` |
| `gorm.dfy` | `Offset`/`Limit` windows |
| `interview_service.dfy` | `internal/services/interview_application_service.go` |
| `user_service.dfy` | `internal/services/user_service.go` |
| `app_handler.dfy` | `internal/handlers/application_handler.go` |
| `auth_middleware.dfy` | `internal/middleware/auth.go` |
| `auth_handler.dfy` | `internal/handlers/auth_handler.go` |
| `mem_server.dfy` | `main.go` |
| `auth_slice.dfy` | `frontend/src/store/slices/authSlice.ts` |
| `router.dfy` | `frontend/src/router/index.tsx` |
| `api_instance.dfy` | `frontend/src/api/instance.ts` |
| `interview_page.dfy` | `frontend/src/pages/InterviewApplication.tsx` |
| `admin_dashboard.dfy` | `frontend/src/pages/AdminDashboard.tsx` |

## Model

| member | source | states |
|---|---|---|
| Response.Success | pkg/response/response.go:21-27 | status and code 200, message "success", data carried unchanged |
| Response.SuccessWithMessage | pkg/response/response.go:30-36 | status and code 200 with the given message and data |
| Response.SuccessWithPagination | pkg/response/response.go:39-48 | status 200, with the list, total, page and size carried unchanged |
| Response.ErrorReplies | pkg/response/response.go:51-86 | `Error` and the six status helpers write an error reply: the body's code equals the HTTP status (400, 401, 403, 404, 409, 500 for the helpers), the message is kept, and data and paging are absent |
| Response.PrefixedErrorReplies | pkg/response/response.go:89-101 | validation and file-upload errors are 400 and database errors 500, each message being its prefix followed by the given text |
| Response.PrefixedKindsDistinguishable | pkg/response/response.go:89-101 | messages of two different prefixed kinds are never equal |
| Response.ValidationMessageRecoverable | pkg/response/response.go:89-91 | the original text can be read back from a validation message |
| Response.GetPaginationParams | pkg/response/response.go:104-123 | the parsed page is kept when ≥ 1 and becomes 1 otherwise; the parsed size is kept in [1, 100], becomes 10 below 1 and 100 above 100; absent keys read as "1" and "10", malformed values as 0 |
| Response.PaginationDefaults | pkg/response/response.go:105-106 | missing queries give page 1 and size 10 |
| Response.PaginationKeepsValidValues | pkg/response/response.go:105-122 | a page ≥ 1 and a size in 1..100 pass through unchanged |
| Response.PaginationMalformedFallsBack | pkg/response/response.go:108-116 | a non-numeric query parses to 0 and is then clamped |
| Response.GetOffset | pkg/response/response.go:126-128 | (page-1)*size with 64-bit wrap-around; non-negative whenever page ≥ 1 and there is no overflow |
| Response.OffsetOverflowExample | pkg/response/response.go:126-128 | a concrete page and size whose offset wraps to a negative value |
| Validator.FieldName | pkg/validator/validator.go:65-95 | the json tag up to its first comma when the tag is non-empty and not "-", otherwise the Go field name |
| Validator.OptionOnlyTagGivesEmptyName | pkg/validator/validator.go:76-94 | a tag such as ",omitempty" yields the empty name |
| Validator.ErrorMessage | pkg/validator/validator.go:98-145 | every message starts with the field name; an unknown tag gives the name plus "验证失败" |
| Validator.MessageIgnoresParam | pkg/validator/validator.go:98-145 | for tags without a parameter, the message does not depend on it |
| Validator.MessageDeterminesParam | pkg/validator/validator.go:98-145 | for tags with a parameter, different parameters give different messages |
| Validator.ValidateRequest | pkg/validator/validator.go:34-56 | true with no reply exactly when there are no errors; otherwise a 400 reply of "验证失败: " plus the per-field messages joined with "; " in order, and false |
| Validator.EveryFailureReported | pkg/validator/validator.go:44-54 | every failed field's message occurs in the reply text |
| Validator.PasswordRule | pkg/validator/validator.go:189-192 | six ASCII letters and digits pass; five characters, a space, a dash or a non-ASCII letter fail |
| Validator.DigitsOnlyPasswordAccepted | pkg/validator/validator.go:189-192 | as written: "123456" and "abcdef" pass, though neither mixes letters and digits |
| Validator.PasswordIntendedRule | pkg/validator/validator.go:190 | corrected: the documented rule passes exactly the written rule's passwords that are neither all digits nor all letters |
| Validator.ElevenDigitsArePhones | pkg/validator/validator.go:195-198 | any 11-digit string is accepted |
| Validator.PhoneCharacters | pkg/validator/validator.go:195-198 | an accepted phone has length 11 and every character is a digit, a sign or a decimal point, as `numeric` allows |
| Validator.SignedPhoneAccepted | pkg/validator/validator.go:195-198 | a concrete signed string of length 11 passes the phone check |
| Config.ValidateConfig | internal/config/config.go:187-210 | the error for the first empty field in the order port, DB host, DB user, DB name, JWT secret; None when all are set |
| Config.ValidationIgnoresOptionalSettings | internal/config/config.go:187-210 | the settings it does not check never change the verdict |
| Config.GetDSN | internal/config/config.go:213-216 | the DSN starts with `user:`; with the lemmas below, every field and the trailing `&parseTime=True&loc=Local` options can be read back from it |
| Config.DSNUserRecoverable | internal/config/config.go:213-216 | a colon-free user name is the text before the first ':' |
| Config.ParseDSN | internal/config/config.go:213-216 | a DSN that reads back has the text before its first ':' as the user |
| Config.DSNRoundTrip | internal/config/config.go:213-216 | user, password, host, port, database and charset all read back from the DSN when none contains the separator after it and the port is an int64 |
| Config.DSNEndsWithOptions | internal/config/config.go:213-216 | the DSN ends with the `&parseTime=True&loc=Local` options |
| Config.GetRedisAddr | internal/config/config.go:219-221 | the address starts with `host:` |
| Config.RedisAddrRoundTrip | internal/config/config.go:219-221 | for a colon-free host, the host is the text before the first ':' and the rest parses back to the port |
| Config.GetJWTExpireHours | internal/config/config.go:224-226 | the nanosecond duration truncated toward zero to whole hours, for negative durations too |
| Config.ExpireHoursTruncates | internal/config/config.go:224-226 | one nanosecond short of an hour gives 0, minus one nanosecond gives 0, and 24 hours give 24 |
| Config.ModesExclusive | internal/config/config.go:229-236 | development iff the mode is debug or development, production iff release or production, never both |
| Mail.GetEnv | email_config.go:49-54 | the default when the variable is unset or empty, the value otherwise |
| Mail.GetEmailConfig | email_config.go:17-46 | the test config when the SMTP user or password is empty; otherwise host, user and password pass through and a port that does not parse, or parses to 0, becomes 587 |
| Mail.DefaultsWithCredentials | email_config.go:17-46 | with only credentials set, the result is smtp.qq.com on port 587 |
| Mail.MalformedPortFallsBack | email_config.go:25-28 | a non-numeric port becomes 587 |
| Mail.TestModeIff | email_config.go:31-38 | unless the host variable is itself "test", the host is "test" iff a credential is missing |
| Models.UserRolesExclusive | internal/models/user.go:51-58 | IsAdmin and IsStudent are never both true |
| Models.UserToResponse | internal/models/user.go:99-113 | id, e-mail, role and status copied unchanged |
| Models.UserResponseForgetsExactlyPrivateFields | internal/models/user.go:99-113 | two users have the same response iff they differ only in password, UpdatedAt and DeletedAt |
| Models.UserResponseHidesPassword | internal/models/user.go:14 | changing the password never changes the response |
| Models.UserBeforeCreate | internal/models/user.go:38-42 | both timestamps set to the current time, nothing else changed |
| Models.UserBeforeUpdate | internal/models/user.go:45-48 | only UpdatedAt changes |
| Models.EmptyUpdateRequestValid | internal/models/user.go:74-81 | an all-empty update request passes its rules, because the phone and username rules apply only when those fields are non-empty |
| Models.GetAvailableSlots | internal/models/lab.go:93-99 | max(0, MaxMembers − CurrentMembers) |
| Models.FullIffNoSlots | internal/models/lab.go:88-99 | IsFull iff no slot is left |
| Models.JoiningTakesASlot | internal/models/lab.go:93-99 | one more member on a non-full lab leaves one slot fewer |
| Models.LabToResponse | internal/models/lab.go:149-174 | the scalars copied; Creator only when Creator.ID ≠ 0 |
| Models.LabResponseCopiesScalars | internal/models/lab.go:149-174 | for the same creator, two labs have the same response iff they differ at most in DeletedAt |
| Models.LabBeforeCreate | internal/models/lab.go:70-74 | both timestamps set to the current time |
| Models.LabBeforeUpdate | internal/models/lab.go:77-80 | only UpdatedAt changes |
| Models.ReviewedIffDecided | internal/models/application.go:52-69 | IsReviewed ⇔ IsAccepted ∨ IsRejected, and the three status predicates exclude each other |
| Models.ValidReviewDecides | internal/models/application.go:91-94 | a review status that passes the rule makes the application reviewed |
| Models.ApplicationToResponse | internal/models/application.go:120-154 | the scalars copied; User and Lab nested only when their ID ≠ 0, Reviewer only when present with ID ≠ 0 |
| Models.ApplicationResponseCopiesScalars | internal/models/application.go:120-136 | for the same nested records, two applications have the same response iff they differ at most in DeletedAt |
| Models.ApplicationBeforeCreate | internal/models/application.go:39-43 | both timestamps set to the current time |
| Models.ApplicationBeforeUpdate | internal/models/application.go:46-49 | only UpdatedAt changes |
| Models.InterviewStatusesExclusive | internal/models/interview_application.go:45-62 | each predicate holds iff the status is its literal; at most one holds |
| Models.InterviewToResponse | internal/models/interview_application.go:81-96 | id, e-mail and status copied unchanged; the lemma below covers the other fields |
| Models.InterviewResponseForgetsOnlyDeletion | internal/models/interview_application.go:81-96 | two records have the same response iff they differ at most in DeletedAt |
| Models.InterviewBeforeCreate | internal/models/interview_application.go:32-36 | CreatedAt and UpdatedAt both set to the current time |
| Models.InterviewBeforeUpdate | internal/models/interview_application.go:39-42 | only UpdatedAt changes |
| Models.BeforeUpdateLastWins | internal/models/interview_application.go:39-42 | two updates equal the later one |
| Models.ValidUpdateRequestNamesOneStatus | internal/models/interview_application.go:99-102 | an accepted update status makes one of the four status predicates true |
| Models.NotificationKindsExclusive | internal/models/notification.go:45-57 | the three type predicates exclude each other |
| Models.MarkAsRead | internal/models/notification.go:60-62 | IsRead becomes true; nothing else changes |
| Models.MarkAsReadIdempotent | internal/models/notification.go:60-62 | marking twice is marking once |
| Models.NotificationToResponse | internal/models/notification.go:97-116 | the scalars copied; User only when User.ID ≠ 0 |
| Models.NotificationResponseCopiesScalars | internal/models/notification.go:97-116 | for the same user, two notifications have the same response iff they differ at most in DeletedAt |
| Models.NotificationBeforeCreate | internal/models/notification.go:32-36 | both timestamps set to the current time |
| Models.NotificationBeforeUpdate | internal/models/notification.go:39-42 | only UpdatedAt changes |
| Gorm.Window | internal/services/interview_application_service.go:100-103 | the rows from the offset, at most `limit` of them, in order |
| Gorm.WindowsTile | internal/services/interview_application_service.go:100-103 | consecutive pages concatenate to the list's prefix |
| InterviewService.FindLive | internal/services/interview_application_service.go:54-63 | the index of the live row with the id, or -1 exactly when there is none |
| InterviewService.Filtered | internal/services/interview_application_service.go:84-92 | exactly the live rows matching the status filter when it is non-empty and the name substring when it is non-empty |
| InterviewService.EmptyFiltersSelectLiveRows | internal/services/interview_application_service.go:84-92 | with both filters empty, every live row is selected |
| InterviewService.InsertKeepsNewestFirst | internal/services/interview_application_service.go:100 | insertion keeps created_at descending and the same multiset |
| InterviewService.SortIsNewestFirst | internal/services/interview_application_service.go:100 | the sort orders by created_at descending and is a permutation |
| InterviewService.PageRowsProperties | internal/services/interview_application_service.go:95-103 | a page holds at most `size` rows, every one matches the filters, and they are newest first |
| InterviewService.FirstPageStartsWithNewest | internal/services/interview_application_service.go:100-103 | the first unfiltered page starts with a row at least as new as any live row |
| InterviewService.InterviewApplicationService.CreateApplication | internal/services/interview_application_service.go:25-51 | a live (not soft-deleted) row with the e-mail gives "该邮箱已提交过申请，请勿重复申请" and no change; otherwise one pending row with the next id, empty remarks, no deletion time and the two clock readings as created and updated time is appended |
| InterviewService.InterviewApplicationService.GetApplicationByID | internal/services/interview_application_service.go:54-63 | Ok iff a live row has the id; otherwise "面试申请不存在" |
| InterviewService.InterviewApplicationService.ListApplications | internal/services/interview_application_service.go:78-117 | the total counts the filtered set before paging; the list is the filtered, newest-first page as responses |
| InterviewService.InterviewApplicationService.UpdateApplication | internal/services/interview_application_service.go:120-140 | a missing id gives "面试申请不存在" and no change; otherwise only that row's Status, AdminRemarks and UpdatedAt change |
| InterviewService.InterviewApplicationService.DeleteApplication | internal/services/interview_application_service.go:143-151 | a soft delete: only the target row gets DeletedAt and it is no longer found |
| InterviewService.InterviewApplicationService.GetApplicationStats | internal/services/interview_application_service.go:154-167 | Total counts the live rows; each status field counts the live rows with exactly that status |
| InterviewService.StatusCountsBounded | internal/services/interview_application_service.go:154-167 | the four counts sum to at most the total |
| InterviewService.StatusCountsPartition | internal/services/interview_application_service.go:154-167 | when every status is one of the four, the counts sum to the total |
| InterviewService.CountIsFilteredSize | internal/services/interview_application_service.go:84-97 | a status count equals the size of the list filtered by that status |
| UserService.FindUser | internal/services/user_service.go:66-75 | the index of the live row with the id, or -1 exactly when there is none |
| UserService.FindByEmail | internal/services/user_service.go:78-87 | the index of a live row with the e-mail, or -1 exactly when there is none |
| UserService.MergeUpdateFieldwise | internal/services/user_service.go:105-120 | a non-empty request field replaces the stored one; an empty one keeps it; nothing else moves |
| UserService.MergeUpdateIdentityAndIdempotence | internal/services/user_service.go:105-120 | an empty request is the identity, and applying a request twice is applying it once |
| UserService.Searched | internal/services/user_service.go:153-160 | exactly the live users whose username, e-mail or student id contains a non-empty search term |
| UserService.SearchFindsEmailInfix | internal/services/user_service.go:153-160 | any infix of a live user's e-mail finds that user |
| UserService.UserService.CreateUser | internal/services/user_service.go:26-63 | the e-mail check ("邮箱已存在") comes before the username check ("用户名已存在"); an empty role is stored as "student"; on success one row with a fresh id is appended; on failure nothing changes |
| UserService.UserService.GetUserByID | internal/services/user_service.go:66-75 | "用户不存在" for a missing id, otherwise the stored row |
| UserService.UserService.GetUserByEmail | internal/services/user_service.go:78-87 | Err iff no live row has the e-mail |
| UserService.UserService.UpdateUser | internal/services/user_service.go:90-128 | a missing id gives "用户不存在"; a username held by a different id is refused, while keeping one's own is allowed; otherwise only that row becomes the field-wise merge |
| UserService.UserService.ListUsers | internal/services/user_service.go:146-170 | the total counts every search match; the list is the window at offset (page-1)*size |
| UserService.UserService.ChangePassword | internal/services/user_service.go:173-199 | a wrong old password gives "旧密码错误" and leaves the hash; otherwise only that row's hash and UpdatedAt change |
| UserService.UserService.UpdateUserStatus | internal/services/user_service.go:226-239 | only that row's status and UpdatedAt change; "用户不存在" for a missing id |
| UserService.DeactivatedUserInactive | internal/services/user_service.go:226-239 | any status but "active" fails IsActive |
| AppHandler.ContentTypeIsExact | internal/handlers/application_handler.go:69-73 | other casings and spacings of the JSON content type are refused |
| AppHandler.GenerateVerificationCode | internal/handlers/application_handler.go:183-190 | a random failure gives an error; otherwise six digits whose value is the draw |
| AppHandler.CodesAreInjective | internal/handlers/application_handler.go:183-190 | different draws give different codes |
| AppHandler.CodeIsSingleUse | internal/handlers/application_handler.go:202-218 | after an accepted non-bypass code, the same code is refused at any later time |
| AppHandler.FailedAttemptBurnsCode | internal/handlers/application_handler.go:202-218 | after a failed attempt, no code but the bypass is accepted |
| AppHandler.AcceptanceIff | internal/handlers/application_handler.go:202-218 | a non-bypass code is accepted iff an entry exists, its code equals the given one and now is before its expiry |
| AppHandler.CodeExpiresAtDeadline | internal/handlers/application_handler.go:210-213 | the code is accepted one second before its expiry and refused at the expiry instant |
| AppHandler.VerifyIsolatesEmails | internal/handlers/application_handler.go:193-219 | another e-mail's entry is untouched |
| AppHandler.CodeStore.VerifyCode | internal/handlers/application_handler.go:193-219 | "999999" is accepted without touching the store; any other code answers the acceptance rule and deletes the e-mail's entry |
| AppHandler.SendCodeErrors | internal/handlers/application_handler.go:60-63 | no error iff the e-mail is non-empty and well formed |
| AppHandler.ApplyErrorsEmptyIff | internal/handlers/application_handler.go:35-44 | an apply request passes iff every field is filled and the e-mail is well formed |
| AppHandler.ApplyErrorsCount | internal/handlers/application_handler.go:35-44 | one error per empty field, plus one for a malformed e-mail |
| AppHandler.UpdateErrors | internal/handlers/application_handler.go:49-52 | no error iff the status is one of pending, interviewed, passed and rejected; an empty status reports `required` |
| AppHandler.UpdateRuleIsTheStatusEnum | internal/handlers/application_handler.go:49-52 | the rule accepts exactly the four statuses, whatever the remarks |
| AppHandler.ListParams | internal/handlers/application_handler.go:294-304 | page < 1 becomes 1; size < 1 or > 100 becomes 10; values in range are kept |
| AppHandler.ListParamsOversizeDiffers | internal/handlers/application_handler.go:300-302 | size 101 becomes 10 here but 100 under GetPaginationParams |
| AppHandler.ApplicationHandler.SendCode | internal/handlers/application_handler.go:67-111 | a content type other than the exact two JSON values is refused with the store unchanged; on success the code is stored with expiry now + 300 s, replacing any earlier one; a failed send deletes it |
| AppHandler.ApplicationHandler.Apply | internal/handlers/application_handler.go:123-180 | content-type, binding and validation failures leave everything unchanged; a refused code gives 400; an accepted one creates through the service |
| AppHandler.ApplicationHandler.ListApplications | internal/handlers/application_handler.go:292-315 | the handler's clamp, then the service's filtered page |
| AppHandler.ApplicationHandler.UpdateApplication | internal/handlers/application_handler.go:362-400 | an id that is not an unsigned 32-bit decimal gives 400 first; then the content type, binding and status enum; only a passing request reaches the service |
| AuthMiddleware.ParseToken | internal/middleware/auth.go:44-58 | claims are returned iff the signature check yields them and the library's default validation passes (now before `exp`, `nbf` not after now); they are the signed claims |
| AuthMiddleware.Authenticate | internal/middleware/auth.go:61-104 | 401 "缺少认证令牌" for an empty header, "令牌格式错误" without the exact "Bearer " prefix; accepted iff the token's signature checks and its time claims are valid, with the signed claims; every other refusal is "无效的认证令牌", so "令牌已过期" is never given |
| AuthMiddleware.TokenIsHeaderSuffix | internal/middleware/auth.go:72-88 | the decision depends only on what follows "Bearer ": the signed claims when valid, otherwise "无效的认证令牌" |
| AuthMiddleware.ExpiryBoundary | internal/middleware/auth.go:82-95 | a token is accepted from its `nbf` second to the second before its `exp`, and refused as invalid at `exp` and before `nbf` |
| AuthMiddleware.ExpiredTokenGetsInvalidToken | internal/middleware/auth.go:82-95 | as written: a correctly signed, expired token gets "无效的认证令牌"; the intended version says "令牌已过期" |
| AuthMiddleware.AuthenticateIntended | internal/middleware/auth.go:82-95 | corrected: "令牌已过期" iff the token is correctly signed and its `exp` has been reached; acceptance only with valid time claims |
| AuthMiddleware.IntendedDiffersOnlyInExpiryMessage | internal/middleware/auth.go:82-95 | the two versions agree everywhere except that an expired token gets "无效的认证令牌" as written |
| AuthMiddleware.LowercaseBearerRejected | internal/middleware/auth.go:72-76 | "bearer " is a format error |
| AuthMiddleware.AdminAsWrittenServesStudent | internal/middleware/auth.go:107-131 | a valid student token reaches the admin handler and then gets 403 as well |
| AuthMiddleware.AdminGuards | internal/middleware/auth.go:107-131 | corrected: the handler runs iff the token authenticates an admin, and at most once |
| AuthMiddleware.AdminVersionsAgreeOnRefusals | internal/middleware/auth.go:107-131 | both versions end with the same event; as written, the handler runs for every authenticated request |
| AuthMiddleware.Context.Next | internal/middleware/auth.go:102 | the chain runs once; after an abort or a first run, nothing happens |
| AuthMiddleware.Context.Abort | internal/middleware/auth.go:67 | the context becomes aborted; nothing else changes |
| AuthMiddleware.Context.Write | internal/middleware/auth.go:66 | the reply is appended |
| AuthMiddleware.Context.SetClaims | internal/middleware/auth.go:98-100 | exactly user_id, user_email and user_role are set from the claims |
| AuthMiddleware.CurrentUserRolesExclusive | internal/middleware/auth.go:207-216 | each predicate needs a role equal to its literal; never both; neither without a role |
| AuthMiddleware.AuthMiddleware | internal/middleware/auth.go:61-104 | a refusal writes its 401 and aborts with no entries set; success sets the three entries and runs the chain once |
| AuthMiddleware.AdminMiddlewareAsWritten | internal/middleware/auth.go:107-131 | as written: after successful authentication the chain has already run when a non-admin gets 403 |
| AuthMiddleware.AdminMiddleware | internal/middleware/auth.go:107-131 | corrected: a non-admin gets 403 and the chain never runs; an admin's chain runs once |
| AuthMiddleware.OptionalAuthMiddleware | internal/middleware/auth.go:134-177 | never aborts and always runs the chain; the entries are set, to the signed claims, iff the token is present, well formed, correctly signed and within its time claims |
| AuthHandler.LoginErrors | internal/handlers/auth_handler.go:38-49 | no error iff the e-mail is non-empty and well formed and the password is non-empty |
| AuthHandler.Login | internal/handlers/auth_handler.go:38-84 | the body's code equals the status; a 200 carries "登录成功" and data; the three lemmas below fix the order of the checks |
| AuthHandler.LoginSucceedsIff | internal/handlers/auth_handler.go:51-83 | success iff a live user has the e-mail, the password matches and the account is active; success carries the projection, a token and "登录成功" |
| AuthHandler.LoginHidesAccounts | internal/handlers/auth_handler.go:51-63 | an unknown e-mail and a wrong password get the same 401 "邮箱或密码错误" |
| AuthHandler.DisabledOnlyAfterPassword | internal/handlers/auth_handler.go:59-69 | "账户已被禁用" (403) is reported only after the password has matched |
| AuthHandler.TokenClaims | internal/middleware/auth.go:25-37 | the claims issued for the user: id, e-mail, role, not-before now and expiry `lifetime` later |
| AuthHandler.IssuedTokenAuthenticates | internal/middleware/auth.go:25-41 | an issued, correctly signed token authenticates the same user exactly from issue to the second before expiry; otherwise it is refused as invalid, and the intended middleware reports expiry exactly from `exp` on |
| AuthHandler.GetProfile | internal/handlers/auth_handler.go:96-111 | 401 "用户未登录" without a user id, 404 "用户不存在" when the lookup fails, otherwise the projection |
| AuthHandler.DeletedUserHasNoProfile | internal/handlers/auth_handler.go:96-111 | a soft-deleted user's profile is 404 |
| AuthHandler.Logout | internal/handlers/auth_handler.go:239-243 | always 200 "登出成功" |
| AuthHandler.ChangePasswordRule | internal/handlers/auth_handler.go:245-249 | the request passes iff the old password is non-empty and the new one has at least 6 characters |
| MemServer.GenerateVerificationCode | main.go:110-114 | `100000 + draw` in decimal: six digits, value in [100000, 999999] |
| MemServer.StoredCodesHaveSixDigits | main.go:110-114 | the code `SendCode` generates and stores has six characters and is not "admin"; `Server.Valid` keeps this for every stored code |
| MemServer.CodeIsSingleUse | main.go:175-185 | after any attempt, used or failed, the e-mail has no entry, so nothing is accepted |
| MemServer.VerifyToken | main.go:203-225 | accepts iff the string has exactly three dot-separated parts, is stored and unexpired, and its second part decodes to text containing the admin's e-mail; the answer is always the admin |
| MemServer.TokenExpires | main.go:203-225 | a token stored with expiry t + 24 h is refused from t + 24 h on |
| MemServer.TokenNeedsThreeParts | main.go:206-209 | strings with fewer or more than two dots are refused |
| MemServer.NewApplicant | main.go:397-410 | the given id, the request's e-mail, status "pending", empty remarks and CreatedAt = UpdatedAt = now |
| MemServer.WithStatus | main.go:466-471 | status and the three remarks from the request, UpdatedAt = now, nothing else changed |
| MemServer.WithStatusLastWins | main.go:466-471 | updating twice with the same request equals updating once at the later time |
| MemServer.Server.constructor | main.go:91-107 | empty maps and nextID 1 |
| MemServer.Server.VerifyCode | main.go:175-185 | answers the acceptance rule and deletes the e-mail's entry whatever the outcome; nothing else changes |
| MemServer.Server.EmailTaken | main.go:321-329 | true iff some applicant has the e-mail |
| MemServer.Server.Login | main.go:271-304 | only the hard-coded account succeeds; its token is stored for 24 h; otherwise 401 and no change |
| MemServer.Server.SendCode | main.go:307-362 | an e-mail that already applied gives 409 with the store unchanged; otherwise a six-digit code is stored with a 5-minute expiry, and removed again when sending fails; `Server.Valid`, whose last conjunct says every stored code has six characters, is kept |
| MemServer.Server.Apply | main.go:365-420 | the code is consumed before the duplicate check, so a duplicate still loses its code and gets 409; a new applicant has id nextID, status "pending" and equal timestamps, then nextID increments; ids and e-mails stay unique |
| MemServer.Server.ListApplicants | main.go:423-434 | returns the listing of every id below nextID with status 200: each stored applicant exactly once, with distinct ids |
| MemServer.ListingMembers | main.go:423-434 | the listing below n holds exactly the stored applicants with ids in [1, n), ids strictly ascending |
| MemServer.Server.UpdateStatus | main.go:437-478 | a missing id gives 404 and no change; otherwise only that applicant's status, the three remarks and UpdatedAt change |
| MemServer.Server.GetApplicant | main.go:481-506 | 400 for a bad id, 404 for a missing one, otherwise the stored applicant |
| MemServer.Server.DeleteApplicant | main.go:509-534 | 404 for a missing id; otherwise exactly that key is removed |
| MemServer.DeleteIsolated | main.go:520-528 | every other applicant is as it was |
| MemServer.AdminPlaceholderCodeRejected | main.go:175-185 | the dashboard's code "admin" is never accepted against six-character codes |
| MemServer.ServerRefusesPlaceholderCode | main.go:175-185 | on a server satisfying `Server.Valid`, the code "admin" is never accepted for any e-mail |
| AuthSlice.ErrorText | frontend/src/store/slices/authSlice.ts:101 | the message unless it is empty, then the fallback |
| AuthSlice.LoginOutcome | frontend/src/store/slices/authSlice.ts:7-17 | fulfilled iff the body carries both a user and a non-empty token; otherwise the server message, or "登录失败" |
| AuthSlice.ProfileOutcomeAsWritten | frontend/src/store/slices/authSlice.ts:23-46 | as written: a resolved call yields the whole envelope |
| AuthSlice.ProfileAsWrittenStoresEnvelope | frontend/src/store/slices/authSlice.ts:23-46 | as written: a resolved call never yields a profile |
| AuthSlice.ProfileAsWrittenExample | frontend/src/store/slices/authSlice.ts:23-46 | a concrete profile reply for which the stored user is the envelope |
| AuthSlice.ProfileOutcome | frontend/src/store/slices/authSlice.ts:23-46 | corrected: fulfilled iff the body carries a user, and the payload is that user |
| AuthSlice.ProfileVersionsRelate | frontend/src/store/slices/authSlice.ts:23-46 | the two versions agree on rejections; where the corrected one succeeds, the written one yields the envelope around it |
| AuthSlice.AuthStore.constructor | frontend/src/store/slices/authSlice.ts:65-71 | the token is the stored value; isAuthenticated iff a non-empty token is stored |
| AuthSlice.AuthStore.Reload | frontend/src/api/instance.ts:47 | the page load after the redirect rebuilds the initial state from storage |
| AuthSlice.AuthStore.Await | frontend/src/api/instance.ts:31-69 | a resolved call leaves the browser alone; a rejected one goes through the response interceptor |
| AuthSlice.AuthStore.ClearError | frontend/src/store/slices/authSlice.ts:77-79 | only the error changes |
| AuthSlice.AuthStore.SetUser | frontend/src/store/slices/authSlice.ts:80-83 | user and isAuthenticated set, nothing else |
| AuthSlice.AuthStore.LoginPending | frontend/src/store/slices/authSlice.ts:88-91 | loading true and error null |
| AuthSlice.AuthStore.LoginFulfilled | frontend/src/store/slices/authSlice.ts:92-97 | loading false, user = payload, token = stored token, authenticated |
| AuthSlice.AuthStore.LoginRejected | frontend/src/store/slices/authSlice.ts:98-102 | loading false, the error set, not authenticated; user and token kept |
| AuthSlice.AuthStore.Login | frontend/src/store/slices/authSlice.ts:7-17 | storage is written only when the login is fulfilled; the resulting state for each outcome; a rejected call has also had the interceptor's effect, so a 401 removes the stored token and leaves for "/login" |
| AuthSlice.AuthStore.GetProfile | frontend/src/store/slices/authSlice.ts:107-120 | a rejection drops isAuthenticated but keeps the token in the state; the interceptor's effect on storage, location and notices |
| AuthSlice.AuthStore.UpdateProfile | frontend/src/store/slices/authSlice.ts:123-135 | success replaces the user; isAuthenticated in the state never changes; the interceptor's effect on a rejection |
| AuthSlice.AuthStore.Logout | frontend/src/store/slices/authSlice.ts:49-55 | storage and session are cleared when the call resolves; a rejection leaves the state, while the interceptor still acts (a 401 removes the stored token) |
| AuthSlice.AuthStore.ExpiredSessionEndsAtLogin | frontend/src/api/instance.ts:44-48 | a profile fetch answered 401 ends at "/login" with no stored token and a logged-out store |
| Router.ProtectedRoute | frontend/src/router/index.tsx:17-29 | the spinner while loading; otherwise the children iff authenticated, else a redirect to "/login" |
| Router.PublicRoute | frontend/src/router/index.tsx:32-36 | a redirect to "/" iff authenticated, otherwise the children; loading is ignored |
| Router.StripTrailingSlashes | frontend/src/router/index.tsx:91-141 | a prefix of the path without a trailing slash; only slashes were removed |
| Router.RedirectTargetsAreKeys | frontend/src/router/index.tsx:28-140 | the redirect targets "/", "/apply" and "/login" match their own routes |
| Router.Route | frontend/src/router/index.tsx:91-141 | matching ignores ASCII case and trailing slashes: "/" goes to "/apply"; "/apply" is unguarded; the six protected paths are guarded, and an authenticated session that is not loading sees "/admin"'s AdminPage, "/dashboard"'s DashboardPage, or the shared placeholder for the other four; unknown paths go to "/" |
| Router.TrailingSlashIgnored | frontend/src/router/index.tsx:91-141 | a path with one more trailing slash is routed the same |
| Router.UpperCasePathsMatch | frontend/src/router/index.tsx:99-110 | "/ADMIN", "/Login/" and "/admin/" reach the admin and login routes |
| Router.EveryPathSettles | frontend/src/router/index.tsx:91-141 | every path reaches a page or the spinner within two redirects |
| Router.ProtectedPathOutcome | frontend/src/router/index.tsx:17-29 | a protected page is shown exactly to an authenticated session that is not loading; others land on the spinner or the login page |
| Router.AuthenticatedLoginLandsOnForm | frontend/src/router/index.tsx:32-36 | an authenticated visit to "/login" ends on the application form |
| Router.UnknownPathLandsOnForm | frontend/src/router/index.tsx:140 | a path whose normalised form is not in the table ends on the application form |
| ApiInstance.BearerHeader | frontend/src/api/instance.ts:16-24 | `Bearer <token>` iff a non-empty token is stored |
| ApiInstance.Notice | frontend/src/api/instance.ts:41-66 | fixed notices for 401, 403, 404 and 500; other statuses show the server message or "请求失败"; no response gives the network notice |
| ApiInstance.FixedNoticesIgnoreServerText | frontend/src/api/instance.ts:44-58 | the fixed notices never depend on the server's text |
| ApiInstance.ServerTextShownIff | frontend/src/api/instance.ts:59-60 | the server's text is shown iff the status has no fixed notice |
| ApiInstance.RequestConfig.constructor | frontend/src/api/instance.ts:16-17 | the headers as given |
| ApiInstance.Browser.constructor | frontend/src/api/instance.ts:16-17 | storage and location as given, no notices |
| ApiInstance.Browser.OnRequest | frontend/src/api/instance.ts:16-24 | the Authorization header is set iff a token is stored; otherwise the headers are unchanged |
| ApiInstance.Browser.SetToken | frontend/src/store/slices/authSlice.ts:13 | only the stored token changes |
| ApiInstance.Browser.RemoveToken | frontend/src/store/slices/authSlice.ts:53 | only the stored token is removed |
| ApiInstance.Browser.OnError | frontend/src/api/instance.ts:36-67 | one notice; 401 removes the token and goes to "/login"; other statuses leave storage and location; always rejects with the same error |
| ApiInstance.Browser.UnauthorizedThenRequest | frontend/src/api/instance.ts:16-49 | after a 401, the next request carries no bearer header |
| InterviewPage.SendCodeErrorText | frontend/src/pages/InterviewApplication.tsx:96-107 | the first matching substring wins ("email格式不正确", "email不能为空", "Content-Type"), then the raw message, then the default |
| InterviewPage.SubmitErrorText | frontend/src/pages/InterviewApplication.tsx:174-189 | the first of "验证码错误"/"验证码已过期", "该邮箱已提交过申请", "不能为空", "格式不正确", "Content-Type" that occurs picks its text, in that order; otherwise "❌ " and the raw message; no text gives the default |
| InterviewPage.CodeRefusalRecognised | frontend/src/pages/InterviewApplication.tsx:174-189 | the backend's code refusal gets the code notice |
| InterviewPage.DuplicatePhraseRecognised | frontend/src/pages/InterviewApplication.tsx:174-189 | any message that starts with the duplicate phrase and has no "验" gets the duplicate notice, because the code checks come first and fail |
| InterviewPage.DuplicateRefusalRecognised | frontend/src/pages/InterviewApplication.tsx:174-189 | the in-memory server's duplicate refusal gets the duplicate notice |
| InterviewPage.ServiceDuplicateRecognised | frontend/src/pages/InterviewApplication.tsx:174-189 | the service's duplicate refusal gets the duplicate notice |
| InterviewPage.TickValue | frontend/src/pages/InterviewApplication.tsx:83-93 | prev ≤ 1 becomes 0, otherwise prev − 1; never negative |
| InterviewPage.TicksCountDown | frontend/src/pages/InterviewApplication.tsx:83-93 | k ≥ 1 ticks from prev give max(0, prev − k) |
| InterviewPage.ButtonLabel | frontend/src/pages/InterviewApplication.tsx:419-422 | "<n>s后重发" while counting, otherwise "发送验证码" |
| InterviewPage.LabelMatchesButton | frontend/src/pages/InterviewApplication.tsx:419-422 | the label is "发送验证码" iff the button is enabled (countdown ≤ 0) |
| InterviewPage.PadDigitsValue | frontend/src/pages/InterviewApplication.tsx:134-137 | zero-padding to k digits keeps the value |
| InterviewPage.InterviewDateTime | frontend/src/pages/InterviewApplication.tsx:134-137 | 'YYYY-MM-DD HH:mm': sixteen characters with the separators in place |
| InterviewPage.InterviewDateTimeRoundTrip | frontend/src/pages/InterviewApplication.tsx:134-137 | year, month, day, hour and minute can be read back from the string |
| InterviewPage.PhonePatternIsEnough | frontend/src/pages/InterviewApplication.tsx:314-318 | the phone rule holds iff ^1[3-9]\d{9}$ matches, so the length rule adds nothing |
| InterviewPage.ApplicationPage.constructor | frontend/src/pages/InterviewApplication.tsx:48-51 | the initial form, nothing loading, no code sent, countdown 0 |
| InterviewPage.ApplicationPage.SendCode | frontend/src/pages/InterviewApplication.tsx:56-128 | an empty e-mail sends nothing and changes no code state; success sets codeSent and countdown 60 and starts a timer; failure shows the classified text |
| InterviewPage.ApplicationPage.Tick | frontend/src/pages/InterviewApplication.tsx:83-93 | the countdown takes one TickValue step; the timer stops at 0 |
| InterviewPage.ApplicationPage.Submit | frontend/src/pages/InterviewApplication.tsx:131-206 | the request carries the formatted interview time; success schedules the reset; failure shows the classified text |
| InterviewPage.ApplicationPage.ResetFires | frontend/src/pages/InterviewApplication.tsx:167-171 | the form is reset, codeSent false and countdown 0 |
| AdminDashboard.StatusTag | frontend/src/pages/AdminDashboard.tsx:147-162 | the pending tag iff the status is "pending" or neither a known status nor a key inherited from `Object.prototype`; inherited keys give a tag without colour or text |
| AdminDashboard.StatusTagsDistinct | frontend/src/pages/AdminDashboard.tsx:147-156 | two distinct known statuses get different tags; "interviewed" shows as pending and "constructor" as a blank tag |
| AdminDashboard.CountStatus | frontend/src/pages/AdminDashboard.tsx:165-172 | the number of exact matches, at most the list length |
| AdminDashboard.GetStats | frontend/src/pages/AdminDashboard.tsx:165-172 | total is the length; pending, passed and rejected count exact matches |
| AdminDashboard.StatsBounded | frontend/src/pages/AdminDashboard.tsx:165-172 | pending + passed + rejected ≤ total, with equality iff every status is one of the three |
| AdminDashboard.Prefill | frontend/src/pages/AdminDashboard.tsx:135-144 | exactly status and the three remarks come from the applicant |
| AdminDashboard.PrefillRoundTrip | frontend/src/pages/AdminDashboard.tsx:135-144 | submitting an unchanged prefill to the status update leaves the applicant as it was, except UpdatedAt |
| AdminDashboard.AddRequest | frontend/src/pages/AdminDashboard.tsx:177-199 | the form's fields with the placeholder code "admin" |
| AdminDashboard.AddIsAlwaysRefused | frontend/src/pages/AdminDashboard.tsx:196 | on every server state `Server.Valid` describes, the add form's code is refused |
| AdminDashboard.MessageOr | frontend/src/pages/AdminDashboard.tsx:107-111 | the server message when it is non-empty, otherwise the fallback |
| AdminDashboard.Dashboard.constructor | frontend/src/pages/AdminDashboard.tsx:57-64 | an empty list, nothing loading and no modal open |
| AdminDashboard.Dashboard.FetchApplicants | frontend/src/pages/AdminDashboard.tsx:67-82 | code 200 sets the list to the data or []; otherwise the list is kept; loading ends false |
| AdminDashboard.Dashboard.ShowEditModal | frontend/src/pages/AdminDashboard.tsx:135-144 | the applicant is selected, the form prefilled and the modal opened |
| AdminDashboard.Dashboard.HandleUpdateStatus | frontend/src/pages/AdminDashboard.tsx:89-113 | no selection does nothing; code 200 closes the modal and re-fetches; a failure keeps the list |
| AdminDashboard.Dashboard.HandleDelete | frontend/src/pages/AdminDashboard.tsx:116-132 | code 200 re-fetches; a failure keeps the list |
| AdminDashboard.Dashboard.AddSucceeded | frontend/src/pages/AdminDashboard.tsx:200-204 | the success notice comes first, the add modal closes, its form is cleared and one list fetch follows |
| AdminDashboard.Dashboard.HandleAddApplicant | frontend/src/pages/AdminDashboard.tsx:177-213 | the request carries the code "admin"; code 200 closes the form and re-fetches; a failure keeps the list |

## Left out

- Server wiring, goroutines, signal handling and graceful shutdown in `cmd/main/main.go` and `main.go`'s `main` setup: lifecycle, not logic.
- Database and Redis connections, loggers and log rotation: I/O only.
- SMTP sending: its success or failure is a boolean parameter.
- Randomness, bcrypt, HMAC token signing, base64url decoding, and JWT decoding with its signature check: parameters or function values. The token layout itself is not modelled. The library's default time validation (`exp`, `nbf`) is modelled by `AuthMiddleware.ClaimsValid`.
- AuthMiddleware.ClaimsValid: times are whole seconds, as `NumericDate` stores them. A token without an `exp` claim passes the library but makes the middleware dereference a nil `ExpiresAt`; the model's claims always carry `exp`.
- AuthMiddleware.Authenticate: the parse and the expiry branch each read the clock; the model reads it once, so it leaves out the sub-second window in which a token expires between the two reads and gets "令牌已过期".
- AuthHandler.TokenClaims: `GenerateToken` reads the clock three times; the model reads it once, so `exp - nbf` is exactly the lifetime.
- `LoadConfig`, `setDefaults`, `bindEnvs` and `StringSlice.Value`/`Scan`: thin wrappers over viper, encoding/json and database/sql.
- The library's e-mail format check: a function-valued parameter `isEmail`. The `numeric` check is a character-class predicate.
- The clock and the browser timers: explicit `now` inputs and `Tick`/`ResetFires` steps.
- Config.GetJWTExpireHours: exact truncation of the duration to hours. Go goes through the float64 `Duration.Hours()`, so from 8192 hours up a duration a few nanoseconds short of a whole hour rounds up to it (8192 h − 1 ns gives 8192); floating point is not modelled.
- Concurrent access to `main.go`'s global maps and to the package-level `verificationCodes` map of internal/handlers/application_handler.go:38: concurrency is not modelled; every handler runs to completion alone, although Gin serves requests on several goroutines and none of these maps is locked.
- Database failures of `Create`/`Save`/`Delete`: the table always accepts the write. This includes the MySQL `enum` columns (models/user.go:15 and :21): a `role` other than 'student' or 'admin' in `UserService.UserService.CreateUser`, or a `status` other than 'active' or 'inactive' in `UserService.UserService.UpdateUserStatus`, is a write the database refuses, which the model stores.
- String comparison under the database collation is modelled as exact: `LIKE` as exact substring search, and the equality lookups and unique indexes as exact equality. The case-insensitive collation is not modelled, so "A@x.com" after "a@x.com" is a duplicate for the program but not for the model. The members this affects are `InterviewService.EmailTaken` and `InterviewService.InterviewApplicationService.CreateApplication` (`Where("email = ?")`, internal/services/interview_application_service.go:28), `UserService.LiveEmail`, `UserService.FindByEmail`, `UserService.AnyRowHasEmail`, `UserService.AnyOtherRowHasUsername`, `UserService.UserService.CreateUser` and `UserService.UserService.GetUserByEmail` (the e-mail and user-name lookups and the `uniqueIndex` columns of models/user.go:12-13), and the `LIKE` filters `InterviewService.Filtered` and `UserService.Searched`.
- Go map iteration order is unspecified. `MemServer.Server.ListApplicants` and `MemServer.Server.EmailTaken` scan in ascending id order.
- UserService.UserService.ListUsers: the query pages with no `ORDER BY` (internal/services/user_service.go:165), so the database may return the rows in any order. The model's choice is primary-key order.
- InterviewService.SortNewestFirst: `Order("created_at DESC")` (internal/services/interview_application_service.go:101) leaves rows with equal timestamps in any order, possibly a different one per query. The model's choice is to keep primary-key order among them.
- InterviewService.InterviewApplicationService.ListApplications: because the tie order above is fixed, the model's pages always tile (`Gorm.WindowsTile`). In the program, a row tied at a page boundary can appear on two pages or on none.
- InterviewService.InterviewApplicationService.ListApplications: the handler clamps page and size first, so the service requires them to be 64-bit values. Wrap-around of the offset is modelled by `Response.GetOffset`.
- `DeleteApplication` and the handlers not named above in `application_handler.go` (get, delete, stats), and `UpdateProfile`, `ChangePassword` and `RefreshToken` in `auth_handler.go`, are modelled only through the service calls they wrap.
- UI files without rules (`Home.tsx`, `Dashboard.tsx`, `Register.tsx`, `Login.tsx`, `MainLayout.tsx`, `main.tsx`, `App.tsx`), `api/auth.ts` and the type files: no logic to prove. Their shapes are borrowed as datatypes.
- Router.Route: React Router's case-insensitive matching folds only ASCII letters here; other Unicode case pairs, percent-encoding and repeated inner slashes are not modelled.
- Antd rendering, React hooks and the Redux toolkit internals: only the reducer and setter effects are modelled.
- AdminDashboard.Dashboard.HandleUpdateStatus: `fetchApplicants()` is not awaited in the source. The model runs the re-fetch right after the handler, so it does not capture interleavings with other events.
- The frontend's applicant timestamps are JSON strings. The dashboard model reuses the in-memory server's `Applicant` record.
- AdminDashboard.Dashboard.HandleUpdateStatus: the PUT body goes to `/applicants/:id/status` as the form values. The model records the request rather than executing it against the server.

Behaviours of the code worth knowing; the model follows the code:

- `logoutAsync` clears storage and state only after the backend call succeeds. After a failed call the slice's state is as it was; a 401 still makes the interceptor remove the stored token and load "/login", which rebuilds the state logged out.
- After a rejected login or profile fetch that was not a 401, `isAuthenticated` is false while a token is still stored. The two are not kept equal.
- A wrong password at login is answered 401, so the interceptor shows "登录已过期，请重新登录" and reloads "/login".
- The initial `isAuthenticated` is false for a stored empty string.
- In `main.go`, `verifyToken` is never called by any route, so `/applicants` needs no token.
- In `main.go`, a failed resend deletes the e-mail's code, including an earlier one that was still valid.
- In `application_handler.go`, `UpdateApplication` on a missing row answers 400 with the service's message, not 404.
- The `"用户信息不完整"` branch of `AdminMiddleware` is unreachable, because authentication always sets the role.
- The `"令牌已过期"` branch of `AuthMiddleware` and the expiry test of `OptionalAuthMiddleware` are unreachable under one clock reading, because the parse already refuses expired tokens.
- `ValidatePhone` (the `numeric` rule) accepts a leading sign or a decimal point within the 11 characters (`Validator.SignedPhoneAccepted`).
- The dashboard's `getStatusTag` has no case for "interviewed", which the backend uses, so it shows as pending.

## Findings

| source | as written | input that shows it | evidently intended | confidence | as-written member | corrected member |
|---|---|---|---|---|---|---|
| internal/middleware/auth.go:107-131 | `AdminMiddleware` calls `AuthMiddleware()(c)`, which ends with `c.Next()`, so the protected handler runs before the role is checked | a valid, unexpired token whose role is "student" | the role check guards the handler: a non-admin never reaches it | high, not executed; latent, since every `AdminMiddleware()` use in cmd/main/main.go (lines 136, 155, 169-170) is commented out | AuthMiddleware.AdminMiddlewareAsWritten, AuthMiddleware.AdminAsWrittenServesStudent | AuthMiddleware.AdminMiddleware, AuthMiddleware.AdminGuards |
| internal/middleware/auth.go:82-95 | `ParseToken` uses `jwt.ParseWithClaims` with its default validation, which already fails for an expired token; the middleware then answers every parse error with "无效的认证令牌", so its "令牌已过期" branch is dead (short of a token expiring between the parse's clock read and the branch's) | a correctly signed token presented at or after its `exp` | an expired token gets 401 "令牌已过期", e.g. by testing the parse error with `errors.Is(err, jwt.ErrTokenExpired)` | high, not executed | AuthMiddleware.Authenticate, AuthMiddleware.ExpiredTokenGetsInvalidToken | AuthMiddleware.AuthenticateIntended, AuthMiddleware.IntendedDiffersOnlyInExpiryMessage |
| pkg/validator/validator.go:189-192 | `ValidatePassword` checks `required,min=6,alphanum`, which does not require both kinds of character | "123456" or "abcdef" | the comment's rule: at least six characters containing letters and digits | medium, not executed; latent, since nothing calls `ValidatePassword` | Validator.ValidatePassword, Validator.DigitsOnlyPasswordAccepted | Validator.ValidatePasswordIntended, Validator.PasswordIntendedRule |
| frontend/src/store/slices/authSlice.ts:23-46 | `getProfileAsync` and `updateProfileAsync` return `response.data`, the whole `ApiResponse` envelope, and the reducer stores it as `user` | a 200 reply `{code: 200, message: "success", data: {id: 1, username: "alice", ...}}` | the stored user is `response.data.data`, as `loginAsync` reads `res.data.user` | high, not executed | AuthSlice.ProfileOutcomeAsWritten, AuthSlice.ProfileAsWrittenExample | AuthSlice.ProfileOutcome, AuthSlice.AuthStore.GetProfile |
