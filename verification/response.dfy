/**
 * The unified JSON envelope of the GORM-based backend (pkg/response):
 * success and error helpers, the prefixed error kinds, and the
 * `page`/`size` query normalisation.
 */
module Response {
  import opened Wrappers
  import opened Strs

  const StatusOK := 200
  const StatusBadRequest := 400
  const StatusUnauthorized := 401
  const StatusForbidden := 403
  const StatusNotFound := 404
  const StatusConflict := 409
  const StatusInternalServerError := 500

  /**
   * The `Response` body. `data`, `total`, `page` and `size` are tagged
   * `omitempty`: `None` and zero are left out of the JSON.
   */
  datatype Body<T> = Body(code: int, message: string, data: Option<T>, total: int, page: int, size: int)

  /** An HTTP status together with the body written with it. */
  datatype Reply<T> = Reply(status: int, body: Body<T>)

  /** The body's `code` repeats the HTTP status. */
  predicate CodeMatchesStatus<T>(r: Reply<T>) {
    r.body.code == r.status
  }

  /** An error reply: no data, no paging fields. */
  predicate IsErrorReply<T>(r: Reply<T>, status: int, message: string) {
    CodeMatchesStatus(r) && r.status == status && r.body.message == message
    && r.body.data == None && r.body.total == 0 && r.body.page == 0 && r.body.size == 0
  }

  function Success<T>(data: T): (r: Reply<T>)
    ensures r.status == StatusOK && CodeMatchesStatus(r)
    ensures r.body.message == "success" && r.body.data == Some(data)
  {
    Reply(StatusOK, Body(200, "success", Some(data), 0, 0, 0))
  }

  function SuccessWithMessage<T>(message: string, data: T): (r: Reply<T>)
    ensures r.status == StatusOK && CodeMatchesStatus(r)
    ensures r.body.message == message && r.body.data == Some(data)
  {
    Reply(StatusOK, Body(200, message, Some(data), 0, 0, 0))
  }

  function SuccessWithPagination<T>(data: T, total: int, page: int, size: int): (r: Reply<T>)
    ensures r.status == StatusOK && CodeMatchesStatus(r) && r.body.message == "success"
    ensures r.body.data == Some(data) && r.body.total == total && r.body.page == page && r.body.size == size
  {
    Reply(StatusOK, Body(200, "success", Some(data), total, page, size))
  }

  /** `Error`: whatever the status, the body's code equals it (see `ErrorReplies`). */
  function Error<T>(status: int, message: string): Reply<T>
  {
    Reply(status, Body(status, message, None, 0, 0, 0))
  }

  function BadRequest<T>(message: string): Reply<T>
  {
    Error(StatusBadRequest, message)
  }

  function Unauthorized<T>(message: string): Reply<T>
  {
    Error(StatusUnauthorized, message)
  }

  function Forbidden<T>(message: string): Reply<T>
  {
    Error(StatusForbidden, message)
  }

  function NotFound<T>(message: string): Reply<T>
  {
    Error(StatusNotFound, message)
  }

  function Conflict<T>(message: string): Reply<T>
  {
    Error(StatusConflict, message)
  }

  function InternalServerError<T>(message: string): Reply<T>
  {
    Error(StatusInternalServerError, message)
  }

  const ValidationPrefix := "验证失败: "
  const DatabasePrefix := "数据库操作失败: "
  const FileUploadPrefix := "文件上传失败: "

  function ValidationError<T>(message: string): Reply<T>
  {
    Error(StatusBadRequest, ValidationPrefix + message)
  }

  function DatabaseError<T>(message: string): Reply<T>
  {
    Error(StatusInternalServerError, DatabasePrefix + message)
  }

  function FileUploadError<T>(message: string): Reply<T>
  {
    Error(StatusBadRequest, FileUploadPrefix + message)
  }

  /** Every error helper writes an error reply: its status, the body's code equal to it, and the message as given. */
  lemma ErrorReplies<T>(status: int, message: string, r: Reply<T>)
    ensures r == Error(status, message) ==> IsErrorReply(r, status, message)
    ensures r == BadRequest(message) ==> IsErrorReply(r, 400, message)
    ensures r == Unauthorized(message) ==> IsErrorReply(r, 401, message)
    ensures r == Forbidden(message) ==> IsErrorReply(r, 403, message)
    ensures r == NotFound(message) ==> IsErrorReply(r, 404, message)
    ensures r == Conflict(message) ==> IsErrorReply(r, 409, message)
    ensures r == InternalServerError(message) ==> IsErrorReply(r, 500, message)
  {
  }

  /** The prefixed helpers: the kind's status and the prefix before the given text. */
  lemma PrefixedErrorReplies<T>(message: string, r: Reply<T>)
    ensures r == ValidationError(message) ==> IsErrorReply(r, 400, ValidationPrefix + message)
    ensures r == DatabaseError(message) ==> IsErrorReply(r, 500, DatabasePrefix + message)
    ensures r == FileUploadError(message) ==> IsErrorReply(r, 400, FileUploadPrefix + message)
  {
  }

  /** The three prefixes are distinct, so the error kind can be read off the message. */
  lemma PrefixedKindsDistinguishable(m1: string, m2: string)
    ensures ValidationError<()>(m1).body.message != DatabaseError<()>(m2).body.message
    ensures ValidationError<()>(m1).body.message != FileUploadError<()>(m2).body.message
    ensures DatabaseError<()>(m1).body.message != FileUploadError<()>(m2).body.message
  {
    assert (ValidationPrefix + m1)[0] != (DatabasePrefix + m2)[0];
    assert (ValidationPrefix + m1)[0] != (FileUploadPrefix + m2)[0];
    assert (DatabasePrefix + m1)[0] != (FileUploadPrefix + m2)[0];
  }

  /** The original message comes back once the prefix is trimmed. */
  lemma ValidationMessageRecoverable(m: string)
    ensures TrimPrefix(ValidationError<()>(m).body.message, ValidationPrefix) == m
  {
    assert ValidationPrefix <= ValidationPrefix + m;
  }

  // ---------------------------------------------------------------- paging

  datatype Paging = Paging(page: int, size: int)

  /**
   * `GetPaginationParams`: `c.DefaultQuery` gives "1" / "10" only for an
   * absent key (`None`); `Atoi` errors are ignored, so the bound value is
   * 0 for a malformed string and the clamped extreme for an out-of-range one.
   */
  function GetPaginationParams(pageQuery: Option<string>, sizeQuery: Option<string>): (r: Paging)
    ensures r.page >= 1 && 1 <= r.size <= 100
    ensures Atoi(pageQuery.GetOr("1")).value >= 1 ==> r.page == Atoi(pageQuery.GetOr("1")).value
    ensures Atoi(pageQuery.GetOr("1")).value < 1 ==> r.page == 1
    ensures Atoi(sizeQuery.GetOr("10")).value < 1 ==> r.size == 10
    ensures Atoi(sizeQuery.GetOr("10")).value > 100 ==> r.size == 100
    ensures 1 <= Atoi(sizeQuery.GetOr("10")).value <= 100 ==> r.size == Atoi(sizeQuery.GetOr("10")).value
  {
    var page := Atoi(pageQuery.GetOr("1")).value;
    var size := Atoi(sizeQuery.GetOr("10")).value;
    var page := if page < 1 then 1 else page;
    var size := if size < 1 then 10 else size;
    var size := if size > 100 then 100 else size;
    Paging(page, size)
  }

  /** No query parameters: first page of ten. */
  lemma PaginationDefaults()
    ensures GetPaginationParams(None, None) == Paging(1, 10)
  {
    AtoiRoundTrip(1);
    AtoiRoundTrip(10);
  }

  /** In-range values written in decimal come back unchanged. */
  lemma PaginationKeepsValidValues(page: int, size: int)
    requires 1 <= page <= MaxInt64 && 1 <= size <= 100
    ensures GetPaginationParams(Some(IntToDecimal(page)), Some(IntToDecimal(size))) == Paging(page, size)
  {
    AtoiRoundTrip(page);
    AtoiRoundTrip(size);
  }

  /** A non-numeric parameter falls back to the defaults rather than failing. */
  lemma PaginationMalformedFallsBack(pageQuery: string, sizeQuery: string)
    requires Atoi(pageQuery).err == Some(ErrSyntax) && Atoi(sizeQuery).err == Some(ErrSyntax)
    ensures GetPaginationParams(Some(pageQuery), Some(sizeQuery)) == Paging(1, 10)
  {
  }

  const TwoTo64: int := 0x1_0000_0000_0000_0000

  /** Two's-complement wrap of an integer into Go's 64-bit `int`. */
  function WrapInt64(x: int): (r: int)
    ensures MinInt64 <= r <= MaxInt64
    ensures MinInt64 <= x <= MaxInt64 ==> r == x
    ensures (r - x) % TwoTo64 == 0
  {
    (x - MinInt64) % TwoTo64 + MinInt64
  }

  /** `GetOffset`: `(page - 1) * size` in 64-bit arithmetic. */
  function GetOffset(page: int, size: int): (r: int)
    requires MinInt64 <= page <= MaxInt64 && MinInt64 <= size <= MaxInt64
    ensures 1 <= page && 0 <= size && (page - 1) * size <= MaxInt64 ==> r == (page - 1) * size && r >= 0
  {
    WrapInt64(WrapInt64(page - 1) * size)
  }

  /** The largest page number the query accepts makes the offset wrap negative. */
  lemma OffsetOverflowExample()
    ensures GetOffset(MaxInt64, 100) < 0
  {
  }
}
