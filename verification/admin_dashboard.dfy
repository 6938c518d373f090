/**
 * The admin dashboard (frontend/src/pages/AdminDashboard.tsx): the list of
 * applicants fetched from the in-memory server, the status tag and the
 * statistics cards drawn from it, and the handlers that update a status,
 * delete an applicant or add one and then re-fetch. The page's React state
 * is a class; every fetch outcome is an input, and each handler records the
 * request it sends.
 */
module AdminDashboard {
  import opened Wrappers
  import MemServer
  import InterviewPage

  type Applicant = MemServer.Applicant

  const FetchFailed := "获取数据失败"
  const NetworkText := "网络错误，请稍后重试"
  const StatusSaved := "状态更新成功"
  const StatusFailed := "更新失败"
  const DeleteDone := "删除成功"
  const DeleteFailed := "删除失败"
  const AddDone := "添加成功"
  const AddFailed := "添加失败"

  /** The verification code the add form always sends. */
  const PlaceholderCode := "admin"

  /** The parsed JSON reply: `code`, `message` and `data`, each possibly absent. */
  datatype Reply<T> = Reply(code: int, message: Option<string>, data: Option<T>)

  // ------------------------------------------------------------ status tag

  /** A tag's colour and text; `BlankTag` is the tag drawn from an entry that has neither. */
  datatype Tag = Tag(color: string, text: string) | BlankTag

  const PendingTag := Tag("orange", "待面试")

  const TaggedStatuses: set<string> := {"pending", "first_pass", "second_pass", "passed", "rejected"}

  /**
   * The keys a plain object literal inherits from `Object.prototype`: the
   * lookup finds a truthy function (or the prototype itself), so the
   * fallback is not taken and the tag has no colour and no text.
   */
  const InheritedKeys: set<string> := {
    "constructor", "hasOwnProperty", "isPrototypeOf", "propertyIsEnumerable", "toLocaleString",
    "toString", "valueOf", "__proto__", "__defineGetter__", "__defineSetter__",
    "__lookupGetter__", "__lookupSetter__"}

  /** `getStatusTag`: the `statusMap` entry, the pending entry when the lookup is falsy. */
  function StatusTag(status: string): (t: Tag)
    ensures status in InheritedKeys ==> t == BlankTag
    ensures status !in TaggedStatuses && status !in InheritedKeys ==> t == PendingTag
    ensures t == PendingTag <==> status == "pending" || (status !in TaggedStatuses && status !in InheritedKeys)
  {
    match status
    case "pending" => PendingTag
    case "first_pass" => Tag("blue", "一面通过")
    case "second_pass" => Tag("purple", "二面通过")
    case "passed" => Tag("green", "通过")
    case "rejected" => Tag("red", "未通过")
    case _ => if status in InheritedKeys then BlankTag else PendingTag
  }

  /**
   * The tags tell the five known statuses apart; "interviewed", a status
   * the database-backed service accepts, is drawn as pending.
   */
  lemma StatusTagsDistinct(a: string, b: string)
    requires a in TaggedStatuses && b in TaggedStatuses && a != b
    ensures StatusTag(a) != StatusTag(b)
    ensures StatusTag("interviewed") == PendingTag
    ensures StatusTag("constructor") == BlankTag
  {
  }

  // ------------------------------------------------------------ statistics

  /** `applicants.filter(a => a.status === status).length`. */
  function CountStatus(list: seq<Applicant>, status: string): (n: nat)
    ensures n <= |list|
  {
    if list == [] then 0
    else CountStatus(list[..|list| - 1], status) + (if list[|list| - 1].status == status then 1 else 0)
  }

  datatype Stats = Stats(total: nat, pending: nat, passed: nat, rejected: nat)

  /** `getStats`. */
  function GetStats(list: seq<Applicant>): (s: Stats)
    ensures s.total == |list|
    ensures s.pending == CountStatus(list, "pending") && s.passed == CountStatus(list, "passed")
    ensures s.rejected == CountStatus(list, "rejected")
  {
    Stats(|list|, CountStatus(list, "pending"), CountStatus(list, "passed"), CountStatus(list, "rejected"))
  }

  /** Each applicant is counted at most once, so the three cards never add up to more than the total. */
  lemma {:induction false} StatsBounded(list: seq<Applicant>)
    ensures var s := GetStats(list); s.pending + s.passed + s.rejected <= s.total
    ensures var s := GetStats(list);
      s.pending + s.passed + s.rejected == s.total <==>
        forall i :: 0 <= i < |list| ==> list[i].status in {"pending", "passed", "rejected"}
    decreases |list|
  {
    if list != [] {
      var init := list[..|list| - 1];
      StatsBounded(init);
      assert forall i :: 0 <= i < |init| ==> init[i] == list[i];
    }
  }

  // ------------------------------------------------------------ forms

  /** The edit form's fields. */
  datatype EditValues = EditValues(status: string, firstRemark: string, secondRemark: string, thirdRemark: string)

  /** `showEditModal`'s prefill: exactly the status and the three remarks of the chosen applicant. */
  function Prefill(a: Applicant): (v: EditValues)
    ensures v.status == a.status && v.firstRemark == a.firstRemark
    ensures v.secondRemark == a.secondRemark && v.thirdRemark == a.thirdRemark
  {
    EditValues(a.status, a.firstRemark, a.secondRemark, a.thirdRemark)
  }

  /** Saving the prefilled form unchanged asks the server to keep every reviewed field as it is. */
  lemma PrefillRoundTrip(a: Applicant, now: MemServer.Time)
    requires a.status != ""
    ensures var v := Prefill(a);
      MemServer.WithStatus(a, MemServer.StatusUpdateRequest(v.status, v.firstRemark, v.secondRemark, v.thirdRemark), now)
        == a.(updatedAt := now)
  {
  }

  /** The add form's fields. */
  datatype AddValues = AddValues(
    name: string, email: string, phone: string, studentId: string, major: string, grade: string,
    date: InterviewPage.Date, time: InterviewPage.Clock)

  /** The body `handleAddApplicant` posts to `/apply`: the form, the combined time and the placeholder code. */
  function AddRequest(v: AddValues): (r: MemServer.ApplicationRequest)
    requires InterviewPage.ValidDate(v.date) && InterviewPage.ValidClock(v.time)
    ensures r.verificationCode == PlaceholderCode
    ensures r.name == v.name && r.email == v.email && r.phone == v.phone && r.studentId == v.studentId
    ensures r.major == v.major && r.grade == v.grade
    ensures r.interviewTime == InterviewPage.InterviewDateTime(v.date, v.time)
  {
    MemServer.ApplicationRequest(v.name, v.email, v.phone, v.studentId, v.major, v.grade,
                                 InterviewPage.InterviewDateTime(v.date, v.time), PlaceholderCode)
  }

  /**
   * The in-memory server only stores six-digit codes (`Server.Valid`), so
   * the placeholder never passes its check: adding an applicant from the
   * dashboard is refused on every server state.
   */
  lemma AddIsAlwaysRefused(v: AddValues, server: MemServer.Server, now: MemServer.Time)
    requires InterviewPage.ValidDate(v.date) && InterviewPage.ValidClock(v.time)
    requires server.Valid()
    ensures !MemServer.CodeAccepted(server.verificationCodes, AddRequest(v).email, AddRequest(v).verificationCode, now)
  {
    MemServer.ServerRefusesPlaceholderCode(server, v.email, now);
  }

  // ------------------------------------------------------------ the page

  /** The requests the page sends, in order. */
  datatype Request = GetList | PutStatus(id: int, body: EditValues) | DeleteOne(id: int) | PostApply(application: MemServer.ApplicationRequest)

  /** `data.message || fallback`. */
  function MessageOr(message: Option<string>, fallback: string): (t: string)
    ensures message.Some? && message.value != "" ==> t == message.value
    ensures !(message.Some? && message.value != "") ==> t == fallback
  {
    if message.Some? && message.value != "" then message.value else fallback
  }

  class Dashboard {
    var applicants: seq<Applicant>
    var loading: bool
    var modalVisible: bool
    var selected: Option<Applicant>
    /** The edit form's values; `None` after `resetFields`. */
    var editForm: Option<EditValues>
    var addModalVisible: bool
    var addFormFilled: bool
    var addLoading: bool
    var notices: seq<string>
    var requests: seq<Request>

    constructor ()
      ensures applicants == [] && !loading && !modalVisible && selected == None && editForm == None
      ensures !addModalVisible && !addFormFilled && !addLoading && notices == [] && requests == []
    {
      applicants := [];
      loading := false;
      modalVisible := false;
      selected := None;
      editForm := None;
      addModalVisible := false;
      addFormFilled := false;
      addLoading := false;
      notices := [];
      requests := [];
    }

    /**
     * `fetchApplicants`: a 200 replaces the list with `data.data`, or the
     * empty list when it is absent; anything else keeps the list and shows
     * a notice. `reply` is `None` when the fetch throws.
     */
    method FetchApplicants(reply: Option<Reply<seq<Applicant>>>)
      modifies this
      ensures !loading && requests == old(requests) + [GetList]
      ensures reply.Some? && reply.value.code == 200 ==>
        applicants == reply.value.data.GetOr([]) && notices == old(notices)
      ensures !(reply.Some? && reply.value.code == 200) ==>
        applicants == old(applicants)
        && notices == old(notices) + [if reply.None? then NetworkText else MessageOr(reply.value.message, FetchFailed)]
      ensures modalVisible == old(modalVisible) && selected == old(selected) && editForm == old(editForm)
      ensures addModalVisible == old(addModalVisible) && addFormFilled == old(addFormFilled) && addLoading == old(addLoading)
    {
      loading := true;
      requests := requests + [GetList];
      if reply.None? {
        notices := notices + [NetworkText];
      } else if reply.value.code == 200 {
        applicants := reply.value.data.GetOr([]);
      } else {
        notices := notices + [MessageOr(reply.value.message, FetchFailed)];
      }
      loading := false;
    }

    /** `showEditModal`: select the applicant, prefill the edit form, open the modal. */
    method ShowEditModal(a: Applicant)
      modifies this
      ensures selected == Some(a) && editForm == Some(Prefill(a)) && modalVisible
      ensures applicants == old(applicants) && loading == old(loading) && notices == old(notices) && requests == old(requests)
      ensures addModalVisible == old(addModalVisible) && addFormFilled == old(addFormFilled) && addLoading == old(addLoading)
    {
      selected := Some(a);
      editForm := Some(Prefill(a));
      modalVisible := true;
    }

    /**
     * `handleUpdateStatus`: with no applicant selected nothing happens;
     * otherwise the values go to `/applicants/<id>/status`, and only a 200
     * closes the modal, resets the form and re-fetches the list.
     */
    method HandleUpdateStatus(values: EditValues, reply: Option<Reply<()>>, refetch: Option<Reply<seq<Applicant>>>)
      modifies this
      ensures old(selected).None? ==>
        applicants == old(applicants) && notices == old(notices) && requests == old(requests)
        && modalVisible == old(modalVisible) && editForm == old(editForm) && loading == old(loading)
      ensures old(selected).Some? && reply.Some? && reply.value.code == 200 ==>
        !modalVisible && editForm == None
        && |requests| == |old(requests)| + 2 && requests[|old(requests)|] == PutStatus(old(selected).value.id, values)
        && |notices| >= |old(notices)| + 1 && notices[..|old(notices)| + 1] == old(notices) + [StatusSaved]
        && requests[|old(requests)| + 1] == GetList
        && (refetch.Some? && refetch.value.code == 200 ==> applicants == refetch.value.data.GetOr([]))
      ensures old(selected).Some? && !(reply.Some? && reply.value.code == 200) ==>
        applicants == old(applicants) && modalVisible == old(modalVisible) && editForm == old(editForm)
        && requests == old(requests) + [PutStatus(old(selected).value.id, values)]
        && notices == old(notices) + [if reply.None? then NetworkText else MessageOr(reply.value.message, StatusFailed)]
      ensures selected == old(selected) && addModalVisible == old(addModalVisible)
    {
      if selected.None? {
        return;
      }
      requests := requests + [PutStatus(selected.value.id, values)];
      if reply.None? {
        notices := notices + [NetworkText];
      } else if reply.value.code == 200 {
        notices := notices + [StatusSaved];
        modalVisible := false;
        editForm := None;
        FetchApplicants(refetch);
      } else {
        notices := notices + [MessageOr(reply.value.message, StatusFailed)];
      }
    }

    /** `handleDelete`: only a 200 re-fetches; a failure keeps the list. */
    method HandleDelete(id: int, reply: Option<Reply<()>>, refetch: Option<Reply<seq<Applicant>>>)
      modifies this
      ensures reply.Some? && reply.value.code == 200 ==>
        |requests| == |old(requests)| + 2 && requests[|old(requests)|] == DeleteOne(id)
        && |notices| >= |old(notices)| + 1 && notices[..|old(notices)| + 1] == old(notices) + [DeleteDone]
        && requests[|old(requests)| + 1] == GetList
        && (refetch.Some? && refetch.value.code == 200 ==> applicants == refetch.value.data.GetOr([]))
      ensures !(reply.Some? && reply.value.code == 200) ==>
        applicants == old(applicants) && requests == old(requests) + [DeleteOne(id)]
        && notices == old(notices) + [if reply.None? then NetworkText else MessageOr(reply.value.message, DeleteFailed)]
      ensures selected == old(selected) && modalVisible == old(modalVisible) && editForm == old(editForm)
    {
      requests := requests + [DeleteOne(id)];
      if reply.None? {
        notices := notices + [NetworkText];
      } else if reply.value.code == 200 {
        notices := notices + [DeleteDone];
        FetchApplicants(refetch);
      } else {
        notices := notices + [MessageOr(reply.value.message, DeleteFailed)];
      }
    }

    /** The success branch of `handleAddApplicant`: notice, close and clear the modal, re-fetch. */
    method AddSucceeded(refetch: Option<Reply<seq<Applicant>>>)
      modifies this
      ensures !addModalVisible && !addFormFilled && addLoading == old(addLoading)
      ensures requests == old(requests) + [GetList]
      ensures |notices| >= |old(notices)| + 1 && notices[..|old(notices)| + 1] == old(notices) + [AddDone]
      ensures refetch.Some? && refetch.value.code == 200 ==> applicants == refetch.value.data.GetOr([])
      ensures selected == old(selected) && modalVisible == old(modalVisible) && editForm == old(editForm)
    {
      notices := notices + [AddDone];
      addModalVisible := false;
      addFormFilled := false;
      ghost var shown := notices;
      FetchApplicants(refetch);
      assert notices[..|shown|] == shown;
    }

    /**
     * `handleAddApplicant`, run by the form's `onFinish`: post the add
     * request; only a 200 closes the modal, clears the form and re-fetches.
     * The submit button's own `onClick` never calls it, because what
     * `validateFields()` yields (the values, or the error info) is neither
     * falsy nor an array, so `onFinish` is the only path that submits.
     */
    method HandleAddApplicant(values: AddValues, reply: Option<Reply<()>>, refetch: Option<Reply<seq<Applicant>>>)
      requires InterviewPage.ValidDate(values.date) && InterviewPage.ValidClock(values.time)
      modifies this
      ensures !addLoading
      ensures reply.Some? && reply.value.code == 200 ==>
        !addModalVisible && !addFormFilled
        && |requests| == |old(requests)| + 2 && requests[|old(requests)|] == PostApply(AddRequest(values))
        && |notices| >= |old(notices)| + 1 && notices[..|old(notices)| + 1] == old(notices) + [AddDone]
        && requests[|old(requests)| + 1] == GetList
        && (refetch.Some? && refetch.value.code == 200 ==> applicants == refetch.value.data.GetOr([]))
      ensures !(reply.Some? && reply.value.code == 200) ==>
        applicants == old(applicants) && addModalVisible == old(addModalVisible) && addFormFilled == old(addFormFilled)
        && requests == old(requests) + [PostApply(AddRequest(values))]
        && notices == old(notices) + [if reply.None? then NetworkText else MessageOr(reply.value.message, AddFailed)]
      ensures selected == old(selected) && modalVisible == old(modalVisible) && editForm == old(editForm)
    {
      addLoading := true;
      requests := requests + [PostApply(AddRequest(values))];
      if reply.None? {
        notices := notices + [NetworkText];
      } else if reply.value.code == 200 {
        AddSucceeded(refetch);
      } else {
        notices := notices + [MessageOr(reply.value.message, AddFailed)];
      }
      addLoading := false;
    }
  }
}
