/** The report form of app/modals/report-post.tsx: toggling reasons,
    assembling and validating the submitted reasons, and resetting. */
module ReportPost {
  import opened Wrappers
  import opened Text
  import PS = PostService

  /** The reasons the form offers as check boxes. */
  const ReportOptions: seq<string> := [
    "Spam",
    "Nội dung không phù hợp",
    "Bạo lực",
    "Quấy rối",
    "Thông tin sai lệch",
    "Bản quyền",
    "Nội dung người lớn"
  ]

  /** The separator of the reason payload. */
  const ReasonSeparator: string := ", "

  datatype ReportForm = ReportForm(selectedReasons: seq<string>, otherReason: string, isLoading: bool)

  const EmptyReport: ReportForm := ReportForm([], "", false)

  /** `prev.filter(r => r !== reason)`. */
  function WithoutReason(reasons: seq<string>, reason: string): (r: seq<string>)
    ensures forall x :: x in r <==> x in reasons && x != reason
    ensures reason !in reasons ==> r == reasons
    decreases |reasons|
  {
    if |reasons| == 0 then []
    else (if reasons[0] == reason then [] else [reasons[0]]) + WithoutReason(reasons[1..], reason)
  }

  /** The filter keeps order: filtering a concatenation filters each part in
      turn, so the remaining reasons stay in selection order. */
  lemma {:induction false} WithoutReasonDistributes(a: seq<string>, b: seq<string>, reason: string)
    ensures WithoutReason(a + b, reason) == WithoutReason(a, reason) + WithoutReason(b, reason)
    decreases |a|
  {
    if |a| == 0 {
      assert a + b == b;
    } else {
      assert (a + b)[1..] == a[1..] + b;
      WithoutReasonDistributes(a[1..], b, reason);
    }
  }

  /** On one reason the filter drops it exactly when it is the toggled one. */
  lemma WithoutReasonSingle(x: string, reason: string)
    ensures WithoutReason([x], reason) == (if x == reason then [] else [x])
  {
    assert [x][1..] == [];
  }

  /** `handleReasonToggle(reason)`: remove the reason if selected, else append it. */
  function ReasonToggle(st: ReportForm, reason: string): (s: ReportForm)
    ensures reason in st.selectedReasons ==>
              s.selectedReasons == WithoutReason(st.selectedReasons, reason) && reason !in s.selectedReasons
    ensures reason !in st.selectedReasons ==> s.selectedReasons == st.selectedReasons + [reason]
    ensures s.otherReason == st.otherReason && s.isLoading == st.isLoading
  {
    if reason in st.selectedReasons then st.(selectedReasons := WithoutReason(st.selectedReasons, reason))
    else st.(selectedReasons := st.selectedReasons + [reason])
  }

  /** No reason is selected twice. */
  predicate Distinct(reasons: seq<string>) {
    forall a, b :: 0 <= a < b < |reasons| ==> reasons[a] != reasons[b]
  }

  lemma {:induction false} WithoutReasonKeepsDistinct(reasons: seq<string>, reason: string)
    requires Distinct(reasons)
    ensures Distinct(WithoutReason(reasons, reason))
    decreases |reasons|
  {
    if |reasons| > 0 {
      WithoutReasonKeepsDistinct(reasons[1..], reason);
      assert reasons[0] !in reasons[1..] by {
        forall k | 0 <= k < |reasons[1..]| ensures reasons[1..][k] != reasons[0] {
          assert reasons[1..][k] == reasons[k + 1];
        }
      }
    }
  }

  /** Toggling keeps the selection free of repeats, and within the offered
      options when it started there and the toggled reason is one of them. */
  lemma ToggleKeepsSelectionWellFormed(st: ReportForm, reason: string)
    requires Distinct(st.selectedReasons)
    ensures Distinct(ReasonToggle(st, reason).selectedReasons)
    ensures (forall x :: x in st.selectedReasons ==> x in ReportOptions) && reason in ReportOptions ==>
              forall x :: x in ReasonToggle(st, reason).selectedReasons ==> x in ReportOptions
  {
    if reason in st.selectedReasons {
      WithoutReasonKeepsDistinct(st.selectedReasons, reason);
    }
  }

  /** Selecting a reason and toggling it again restores the form. */
  lemma ToggleTwiceRestores(st: ReportForm, reason: string)
    requires reason !in st.selectedReasons
    ensures ReasonToggle(ReasonToggle(st, reason), reason) == st
  {
    WithoutReasonSnoc(st.selectedReasons, reason);
  }

  lemma {:induction false} WithoutReasonSnoc(reasons: seq<string>, reason: string)
    requires reason !in reasons
    ensures WithoutReason(reasons + [reason], reason) == reasons
    decreases |reasons|
  {
    if |reasons| == 0 {
      assert WithoutReason([reason], reason) == [] + WithoutReason([], reason);
    } else {
      assert (reasons + [reason])[1..] == reasons[1..] + [reason];
      WithoutReasonSnoc(reasons[1..], reason);
    }
  }

  /** The reasons `handleSubmit` sends: the selected ones in selection order,
      then the trimmed other reason when it is not blank. */
  function AssembledReasons(st: ReportForm): (reasons: seq<string>)
    ensures IsBlank(st.otherReason) ==> reasons == st.selectedReasons
    ensures !IsBlank(st.otherReason) ==> reasons == st.selectedReasons + [Trim(st.otherReason)]
    ensures |reasons| == 0 <==> |st.selectedReasons| == 0 && IsBlank(st.otherReason)
  {
    if IsBlank(st.otherReason) then st.selectedReasons else st.selectedReasons + [Trim(st.otherReason)]
  }

  /** The report payload: the reasons joined with ", ", or None when
      `handleSubmit` refuses for want of a reason. */
  function ReportPayload(st: ReportForm): (payload: Option<string>)
    ensures payload.None? <==> |AssembledReasons(st)| == 0
    ensures payload.Some? ==> payload.value == Join(AssembledReasons(st), ReasonSeparator)
  {
    var reasons := AssembledReasons(st);
    if |reasons| == 0 then None else Some(Join(reasons, ReasonSeparator))
  }

  /** With both kinds of reason, the payload lists the selected reasons and
      ends with ", " and the trimmed other reason. */
  lemma PayloadEndsWithOtherReason(st: ReportForm)
    requires |st.selectedReasons| > 0 && !IsBlank(st.otherReason)
    ensures ReportPayload(st) == Some(Join(st.selectedReasons, ReasonSeparator) + ", " + Trim(st.otherReason))
  {
    JoinSnoc(st.selectedReasons, Trim(st.otherReason), ReasonSeparator);
  }

  /** How a submit ended. */
  datatype SubmitOutcome = NoReason | Reported | SendFailed

  /** `handleSubmit()` once settled; `reply` is the report request's outcome. */
  function HandleSubmit(st: ReportForm, reply: Result<(), string>): (r: (ReportForm, SubmitOutcome))
    ensures ReportPayload(st).None? ==> r == (st, NoReason)
    ensures ReportPayload(st).Some? && reply.Success? ==> r == (EmptyReport, Reported)
    ensures ReportPayload(st).Some? && reply.Failure? ==> r == (st.(isLoading := false), SendFailed)
  {
    if ReportPayload(st).None? then (st, NoReason)
    else
      var sending := st.(isLoading := true);
      match reply
      case Success(_) => (sending.(selectedReasons := [], otherReason := "", isLoading := false), Reported)
      case Failure(_) => (sending.(isLoading := false), SendFailed)
  }

  /** `handleSubmit()` as written: it calls `PostService.reportPost`, which
      the service does not define, so the call throws before any request and
      the form is never cleared, whatever the server would have answered. */
  function HandleSubmitAsWritten(st: ReportForm, reply: Result<(), string>): (r: (ReportForm, SubmitOutcome))
    ensures r.1 != Reported
    ensures r.0.selectedReasons == st.selectedReasons && r.0.otherReason == st.otherReason
    ensures ReportPayload(st).Some? ==> r == (st.(isLoading := false), SendFailed)
  {
    PS.UndefinedMethodsThrow(reply);
    HandleSubmit(st, PS.Call("reportPost", reply))
  }

  /** The discrepancy: a form with a selected reason, which a successful
      report would clear, stays filled and reports failure. */
  lemma AsWrittenSubmitNeverClears(st: ReportForm, reply: Result<(), string>)
    requires |st.selectedReasons| > 0
    ensures HandleSubmitAsWritten(st, reply).1 == SendFailed
    ensures HandleSubmitAsWritten(st, reply).0.selectedReasons == st.selectedReasons
    ensures HandleSubmit(st, Success(())).0 == EmptyReport
  {
  }

  /** `handleClose()`: the form is cleared. */
  function HandleClose(st: ReportForm): (s: ReportForm)
    ensures s.selectedReasons == [] && s.otherReason == "" && s.isLoading == st.isLoading
    ensures ReportPayload(s).None?
  {
    assert AllWhitespace("");
    BlankIffAllWhitespace("");
    st.(selectedReasons := [], otherReason := "")
  }

  /** The submit button's `disabled` predicate. */
  predicate SubmitDisabled(st: ReportForm) {
    st.isLoading || (|st.selectedReasons| == 0 && IsBlank(st.otherReason))
  }

  /** When idle, the button is disabled exactly when submitting would be refused. */
  lemma SubmitDisabledIffNoReason(st: ReportForm)
    requires !st.isLoading
    ensures SubmitDisabled(st) <==> ReportPayload(st).None?
  {
  }
}
