/**
 * The pure parts of the enrollment page (frontend/src/pages/Enrollments.tsx):
 * the search filter over the enrollment list, and the create handler's
 * guard and state reset. The page knows ids as strings, "" meaning that
 * nothing is selected; the server's answer is a parameter.
 */
module EnrollmentsPage {
  import opened Wrappers
  import opened Seqs
  import opened Text
  import opened Records

  /** The parts of an enrollment the page lists: the client's names and the program's name. */
  datatype ClientRef = ClientRef(id: string, firstName: string, lastName: string)
  datatype ProgramRef = ProgramRef(id: string, name: string)
  datatype ListedEnrollment = ListedEnrollment(id: string, client: ClientRef, program: ProgramRef, status: Status)

  /** `filteredEnrollments`: the query occurs, ignoring case, in a client name or the program name. */
  predicate ShownFor(e: ListedEnrollment, query: string) {
    || IncludesIgnoringCase(e.client.firstName, query)
    || IncludesIgnoringCase(e.client.lastName, query)
    || IncludesIgnoringCase(e.program.name, query)
  }

  function ShownCondition(query: string): ListedEnrollment -> bool {
    (e: ListedEnrollment) => ShownFor(e, query)
  }

  /** The enrollment list as displayed for a search box holding `query`. */
  function FilteredEnrollments(enrollments: seq<ListedEnrollment>, query: string): (r: seq<ListedEnrollment>)
    ensures forall i :: 0 <= i < |r| ==> r[i] in enrollments && ShownFor(r[i], query)
    ensures forall i :: 0 <= i < |enrollments| && ShownFor(enrollments[i], query) ==> enrollments[i] in r
    ensures SubsequenceOf(r, enrollments)
    ensures forall e :: multiset(r)[e] == if ShownFor(e, query) then multiset(enrollments)[e] else 0
  {
    FilterIsSubsequence(ShownCondition(query), enrollments);
    FilterCounts(ShownCondition(query), enrollments);
    Filter(ShownCondition(query), enrollments)
  }

  /** An empty search box shows every enrollment. */
  lemma EmptyQueryShowsAll(enrollments: seq<ListedEnrollment>)
    ensures FilteredEnrollments(enrollments, "") == enrollments
  {
    forall i | 0 <= i < |enrollments| ensures ShownCondition("")(enrollments[i]) {
      EmptyQueryMatches(enrollments[i].client.firstName);
    }
    FilterKeepsAll(ShownCondition(""), enrollments);
  }

  /** The page state the create dialog works on. */
  datatype CreateForm = CreateForm(selectedClientId: string, selectedProgramId: string, createModalOpen: bool)

  /** The body of the create request. */
  datatype EnrollRequest = EnrollRequest(clientId: string, programId: string)

  /**
   * How the create request ends: the server accepts or refuses it, with the
   * message its body carries ("" if none), or no answer arrives at all
   * (a network error or a timeout), so the error carries no `response`.
   */
  datatype ServerAnswer = Accepted(message: string) | Refused(message: string) | NoResponse

  datatype Toast = Toast(title: string, description: string, destructive: bool)

  /**
   * What the handler does: the new page state, the request it sent if any,
   * and the toast it shows, if it gets as far as showing one.
   */
  datatype CreateOutcome = CreateOutcome(form: CreateForm, request: Option<EnrollRequest>, toast: Option<Toast>)

  const SelectBoth := Toast("Error", "Please select both a client and program", true)
  const CreatedFallback := "Enrollment created successfully"
  const FailedFallback := "Failed to create enrollment. Please try again."

  /** The guard: a request is sent only when both a client and a program are selected. */
  function RequestFor(form: CreateForm): (r: Option<EnrollRequest>)
    ensures r.Some? <==> form.selectedClientId != "" && form.selectedProgramId != ""
    ensures r.Some? ==> r.value.clientId == form.selectedClientId && r.value.programId == form.selectedProgramId
  {
    if form.selectedClientId == "" || form.selectedProgramId == "" then None
    else Some(EnrollRequest(form.selectedClientId, form.selectedProgramId))
  }

  /** `message || fallback`. */
  function MessageOr(message: string, fallback: string): (r: string)
    ensures r != "" || fallback == ""
    ensures message != "" ==> r == message
  {
    if message != "" then message else fallback
  }

  /**
   * `handleCreateEnrollment`: without both selections, a toast and nothing
   * else; otherwise the request, then on success the dialog closes and both
   * selections are cleared, and on failure the state stays as it was. The
   * failure branch reads `error.response.data.message`; without a response
   * that read throws a `TypeError` before the toast, so none is shown.
   */
  function HandleCreateEnrollment(form: CreateForm, answer: ServerAnswer): (r: CreateOutcome)
    ensures r.request == RequestFor(form)
    ensures r.request.None? ==> r.form == form && r.toast == Some(SelectBoth)
    ensures r.request.Some? && answer.Accepted? ==>
      && r.form == CreateForm("", "", false)
      && r.toast == Some(Toast("Success", MessageOr(answer.message, CreatedFallback), false))
    ensures r.request.Some? && answer.Refused? ==>
      r.form == form && r.toast == Some(Toast("Error", MessageOr(answer.message, FailedFallback), true))
    ensures r.request.Some? && answer.NoResponse? ==> r.form == form && r.toast.None?
    ensures r.toast.None? <==> r.request.Some? && answer.NoResponse?
  {
    match RequestFor(form)
    case None => CreateOutcome(form, None, Some(SelectBoth))
    case Some(request) =>
      match answer
      case Accepted(message) =>
        CreateOutcome(CreateForm("", "", false), Some(request), Some(Toast("Success", MessageOr(message, CreatedFallback), false)))
      case Refused(message) =>
        CreateOutcome(form, Some(request), Some(Toast("Error", MessageOr(message, FailedFallback), true)))
      case NoResponse =>
        CreateOutcome(form, Some(request), None)
  }

  /**
   * After a successful create the selections are cleared, so submitting again
   * without choosing anew sends no second request.
   */
  lemma NoRepeatAfterSuccess(form: CreateForm, message: string, next: ServerAnswer)
    requires RequestFor(form).Some?
    ensures HandleCreateEnrollment(HandleCreateEnrollment(form, Accepted(message)).form, next).request.None?
  {
  }

  /**
   * A create that fails, refused or unanswered, keeps the selections, so the
   * same request can be sent again.
   */
  lemma RetryAfterFailure(form: CreateForm, first: ServerAnswer, next: ServerAnswer)
    requires RequestFor(form).Some? && !first.Accepted?
    ensures HandleCreateEnrollment(HandleCreateEnrollment(form, first).form, next).request
         == HandleCreateEnrollment(form, next).request
  {
  }
}
