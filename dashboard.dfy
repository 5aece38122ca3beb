/**
 * The dashboard's global state and the values its event handlers compute: the
 * tab, search and page handlers, the request the add-client form builds, and
 * the guard on the renewal prompt.
 *
 * "today" is the parameter `now`; the fetches the handlers issue are not part
 * of this model, only the values they send.
 */
module Dashboard {

  import opened Wrappers
  import opened Calendar
  import opened Text
  import opened Membership
  import opened Listing

  /** The mutable part of the dashboard's global state object. */
  class DashboardState {
    var clients: seq<Client>
    var currentPage: int
    var currentFilter: string
    var searchQuery: string

    ghost predicate Valid()
      reads this
    {
      currentPage >= 1
    }

    constructor ()
      ensures Valid()
      ensures clients == [] && currentPage == 1 && currentFilter == "all" && searchQuery == ""
    {
      clients := [];
      currentPage := 1;
      currentFilter := "all";
      searchQuery := "";
    }

    /**
     * What the list shows before paging: the clients that match the search and
     * belong to the tab, in the order of the client list.
     */
    function Listed(now: Instant): (r: seq<Client>)
      reads this
      ensures IsSubsequence(r, clients)
      ensures forall c :: c in r <==>
                c in clients && (searchQuery == "" || MatchesSearch(c, Lower(searchQuery))) && InTab(c, currentFilter, now)
    {
      FilteredKeepsOrder(clients, searchQuery, currentFilter, now);
      Filtered(clients, searchQuery, currentFilter, now)
    }

    /** The clients on the page the grid shows. */
    function ShownPage(now: Instant): (page: seq<Client>)
      requires Valid()
      reads this
      ensures |page| <= ItemsPerPage
      ensures currentPage <= TotalPages(|Listed(now)|) ==>
                |page| == Min(ItemsPerPage, |Listed(now)| - (currentPage - 1) * ItemsPerPage)
      ensures page != [] <==> currentPage <= TotalPages(|Listed(now)|)
      ensures forall k :: 0 <= k < |page| ==>
                (currentPage - 1) * ItemsPerPage + k < |Listed(now)| && page[k] == Listed(now)[(currentPage - 1) * ItemsPerPage + k]
    {
      PageOf(Listed(now), currentPage)
    }

    /** Loading the list: the fetched clients, or none when the answer carries no list. */
    method Load(fetched: Option<seq<Client>>)
      requires Valid()
      modifies this`clients
      ensures Valid()
      ensures clients == if fetched.Some? then fetched.value else []
    {
      clients := if fetched.Some? then fetched.value else [];
    }

    /** Clicking a status tab selects it and returns to the first page. */
    method SelectTab(filter: string)
      requires Valid()
      modifies this`currentFilter, this`currentPage
      ensures Valid()
      ensures currentFilter == filter && currentPage == 1
    {
      currentFilter := filter;
      currentPage := 1;
    }

    /** Typing a search query records it and returns to the first page. */
    method Search(query: string)
      requires Valid()
      modifies this`searchQuery, this`currentPage
      ensures Valid()
      ensures searchQuery == query && currentPage == 1
    {
      searchQuery := query;
      currentPage := 1;
    }

    /** The previous-page button: goes back one page unless already on the first. */
    method PrevPage()
      requires Valid()
      modifies this`currentPage
      ensures Valid()
      ensures currentPage == if old(currentPage) > 1 then old(currentPage) - 1 else old(currentPage)
    {
      if currentPage > 1 {
        currentPage := currentPage - 1;
      }
    }

    /** The next-page button: goes forward one page only while there is a later page of the listing. */
    method NextPage(now: Instant)
      requires Valid()
      modifies this`currentPage
      ensures Valid()
      ensures var pages := TotalPages(|Listed(now)|);
              currentPage == if old(currentPage) < pages then old(currentPage) + 1 else old(currentPage)
      ensures old(currentPage) < TotalPages(|Listed(now)|) ==> ShownPage(now) != []
    {
      var totalPages := TotalPages(|Listed(now)|);
      if currentPage < totalPages {
        currentPage := currentPage + 1;
      }
    }
  }

  /** Pressing next on a page that shows clients lands on a page that shows clients. */
  method NextKeepsPageFilled(d: DashboardState, now: Instant)
    requires d.Valid() && d.ShownPage(now) != []
    modifies d
    ensures d.Valid() && d.ShownPage(now) != []
  {
    d.NextPage(now);
  }

  // ---------------------------------------------------------------------------
  // Adding a client

  /** The form fields the add-client request carries. */
  datatype AddForm = AddForm(name: string, phone: string, joinDate: CivilDate, expiryDate: CivilDate, photo: Option<string>)

  datatype AddOutcome =
    | MissingFields            // a toast, and no request
    | InvalidDuration          // `toISOString` throws on the Invalid Date before any request is built
    | Submit(form: AddForm)

  /**
   * The add-client handler up to the request: the trimmed name and phone and the
   * join date are required; the expiry date is the join date plus the chosen
   * number of months. The duration is `parseInt` of the selected option, None
   * when that is NaN.
   */
  function AddClientRequest(nameField: string, phoneField: string, joinField: Option<CivilDate>,
                            duration: Option<int>, photo: Option<string>): (r: AddOutcome)
    ensures r == MissingFields <==> Trim(nameField) == [] || Trim(phoneField) == [] || joinField.None?
    ensures r == InvalidDuration <==> r != MissingFields && duration.None?
    ensures r.Submit? ==> r.form == AddForm(Trim(nameField), Trim(phoneField), joinField.value,
                                            AddMonths(joinField.value, duration.value), photo)
  {
    var name, phone := Trim(nameField), Trim(phoneField);
    if name == [] || phone == [] || joinField.None? then MissingFields
    else if duration.None? then InvalidDuration
    else Submit(AddForm(name, phone, joinField.value, AddMonths(joinField.value, duration.value), photo))
  }

  /** A name or phone field of blanks only is refused like an empty one. */
  lemma {:induction false} BlankFieldsAreMissing(nameField: string, phoneField: string, joinField: Option<CivilDate>,
                                                duration: Option<int>, photo: Option<string>)
    requires forall i :: 0 <= i < |nameField| ==> IsSpace(nameField[i])
    ensures AddClientRequest(nameField, phoneField, joinField, duration, photo) == MissingFields
  {
    TrimEmptyIff(nameField);
  }

  /** A membership of at least one month sent by the form expires after the join date. */
  lemma {:induction false} SubmittedExpiryFollowsJoin(nameField: string, phoneField: string, joinField: Option<CivilDate>,
                                                     duration: Option<int>, photo: Option<string>)
    requires AddClientRequest(nameField, phoneField, joinField, duration, photo).Submit?
    requires duration.value >= 1
    ensures var form := AddClientRequest(nameField, phoneField, joinField, duration, photo).form;
            DateBefore(form.joinDate, form.expiryDate)
  {
    AddMonthsAdvances(joinField.value, duration.value);
  }

  // ---------------------------------------------------------------------------
  // Renewing a client

  datatype RenewRequest =
    | NoRequest
    | Request(months: Option<int>)   // the JSON body's `months`; None is NaN, which JSON writes as null

  /**
   * The renewal prompt's guard: a cancelled (None) or empty answer, or one that
   * `isNaN` rejects, sends nothing; otherwise the request carries
   * `parseInt(answer)`.
   */
  function RenewPrompt(answer: Option<string>): (r: RenewRequest)
    ensures r == NoRequest <==> answer.None? || answer.value == "" || !IsNumeric(answer.value)
    ensures r.Request? ==> r.months == ParseInt(answer.value)
  {
    if answer.None? || answer.value == "" || !IsNumeric(answer.value) then NoRequest
    else Request(ParseInt(answer.value))
  }

  /** A cancelled prompt sends nothing. */
  lemma CancelledPromptSendsNothing()
    ensures RenewPrompt(None) == NoRequest
  {
  }

  /** An answer of decimal digits sends their value. */
  lemma {:induction false} DigitAnswerSendsItsValue(answer: string)
    requires answer != [] && forall i :: 0 <= i < |answer| ==> IsDigit(answer[i])
    ensures RenewPrompt(Some(answer)) == Request(Some(DigitsValue(answer, 10)))
  {
    DigitStringIsNumber(answer);
  }

  /** An answer that, once trimmed, cannot start a number (a word, say) sends nothing. */
  lemma {:induction false} NonNumberAnswerSendsNothing(answer: string)
    requires Trim(answer) != [] && !IsNumberStart(Trim(answer)[0])
    ensures RenewPrompt(Some(answer)) == NoRequest
  {
  }

  /** A blank answer passes the guard (`Number` reads it as 0) and sends NaN. */
  lemma {:induction false} BlankAnswerSendsNaN(answer: string)
    requires answer != [] && forall i :: 0 <= i < |answer| ==> IsSpace(answer[i])
    ensures RenewPrompt(Some(answer)) == Request(None)
  {
    BlankStringIsNaNForParseInt(answer);
  }

}
