/** The lawyer's dashboard (src/components/lawyerDashboard.js): the case
    filing form with its party list and required-field check, the look-up
    of a case's transactions, and logging out. */
module LawyerDashboard {
  import opened Common

  const MissingFieldsMessage: string := "Missing required fields"
  const FilingFallback: string := "Error filing case"
  const NoCaseMessage: string := "Please enter a Case ID"
  const FetchFallback: string := "Error fetching transactions"
  const LoginRoute: string := "/login"

  /** The keys a session keeps in storage. */
  const SessionKeys: set<string> := {"token", "role", "email"}

  /** The `formData` state (lines 14-21). */
  datatype CaseForm = CaseForm(
    title: string,
    description: string,
    parties: seq<string>,
    judge: string,
    courtName: string,
    newParty: string)

  /** Every field empty, as on first render and after a filing. */
  const EmptyForm: CaseForm := CaseForm("", "", [], "", "", "")

  /** `addParty` (lines 93-101): a non-empty pending party goes to the end of
      the list and the pending input is cleared; an empty one changes nothing. */
  function AddedParty(form: CaseForm): (r: CaseForm)
    ensures form.newParty != "" ==>
      && r.parties == form.parties + [form.newParty]
      && r.newParty == ""
      && r.title == form.title && r.description == form.description
      && r.judge == form.judge && r.courtName == form.courtName
    ensures form.newParty == "" ==> r == form
  {
    if form.newParty != "" then form.(parties := form.parties + [form.newParty], newParty := "")
    else form
  }

  /** Adding keeps the parties already listed, in order, and grows the list
      by one exactly when something was pending. */
  lemma AddedPartyKeepsEarlierParties(form: CaseForm)
    ensures AddedParty(form).parties[..|form.parties|] == form.parties
    ensures |AddedParty(form).parties| == |form.parties| + (if form.newParty != "" then 1 else 0)
  {
  }

  /** What a filing needs (line 60): a title, a judge, a court and at least
      one party. The description is optional. */
  predicate RequiredFieldsPresent(form: CaseForm) {
    form.title != "" && form.judge != "" && form.courtName != "" && |form.parties| > 0
  }

  /** The description and the pending party do not decide whether a filing
      is accepted. */
  lemma DescriptionIsOptional(form: CaseForm, description: string, newParty: string)
    ensures RequiredFieldsPresent(form.(description := description, newParty := newParty)) <==> RequiredFieldsPresent(form)
  {
  }

  /** A form whose other required fields are filled becomes fileable once a
      pending party is added. */
  lemma AddingPartyCompletesForm(form: CaseForm)
    requires form.title != "" && form.judge != "" && form.courtName != "" && form.newParty != ""
    ensures RequiredFieldsPresent(AddedParty(form))
    ensures !RequiredFieldsPresent(EmptyForm)
  {
  }

  /** The body of `POST /lawyer` (lines 67-75), with the stored token as its
      `Authorization` header (`None` for a missing token). */
  datatype Filing = Filing(
    title: string,
    description: string,
    parties: seq<string>,
    judge: string,
    courtName: string,
    token: Option<string>)

  /** The filing sent for a form: its fields without the pending party. */
  function FilingOf(form: CaseForm, token: Option<string>): (r: Filing)
    ensures r.title == form.title && r.description == form.description && r.parties == form.parties
    ensures r.judge == form.judge && r.courtName == form.courtName && r.token == token
  {
    Filing(form.title, form.description, form.parties, form.judge, form.courtName, token)
  }

  /** `localStorage.getItem(key)`. */
  function StoredValue(storage: Storage, key: string): (r: Option<string>)
    ensures r.Some? <==> key in storage
    ensures r.Some? ==> r.value == storage[key]
  {
    if key in storage then Some(storage[key]) else None
  }

  /** How a backend call ended: it answered, or it threw carrying
      `err.response.data.msg` (`""` when absent). */
  datatype PostReply = Filed | FilingThrew(msg: string)

  /** One money transaction of a case, as listed (lines 314-321). */
  datatype Transaction = Transaction(amount: int, from: string, to: string, timestamp: int)

  /** How `GET /lawyer?caseId=…` ended: the answer's `moneyTransactions`, or
      a throw carrying `err.response.data.msg` (`""` when absent). */
  datatype TransactionsReply =
    | Listed(moneyTransactions: seq<Transaction>)
    | ListingThrew(msg: string)

  /** The request `fetchTransactions` sends (lines 40-43). */
  datatype TransactionsRequest = TransactionsRequest(caseId: string, token: Option<string>)

  /** The listed transactions and the error once the look-up settled
      (lines 45-49): the answer replaces the list and clears the error; a
      failure empties the list and shows the backend's message or the
      default. */
  datatype Listing = Listing(transactions: seq<Transaction>, error: string)

  function ListingAfter(reply: TransactionsReply): (r: Listing)
    ensures reply.Listed? ==> r.transactions == reply.moneyTransactions && r.error == ""
    ensures reply.ListingThrew? ==> r.transactions == [] && r.error != ""
    ensures reply.ListingThrew? && reply.msg != "" ==> r.error == reply.msg
    ensures reply.ListingThrew? && reply.msg == "" ==> r.error == FetchFallback
  {
    match reply
    case Listed(txs) => Listing(txs, "")
    case ListingThrew(msg) => Listing([], OrElse(msg, FetchFallback))
  }

  /** The error once a filing settled (lines 85 and 88). */
  function FilingError(reply: PostReply): (r: string)
    ensures reply.Filed? <==> r == ""
    ensures reply.FilingThrew? && reply.msg != "" ==> r == reply.msg
    ensures reply.FilingThrew? && reply.msg == "" ==> r == FilingFallback
  {
    match reply
    case Filed => ""
    case FilingThrew(msg) => OrElse(msg, FilingFallback)
  }

  /** Logging out forgets the session and keeps every other stored key. */
  lemma LogoutKeepsOtherKeys(storage: Storage, key: string)
    requires key in storage && key !in SessionKeys
    ensures key in storage - SessionKeys && (storage - SessionKeys)[key] == storage[key]
    ensures forall k :: k in SessionKeys ==> k !in storage - SessionKeys
  {
  }

  class Dashboard {
    var caseId: string
    var transactions: seq<Transaction>
    var loading: bool
    var error: string
    var form: CaseForm
    var storage: Storage
    /** Where the router was sent, if anywhere. */
    var location: Option<string>

    /** First render (lines 7-21). */
    constructor (saved: Storage)
      ensures caseId == "" && transactions == [] && !loading && error == ""
      ensures form == EmptyForm && storage == saved && location == None
    {
      caseId := "";
      transactions := [];
      loading := false;
      error := "";
      form := EmptyForm;
      storage := saved;
      location := None;
    }

    /** `handleLogout` (lines 24-29): drop the token, the role and the email,
        then go to the login page. */
    method HandleLogout()
      modifies this
      ensures storage == old(storage) - SessionKeys
      ensures location == Some(LoginRoute)
      ensures caseId == old(caseId) && transactions == old(transactions) && loading == old(loading)
      ensures error == old(error) && form == old(form)
    {
      storage := storage - {"token"};
      storage := storage - {"role"};
      storage := storage - {"email"};
      assert storage == old(storage) - SessionKeys;
      location := Some(LoginRoute);
    }

    /** `fetchTransactions` (lines 32-53): without a case id only the error is
        set and nothing is requested; otherwise the request carries the case
        id and the stored token, and the reply replaces the list and the
        error. */
    method FetchTransactions(reply: TransactionsReply) returns (sent: Option<TransactionsRequest>)
      modifies this
      ensures old(caseId) == "" ==>
        && sent == None && error == NoCaseMessage
        && transactions == old(transactions) && loading == old(loading)
      ensures old(caseId) != "" ==>
        && sent == Some(TransactionsRequest(old(caseId), StoredValue(old(storage), "token")))
        && transactions == ListingAfter(reply).transactions && error == ListingAfter(reply).error
        && !loading
      ensures caseId == old(caseId) && form == old(form)
      ensures storage == old(storage) && location == old(location)
    {
      if caseId == "" {
        error := NoCaseMessage;
        return None;
      }
      loading := true;
      sent := Some(TransactionsRequest(caseId, StoredValue(storage, "token")));
      var listing := ListingAfter(reply);
      transactions := listing.transactions;
      error := listing.error;
      loading := false;
    }

    /** `handleSubmit` (lines 56-90): a form missing a required field only
        sets the error; otherwise the filing is posted with the stored
        token, and on success every field is emptied and the error cleared,
        while a failure keeps the form and shows the error. */
    method HandleSubmit(reply: PostReply) returns (sent: Option<Filing>)
      modifies this
      ensures !RequiredFieldsPresent(old(form)) ==>
        && sent == None && error == MissingFieldsMessage && form == old(form)
      ensures RequiredFieldsPresent(old(form)) ==>
        && sent == Some(FilingOf(old(form), StoredValue(old(storage), "token")))
        && error == FilingError(reply)
        && form == (if reply.Filed? then EmptyForm else old(form))
      ensures caseId == old(caseId) && transactions == old(transactions) && loading == old(loading)
      ensures storage == old(storage) && location == old(location)
    {
      if !RequiredFieldsPresent(form) {
        error := MissingFieldsMessage;
        return None;
      }
      sent := Some(FilingOf(form, StoredValue(storage, "token")));
      if reply.Filed? {
        form := EmptyForm;
      }
      error := FilingError(reply);
    }

    /** `addParty` (lines 93-101). */
    method AddParty()
      modifies this
      ensures form == AddedParty(old(form))
      ensures caseId == old(caseId) && transactions == old(transactions) && loading == old(loading)
      ensures error == old(error) && storage == old(storage) && location == old(location)
    {
      form := AddedParty(form);
    }

    /** The case-id input (line 288). */
    method SetCaseId(value: string)
      modifies this
      ensures caseId == value
      ensures transactions == old(transactions) && loading == old(loading) && error == old(error)
      ensures form == old(form) && storage == old(storage) && location == old(location)
    {
      caseId := value;
    }

    /** The text inputs of the form (lines 339, 349, 360, 382 and 393): each
        replaces its own field and keeps the others. */
    method SetTitle(value: string)
      modifies this
      ensures form == old(form).(title := value)
      ensures caseId == old(caseId) && transactions == old(transactions) && loading == old(loading)
      ensures error == old(error) && storage == old(storage) && location == old(location)
    {
      form := form.(title := value);
    }

    method SetDescription(value: string)
      modifies this
      ensures form == old(form).(description := value)
      ensures caseId == old(caseId) && transactions == old(transactions) && loading == old(loading)
      ensures error == old(error) && storage == old(storage) && location == old(location)
    {
      form := form.(description := value);
    }

    method SetNewParty(value: string)
      modifies this
      ensures form == old(form).(newParty := value)
      ensures caseId == old(caseId) && transactions == old(transactions) && loading == old(loading)
      ensures error == old(error) && storage == old(storage) && location == old(location)
    {
      form := form.(newParty := value);
    }

    method SetJudge(value: string)
      modifies this
      ensures form == old(form).(judge := value)
      ensures caseId == old(caseId) && transactions == old(transactions) && loading == old(loading)
      ensures error == old(error) && storage == old(storage) && location == old(location)
    {
      form := form.(judge := value);
    }

    method SetCourtName(value: string)
      modifies this
      ensures form == old(form).(courtName := value)
      ensures caseId == old(caseId) && transactions == old(transactions) && loading == old(loading)
      ensures error == old(error) && storage == old(storage) && location == old(location)
    {
      form := form.(courtName := value);
    }
  }
}
