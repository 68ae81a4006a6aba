# Judicial document portal: a Dafny model of its front-end logic

The portal is a React front end for a blockchain-backed judicial records
system. Lawyers, bailiffs, police, judges and forensic experts register,
log in and land on a dashboard for their role. Case documents go to IPFS
through Pinata. Lawyers file cases and look up a case's money
transactions. This project models the logic of those pages, one Dafny
module per page:

- `LinkIssuer`, `LinkCache` and `FileRetriever` model the private-file
  retriever (`IPFSFileRetriever.js`):
  - the signed-link request with its ten-day lifetime;
  - how Pinata's answer is read;
  - the fallback file name and type;
  - the `content-disposition` regular expression;
  - the saved list of links, one per CID, ordered by first retrieval, latest first (upsert, regenerate,
    remove, clear and the expiry test).
- `DocumentUpload` models the case-document form: the role gate, the 10 MiB
  limit, the submit checks in order, the result state and the case-id sync.
- `PinataUploader` models the private uploader:
  - the token and file checks;
  - the trimmed custom name;
  - the simulated progress counter;
  - the response handling;
  - adding the file to the fixed group.
- `DocumentRetriever` models the judge's document list: the judge-only gate,
  the fetch guards and results, and the public gateway link.
- `LoginPage` models the route table, the check on the login response and
  the order in which the session is stored.
- `Register` models the two label formatters (exactly as their regular
  expressions behave), the table of roles and the change handlers.
- `LawyerDashboard` models the party list, the required fields of a filing,
  the reset after filing, the transactions look-up and logging out.
- `RoleConsistency` states how the role names of those pages fit together.

Each component is a `class` whose fields are the component's React state,
plus `localStorage` where the component uses it. Each event handler is a
method. What the network answered is a datatype passed in, and the clock is
an integer parameter `now` in milliseconds. Each method's postcondition
ties the new state to pure functions of the old state and the inputs. The
properties the pages promise are lemmas about those functions:

- no CID appears twice;
- the progress counter stops at 85;
- `forensic_expert` is the one role login cannot route;
- and the others listed in the table below.

`Common` holds the JavaScript string operations the model needs, each with
its meaning proved:

- `trim` and its whitespace set;
- falsy-string defaulting (`a || b`);
- `substring`, `includes` and decimal rendering.

## Model

| member | source | states |
|---|---|---|
| LinkIssuer.BuildLinkRequest | src/components/IPFSFileRetriever.js:52-60 | the payload asks for 864000 seconds from the current epoch second (floor of ms/1000), for GET, on the gateway URL ending in the CID |
| LinkIssuer.IssuedUrl | src/components/IPFSFileRetriever.js:62-83 | a URL exactly when the response was ok with non-empty `data`; otherwise the message of the Error thrown: the status line, "No download link received from Pinata", or the fetch's own message |
| LinkIssuer.DefaultFileName | src/components/IPFSFileRetriever.js:86 | `file-` followed by the first ten characters of the CID (all of a shorter CID) |
| LinkIssuer.MetadataDefaults | src/components/IPFSFileRetriever.js:86-108 | a failed probe or an absent header keeps `file-…` and `unknown`; a present content type is taken as is |
| LinkIssuer.FindFromLeftmost | src/components/IPFSFileRetriever.js:101 | `match` returns the leftmost anchored match, and nothing exactly when no position matches |
| LinkIssuer.MatchAtShape | src/components/IPFSFileRetriever.js:101 | a match follows `filename=` and at most one quote, and is a non-empty, quote-free, maximal run |
| LinkIssuer.IncludesGuardRedundant | src/components/IPFSFileRetriever.js:100-101 | the `includes('filename=')` test rejects nothing the regex would match |
| LinkIssuer.ExtractedNameWellFormed | src/components/IPFSFileRetriever.js:101-104 | a name taken from the header is non-empty and has no quote |
| LinkIssuer.FilenameQuoted | src/components/IPFSFileRetriever.js:101-104 | `filename="name"` yields `name` |
| LinkIssuer.FilenameUnquoted | src/components/IPFSFileRetriever.js:101-104 | `filename=name` yields `name` |
| LinkIssuer.FilenameEmptyQuoted | src/components/IPFSFileRetriever.js:101-104 | `filename=""` matches nothing, so the default name stays |
| LinkCache.FindIndex | src/components/IPFSFileRetriever.js:121 | -1 exactly when no entry has the CID; otherwise the first entry with it |
| LinkCache.UpsertReplaces | src/components/IPFSFileRetriever.js:121-127 | for a CID already listed, only its first entry becomes the new record and the length stays |
| LinkCache.UpsertPrepends | src/components/IPFSFileRetriever.js:128-131 | for a new CID, the record is put in front of the unchanged list |
| LinkCache.UpsertKeepsUnique | src/components/IPFSFileRetriever.js:121-131 | unique CIDs stay unique and exactly one entry holds the stored CID, the new record |
| LinkCache.UpsertSameCidOverwrites | src/components/IPFSFileRetriever.js:121-131 | retrieving the same CID twice equals retrieving it once with the second answer |
| LinkCache.RegenerateKeepsIdentity | src/components/IPFSFileRetriever.js:183-192 | only entry i changes: same CID, name and type, the new URL and a fresh ten-day window; CIDs stay unique |
| LinkCache.RemoveDropsOne | src/components/IPFSFileRetriever.js:220-224 | removing index i drops exactly that entry and keeps the others in order |
| LinkCache.RemoveOutOfRange | src/components/IPFSFileRetriever.js:222 | `splice` past the end removes nothing; a negative index counts from the end |
| LinkCache.RemoveKeepsUnique | src/components/IPFSFileRetriever.js:220-224 | removal keeps CIDs unique, and the removed CID is gone |
| LinkCache.NewRecordWindow | src/components/IPFSFileRetriever.js:111-118 | a new record's window equals the requested 864000 s; it is valid at expiresAt and expired 1 ms later |
| LinkCache.StoredExpiryLagsLink | src/components/IPFSFileRetriever.js:58-115 | a link requested before the record is stamped ends no later than the stored `expiresAt`, which lags by the elapsed time plus the dropped milliseconds |
| LinkCache.ExpiryIsMonotone | src/components/IPFSFileRetriever.js:234-236 | once expired, a link stays expired |
| FileRetriever.Retriever.constructor | src/components/IPFSFileRetriever.js:12-26 | the saved JWT is restored; a saved list is restored if it parses, else the list is empty |
| FileRetriever.Retriever.SetJwt | src/components/IPFSFileRetriever.js:28-33 | the JWT changes and a non-empty one is saved |
| FileRetriever.Retriever.SetCid | src/components/IPFSFileRetriever.js:298 | only the CID input changes |
| FileRetriever.Retriever.RetrieveFile | src/components/IPFSFileRetriever.js:40-142 | missing inputs: error, list kept; failed issuance: error, list kept; success: upsert of the new record, files tab shown; unique CIDs preserved; the saved list follows |
| FileRetriever.Retriever.RegenerateLink | src/components/IPFSFileRetriever.js:144-200 | no entry or no JWT: nothing changes; success refreshes entry i only; failure keeps the list and sets "Failed to regenerate link: " + message |
| FileRetriever.Retriever.RemoveFile | src/components/IPFSFileRetriever.js:220-224 | the list is the spliced list; in range, it is one shorter and without that CID |
| FileRetriever.Retriever.ClearAll | src/components/IPFSFileRetriever.js:346 | the list and the saved list become empty; nothing else changes |
| FileRetriever.Retriever.ViewFile | src/components/IPFSFileRetriever.js:397-402 | the link is followed exactly when it is not past expiresAt; otherwise the expiry error is shown |
| DocumentUpload.FileSelection | src/components/DocumentUpload.js:20-29 | a file over 10485760 bytes is refused with the size error and clears the selection; anything else is taken and clears the error |
| DocumentUpload.SizeLimitBoundary | src/components/DocumentUpload.js:22 | exactly 10485760 bytes is accepted; 10485761 is refused |
| DocumentUpload.SubmitCheck | src/components/DocumentUpload.js:34-42 | passes exactly with a file and a case id; the missing file is reported first |
| DocumentUpload.EnabledIffChecksPass | src/components/DocumentUpload.js:148 | the button is enabled exactly when nothing is in flight and the submit checks pass |
| DocumentUpload.SettledResult | src/components/DocumentUpload.js:67-82 | success records message, ipfsHash and txHash; failure has success false and the backend message or "Upload failed" |
| DocumentUpload.SettledError | src/components/DocumentUpload.js:83 | a failure shows the backend `msg` or the fixed default, never empty |
| DocumentUpload.DocumentUploader.HandleFileChange | src/components/DocumentUpload.js:20-29 | the selection and error follow FileSelection; a kept file is within the limit |
| DocumentUpload.DocumentUploader.SyncCaseId | src/components/DocumentUpload.js:10-18 | the local case id is overwritten only when the prop changed |
| DocumentUpload.DocumentUploader.HandleCaseIdChange | src/components/DocumentUpload.js:89-91 | only the local case id changes, to the typed value |
| DocumentUpload.DocumentUploader.BeginSubmit | src/components/DocumentUpload.js:31-53 | a failed check sets its error and sends nothing; otherwise the file and case id are sent and the upload is in flight |
| DocumentUpload.DocumentUploader.FinishSubmit | src/components/DocumentUpload.js:53-86 | the result and error follow the reply; success drops the file; the upload is over |
| PinataUploader.UploadCheck | src/components/PinataUploader.js:81-89 | passes exactly with a non-blank token and a file; the blank token is reported first |
| PinataUploader.UploadName | src/components/PinataUploader.js:107-109 | a name is sent exactly when the custom name is not all whitespace |
| PinataUploader.UploadNameIsTrimmedSlice | src/components/PinataUploader.js:107-109 | a sent name is the custom name minus leading and trailing whitespace |
| PinataUploader.NextProgress | src/components/PinataUploader.js:119-124 | a tick adds 5 exactly when the result stays below 90, otherwise it keeps the value |
| PinataUploader.TicksClimbThenStall | src/components/PinataUploader.js:119-124 | from 10, 15, …, 85, n ticks give min(p + 5n, 85) |
| PinataUploader.TicksFromStart | src/components/PinataUploader.js:97-124 | from 10 the counter is min(10 + 5n, 85) and never reaches 90 |
| PinataUploader.TicksMonotone | src/components/PinataUploader.js:119-124 | more ticks never lower the counter |
| PinataUploader.SettleAsWritten | src/components/PinataUploader.js:136-149 | the code as written: `result.data.id` read before the guard |
| PinataUploader.AsWrittenRejectsBodyWithoutData | src/components/PinataUploader.js:143-147 | as written, an ok body without `data` throws a TypeError |
| PinataUploader.Settle | src/components/PinataUploader.js:136-149 | an ok body is stored; the group request is made exactly when a file id came back; non-ok gives `error.reason` or "Upload failed" |
| PinataUploader.SettleAgreesWithAsWritten | src/components/PinataUploader.js:136-149 | the correction differs from the code only on an ok body without `data` |
| PinataUploader.ThrownError | src/components/PinataUploader.js:161-163 | the error is the thrown message, or the default when it is empty |
| PinataUploader.UploadFailureMessages | src/components/PinataUploader.js:136-139 | the failure message is `error.reason` if present, else "Upload failed" |
| PinataUploader.GroupGate | src/components/PinataUploader.js:42-45 | a group request is made exactly with a non-blank token and a file id |
| PinataUploader.GroupError | src/components/PinataUploader.js:60-71 | a failed group request shows the fixed prefix and `error.reason`, or the default |
| PinataUploader.Uploader.BeginUpload | src/components/PinataUploader.js:79-133 | a failed check sets its error and sends nothing; otherwise the results are reset, the counter starts at 10 and the file, "private" and the trimmed name are sent |
| PinataUploader.Uploader.Tick | src/components/PinataUploader.js:119-124 | while uploading, the counter takes one step, never decreases and stays below 90 |
| PinataUploader.Uploader.AddFileToGroup | src/components/PinataUploader.js:41-76 | no request without a token and a file id; the reply is kept on success; an error is set on failure |
| PinataUploader.Uploader.SetJwtToken | src/components/PinataUploader.js:185 | only the token input changes |
| PinataUploader.Uploader.SetCustomFileName | src/components/PinataUploader.js:211 | only the custom name changes |
| PinataUploader.Uploader.HandleFileChange | src/components/PinataUploader.js:20-25 | a picked file replaces the selection and clears the error, with no size limit; an empty pick changes nothing |
| PinataUploader.Uploader.ApplySettled | src/components/PinataUploader.js:136-165 | after a settled attempt the counter ends at 100 and the upload is over; a stored body is shown, clears the inputs and adds a returned file id to the group; a failure sets the error and keeps the inputs |
| PinataUploader.Uploader.FinishUpload | src/components/PinataUploader.js:136-165 | with the guard of line 147 protecting the read of the file id: every ok body is shown and clears the inputs; a group request follows exactly when a file id came back; a failure sets the error; the counter ends at 100 |
| PinataUploader.Uploader.FinishUploadAsWritten | src/components/PinataUploader.js:136-165 | as written: an ok body without `data` sets the TypeError message, stores nothing and keeps the inputs; every other reply ends as in FinishUpload |
| DocumentRetriever.ApplyReply | src/components/DocumentRetriever.js:33-41 | success replaces the list (empty when `files` is absent); a failure keeps it and sets the backend message or the default |
| DocumentRetriever.ViewUrl | src/components/DocumentRetriever.js:56 | the gateway prefix followed by the CID |
| DocumentRetriever.ViewUrlInjective | src/components/DocumentRetriever.js:56 | different CIDs get different links |
| DocumentRetriever.Retriever.FetchDocuments | src/components/DocumentRetriever.js:12-45 | an empty case id sets "Case ID is required" and requests nothing; otherwise the reply decides list and error |
| DocumentRetriever.Retriever.RunEffect | src/components/DocumentRetriever.js:48-52 | a fetch happens exactly for a judge with a case id |
| DocumentRetriever.Retriever.ChangeCaseId | src/components/DocumentRetriever.js:48-52 | a new case id fetches exactly when it changed, is non-empty and the user is a judge |
| LoginPage.DashboardRoute | src/components/LoginPage.js:26-34 | a route is `/` + the role name + `-dashboard`, and the name can be read back from it |
| LoginPage.RouteFor | src/components/LoginPage.js:24-38 | a route exactly for lawyer, bailiff, police, judge and the literal "foreinsic", each its own dashboard |
| LoginPage.RoutesAreDistinct | src/components/LoginPage.js:24-34 | different roles go to different routes |
| LoginPage.LoginError | src/components/LoginPage.js:43-78 | a well-formed answer leaves no error exactly when the role is routed; a malformed one gets the fixed default; a throw gets the backend `msg` or the default |
| LoginPage.Login.RedirectBasedOnRole | src/components/LoginPage.js:24-38 | a routed role navigates and keeps the error; any other sets "Unknown user role" and stays |
| LoginPage.Login.SetEmail | src/components/LoginPage.js:157 | only the email input changes |
| LoginPage.Login.SetPassword | src/components/LoginPage.js:188 | only the password input changes |
| LoginPage.Login.HandleLogin | src/components/LoginPage.js:40-82 | only a well-formed answer stores token, role and email, in that order, then redirects; otherwise storage and location are unchanged |
| Register.ToUpper | src/components/Register.js:58 | a lower-case letter becomes a capital; anything else is kept |
| Register.SpaceBeforeUpper | src/components/Register.js:56 | the result is longer by the number of capitals |
| Register.SpaceBeforeEveryCapital | src/components/Register.js:56 | every capital in the result follows a space |
| Register.SpaceBeforeUpperOnlyAddsSpaces | src/components/Register.js:56 | dropping spaces from input and result gives the same text |
| Register.UnderscoreToSpace | src/components/Register.js:57 | every underscore becomes a space, nothing else changes, and no underscore is left |
| Register.CapitalizeFirst | src/components/Register.js:58 | only the first character, and only a word character, is upper-cased |
| Register.FormatFieldName | src/components/Register.js:54-59 | label length = field length + number of capitals, and no underscore |
| Register.FormatTwoWords | src/components/Register.js:54-59 | a camel-case name of two lower-case words becomes both words, the first capitalised, with a space between |
| Register.BadgeNumberLabel | src/components/Register.js:54-59 | `badgeNumber` is shown as `Badge Number` |
| Register.LeadingCapitalKeepsSpace | src/components/Register.js:56-58 | a field starting with a capital keeps a leading space, which `^\w` does not match |
| Register.CapitalizeWordsMeaning | src/components/Register.js:132 | exactly the word characters at a word boundary are upper-cased |
| Register.RoleLabel | src/components/Register.js:132 | the label keeps the role's length and has no underscore |
| Register.CapitalizeWordsAppend | src/components/Register.js:132 | capitalising a concatenation is capitalising its parts in context |
| Register.RoleLabelTwoWords | src/components/Register.js:132 | `a_b` for lower-case words is both words capitalised with a space between |
| Register.ForensicExpertLabel | src/components/Register.js:132 | `forensic_expert` is shown as `Forensic Expert` |
| Register.Lookup | src/components/Register.js:138 | a value exactly for a key of the table, taken from an entry with that key |
| Register.FieldsFor | src/components/Register.js:138 | fields exactly for a role of the table |
| Register.RolesTable | src/components/Register.js:11-21 | five distinct roles in key order; the default `police` is one of them, with its three fields |
| Register.Registration.HandleInputChange | src/components/Register.js:25-28 | the input's key takes the value; every other key keeps its value |
| Register.Registration.HandleRoleDetailChange | src/components/Register.js:30-33 | the field's key takes the value; every other key keeps its value |
| Register.Registration.HandleFileUpload | src/components/Register.js:35-37 | only the identity proof changes |
| LawyerDashboard.AddedParty | src/components/lawyerDashboard.js:93-101 | a non-empty pending party is appended and cleared and the other fields are kept; an empty one changes nothing |
| LawyerDashboard.AddedPartyKeepsEarlierParties | src/components/lawyerDashboard.js:97 | the earlier parties stay in order and the list grows by one exactly when a party was pending |
| LawyerDashboard.DescriptionIsOptional | src/components/lawyerDashboard.js:58-60 | the description and the pending party do not decide whether a filing is accepted |
| LawyerDashboard.AddingPartyCompletesForm | src/components/lawyerDashboard.js:93-101 | with the other required fields filled, adding a party makes the form fileable; the empty form is not |
| LawyerDashboard.FilingOf | src/components/lawyerDashboard.js:67-75 | the filing carries the form's five fields and the stored token |
| LawyerDashboard.StoredValue | src/components/lawyerDashboard.js:66 | `getItem` gives a value exactly for a stored key |
| LawyerDashboard.ListingAfter | src/components/lawyerDashboard.js:45-49 | an answer replaces the list and clears the error; a failure empties the list and shows `msg` or the default |
| LawyerDashboard.FilingError | src/components/lawyerDashboard.js:85-88 | no error exactly after a successful filing; otherwise `msg` or "Error filing case" |
| LawyerDashboard.LogoutKeepsOtherKeys | src/components/lawyerDashboard.js:24-27 | logout removes the three session keys and keeps every other key |
| LawyerDashboard.Dashboard.HandleLogout | src/components/lawyerDashboard.js:24-29 | token, role and email are removed and the page goes to /login |
| LawyerDashboard.Dashboard.FetchTransactions | src/components/lawyerDashboard.js:32-53 | an empty case id sets the error and requests nothing; otherwise the list and error follow the reply |
| LawyerDashboard.Dashboard.HandleSubmit | src/components/lawyerDashboard.js:56-90 | a missing required field sets the error and sends nothing; success empties every field; failure keeps the form |
| LawyerDashboard.Dashboard.AddParty | src/components/lawyerDashboard.js:93-101 | the form becomes AddedParty of the old form; nothing else changes |
| LawyerDashboard.Dashboard.SetTitle | src/components/lawyerDashboard.js:339 | only the title changes |
| RoleConsistency.RegisteredRolesAtLogin | src/components/LoginPage.js:24-37 | of the registrable roles, login routes all but `forensic_expert`; "foreinsic" is routed but cannot be registered |
| RoleConsistency.RegisteredRolePermissions | src/components/DocumentUpload.js:13 | of the registrable roles, only lawyer and forensic_expert may upload and only judge may retrieve |
| RoleConsistency.LogoutUndoesLogin | src/components/lawyerDashboard.js:24-27 | logging out after a login leaves storage as logging out alone would |
| Common.TrimIsSlice | src/components/PinataUploader.js:107 | `trim` cuts only whitespace from both ends and leaves no whitespace at either end |
| Common.TrimEmptyIffBlank | src/components/PinataUploader.js:81 | `trim()` is empty exactly for all-whitespace text |
| Common.DecimalRoundTrip | src/components/IPFSFileRetriever.js:75 | the status is rendered in decimal digits that read back to the status |

## Left out

- Network calls: Pinata's download-link, upload and group endpoints, the
  `/api/documents`, `/lawyer` and login backends, and the public upload
  inside `DocumentUpload.js`. Each outcome is a datatype passed to the
  handler. No request or header is constructed beyond the values the model
  returns.
- `JSON.stringify`/`JSON.parse` and `localStorage` as a device. Storage is a
  field. The retriever's saved list is modelled exactly as kept equal to
  the list after each change. A parse failure on mount leaves the list
  empty.
- The clock and date formatting (`Date.now`, `toISOString`,
  `toLocaleString`, `formatDate`). Times are integer milliseconds.
- RetrieveFile and RegenerateLink: the record's `timestamp` and `expiresAt`
  come from one instant `now`, read after the link request has answered
  (IPFSFileRetriever.js:114-115 and 188-189). The request's own `date` is
  read earlier, before the awaits (lines 58 and 157), and the methods do not
  model that earlier instant. `LinkCache.StoredExpiryLagsLink` states the
  consequence: the stored `expiresAt` is later than the link's real expiry
  by the round-trip time plus up to 999 ms, so `isExpired` can call a link
  valid after Pinata has stopped honouring it.
- Every `async` handler is taken to run to completion without another
  handler in between. A handler that resumes after an `await` sees the state
  it started with, as React's closures do. `PinataUploader.Uploader`
  models this for the token through `uploadToken`.
- The `setInterval` timer itself: only one firing (`Tick`) is modelled.
- `formatBytes` and the payment page (`mtv.js`), which depend on floating
  point. `downloadFile` and other DOM manipulation. `alert`. All rendering,
  styles and routing beyond the route chosen. The bailiff forms, the judge
  and forensic dashboards, and the other pages: they hold no logic of their
  own beyond forms and look-ups.
- `Register.js`'s `handleSubmit`, which only logs, alerts and navigates. The
  `identityProof` file is a separate field rather than a key of `userData`.
- CID and header text is a `seq<char>` of code points, not UTF-16 code
  units. `substring(0, 10)` and the regular expression are therefore exact
  for text without surrogate pairs.
- PinataUploader.DataIdTypeError: the text of a TypeError is the engine's.
  The V8 wording is used.
- LawyerDashboard.ListingAfter: an answer without `moneyTransactions` would
  leave the list `undefined`, and the page's `transactions.length` would
  throw. The model takes a list to be present in every answer.
- PinataUploader.Uploader.FinishUpload follows the corrected `Settle`, not the
  code as written: for an ok body without `data` it shows the body and clears
  the inputs, where the code throws at line 143 and shows the TypeError.
  `FinishUploadAsWritten` models that path as written (see Findings).
- Malformed JSON bodies (a `request.json()` that throws) are folded into the
  "threw" case of each reply datatype.
- DocumentUpload.DocumentUploader.BeginSubmit and
  PinataUploader.Uploader.BeginUpload require that no upload is in flight.
  The code does not check this: it relies on the disabled button.
- DocumentUpload.DocumentUploader.BeginSubmit requires a permitted role.
  The form is not rendered for other roles (lines 93-100).
- Only `SetTitle` of the dashboard's text inputs has a row above. `SetDescription`,
  `SetNewParty`, `SetJudge`, `SetCourtName` and `SetCaseId` do the same for
  their own fields (lines 288, 349, 360, 382, 393).

## Findings

| source | as written | input that shows it | evidently intended | confidence | as-written member | corrected member |
|---|---|---|---|---|---|---|
| src/components/PinataUploader.js:143 | `result.data.id` is logged before the guard `result.data && result.data.id` at line 147 | an ok upload response whose body has no `data` | a response without `data` is shown as the upload result, with no group request, as the guard at line 147 expects | medium, not executed | PinataUploader.SettleAsWritten, PinataUploader.AsWrittenRejectsBodyWithoutData, PinataUploader.Uploader.FinishUploadAsWritten | PinataUploader.Settle, PinataUploader.SettleAgreesWithAsWritten, PinataUploader.Uploader.FinishUpload |
