/** The private-storage uploader (src/components/PinataUploader.js): input
    checks, the optional custom name, the simulated progress counter, the
    handling of the upload response, and adding the uploaded file to the
    fixed group. `BeginUpload` runs up to the upload request, `Tick` is one
    firing of the 300 ms interval, and `FinishUpload` applies the response
    (and the group request it may trigger). */
module PinataUploader {
  import opened Common

  const NoJwtMessage: string := "Please enter your Pinata JWT token"
  const NoFileMessage: string := "Please select a file to upload"
  const GroupInputMessage: string := "JWT token and file ID are required to add to group"
  const GroupErrorPrefix: string := "File uploaded but couldn't add to group: "
  const GroupFallback: string := "Failed to add file to group"
  const UploadFallback: string := "Upload failed"
  const ErrorFallback: string := "An error occurred during upload"
  /** The TypeError a browser raises for `result.data.id` when `data` is missing. */
  const DataIdTypeError: string := "Cannot read properties of undefined (reading 'id')"
  const ForensicDocsGroupId: string := "01962321-2290-76c3-940e-d5b3b5236c22"

  const ProgressStart: int := 10
  const ProgressStep: int := 5
  const ProgressCeiling: int := 90
  const ProgressDone: int := 100

  // ---------------------------------------------------------------------
  // Input checks and the custom name
  // ---------------------------------------------------------------------

  /** The checks of `uploadToPrivateIpfs` (lines 81-89), in order: a blank
      token first, then a missing file; `None` means both passed. */
  function UploadCheck(jwtToken: string, file: Option<LocalFile>): (r: Option<string>)
    ensures r == None <==> !IsBlank(jwtToken) && file.Some?
    ensures IsBlank(jwtToken) ==> r == Some(NoJwtMessage)
    ensures !IsBlank(jwtToken) && file.None? ==> r == Some(NoFileMessage)
  {
    TrimEmptyIffBlank(jwtToken);
    if Trim(jwtToken) == "" then Some(NoJwtMessage)
    else if file.None? then Some(NoFileMessage)
    else None
  }

  /** The `name` form field (lines 107-109): the trimmed custom name, sent
      only when something is left after trimming. */
  function UploadName(custom: string): (r: Option<string>)
    ensures r.None? <==> IsBlank(custom)
  {
    TrimEmptyIffBlank(custom);
    if Trim(custom) != "" then Some(Trim(custom)) else None
  }

  /** A name that is sent is the custom name with only surrounding
      whitespace cut away, and neither starts nor ends with whitespace. */
  lemma UploadNameIsTrimmedSlice(custom: string)
    requires UploadName(custom).Some?
    ensures var name := UploadName(custom).value;
            && name != "" && !IsWhitespace(name[0]) && !IsWhitespace(name[|name| - 1])
            && exists i, j :: 0 <= i <= j <= |custom| && name == custom[i..j] && IsBlank(custom[..i]) && IsBlank(custom[j..])
  {
    TrimIsSlice(custom);
  }

  // ---------------------------------------------------------------------
  // The progress counter
  // ---------------------------------------------------------------------

  /** One interval firing (lines 120-123): add 5 unless that reaches 90. */
  function NextProgress(p: int): (r: int)
    ensures p <= r <= p + ProgressStep
    ensures r < ProgressCeiling || r == p
    ensures r == p <==> p + ProgressStep >= ProgressCeiling
    ensures p + ProgressStep < ProgressCeiling ==> r == p + ProgressStep
  {
    if p + ProgressStep < ProgressCeiling then p + ProgressStep else p
  }

  /** The counter after `n` firings from `p`. */
  function Ticks(p: int, n: nat): int
    decreases n
  {
    if n == 0 then p else Ticks(NextProgress(p), n - 1)
  }

  function Min(a: int, b: int): int {
    if a <= b then a else b
  }

  /** A value the counter can hold while the interval runs. */
  predicate OnTrack(p: int) {
    ProgressStart <= p <= 85 && p % ProgressStep == 0
  }

  /** From any value the counter can hold, `n` firings climb in steps of 5
      and stall at 85. */
  lemma {:induction false} TicksClimbThenStall(p: int, n: nat)
    requires OnTrack(p)
    ensures Ticks(p, n) == Min(p + ProgressStep * n, 85)
    ensures OnTrack(Ticks(p, n))
    decreases n
  {
    if n > 0 {
      TicksClimbThenStall(NextProgress(p), n - 1);
    }
  }

  /** Starting at 10 (line 97), the counter after `n` firings is
      `min(10 + 5n, 85)`: it never reaches 90 while the upload runs. */
  lemma TicksFromStart(n: nat)
    ensures Ticks(ProgressStart, n) == Min(10 + 5 * n, 85)
    ensures Ticks(ProgressStart, n) < ProgressCeiling
  {
    TicksClimbThenStall(ProgressStart, n);
  }

  /** More firings never lower the counter. */
  lemma {:induction false} TicksMonotone(p: int, m: nat, n: nat)
    requires m <= n
    ensures Ticks(p, m) <= Ticks(p, n)
    decreases n
  {
    if m > 0 {
      TicksMonotone(NextProgress(p), m - 1, n - 1);
    } else if n > 0 {
      TicksMonotone(NextProgress(p), 0, n - 1);
    }
  }

  // ---------------------------------------------------------------------
  // Responses
  // ---------------------------------------------------------------------

  /** The `data` of a successful upload: the file id (`""` when missing) and CID. */
  datatype UploadedFile = UploadedFile(id: string, cid: string)

  /** The parsed body of a successful upload. */
  datatype UploadBody = UploadBody(data: Option<UploadedFile>)

  /** How the upload request ended: the request threw (with its message),
      the response was not ok (with `error.reason`, `""` when absent), or it
      was ok with a body. */
  datatype UploadResponse =
    | UploadThrew(message: string)
    | UploadNotOk(reason: string)
    | UploadOk(body: UploadBody)

  /** How the upload attempt settles inside the inner `try`: it threw with a
      message, or the body was stored and the group request is made for the
      given file id (or not at all). */
  datatype Settled =
    | Threw(message: string)
    | Stored(body: UploadBody, groupFileId: Option<string>)

  /** Lines 136-149 as written: `result.data.id` is read at line 143 before
      the guard at line 147, so an ok body without `data` throws. */
  function SettleAsWritten(resp: UploadResponse): Settled {
    match resp
    case UploadThrew(m) => Threw(m)
    case UploadNotOk(reason) => Threw(OrElse(reason, UploadFallback))
    case UploadOk(body) =>
      if body.data.None? then Threw(DataIdTypeError)
      else Stored(body, if body.data.value.id != "" then Some(body.data.value.id) else None)
  }

  /** An ok upload whose body has no `data` is reported as a failure and its
      result is never shown, although the guard at line 147 expects exactly
      that body. */
  lemma AsWrittenRejectsBodyWithoutData()
    ensures SettleAsWritten(UploadOk(UploadBody(None))) == Threw(DataIdTypeError)
    ensures SettleAsWritten(UploadOk(UploadBody(None))).Threw?
  {
  }

  /** Lines 136-149 with the guard of line 147 protecting every read of
      `result.data.id`: an ok body is always stored, and the group request is
      made exactly when a file id is present. */
  function Settle(resp: UploadResponse): (r: Settled)
    ensures r.Stored? <==> resp.UploadOk?
    ensures resp.UploadOk? ==> r.body == resp.body
    ensures r.Stored? ==> (r.groupFileId.Some? <==> resp.body.data.Some? && resp.body.data.value.id != "")
    ensures r.Stored? && r.groupFileId.Some? ==> r.groupFileId.value == resp.body.data.value.id
    ensures resp.UploadNotOk? ==> r == Threw(OrElse(resp.reason, UploadFallback))
    ensures resp.UploadThrew? ==> r == Threw(resp.message)
  {
    match resp
    case UploadThrew(m) => Threw(m)
    case UploadNotOk(reason) => Threw(OrElse(reason, UploadFallback))
    case UploadOk(body) =>
      Stored(body, if body.data.Some? && body.data.value.id != "" then Some(body.data.value.id) else None)
  }

  /** The correction changes nothing except the body without `data`. */
  lemma SettleAgreesWithAsWritten(resp: UploadResponse)
    ensures !(resp.UploadOk? && resp.body.data.None?) <==> Settle(resp) == SettleAsWritten(resp)
  {
  }

  /** The error left by a settled attempt that threw (line 162). */
  function ThrownError(message: string): (r: string)
    ensures r != ""
    ensures message != "" ==> r == message
    ensures message == "" ==> r == ErrorFallback
  {
    OrElse(message, ErrorFallback)
  }

  /** A failed upload shows `error.reason`, else "Upload failed"; a request
      that threw with no message shows the catch-all default. */
  lemma UploadFailureMessages(reason: string, message: string)
    ensures reason != "" ==> ThrownError(Settle(UploadNotOk(reason)).message) == reason
    ensures reason == "" ==> ThrownError(Settle(UploadNotOk(reason)).message) == UploadFallback
    ensures message == "" ==> ThrownError(Settle(UploadThrew(message)).message) == ErrorFallback
  {
  }

  /** The group request's reply. */
  datatype GroupReply = GroupReply(id: string, status: string)

  /** How the group request ended: threw, not ok (with `error.reason`), or ok. */
  datatype GroupResponse =
    | GroupThrew(message: string)
    | GroupNotOk(reason: string)
    | GroupOk(reply: GroupReply)

  /** `addFileToGroup` makes a request (lines 42-45). */
  predicate GroupRequestAllowed(jwtToken: string, fileId: string) {
    Trim(jwtToken) != "" && fileId != ""
  }

  /** The gate refuses exactly a blank token or a missing file id. */
  lemma GroupGate(jwtToken: string, fileId: string)
    ensures GroupRequestAllowed(jwtToken, fileId) <==> !IsBlank(jwtToken) && fileId != ""
  {
    TrimEmptyIffBlank(jwtToken);
  }

  /** The error a group request that did not succeed leaves (lines 60-63, 71). */
  function GroupError(resp: GroupResponse): (r: string)
    requires !resp.GroupOk?
    ensures |r| >= |GroupErrorPrefix| && r[..|GroupErrorPrefix|] == GroupErrorPrefix
    ensures resp.GroupThrew? ==> r == GroupErrorPrefix + resp.message
    ensures resp.GroupNotOk? && resp.reason != "" ==> r == GroupErrorPrefix + resp.reason
    ensures resp.GroupNotOk? && resp.reason == "" ==> r == GroupErrorPrefix + GroupFallback
  {
    match resp
    case GroupThrew(m) => GroupErrorPrefix + m
    case GroupNotOk(reason) => GroupErrorPrefix + OrElse(reason, GroupFallback)
  }

  // ---------------------------------------------------------------------
  // The component
  // ---------------------------------------------------------------------

  /** What is sent by the upload (lines 100-109). */
  datatype UploadRequest = UploadRequest(file: LocalFile, network: string, name: Option<string>, token: string)

  class Uploader {
    var jwtToken: string
    var selectedFile: Option<LocalFile>
    var customFileName: string
    var isUploading: bool
    var isAddingToGroup: bool
    var uploadProgress: int
    var error: string
    var uploadResult: Option<UploadBody>
    var groupAddResult: Option<GroupReply>
    /** The token the running upload captured when it started. */
    var uploadToken: string

    /** Between handlers no group request is in flight, and while an upload
        runs the counter holds one of 10, 15, ..., 85 and the captured token
        is not blank. */
    predicate Valid()
      reads this
    {
      && !isAddingToGroup
      && (isUploading ==> OnTrack(uploadProgress) && !IsBlank(uploadToken))
    }

    /** First render (lines 6-14). */
    constructor ()
      ensures Valid()
      ensures jwtToken == "" && selectedFile == None && customFileName == ""
      ensures !isUploading && uploadProgress == 0 && error == ""
      ensures uploadResult == None && groupAddResult == None
    {
      jwtToken := "";
      selectedFile := None;
      customFileName := "";
      isUploading := false;
      isAddingToGroup := false;
      uploadProgress := 0;
      error := "";
      uploadResult := None;
      groupAddResult := None;
      uploadToken := "";
    }

    /** Typing in the token field (line 185). */
    method SetJwtToken(value: string)
      requires Valid()
      modifies this
      ensures Valid() && jwtToken == value
      ensures selectedFile == old(selectedFile) && customFileName == old(customFileName)
      ensures isUploading == old(isUploading) && uploadProgress == old(uploadProgress) && error == old(error)
      ensures uploadResult == old(uploadResult) && groupAddResult == old(groupAddResult) && uploadToken == old(uploadToken)
    {
      jwtToken := value;
    }

    /** Typing in the custom name field (line 211). */
    method SetCustomFileName(value: string)
      requires Valid()
      modifies this
      ensures Valid() && customFileName == value
      ensures jwtToken == old(jwtToken) && selectedFile == old(selectedFile)
      ensures isUploading == old(isUploading) && uploadProgress == old(uploadProgress) && error == old(error)
      ensures uploadResult == old(uploadResult) && groupAddResult == old(groupAddResult) && uploadToken == old(uploadToken)
    {
      customFileName := value;
    }

    /** `handleFileChange` (lines 20-25): a picked file replaces the
        selection and clears the error; an empty pick changes nothing. */
    method HandleFileChange(picked: Option<LocalFile>)
      requires Valid()
      modifies this
      ensures Valid()
      ensures selectedFile == (if picked.Some? then picked else old(selectedFile))
      ensures error == (if picked.Some? then "" else old(error))
      ensures jwtToken == old(jwtToken) && customFileName == old(customFileName)
      ensures isUploading == old(isUploading) && uploadProgress == old(uploadProgress)
      ensures uploadResult == old(uploadResult) && groupAddResult == old(groupAddResult) && uploadToken == old(uploadToken)
    {
      if picked.Some? {
        selectedFile := picked;
        error := "";
      }
    }

    /** `uploadToPrivateIpfs` up to the upload request (lines 79-133). The
        button is disabled while an upload runs. A failed check sets its
        error and sends nothing; otherwise the previous results are cleared,
        the counter starts at 10 and the request carries the file, the
        private network and the trimmed name if any. */
    method BeginUpload() returns (sent: Option<UploadRequest>)
      requires Valid() && !isUploading
      modifies this
      ensures Valid()
      ensures UploadCheck(old(jwtToken), old(selectedFile)).Some? ==>
        && sent == None && error == UploadCheck(old(jwtToken), old(selectedFile)).value
        && !isUploading && uploadProgress == old(uploadProgress)
        && uploadResult == old(uploadResult) && groupAddResult == old(groupAddResult)
      ensures UploadCheck(old(jwtToken), old(selectedFile)).None? ==>
        && sent == Some(UploadRequest(old(selectedFile).value, "private", UploadName(old(customFileName)), old(jwtToken)))
        && isUploading && uploadProgress == ProgressStart && error == ""
        && uploadResult == None && groupAddResult == None && uploadToken == old(jwtToken)
      ensures jwtToken == old(jwtToken) && selectedFile == old(selectedFile) && customFileName == old(customFileName)
    {
      var problem := UploadCheck(jwtToken, selectedFile);
      if problem.Some? {
        error := problem.value;
        return None;
      }
      var request := UploadRequest(selectedFile.value, "private", UploadName(customFileName), jwtToken);
      error := "";
      uploadResult := None;
      groupAddResult := None;
      isUploading := true;
      uploadProgress := ProgressStart;
      uploadToken := jwtToken;
      sent := Some(request);
    }

    /** One firing of the interval (lines 119-124); it only runs while an
        upload is in flight. The counter never reaches 90. */
    method Tick()
      requires Valid()
      modifies this
      ensures Valid()
      ensures uploadProgress == (if old(isUploading) then NextProgress(old(uploadProgress)) else old(uploadProgress))
      ensures isUploading ==> uploadProgress < ProgressCeiling
      ensures old(uploadProgress) <= uploadProgress
      ensures jwtToken == old(jwtToken) && selectedFile == old(selectedFile) && customFileName == old(customFileName)
      ensures isUploading == old(isUploading) && error == old(error)
      ensures uploadResult == old(uploadResult) && groupAddResult == old(groupAddResult) && uploadToken == old(uploadToken)
    {
      if isUploading {
        uploadProgress := NextProgress(uploadProgress);
      }
    }

    /** `addFileToGroup(fileId)` (lines 41-76) with `token` as the token it
        reads: no request without a token and a file id; otherwise the reply
        is kept on success and an error is set on failure. */
    method AddFileToGroup(token: string, fileId: string, resp: GroupResponse) returns (added: Option<GroupReply>)
      requires Valid()
      modifies this
      ensures Valid()
      ensures !GroupRequestAllowed(token, fileId) ==>
        added == None && error == GroupInputMessage && groupAddResult == old(groupAddResult)
      ensures GroupRequestAllowed(token, fileId) && resp.GroupOk? ==>
        added == Some(resp.reply) && groupAddResult == added && error == old(error)
      ensures GroupRequestAllowed(token, fileId) && !resp.GroupOk? ==>
        added == None && error == GroupError(resp) && groupAddResult == old(groupAddResult)
      ensures jwtToken == old(jwtToken) && selectedFile == old(selectedFile) && customFileName == old(customFileName)
      ensures isUploading == old(isUploading) && uploadProgress == old(uploadProgress)
      ensures uploadResult == old(uploadResult) && uploadToken == old(uploadToken)
    {
      if !GroupRequestAllowed(token, fileId) {
        error := GroupInputMessage;
        return None;
      }
      isAddingToGroup := true;
      if resp.GroupOk? {
        groupAddResult := Some(resp.reply);
        added := Some(resp.reply);
      } else {
        error := GroupError(resp);
        added := None;
      }
      isAddingToGroup := false;
    }

    /** The rest of `uploadToPrivateIpfs` (lines 136-165) once the attempt
        has settled as `settled`: a stored body is shown, the group request
        is made when a file id came back, and the selection and custom name
        are cleared; a failure only sets the error. Either way the counter
        ends at 100 (the `finally`) and the upload is over. A group request
        is only ever made for a file id that is present. */
    method ApplySettled(settled: Settled, group: GroupResponse)
      requires Valid() && isUploading
      requires settled.Stored? && settled.groupFileId.Some? ==> settled.groupFileId.value != ""
      modifies this
      ensures Valid()
      ensures !isUploading && uploadProgress == ProgressDone
      ensures uploadResult == (if settled.Stored? then Some(settled.body) else old(uploadResult))
      ensures settled.Threw? ==>
        && error == ThrownError(settled.message)
        && selectedFile == old(selectedFile) && customFileName == old(customFileName)
        && groupAddResult == old(groupAddResult)
      ensures settled.Stored? ==> selectedFile == None && customFileName == ""
      ensures settled.Stored? && settled.groupFileId.None? ==>
        error == old(error) && groupAddResult == old(groupAddResult)
      ensures settled.Stored? && settled.groupFileId.Some? ==>
        if group.GroupOk? then groupAddResult == Some(group.reply) && error == old(error)
        else groupAddResult == old(groupAddResult) && error == GroupError(group)
      ensures jwtToken == old(jwtToken)
    {
      if settled.Stored? {
        uploadResult := Some(settled.body);
        if settled.groupFileId.Some? {
          TrimEmptyIffBlank(uploadToken);
          var _ := AddFileToGroup(uploadToken, settled.groupFileId.value, group);
        }
        selectedFile := None;
        customFileName := "";
        uploadProgress := ProgressDone;
      } else {
        uploadProgress := ProgressDone;
        error := ThrownError(settled.message);
      }
      isUploading := false;
    }

    /** The end of the upload with the guard of line 147 protecting the
        read of the file id (`Settle`): every ok body is shown. */
    method FinishUpload(resp: UploadResponse, group: GroupResponse)
      requires Valid() && isUploading
      modifies this
      ensures Valid()
      ensures !isUploading && uploadProgress == ProgressDone
      ensures uploadResult == (if resp.UploadOk? then Some(resp.body) else old(uploadResult))
      ensures resp.UploadOk? ==> selectedFile == None && customFileName == ""
      ensures !resp.UploadOk? ==>
        && error == ThrownError(Settle(resp).message)
        && selectedFile == old(selectedFile) && customFileName == old(customFileName)
        && groupAddResult == old(groupAddResult)
      ensures resp.UploadOk? && (resp.body.data.None? || resp.body.data.value.id == "") ==>
        error == old(error) && groupAddResult == old(groupAddResult)
      ensures resp.UploadOk? && resp.body.data.Some? && resp.body.data.value.id != "" ==>
        if group.GroupOk? then groupAddResult == Some(group.reply) && error == old(error)
        else groupAddResult == old(groupAddResult) && error == GroupError(group)
      ensures jwtToken == old(jwtToken)
    {
      var settled := Settle(resp);
      ApplySettled(settled, group);
    }

    /** The end of the upload as written (`SettleAsWritten`): an ok body
        without `data` throws at line 143, so the catch shows the TypeError,
        no result is stored and the selection and custom name are kept;
        the `finally` still sets the counter to 100. */
    method FinishUploadAsWritten(resp: UploadResponse, group: GroupResponse)
      requires Valid() && isUploading
      modifies this
      ensures Valid()
      ensures !isUploading && uploadProgress == ProgressDone
      ensures resp == UploadOk(UploadBody(None)) ==>
        && error == DataIdTypeError && uploadResult == old(uploadResult)
        && selectedFile == old(selectedFile) && customFileName == old(customFileName)
        && groupAddResult == old(groupAddResult)
      ensures resp != UploadOk(UploadBody(None)) ==>
        && uploadResult == (if resp.UploadOk? then Some(resp.body) else old(uploadResult))
        && (resp.UploadOk? ==> selectedFile == None && customFileName == "")
        && (!resp.UploadOk? ==> error == ThrownError(Settle(resp).message))
      ensures resp != UploadOk(UploadBody(None)) && !resp.UploadOk? ==>
        && selectedFile == old(selectedFile) && customFileName == old(customFileName)
        && groupAddResult == old(groupAddResult)
      ensures resp.UploadOk? && resp.body.data.Some? && resp.body.data.value.id == "" ==>
        error == old(error) && groupAddResult == old(groupAddResult)
      ensures resp.UploadOk? && resp.body.data.Some? && resp.body.data.value.id != "" ==>
        if group.GroupOk? then groupAddResult == Some(group.reply) && error == old(error)
        else groupAddResult == old(groupAddResult) && error == GroupError(group)
      ensures jwtToken == old(jwtToken)
    {
      SettleAgreesWithAsWritten(resp);
      ApplySettled(SettleAsWritten(resp), group);
    }
  }
}
