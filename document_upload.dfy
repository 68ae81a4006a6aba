/** The case-document uploader (src/components/DocumentUpload.js): a role
    gate, a 10 MiB size gate on the picked file, the checks a submission must
    pass in order, and the result state after the backend answers. The upload
    itself is split in two: `BeginSubmit` runs up to the first `await`, and
    `FinishSubmit` applies what the backend answered. */
module DocumentUpload {
  import opened Common

  /** `10 * 1024 * 1024`: the largest accepted file, in bytes. */
  const MaxFileSize: nat := 10 * 1024 * 1024

  const SizeMessage: string := "File size exceeds 10MB limit"
  const NoFileMessage: string := "Please select a file to upload"
  const NoCaseMessage: string := "Case ID is required"
  const ResultFallback: string := "Upload failed"
  const ErrorFallback: string := "Failed to upload document. Please try again."

  /** `['lawyer', 'forensic_expert'].includes(userRole)`. */
  predicate CanUpload(role: string) {
    role in ["lawyer", "forensic_expert"]
  }

  /** The selected file and the error after a file is picked. */
  datatype FileChange = FileChange(file: Option<LocalFile>, error: string)

  /** `handleFileChange` (lines 20-29): a file over the limit is refused and
      drops the selection; anything else is taken and clears the error. */
  function FileSelection(picked: Option<LocalFile>): (r: FileChange)
    ensures r.file.Some? ==> r.file.value.size <= MaxFileSize
    ensures r.error == "" <==> r.file == picked
    ensures r.error != "" ==> r.error == SizeMessage && r.file == None
    ensures picked.Some? ==> (r.file == picked <==> picked.value.size <= MaxFileSize)
  {
    if picked.Some? && picked.value.size > MaxFileSize then FileChange(None, SizeMessage)
    else FileChange(picked, "")
  }

  /** The limit itself is accepted; one byte more is refused. */
  lemma SizeLimitBoundary(name: string)
    ensures FileSelection(Some(LocalFile(name, 10485760))).file.Some?
    ensures FileSelection(Some(LocalFile(name, 10485761))).file.None?
  {
  }

  /** The checks of `handleSubmit` (lines 34-42), in their order: the file
      first, then the case id; `None` means both passed. */
  function SubmitCheck(file: Option<LocalFile>, caseId: string): (r: Option<string>)
    ensures r == None <==> file.Some? && caseId != ""
    ensures file.None? ==> r == Some(NoFileMessage)
    ensures file.Some? && caseId == "" ==> r == Some(NoCaseMessage)
  {
    if file.None? then Some(NoFileMessage)
    else if caseId == "" then Some(NoCaseMessage)
    else None
  }

  /** `disabled={uploading || !file || !localCaseId}` (line 148). */
  predicate SubmitDisabled(uploading: bool, file: Option<LocalFile>, caseId: string) {
    uploading || file.None? || caseId == ""
  }

  /** The button is enabled exactly when nothing is in flight and the
      submission checks would pass. */
  lemma EnabledIffChecksPass(uploading: bool, file: Option<LocalFile>, caseId: string)
    ensures !SubmitDisabled(uploading, file, caseId) <==> !uploading && SubmitCheck(file, caseId) == None
  {
  }

  /** What is sent: the file and the case id (lines 49-51). */
  datatype Submission = Submission(file: LocalFile, caseId: string)

  /** What the upload chain ended with: the backend's reply, or a failure
      carrying `err.response.data.message` and `err.response.data.msg`
      (each `""` when absent, as when the storage upload itself failed). */
  datatype BackendReply =
    | Posted(message: string, ipfsHash: string, txHash: string)
    | Rejected(message: string, msg: string)

  /** The `uploadResult` state: never set, `success: true` with the
      backend's fields, or `success: false` with a message. */
  datatype UploadResult =
    | NoResult
    | Succeeded(message: string, ipfsHash: string, txHash: string)
    | FailedUpload(message: string)

  /** The result shown once the backend answered (lines 67-82). */
  function SettledResult(reply: BackendReply): (r: UploadResult)
    ensures r.Succeeded? <==> reply.Posted?
    ensures reply.Posted? ==> r == Succeeded(reply.message, reply.ipfsHash, reply.txHash)
    ensures reply.Rejected? ==> r.FailedUpload? && r.message != ""
    ensures reply.Rejected? && reply.message != "" ==> r.message == reply.message
    ensures reply.Rejected? && reply.message == "" ==> r.message == ResultFallback
  {
    match reply
    case Posted(m, h, t) => Succeeded(m, h, t)
    case Rejected(m, _) => FailedUpload(OrElse(m, ResultFallback))
  }

  /** The error once the backend answered (line 83): unchanged on success,
      the backend's `msg` or the fixed default on failure. */
  function SettledError(previous: string, reply: BackendReply): (r: string)
    ensures reply.Posted? ==> r == previous
    ensures reply.Rejected? ==> r != "" && (reply.msg != "" ==> r == reply.msg) && (reply.msg == "" ==> r == ErrorFallback)
  {
    match reply
    case Posted(_, _, _) => previous
    case Rejected(_, msg) => OrElse(msg, ErrorFallback)
  }

  class DocumentUploader {
    const userRole: string
    /** The `caseId` prop; `""` stands for any falsy prop. */
    var caseIdProp: string
    var file: Option<LocalFile>
    var uploading: bool
    var uploadResult: UploadResult
    var error: string
    var localCaseId: string

    /** First render (lines 5-10). */
    constructor (role: string, caseId: string)
      ensures userRole == role && caseIdProp == caseId && localCaseId == caseId
      ensures file == None && !uploading && uploadResult == NoResult && error == ""
    {
      userRole := role;
      caseIdProp := caseId;
      localCaseId := caseId;
      file := None;
      uploading := false;
      uploadResult := NoResult;
      error := "";
    }

    /** The submit button is enabled (line 148). */
    predicate SubmitEnabled()
      reads this
    {
      !SubmitDisabled(uploading, file, localCaseId)
    }

    /** A file was picked, or the picker was emptied. */
    method HandleFileChange(picked: Option<LocalFile>)
      modifies this
      ensures file == FileSelection(picked).file && error == FileSelection(picked).error
      ensures file.Some? ==> file.value.size <= MaxFileSize
      ensures caseIdProp == old(caseIdProp) && uploading == old(uploading)
      ensures uploadResult == old(uploadResult) && localCaseId == old(localCaseId)
    {
      var change := FileSelection(picked);
      file := change.file;
      error := change.error;
    }

    /** The case-id input (lines 89-91). */
    method HandleCaseIdChange(value: string)
      modifies this
      ensures localCaseId == value
      ensures caseIdProp == old(caseIdProp) && file == old(file) && uploading == old(uploading)
      ensures uploadResult == old(uploadResult) && error == old(error)
    {
      localCaseId := value;
    }

    /** A re-render with prop `caseId` (lines 16-18): the effect runs only
        when the prop changed, and then overwrites the local case id. */
    method SyncCaseId(caseId: string)
      modifies this
      ensures caseIdProp == caseId
      ensures localCaseId == (if caseId != old(caseIdProp) then caseId else old(localCaseId))
      ensures file == old(file) && uploading == old(uploading)
      ensures uploadResult == old(uploadResult) && error == old(error)
    {
      if caseId != caseIdProp {
        localCaseId := caseId;
      }
      caseIdProp := caseId;
    }

    /** `handleSubmit` up to its first `await` (lines 31-53). The form is only
        rendered for a permitted role, and a second submission while one is
        in flight is not possible. A failed check sets its error and sends
        nothing; otherwise the upload starts with the error cleared. */
    method BeginSubmit() returns (sent: Option<Submission>)
      requires CanUpload(userRole) && !uploading
      modifies this
      ensures SubmitCheck(old(file), old(localCaseId)).Some? ==>
        && sent == None && error == SubmitCheck(old(file), old(localCaseId)).value && !uploading
      ensures SubmitCheck(old(file), old(localCaseId)).None? ==>
        && sent == Some(Submission(old(file).value, old(localCaseId)))
        && uploading && error == ""
      ensures caseIdProp == old(caseIdProp) && file == old(file) && localCaseId == old(localCaseId)
      ensures uploadResult == old(uploadResult)
    {
      var problem := SubmitCheck(file, localCaseId);
      if problem.Some? {
        error := problem.value;
        return None;
      }
      uploading := true;
      error := "";
      sent := Some(Submission(file.value, localCaseId));
    }

    /** The rest of `handleSubmit` (lines 53-86): record the result; on
        success drop the selected file, on failure show the error; the
        upload is no longer in flight either way. */
    method FinishSubmit(reply: BackendReply)
      requires uploading
      modifies this
      ensures !uploading
      ensures uploadResult == SettledResult(reply)
      ensures error == SettledError(old(error), reply)
      ensures file == (if reply.Posted? then None else old(file))
      ensures caseIdProp == old(caseIdProp) && localCaseId == old(localCaseId)
    {
      uploadResult := SettledResult(reply);
      if reply.Posted? {
        file := None;
      }
      error := SettledError(error, reply);
      uploading := false;
    }
  }
}
