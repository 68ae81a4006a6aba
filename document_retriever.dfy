/** The judge's document list (src/components/DocumentRetriever.js): the
    judge-only gate, fetching the case's documents when the case id prop is
    set or changes, and the public gateway link for a document. */
module DocumentRetriever {
  import opened Common

  const PublicGatewayPrefix: string := "https://gateway.pinata.cloud/ipfs/"
  const NoCaseMessage: string := "Case ID is required"
  const RefusedFallback: string := "Failed to retrieve documents"
  const ThrewFallback: string := "Failed to retrieve documents. Please try again."

  /** `userRole === 'judge'` (line 10). */
  predicate CanRetrieve(role: string) {
    role == "judge"
  }

  /** A document as listed by the backend. */
  datatype Document = Document(cid: string, name: string)

  /** How `GET /api/documents` ended: an answer with `success`, `files`
      (absent or null as `None`) and `message`, or a throw carrying
      `err.response.data.msg` (`""` when absent). */
  datatype FetchReply =
    | Answered(success: bool, files: Option<seq<Document>>, message: string)
    | FetchThrew(msg: string)

  /** The list and the error after the answer (lines 33-41). */
  datatype Fetched = Fetched(documents: seq<Document>, error: string)

  function ApplyReply(previous: seq<Document>, reply: FetchReply): (r: Fetched)
    ensures reply.Answered? && reply.success ==> r.error == "" && r.documents == reply.files.GetOr([])
    ensures reply.Answered? && reply.success && reply.files.None? ==> r.documents == []
    ensures !(reply.Answered? && reply.success) ==> r.documents == previous && r.error != ""
    ensures reply.Answered? && !reply.success ==> r.error == OrElse(reply.message, RefusedFallback)
    ensures reply.FetchThrew? ==> r.error == OrElse(reply.msg, ThrewFallback)
  {
    match reply
    case Answered(success, files, message) =>
      if success then Fetched(files.GetOr([]), "") else Fetched(previous, OrElse(message, RefusedFallback))
    case FetchThrew(msg) => Fetched(previous, OrElse(msg, ThrewFallback))
  }

  /** `viewDocument` (line 56): the public gateway link for a CID. */
  function ViewUrl(cid: string): (r: string)
    ensures |r| == |PublicGatewayPrefix| + |cid|
    ensures r[..|PublicGatewayPrefix|] == PublicGatewayPrefix && r[|PublicGatewayPrefix|..] == cid
  {
    PublicGatewayPrefix + cid
  }

  /** The link determines the CID: different documents get different links. */
  lemma ViewUrlInjective(a: string, b: string)
    requires ViewUrl(a) == ViewUrl(b)
    ensures a == b
  {
    assert a == ViewUrl(a)[|PublicGatewayPrefix|..];
  }

  class Retriever {
    const userRole: string
    /** The `caseId` prop; `""` stands for any falsy prop. */
    var caseId: string
    var documents: seq<Document>
    var loading: bool
    var error: string

    /** First render (lines 4-7). The effect that follows is `RunEffect`. */
    constructor (role: string, caseIdProp: string)
      ensures userRole == role && caseId == caseIdProp
      ensures documents == [] && !loading && error == ""
    {
      userRole := role;
      caseId := caseIdProp;
      documents := [];
      loading := false;
      error := "";
    }

    /** `fetchDocuments` (lines 12-45): without a case id nothing is
        requested; otherwise the answer updates the list or the error. */
    method FetchDocuments(reply: FetchReply) returns (requested: bool)
      modifies this
      ensures requested <==> old(caseId) != ""
      ensures !requested ==> error == NoCaseMessage && documents == old(documents) && loading == old(loading)
      ensures requested ==>
        && !loading
        && documents == ApplyReply(old(documents), reply).documents
        && error == ApplyReply(old(documents), reply).error
      ensures caseId == old(caseId)
    {
      if caseId == "" {
        error := NoCaseMessage;
        return false;
      }
      loading := true;
      error := "";
      var next := ApplyReply(documents, reply);
      documents := next.documents;
      error := next.error;
      loading := false;
      requested := true;
    }

    /** The effect on mount and on every change of the case id (lines 48-52):
        it fetches only for a judge with a case id. */
    method RunEffect(reply: FetchReply) returns (requested: bool)
      modifies this
      ensures requested <==> CanRetrieve(userRole) && old(caseId) != ""
      ensures !requested ==> documents == old(documents) && error == old(error) && loading == old(loading)
      ensures requested ==>
        && !loading
        && documents == ApplyReply(old(documents), reply).documents
        && error == ApplyReply(old(documents), reply).error
      ensures caseId == old(caseId)
    {
      requested := false;
      if CanRetrieve(userRole) && caseId != "" {
        requested := FetchDocuments(reply);
      }
    }

    /** The parent passes a new case id; the effect then runs if it changed. */
    method ChangeCaseId(value: string, reply: FetchReply) returns (requested: bool)
      modifies this
      ensures caseId == value
      ensures requested <==> value != old(caseId) && CanRetrieve(userRole) && value != ""
      ensures !requested ==> documents == old(documents) && error == old(error) && loading == old(loading)
      ensures requested ==>
        && !loading
        && documents == ApplyReply(old(documents), reply).documents
        && error == ApplyReply(old(documents), reply).error
    {
      var changed := value != caseId;
      caseId := value;
      requested := false;
      if changed {
        requested := RunEffect(reply);
      }
    }
  }
}
