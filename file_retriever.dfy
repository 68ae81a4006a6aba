/** The state of the private-file retriever component
    (src/components/IPFSFileRetriever.js): the JWT and CID inputs, the list of
    retrieved files, the loading flag, the error message and the active tab,
    plus what the component last wrote to `localStorage`. Each handler is one
    method; what the network answered is passed in, and `now` is the clock in
    milliseconds. */
module FileRetriever {
  import opened Common
  import opened LinkIssuer
  import opened LinkCache

  datatype Tab = RetrieveTab | FilesTab

  /** What `localStorage.getItem('retrievedPinataFiles')` gave on mount:
      nothing, text that `JSON.parse` rejects, or a parsed list. */
  datatype SavedList = NothingSaved | Unparsable | Parsed(files: seq<FileRecord>)

  const MissingInputMessage: string := "Please provide both JWT and CID"
  const RetrieveFallbackMessage: string := "Failed to retrieve file"
  const RegeneratePrefix: string := "Failed to regenerate link: "
  const ExpiredLinkMessage: string := "This link has expired. Please regenerate the link."

  class Retriever {
    var jwt: string
    var cid: string
    var files: seq<FileRecord>
    var loading: bool
    var error: string
    var activeTab: Tab
    /** The value under `pinataJwt` in `localStorage`. */
    var storedJwt: string
    /** The list under `retrievedPinataFiles` in `localStorage`. */
    var storedFiles: seq<FileRecord>

    /** The persistence effects have run: the list is saved after every
        change, and a non-empty JWT is saved whenever it changes. */
    predicate Valid()
      reads this
    {
      storedFiles == files && (jwt != "" ==> storedJwt == jwt)
    }

    /** Mounting with what `localStorage` holds (lines 12-26): a non-empty
        saved JWT is restored; a saved list is restored if it parses, and an
        unparsable one leaves the list empty. */
    constructor (savedJwt: string, saved: SavedList)
      ensures Valid()
      ensures jwt == savedJwt && storedJwt == savedJwt && cid == ""
      ensures files == (if saved.Parsed? then saved.files else [])
      ensures !loading && error == "" && activeTab == RetrieveTab
    {
      jwt := savedJwt;
      storedJwt := savedJwt;
      cid := "";
      files := if saved.Parsed? then saved.files else [];
      storedFiles := files;
      loading := false;
      error := "";
      activeTab := RetrieveTab;
    }

    /** Typing in the JWT field; a non-empty value is saved. */
    method SetJwt(value: string)
      requires Valid()
      modifies this
      ensures Valid()
      ensures jwt == value && storedJwt == (if value != "" then value else old(storedJwt))
      ensures cid == old(cid) && files == old(files) && loading == old(loading)
      ensures error == old(error) && activeTab == old(activeTab) && storedFiles == old(storedFiles)
    {
      jwt := value;
      if value != "" {
        storedJwt := value;
      }
    }

    /** Typing in the CID field (line 298). */
    method SetCid(value: string)
      requires Valid()
      modifies this
      ensures Valid()
      ensures cid == value
      ensures jwt == old(jwt) && files == old(files) && loading == old(loading) && error == old(error)
      ensures activeTab == old(activeTab) && storedJwt == old(storedJwt) && storedFiles == old(storedFiles)
    {
      cid := value;
    }

    /** `retrieveFile` (lines 40-142): with both inputs present, ask for a
        signed link; on success build the record from the probe and upsert it
        by CID, then show the files tab; on failure keep the list and show the
        error. Without both inputs nothing is requested. */
    method RetrieveFile(issuance: Issuance, probe: Probe, now: int)
      requires Valid()
      modifies this
      ensures Valid()
      ensures jwt == old(jwt) && cid == old(cid) && storedJwt == old(storedJwt)
      ensures old(jwt) == "" || old(cid) == "" ==>
        && error == MissingInputMessage && files == old(files)
        && loading == old(loading) && activeTab == old(activeTab)
      ensures old(jwt) != "" && old(cid) != "" ==>
        && !loading
        && match IssuedUrl(issuance)
           case Url(u) =>
             files == Upsert(old(files), NewRecord(old(cid), u, probe, now)) && error == "" && activeTab == FilesTab
           case Failed(m) =>
             files == old(files) && error == OrElse(m, RetrieveFallbackMessage) && activeTab == old(activeTab)
      ensures UniqueCids(old(files)) ==> UniqueCids(files)
    {
      if jwt == "" || cid == "" {
        error := MissingInputMessage;
        return;
      }
      loading := true;
      error := "";
      var outcome := IssuedUrl(issuance);
      if outcome.Url? {
        var rec := NewRecord(cid, outcome.url, probe, now);
        if UniqueCids(files) {
          UpsertKeepsUnique(files, rec);
        }
        files := Upsert(files, rec);
        storedFiles := files;
        activeTab := FilesTab;
      } else {
        error := OrElse(outcome.message, RetrieveFallbackMessage);
      }
      loading := false;
    }

    /** `regenerateLink` (lines 144-200): for an existing entry and a
        non-empty JWT, ask for a new signed link and refresh that entry only.
        An index with no entry, or an empty JWT, does nothing at all. */
    method RegenerateLink(index: int, issuance: Issuance, now: int)
      requires Valid()
      modifies this
      ensures Valid()
      ensures jwt == old(jwt) && cid == old(cid) && storedJwt == old(storedJwt) && activeTab == old(activeTab)
      ensures !(0 <= index < |old(files)|) || old(jwt) == "" ==>
        files == old(files) && error == old(error) && loading == old(loading)
      ensures 0 <= index < |old(files)| && old(jwt) != "" ==>
        && !loading
        && match IssuedUrl(issuance)
           case Url(u) => files == Regenerated(old(files), index, u, now) && error == old(error)
           case Failed(m) => files == old(files) && error == RegeneratePrefix + m
      ensures UniqueCids(old(files)) ==> UniqueCids(files)
      ensures |files| == |old(files)|
    {
      if !(0 <= index < |files|) || jwt == "" {
        return;
      }
      loading := true;
      var outcome := IssuedUrl(issuance);
      if outcome.Url? {
        RegenerateKeepsIdentity(files, index, outcome.url, now);
        files := Regenerated(files, index, outcome.url, now);
        storedFiles := files;
      } else {
        error := RegeneratePrefix + outcome.message;
      }
      loading := false;
    }

    /** `removeFile` (lines 220-224): `splice(index, 1)` on a copy. */
    method RemoveFile(index: int)
      requires Valid()
      modifies this
      ensures Valid()
      ensures files == Spliced(old(files), index)
      ensures 0 <= index < |old(files)| ==> |files| == |old(files)| - 1
      ensures UniqueCids(old(files)) && 0 <= index < |old(files)| ==> !HasCid(files, old(files)[index].cid)
      ensures UniqueCids(old(files)) ==> UniqueCids(files)
      ensures jwt == old(jwt) && cid == old(cid) && loading == old(loading) && error == old(error)
      ensures activeTab == old(activeTab) && storedJwt == old(storedJwt)
    {
      if 0 <= index < |files| {
        RemoveDropsOne(files, index);
        if UniqueCids(files) {
          RemoveKeepsUnique(files, index);
        }
      } else if UniqueCids(files) {
        var k := SpliceStart(|files|, index);
        if k < |files| {
          RemoveKeepsUnique(files, k);
        }
      }
      files := Spliced(files, index);
      storedFiles := files;
    }

    /** The Clear All button (line 346). */
    method ClearAll()
      requires Valid()
      modifies this
      ensures Valid()
      ensures files == [] && storedFiles == []
      ensures jwt == old(jwt) && cid == old(cid) && loading == old(loading) && error == old(error)
      ensures activeTab == old(activeTab) && storedJwt == old(storedJwt)
    {
      files := [];
      storedFiles := [];
    }

    /** Clicking View File on entry `index` (lines 397-402): an expired link is
        not followed and the error asks for regeneration. */
    method ViewFile(index: nat, now: int) returns (followed: bool)
      requires Valid() && index < |files|
      modifies this
      ensures Valid()
      ensures followed <==> !IsExpired(old(files)[index].expiresAt, now)
      ensures error == (if followed then old(error) else ExpiredLinkMessage)
      ensures jwt == old(jwt) && cid == old(cid) && files == old(files) && loading == old(loading)
      ensures activeTab == old(activeTab) && storedJwt == old(storedJwt) && storedFiles == old(storedFiles)
    {
      followed := !IsExpired(files[index].expiresAt, now);
      if !followed {
        error := ExpiredLinkMessage;
      }
    }
  }
}
