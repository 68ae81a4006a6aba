/** The list of retrieved files that src/components/IPFSFileRetriever.js keeps
    in its `retrievedFiles` state: one record per CID, ordered by first
    retrieval, latest first (a refresh keeps an entry where it is), with the
    operations that build the next list (upsert by CID, regenerate at an
    index, remove at an index) and the expiry test. Times are milliseconds
    since the epoch. */
module LinkCache {
  import opened Common
  import opened LinkIssuer

  /** One entry: the CID, the signed URL, when it was issued (`timestamp`),
      when it stops working (`expiresAt`), and the display name and type. */
  datatype FileRecord = FileRecord(
    cid: string,
    downloadUrl: string,
    timestamp: int,
    expiresAt: int,
    fileName: string,
    fileType: string)

  /** No two entries share a CID. */
  predicate UniqueCids(files: seq<FileRecord>) {
    forall i, j :: 0 <= i < j < |files| ==> files[i].cid != files[j].cid
  }

  /** Some entry has this CID. */
  predicate HasCid(files: seq<FileRecord>, cid: string) {
    exists i :: 0 <= i < |files| && files[i].cid == cid
  }

  /** The record built after a successful issuance at time `now`
      (IPFSFileRetriever.js:111-118). */
  function NewRecord(cid: string, url: string, probe: Probe, now: int): FileRecord {
    FileRecord(cid, url, now, now + TtlMillis, ResolvedFileName(cid, probe), ResolvedFileType(probe))
  }

  /** `files.findIndex(file => file.cid === cid)`. */
  function FindIndex(files: seq<FileRecord>, cid: string): (r: int)
    ensures -1 <= r < |files|
    ensures r == -1 <==> !HasCid(files, cid)
    ensures r >= 0 ==> files[r].cid == cid && forall j :: 0 <= j < r ==> files[j].cid != cid
  {
    if files == [] then -1
    else if files[0].cid == cid then 0
    else
      var k := FindIndex(files[1..], cid);
      assert HasCid(files[1..], cid) ==> HasCid(files, cid);
      assert HasCid(files, cid) && files[0].cid != cid ==> HasCid(files[1..], cid) by {
        if HasCid(files, cid) && files[0].cid != cid {
          var i :| 0 <= i < |files| && files[i].cid == cid;
          assert files[1..][i - 1].cid == cid;
        }
      }
      if k == -1 then -1 else k + 1
  }

  /** The list after `rec` is stored (IPFSFileRetriever.js:121-131): it
      replaces the first entry with the same CID, or goes in front. */
  function Upsert(files: seq<FileRecord>, rec: FileRecord): seq<FileRecord> {
    var k := FindIndex(files, rec.cid);
    if k >= 0 then files[k := rec] else [rec] + files
  }

  /** The entry with fresh URL and times and the same CID, name and type
      (IPFSFileRetriever.js:185-190). */
  function Refreshed(file: FileRecord, url: string, now: int): FileRecord {
    file.(downloadUrl := url, timestamp := now, expiresAt := now + TtlMillis)
  }

  /** The list after entry `i` is regenerated. */
  function Regenerated(files: seq<FileRecord>, i: nat, url: string, now: int): seq<FileRecord>
    requires i < |files|
  {
    files[i := Refreshed(files[i], url, now)]
  }

  /** Where `splice(index, 1)` starts: a negative index counts from the end,
      and both ends are clamped to the list. */
  function SpliceStart(len: nat, index: int): (k: nat)
    ensures k <= len
  {
    if index < 0 then (if len + index < 0 then 0 else len + index)
    else if index > len then len
    else index
  }

  /** The list after `updatedFiles.splice(index, 1)` (IPFSFileRetriever.js:220-224). */
  function Spliced(files: seq<FileRecord>, index: int): seq<FileRecord> {
    var k := SpliceStart(|files|, index);
    if k < |files| then files[..k] + files[k + 1..] else files
  }

  /** `new Date(expiresAt) < new Date()`: strictly past the expiry instant. */
  predicate IsExpired(expiresAt: int, now: int) {
    expiresAt < now
  }

  // ---------------------------------------------------------------------
  // Upsert
  // ---------------------------------------------------------------------

  /** An existing CID: only its first entry changes, to `rec`, and the length stays. */
  lemma UpsertReplaces(files: seq<FileRecord>, rec: FileRecord, i: nat)
    requires i < |files| && files[i].cid == rec.cid
    requires forall j :: 0 <= j < i ==> files[j].cid != rec.cid
    ensures |Upsert(files, rec)| == |files|
    ensures Upsert(files, rec)[i] == rec
    ensures forall j :: 0 <= j < |files| && j != i ==> Upsert(files, rec)[j] == files[j]
  {
    var k := FindIndex(files, rec.cid);
    assert HasCid(files, rec.cid);
  }

  /** A new CID: `rec` is put in front of the unchanged list. */
  lemma UpsertPrepends(files: seq<FileRecord>, rec: FileRecord)
    requires !HasCid(files, rec.cid)
    ensures Upsert(files, rec) == [rec] + files
    ensures |Upsert(files, rec)| == |files| + 1
  {
  }

  /** Upsert keeps the CIDs unique and leaves exactly one entry for the
      stored CID, which is the new record. */
  lemma UpsertKeepsUnique(files: seq<FileRecord>, rec: FileRecord)
    requires UniqueCids(files)
    ensures var r := Upsert(files, rec);
            && UniqueCids(r)
            && exists i :: 0 <= i < |r| && r[i] == rec && forall j :: 0 <= j < |r| && r[j].cid == rec.cid ==> j == i
  {
    var k := FindIndex(files, rec.cid);
    var r := Upsert(files, rec);
    if k >= 0 {
      forall j | 0 <= j < |r| && r[j].cid == rec.cid
        ensures j == k
      {
      }
      assert r[k] == rec;
    } else {
      forall i, j | 0 <= i < j < |r|
        ensures r[i].cid != r[j].cid
      {
        if i == 0 {
          assert r[j] == files[j - 1];
        } else {
          assert r[i] == files[i - 1] && r[j] == files[j - 1];
        }
      }
      forall j | 0 <= j < |r| && r[j].cid == rec.cid
        ensures j == 0
      {
      }
      assert r[0] == rec;
    }
  }

  /** Re-issuing a link for the same CID is the same as issuing only the
      second: the first record is overwritten, never duplicated. */
  lemma {:induction false} UpsertSameCidOverwrites(files: seq<FileRecord>, first: FileRecord, second: FileRecord)
    requires first.cid == second.cid
    ensures Upsert(Upsert(files, first), second) == Upsert(files, second)
  {
    var k := FindIndex(files, first.cid);
    var once := Upsert(files, first);
    if k >= 0 {
      UpsertReplaces(files, first, k);
      assert forall j :: 0 <= j < k ==> once[j] == files[j];
      UpsertReplaces(once, second, k);
      assert Upsert(once, second) == files[k := second];
    } else {
      assert once[0] == first;
      assert FindIndex(once, second.cid) == 0;
    }
  }

  // ---------------------------------------------------------------------
  // Regenerate and remove
  // ---------------------------------------------------------------------

  /** Regeneration touches only entry `i`; it keeps the entry's CID, name and
      type, takes the new URL and a fresh ten-day window, and keeps the CIDs unique. */
  lemma RegenerateKeepsIdentity(files: seq<FileRecord>, i: nat, url: string, now: int)
    requires i < |files|
    ensures var r := Regenerated(files, i, url, now);
            && |r| == |files|
            && r[i].cid == files[i].cid && r[i].fileName == files[i].fileName && r[i].fileType == files[i].fileType
            && r[i].downloadUrl == url && r[i].timestamp == now && r[i].expiresAt == now + TtlMillis
            && (forall j :: 0 <= j < |files| && j != i ==> r[j] == files[j])
            && (UniqueCids(files) ==> UniqueCids(r))
  {
  }

  /** Removing index `i` of the list drops exactly that entry and keeps the others in order. */
  lemma RemoveDropsOne(files: seq<FileRecord>, i: nat)
    requires i < |files|
    ensures var r := Spliced(files, i);
            && |r| == |files| - 1
            && (forall j :: 0 <= j < i ==> r[j] == files[j])
            && (forall j :: i <= j < |r| ==> r[j] == files[j + 1])
  {
  }

  /** An index past the end removes nothing; a negative one counts from the end. */
  lemma RemoveOutOfRange(files: seq<FileRecord>, index: int)
    ensures index >= |files| ==> Spliced(files, index) == files
    ensures -|files| <= index < 0 ==> Spliced(files, index) == Spliced(files, |files| + index)
  {
  }

  /** Removing keeps the CIDs unique, and with unique CIDs the removed CID is gone. */
  lemma RemoveKeepsUnique(files: seq<FileRecord>, i: nat)
    requires i < |files| && UniqueCids(files)
    ensures UniqueCids(Spliced(files, i))
    ensures !HasCid(Spliced(files, i), files[i].cid)
  {
    var r := Spliced(files, i);
    RemoveDropsOne(files, i);
    forall a, b | 0 <= a < b < |r|
      ensures r[a].cid != r[b].cid
    {
      var a' := if a < i then a else a + 1;
      var b' := if b < i then b else b + 1;
      assert r[a] == files[a'] && r[b] == files[b'];
    }
  }

  // ---------------------------------------------------------------------
  // Expiry
  // ---------------------------------------------------------------------

  /** A new record carries the ten-day window the link was requested for,
      is still valid at exactly `expiresAt`, and is expired one millisecond later. */
  lemma NewRecordWindow(cid: string, url: string, probe: Probe, now: int)
    ensures var rec := NewRecord(cid, url, probe, now);
            && rec.cid == cid && rec.downloadUrl == url && rec.timestamp == now
            && rec.expiresAt - rec.timestamp == BuildLinkRequest(cid, now).expires * 1000
            && !IsExpired(rec.expiresAt, now + TtlMillis)
            && IsExpired(rec.expiresAt, now + TtlMillis + 1)
  {
  }

  /** Once expired, a link stays expired as time goes on. */
  lemma ExpiryIsMonotone(expiresAt: int, t: int, later: int)
    requires t <= later && IsExpired(expiresAt, t)
    ensures IsExpired(expiresAt, later)
  {
  }

  /** The link is requested at `requestedAt` (line 58) but the record is
      stamped at `now`, after the request and the probe have answered
      (lines 114-115). The stored `expiresAt` is therefore never earlier
      than the end of the link's real lifetime, and later by the time the
      round trips took plus the milliseconds the request's date drops. */
  lemma StoredExpiryLagsLink(cid: string, url: string, probe: Probe, requestedAt: int, now: int)
    requires requestedAt <= now
    ensures var linkEnd := BuildLinkRequest(cid, requestedAt).date * 1000 + TtlMillis;
            && linkEnd <= NewRecord(cid, url, probe, now).expiresAt
            && NewRecord(cid, url, probe, now).expiresAt - linkEnd == (now - requestedAt) + requestedAt % 1000
  {
  }
}
