/**
 * Document storage: the size ceilings, and the two stores a document collection is kept in.
 * The metadata of every document (everything but its content) sits in one slot under the key
 * "documents-metadata"; each document's content (its data URL) sits in a blob store keyed by
 * the document's id. Saving writes the slot and then one blob per document; loading reads the
 * slot and fetches each blob; deleting removes a blob and then rewrites the slot.
 *
 * Whether a write fails is not up to the program, so each operation takes the failures that
 * happen as parameters.
 */
module DocumentStorage {
  import opened Wrappers
  import opened Seqs

  const MAX_FILE_SIZE: nat := 5 * 1024 * 1024
  const MAX_TOTAL_SIZE: nat := 50 * 1024 * 1024
  const METADATA_KEY: string := "documents-metadata"

  const FILE_TOO_LARGE: string := "File size exceeds maximum limit of 5MB"
  const TOTAL_TOO_LARGE: string := "Total storage would exceed maximum limit of 50MB"
  const QUOTA_EXCEEDED: string := "Storage quota exceeded. Please delete some documents to free up space."
  const SAVE_FAILED: string := "Failed to save documents"
  const DELETE_FAILED: string := "Failed to delete document"

  /** A stored document. `url` is its content; `None` stands for `undefined`. */
  datatype Document = Document(
    id: string,
    name: string,
    fileType: string,
    size: nat,
    url: Option<string>,
    isPinned: bool,
    isStarred: bool,
    createdAt: int,
    updatedAt: int)

  /** A document without its content, as the metadata slot keeps it. */
  datatype Metadata = Metadata(
    id: string,
    name: string,
    fileType: string,
    size: nat,
    isPinned: bool,
    isStarred: bool,
    createdAt: int,
    updatedAt: int)

  datatype StorageError = StorageError(message: string)

  /** The metadata slot: nothing saved, a saved list, or text that does not parse. */
  datatype Slot = Empty | Stored(entries: seq<Metadata>) | Corrupt

  /** How a write to the metadata slot ends. */
  datatype WriteResult = Written | QuotaExceeded | WriteFailed

  /**
   * How a blob-store request fails: the database reports an error while opening, the request
   * reports an error, or opening or starting the request throws at once. The first two reject with
   * the database's own `StorageError`; the third rejects with the browser's exception, which is
   * not a `StorageError`.
   */
  datatype DbFault = OpenFailed | RequestFailed | Thrown

  /** The message a save reports for a failed put: the database's own, or the generic one. */
  function FaultMessage(f: DbFault): string
  {
    match f
    case OpenFailed => "Failed to open database"
    case RequestFailed => "Failed to save data"
    case Thrown => SAVE_FAILED
  }

  /** `getTotalSize`: the sum of the sizes. */
  function TotalSize(docs: seq<Document>): nat
  {
    if docs == [] then 0 else TotalSize(docs[..|docs| - 1]) + docs[|docs| - 1].size
  }

  lemma {:induction false} TotalSizeConcat(a: seq<Document>, b: seq<Document>)
    ensures TotalSize(a + b) == TotalSize(a) + TotalSize(b)
    decreases |b|
  {
    if b == [] {
      assert a + b == a;
    } else {
      assert (a + b)[..|a + b| - 1] == a + b[..|b| - 1];
      TotalSizeConcat(a, b[..|b| - 1]);
    }
  }

  /** Dropping documents never raises the total. */
  lemma {:induction false} TotalSizeFilter(docs: seq<Document>, p: Document -> bool)
    ensures TotalSize(Filter(docs, p)) <= TotalSize(docs)
  {
    if docs != [] {
      TotalSizeFilter(docs[1..], p);
      assert docs == [docs[0]] + docs[1..];
      TotalSizeConcat([docs[0]], docs[1..]);
      TotalSizeConcat(if p(docs[0]) then [docs[0]] else [], Filter(docs[1..], p));
      assert TotalSize([docs[0]]) == docs[0].size by {
        assert [docs[0]][..0] == [];
      }
    }
  }

  /** `validateFileSize`: a file fails exactly when it is larger than 5 MiB. */
  function ValidateFileSize(size: nat): (r: Outcome<StorageError>)
    ensures r.Fail? <==> size > MAX_FILE_SIZE
    ensures r.Fail? ==> r.error.message == FILE_TOO_LARGE
  {
    if size > MAX_FILE_SIZE then Fail(StorageError(FILE_TOO_LARGE)) else Pass
  }

  /** `validateTotalSize`: fails exactly when the new total would exceed 50 MiB. */
  function ValidateTotalSize(currentSize: nat, newSize: nat): (r: Outcome<StorageError>)
    ensures r.Fail? <==> currentSize + newSize > MAX_TOTAL_SIZE
    ensures r.Fail? ==> r.error.message == TOTAL_TOO_LARGE
  {
    if currentSize + newSize > MAX_TOTAL_SIZE then Fail(StorageError(TOTAL_TOO_LARGE)) else Pass
  }

  /** The ceilings are inclusive: exactly 5 MiB, or a total of exactly 50 MiB, is accepted. */
  lemma CeilingsInclusive()
    ensures ValidateFileSize(MAX_FILE_SIZE) == Pass && ValidateFileSize(MAX_FILE_SIZE + 1).Fail?
    ensures ValidateTotalSize(MAX_TOTAL_SIZE - 1, 1) == Pass && ValidateTotalSize(MAX_TOTAL_SIZE, 1).Fail?
  {
  }

  /** The metadata of a document: every field but `url`. */
  function Project(d: Document): Metadata
  {
    Metadata(d.id, d.name, d.fileType, d.size, d.isPinned, d.isStarred, d.createdAt, d.updatedAt)
  }

  /** `{ ...doc, url }`. */
  function WithUrl(m: Metadata, url: Option<string>): Document
  {
    Document(m.id, m.name, m.fileType, m.size, url, m.isPinned, m.isStarred, m.createdAt, m.updatedAt)
  }

  /** Dropping the content and putting it back gives the document again. */
  lemma ProjectRoundTrip(d: Document)
    ensures WithUrl(Project(d), d.url) == d
    ensures Project(WithUrl(Project(d), None)) == Project(d)
  {
  }

  /** The metadata list `saveDocuments` writes: one entry per document, in order. */
  function ProjectAll(docs: seq<Document>): (r: seq<Metadata>)
    ensures |r| == |docs|
    ensures forall i :: 0 <= i < |docs| ==> r[i] == Project(docs[i]) && r[i].id == docs[i].id
  {
    seq(|docs|, i requires 0 <= i < |docs| => Project(docs[i]))
  }

  /** What a blob fetch resolves with: the stored content, or `undefined` for a missing key. */
  function BlobAt(blobs: map<string, Option<string>>, id: string): Option<string>
  {
    if id in blobs then blobs[id] else None
  }

  /** The blob store after the puts of the first `n` documents, skipping those whose put fails. */
  function PutBlobs(blobs: map<string, Option<string>>, docs: seq<Document>, faults: map<nat, DbFault>, n: nat): map<string, Option<string>>
    requires n <= |docs|
  {
    if n == 0 then blobs
    else
      var before := PutBlobs(blobs, docs, faults, n - 1);
      if n - 1 in faults then before else before[docs[n - 1].id := docs[n - 1].url]
  }

  /** The failure the save reports among the first `n` puts: the earliest one. */
  function FirstFault(faults: map<nat, DbFault>, n: nat): (r: Option<DbFault>)
    ensures r.None? <==> forall k :: 0 <= k < n ==> k !in faults
    ensures r.Some? ==> exists k :: 0 <= k < n && k in faults && r.value == faults[k]
                                   && forall j :: 0 <= j < k ==> j !in faults
  {
    if n == 0 then None
    else
      var before := FirstFault(faults, n - 1);
      if before.Some? then before
      else if n - 1 in faults then Some(faults[n - 1])
      else None
  }

  /**
   * The entries `loadDocuments` keeps among the first `n`: those whose fetch does not fail, in
   * order, each with the fetched content.
   */
  function Reconciled(meta: seq<Metadata>, blobs: map<string, Option<string>>, faults: set<nat>, n: nat): seq<Document>
    requires n <= |meta|
  {
    if n == 0 then []
    else Reconciled(meta, blobs, faults, n - 1)
         + (if n - 1 in faults then [] else [WithUrl(meta[n - 1], BlobAt(blobs, meta[n - 1].id))])
  }

  /** `loadDocuments`: nothing when there is no list or it does not parse, else the reconciled list. */
  function Loaded(slot: Slot, blobs: map<string, Option<string>>, faults: set<nat>): seq<Document>
  {
    match slot
    case Stored(meta) => Reconciled(meta, blobs, faults, |meta|)
    case _ => []
  }

  /**
   * Loading keeps exactly the entries whose fetch succeeds: every such entry comes back with the
   * fetched content (`None` for a missing blob), and nothing else comes back.
   */
  lemma {:induction false} ReconciledSpec(meta: seq<Metadata>, blobs: map<string, Option<string>>, faults: set<nat>, n: nat)
    requires n <= |meta|
    ensures forall k :: 0 <= k < n && k !in faults ==> WithUrl(meta[k], BlobAt(blobs, meta[k].id)) in Reconciled(meta, blobs, faults, n)
    ensures forall d :: d in Reconciled(meta, blobs, faults, n) ==>
              exists k :: 0 <= k < n && k !in faults && d == WithUrl(meta[k], BlobAt(blobs, meta[k].id))
    ensures (forall k :: 0 <= k < n ==> k !in faults) ==> |Reconciled(meta, blobs, faults, n)| == n
  {
    if n > 0 {
      ReconciledSpec(meta, blobs, faults, n - 1);
    }
  }

  /**
   * With distinct ids, after the puts of the first `n` documents each of them finds its own
   * content, except one whose put failed, which finds whatever the blob store held before.
   */
  lemma {:induction false} PutBlobsFinds(blobs: map<string, Option<string>>, docs: seq<Document>, faults: map<nat, DbFault>, n: nat, k: nat)
    requires n <= |docs| && k < n
    requires forall i, j :: 0 <= i < j < |docs| ==> docs[i].id != docs[j].id
    ensures BlobAt(PutBlobs(blobs, docs, faults, n), docs[k].id)
            == if k in faults then BlobAt(blobs, docs[k].id) else docs[k].url
  {
    if k < n - 1 {
      PutBlobsFinds(blobs, docs, faults, n - 1, k);
    } else if k in faults {
      PutBlobsUntouched(blobs, docs, faults, n - 1, docs[k].id, k);
    }
  }

  /** The puts of the first `n` documents leave alone every key none of them has. */
  lemma {:induction false} PutBlobsUntouched(blobs: map<string, Option<string>>, docs: seq<Document>, faults: map<nat, DbFault>, n: nat, id: string, k: nat)
    requires n <= k < |docs| && docs[k].id == id
    requires forall i, j :: 0 <= i < j < |docs| ==> docs[i].id != docs[j].id
    ensures BlobAt(PutBlobs(blobs, docs, faults, n), id) == BlobAt(blobs, id)
  {
    if n > 0 {
      PutBlobsUntouched(blobs, docs, faults, n - 1, id, k);
    }
  }

  /** The document `loadDocuments` rebuilds for `d` after a save whose puts failed at `faults`. */
  function Reloaded(blobs: map<string, Option<string>>, d: Document, failed: bool): Document
  {
    if failed then WithUrl(Project(d), BlobAt(blobs, d.id)) else d
  }

  lemma {:induction false} ReconciledAfterSave(docs: seq<Document>, blobs: map<string, Option<string>>, faults: map<nat, DbFault>, n: nat)
    requires n <= |docs|
    requires forall i, j :: 0 <= i < j < |docs| ==> docs[i].id != docs[j].id
    ensures |Reconciled(ProjectAll(docs), PutBlobs(blobs, docs, faults, |docs|), {}, n)| == n
    ensures forall k :: 0 <= k < n ==>
              Reconciled(ProjectAll(docs), PutBlobs(blobs, docs, faults, |docs|), {}, n)[k] == Reloaded(blobs, docs[k], k in faults)
  {
    if n > 0 {
      ReconciledAfterSave(docs, blobs, faults, n - 1);
      PutBlobsFinds(blobs, docs, faults, |docs|, n - 1);
    }
  }

  /** The storage as two in-memory stores. */
  class DocumentStorage {
    var metadataSlot: Slot
    var blobs: map<string, Option<string>>

    constructor (slot: Slot, blobs: map<string, Option<string>>)
      ensures metadataSlot == slot && this.blobs == blobs
    {
      metadataSlot := slot;
      this.blobs := blobs;
    }

    /**
     * `saveDocuments`: writes the metadata list and then every blob. A refused metadata write
     * changes nothing; once it succeeds every put runs, and the earliest failing put (if any)
     * is reported with the database's own message, or the generic one when the request threw,
     * with the metadata left as written.
     */
    method SaveDocuments(docs: seq<Document>, metaWrite: WriteResult, putFaults: map<nat, DbFault>) returns (r: Outcome<StorageError>)
      modifies this`metadataSlot, this`blobs
      ensures metaWrite == QuotaExceeded ==> r == Fail(StorageError(QUOTA_EXCEEDED))
      ensures metaWrite == WriteFailed ==> r == Fail(StorageError(SAVE_FAILED))
      ensures metaWrite != Written ==> metadataSlot == old(metadataSlot) && blobs == old(blobs)
      ensures metaWrite == Written ==> metadataSlot == Stored(ProjectAll(docs))
      ensures metaWrite == Written ==> blobs == PutBlobs(old(blobs), docs, putFaults, |docs|)
      ensures metaWrite == Written && FirstFault(putFaults, |docs|).None? ==> r == Pass
      ensures metaWrite == Written && FirstFault(putFaults, |docs|).Some? ==>
                r == Fail(StorageError(FaultMessage(FirstFault(putFaults, |docs|).value)))
      ensures metaWrite == Written && FirstFault(putFaults, |docs|) == Some(Thrown) ==> r == Fail(StorageError(SAVE_FAILED))
    {
      if metaWrite == QuotaExceeded {
        return Fail(StorageError(QUOTA_EXCEEDED));
      } else if metaWrite == WriteFailed {
        return Fail(StorageError(SAVE_FAILED));
      }
      metadataSlot := Stored(ProjectAll(docs));
      var first: Option<DbFault> := None;
      var i := 0;
      while i < |docs|
        invariant 0 <= i <= |docs|
        invariant blobs == PutBlobs(old(blobs), docs, putFaults, i)
        invariant first == FirstFault(putFaults, i)
        invariant metadataSlot == Stored(ProjectAll(docs))
      {
        if i in putFaults {
          if first.None? {
            first := Some(putFaults[i]);
          }
        } else {
          blobs := blobs[docs[i].id := docs[i].url];
        }
        i := i + 1;
      }
      if first.Some? {
        return Fail(StorageError(FaultMessage(first.value)));
      }
      return Pass;
    }

    /**
     * `loadDocuments`: an empty list for an empty or unreadable slot; otherwise one document per
     * entry whose fetch (listed in `getFaults` by position when it fails) succeeds, in order.
     */
    method LoadDocuments(getFaults: set<nat>) returns (docs: seq<Document>)
      ensures docs == Loaded(metadataSlot, blobs, getFaults)
      ensures metadataSlot.Empty? || metadataSlot.Corrupt? ==> docs == []
      ensures |docs| <= if metadataSlot.Stored? then |metadataSlot.entries| else 0
    {
      if !metadataSlot.Stored? {
        return [];
      }
      var meta := metadataSlot.entries;
      docs := [];
      var i := 0;
      while i < |meta|
        invariant 0 <= i <= |meta|
        invariant docs == Reconciled(meta, blobs, getFaults, i)
        invariant |docs| <= i
      {
        if i !in getFaults {
          docs := docs + [WithUrl(meta[i], BlobAt(blobs, meta[i].id))];
        }
        i := i + 1;
      }
    }

    /**
     * `deleteDocument`: removes the blob first; only then is the metadata list rewritten without
     * the id. A failed blob delete changes nothing; an unreadable list or a failed rewrite
     * leaves the metadata as it was (with the blob already gone). Every failure reports the
     * same message.
     */
    method DeleteDocument(id: string, blobFault: Option<DbFault>, metaWrite: WriteResult) returns (r: Outcome<StorageError>)
      modifies this`metadataSlot, this`blobs
      ensures blobFault.Some? ==> r == Fail(StorageError(DELETE_FAILED))
      ensures blobFault.Some? ==> metadataSlot == old(metadataSlot) && blobs == old(blobs)
      ensures blobFault.None? ==> blobs == old(blobs) - {id}
      ensures blobFault.None? && old(metadataSlot).Empty? ==> r == Pass && metadataSlot == Empty
      ensures blobFault.None? && old(metadataSlot).Corrupt? ==> r == Fail(StorageError(DELETE_FAILED)) && metadataSlot == Corrupt
      ensures blobFault.None? && old(metadataSlot).Stored? && metaWrite != Written ==>
                r == Fail(StorageError(DELETE_FAILED)) && metadataSlot == old(metadataSlot)
      ensures blobFault.None? && old(metadataSlot).Stored? && metaWrite == Written ==>
                r == Pass && metadataSlot == Stored(WithoutId(old(metadataSlot).entries, id))
    {
      if blobFault.Some? {
        return Fail(StorageError(DELETE_FAILED));
      }
      blobs := blobs - {id};
      match metadataSlot {
        case Empty =>
          return Pass;
        case Corrupt =>
          return Fail(StorageError(DELETE_FAILED));
        case Stored(meta) =>
          if metaWrite != Written {
            return Fail(StorageError(DELETE_FAILED));
          }
          metadataSlot := Stored(WithoutId(meta, id));
          return Pass;
      }
    }
  }

  function EntryIdIsNot(id: string): Metadata -> bool
  {
    (m: Metadata) => m.id != id
  }

  /** The metadata list without the entries for `id`, the rest in order. */
  function WithoutId(meta: seq<Metadata>, id: string): (r: seq<Metadata>)
    ensures forall m :: m in r <==> m in meta && m.id != id
    ensures Subsequence(r, meta)
  {
    FilterMembership(meta, EntryIdIsNot(id));
    FilterOrdered(meta, EntryIdIsNot(id));
    Filter(meta, EntryIdIsNot(id))
  }

  /**
   * Save then load, when the ids are distinct and no fetch fails: loading returns one document
   * per saved one, in order; each whose put succeeded comes back exactly as saved, and each whose
   * put failed still comes back, with whatever content the blob store already held for its id.
   */
  lemma SaveLoadRoundTrip(docs: seq<Document>, blobs: map<string, Option<string>>, faults: map<nat, DbFault>)
    requires forall i, j :: 0 <= i < j < |docs| ==> docs[i].id != docs[j].id
    ensures |Loaded(Stored(ProjectAll(docs)), PutBlobs(blobs, docs, faults, |docs|), {})| == |docs|
    ensures forall k :: 0 <= k < |docs| && k !in faults ==>
              Loaded(Stored(ProjectAll(docs)), PutBlobs(blobs, docs, faults, |docs|), {})[k] == docs[k]
    ensures forall k :: 0 <= k < |docs| && k in faults ==>
              Loaded(Stored(ProjectAll(docs)), PutBlobs(blobs, docs, faults, |docs|), {})[k]
              == WithUrl(Project(docs[k]), BlobAt(blobs, docs[k].id))
    ensures Loaded(Stored(ProjectAll(docs)), PutBlobs(blobs, docs, map[], |docs|), {}) == docs
  {
    ReconciledAfterSave(docs, blobs, faults, |docs|);
    ReconciledAfterSave(docs, blobs, map[], |docs|);
  }

  /** Entries whose blob is missing are kept, with no content; only a failed fetch drops an entry. */
  lemma MissingBlobKept(m: Metadata, blobs: map<string, Option<string>>)
    requires m.id !in blobs
    ensures Loaded(Stored([m]), blobs, {}) == [WithUrl(m, None)]
    ensures Loaded(Stored([m]), blobs, {0}) == []
  {
    assert Reconciled([m], blobs, {}, 0) == [];
    assert Reconciled([m], blobs, {0}, 0) == [];
  }

  /** After a successful delete, no later load returns a document with that id. */
  lemma DeletedStaysGone(meta: seq<Metadata>, id: string, blobs: map<string, Option<string>>, faults: set<nat>)
    ensures forall d :: d in Loaded(Stored(WithoutId(meta, id)), blobs, faults) ==> d.id != id
  {
    var rest := WithoutId(meta, id);
    ReconciledSpec(rest, blobs, faults, |rest|);
    forall d | d in Loaded(Stored(rest), blobs, faults) ensures d.id != id {
      var k :| 0 <= k < |rest| && k !in faults && d == WithUrl(rest[k], BlobAt(blobs, rest[k].id));
      assert rest[k] in rest;
    }
  }
}
