/**
 * The document context: the in-memory document collection, the last error to show, and the
 * storage it is loaded from and saved to.
 */
module DocumentRegistry {
  import opened Wrappers
  import opened Seqs
  import opened DocumentStorage

  /** What an upload hands over: a document without id or timestamps. */
  datatype DocumentDraft = DocumentDraft(
    name: string,
    fileType: string,
    size: nat,
    url: Option<string>,
    isPinned: bool,
    isStarred: bool)

  /** A partial document: each present field replaces the document's own. */
  datatype DocumentUpdate = DocumentUpdate(
    name: Option<string>,
    fileType: Option<string>,
    size: Option<nat>,
    url: Option<Option<string>>,
    isPinned: Option<bool>,
    isStarred: Option<bool>)

  function NewDocument(d: DocumentDraft, id: string, now: int): Document
  {
    Document(id, d.name, d.fileType, d.size, d.url, d.isPinned, d.isStarred, now, now)
  }

  /** The admission check of `addDocument`: the file's own size first, then the new total. */
  function AdmitCheck(docs: seq<Document>, size: nat): (r: Outcome<StorageError>)
    ensures r == Pass <==> size <= MAX_FILE_SIZE && TotalSize(docs) + size <= MAX_TOTAL_SIZE
    ensures size > MAX_FILE_SIZE ==> r == Fail(StorageError(FILE_TOO_LARGE))
    ensures size <= MAX_FILE_SIZE && TotalSize(docs) + size > MAX_TOTAL_SIZE ==> r == Fail(StorageError(TOTAL_TOO_LARGE))
  {
    var fileCheck := ValidateFileSize(size);
    if fileCheck.Fail? then fileCheck else ValidateTotalSize(TotalSize(docs), size)
  }

  /** `{ ...doc, ...updates, updatedAt: now }`. */
  function ApplyDocumentUpdate(d: Document, u: DocumentUpdate, now: int): (r: Document)
    ensures r.id == d.id && r.createdAt == d.createdAt && r.updatedAt == now
    ensures r.name == u.name.GetOr(d.name) && r.fileType == u.fileType.GetOr(d.fileType)
    ensures r.size == u.size.GetOr(d.size) && r.url == u.url.GetOr(d.url)
    ensures r.isPinned == u.isPinned.GetOr(d.isPinned) && r.isStarred == u.isStarred.GetOr(d.isStarred)
  {
    d.(name := u.name.GetOr(d.name), fileType := u.fileType.GetOr(d.fileType), size := u.size.GetOr(d.size),
       url := u.url.GetOr(d.url), isPinned := u.isPinned.GetOr(d.isPinned),
       isStarred := u.isStarred.GetOr(d.isStarred), updatedAt := now)
  }

  /** The collection after `updateDocument(id, u)`: only documents with that id change. */
  function UpdateMatchingDocs(docs: seq<Document>, id: string, u: DocumentUpdate, now: int): (r: seq<Document>)
    ensures |r| == |docs|
    ensures forall i :: 0 <= i < |docs| && docs[i].id != id ==> r[i] == docs[i]
    ensures forall i :: 0 <= i < |docs| && docs[i].id == id ==> r[i] == ApplyDocumentUpdate(docs[i], u, now)
  {
    seq(|docs|, i requires 0 <= i < |docs| => if docs[i].id == id then ApplyDocumentUpdate(docs[i], u, now) else docs[i])
  }

  function DocIdIsNot(id: string): Document -> bool
  {
    (d: Document) => d.id != id
  }

  /** The collection after a successful delete: the documents with that id gone, the rest in order. */
  function RemoveDocument(docs: seq<Document>, id: string): (r: seq<Document>)
    ensures forall d :: d in r <==> d in docs && d.id != id
    ensures TotalSize(r) <= TotalSize(docs)
  {
    FilterMembership(docs, DocIdIsNot(id));
    TotalSizeFilter(docs, DocIdIsNot(id));
    Filter(docs, DocIdIsNot(id))
  }

  /** The collection stays within both ceilings. */
  ghost predicate WithinQuota(docs: seq<Document>)
  {
    TotalSize(docs) <= MAX_TOTAL_SIZE && forall i :: 0 <= i < |docs| ==> docs[i].size <= MAX_FILE_SIZE
  }

  /**
   * An add admitted against the collection it joins, and any delete, keep the collection within
   * the ceilings.
   */
  lemma AdmitAndRemoveKeepQuota(docs: seq<Document>, d: DocumentDraft, id: string, now: int)
    requires WithinQuota(docs)
    ensures AdmitCheck(docs, d.size) == Pass ==> WithinQuota([NewDocument(d, id, now)] + docs)
    ensures WithinQuota(RemoveDocument(docs, id))
  {
    var added := [NewDocument(d, id, now)] + docs;
    TotalSizeConcat([NewDocument(d, id, now)], docs);
    assert [NewDocument(d, id, now)][..0] == [];
    assert forall i :: 0 < i < |added| ==> added[i] == docs[i - 1];
    var rest := RemoveDocument(docs, id);
    forall i | 0 <= i < |rest| ensures rest[i].size <= MAX_FILE_SIZE {
      assert rest[i] in docs;
    }
  }

  /**
   * Two adds admitted against the same earlier collection, as the files of one upload are, can
   * together pass the total ceiling: each is checked without the other.
   */
  lemma SharedSnapshotCanExceedQuota(snapshot: seq<Document>, d1: DocumentDraft, d2: DocumentDraft,
                                     id1: string, id2: string, now1: int, now2: int)
    requires AdmitCheck(snapshot, d1.size) == Pass && AdmitCheck(snapshot, d2.size) == Pass
    requires TotalSize(snapshot) + d1.size + d2.size > MAX_TOTAL_SIZE
    ensures !WithinQuota([NewDocument(d2, id2, now2)] + ([NewDocument(d1, id1, now1)] + snapshot))
  {
    var n1, n2 := NewDocument(d1, id1, now1), NewDocument(d2, id2, now2);
    TotalSizeConcat([n1], snapshot);
    TotalSizeConcat([n2], [n1] + snapshot);
    assert [n1][..0] == [] && [n2][..0] == [];
  }

  /** `k` copies of one document. */
  function Copies(k: nat, d: Document): (r: seq<Document>)
    ensures |r| == k && forall i :: 0 <= i < k ==> r[i] == d
  {
    seq(k, _ => d)
  }

  lemma {:induction false} TotalSizeCopies(k: nat, d: Document)
    ensures TotalSize(Copies(k, d)) == k * d.size
  {
    if k > 0 {
      assert Copies(k, d)[..k - 1] == Copies(k - 1, d);
      TotalSizeCopies(k - 1, d);
    }
  }

  /**
   * Nine files of 5 MiB are within the quota, and two more 5 MiB files chosen in one upload are
   * each admitted against them, leaving 55 MiB stored.
   */
  lemma OneUploadScenario(doc: Document, d: DocumentDraft, id1: string, id2: string, now: int)
    requires doc.size == MAX_FILE_SIZE && d.size == MAX_FILE_SIZE
    ensures WithinQuota(Copies(9, doc)) && AdmitCheck(Copies(9, doc), d.size) == Pass
    ensures !WithinQuota([NewDocument(d, id2, now)] + ([NewDocument(d, id1, now)] + Copies(9, doc)))
  {
    TotalSizeCopies(9, doc);
    SharedSnapshotCanExceedQuota(Copies(9, doc), d, d, id1, id2, now, now);
  }

  /** Updates are not checked against the ceilings: growing a document can break them. */
  lemma UpdateIgnoresQuota(d: Document, now: int)
    requires d.size <= MAX_FILE_SIZE
    ensures WithinQuota([d])
    ensures !WithinQuota(UpdateMatchingDocs([d], d.id, DocumentUpdate(None, None, Some(MAX_TOTAL_SIZE + 1), None, None, None), now))
  {
    assert [d][..0] == [];
    var r := UpdateMatchingDocs([d], d.id, DocumentUpdate(None, None, Some(MAX_TOTAL_SIZE + 1), None, None, None), now);
    assert r[0].size == MAX_TOTAL_SIZE + 1;
  }

  class DocumentRegistry {
    var documents: seq<Document>
    var error: Option<string>
    const storage: DocumentStorage

    constructor (storage: DocumentStorage)
      ensures this.storage == storage && documents == [] && error == None
    {
      this.storage := storage;
      documents := [];
      error := None;
    }

    /** The mount effect: the collection becomes whatever the storage loads. */
    method Hydrate(getFaults: set<nat>)
      modifies this`documents
      ensures documents == Loaded(storage.metadataSlot, storage.blobs, getFaults)
    {
      documents := storage.LoadDocuments(getFaults);
    }

    /**
     * The save effect after each change: nothing is saved while the collection is empty; a failed
     * save only records its message, and the collection stays as it is; a failed metadata write
     * also leaves the storage as it was.
     */
    method PersistChanges(metaWrite: WriteResult, putFaults: map<nat, DbFault>)
      modifies storage`metadataSlot, storage`blobs, this`error
      ensures documents == old(documents)
      ensures |documents| == 0 ==> storage.metadataSlot == old(storage.metadataSlot)
                                   && storage.blobs == old(storage.blobs) && error == old(error)
      ensures |documents| > 0 && metaWrite == Written ==> storage.metadataSlot == Stored(ProjectAll(documents))
      ensures |documents| > 0 && metaWrite == Written ==> storage.blobs == PutBlobs(old(storage.blobs), documents, putFaults, |documents|)
      ensures |documents| > 0 && metaWrite != Written ==> storage.metadataSlot == old(storage.metadataSlot) && storage.blobs == old(storage.blobs)
      ensures |documents| > 0 && metaWrite == QuotaExceeded ==> error == Some(QUOTA_EXCEEDED)
      ensures |documents| > 0 && metaWrite == WriteFailed ==> error == Some(SAVE_FAILED)
      ensures |documents| > 0 && metaWrite == Written && FirstFault(putFaults, |documents|).None? ==> error == old(error)
      ensures |documents| > 0 && metaWrite == Written && FirstFault(putFaults, |documents|).Some? ==>
                error == Some(FaultMessage(FirstFault(putFaults, |documents|).value))
    {
      if |documents| > 0 {
        var r := storage.SaveDocuments(documents, metaWrite, putFaults);
        if r.Fail? {
          error := Some(r.error.message);
        }
      }
    }

    /**
     * `addDocument`: a file over either ceiling leaves the collection alone and reports (and
     * rethrows) the error; an admitted one goes to the front of the current collection with both
     * timestamps `now`. The total is checked against `snapshot`, the collection the handler
     * captured when it was rendered, which every file of one upload shares.
     */
    method AddDocument(d: DocumentDraft, snapshot: seq<Document>, id: string, now: int) returns (r: Outcome<StorageError>)
      modifies this`documents, this`error
      ensures r == AdmitCheck(snapshot, d.size)
      ensures r.Fail? ==> documents == old(documents) && error == Some(r.error.message)
      ensures r.Pass? ==> documents == [NewDocument(d, id, now)] + old(documents) && error == None
    {
      var fileCheck := ValidateFileSize(d.size);
      if fileCheck.Fail? {
        error := Some(fileCheck.error.message);
        return fileCheck;
      }
      var totalCheck := ValidateTotalSize(TotalSize(snapshot), d.size);
      if totalCheck.Fail? {
        error := Some(totalCheck.error.message);
        return totalCheck;
      }
      documents := [NewDocument(d, id, now)] + documents;
      error := None;
      return Pass;
    }

    /**
     * `deleteDocument`: the storage delete runs first; the document leaves the collection only
     * when it succeeds, and a failure only sets the message.
     */
    method DeleteDocument(id: string, blobFault: Option<DbFault>, metaWrite: WriteResult)
      modifies storage`metadataSlot, storage`blobs, this`documents, this`error
      ensures blobFault.Some? ==> storage.metadataSlot == old(storage.metadataSlot) && storage.blobs == old(storage.blobs)
      ensures blobFault.None? ==> storage.blobs == old(storage.blobs) - {id}
      ensures blobFault.None? && old(storage.metadataSlot).Stored? && metaWrite == Written
              ==> storage.metadataSlot == Stored(WithoutId(old(storage.metadataSlot).entries, id))
      ensures blobFault.None? && !(old(storage.metadataSlot).Stored? && metaWrite == Written)
              ==> storage.metadataSlot == old(storage.metadataSlot)
      ensures (blobFault.None? && (old(storage.metadataSlot).Empty? || (old(storage.metadataSlot).Stored? && metaWrite == Written)))
              ==> documents == RemoveDocument(old(documents), id) && error == None
      ensures !(blobFault.None? && (old(storage.metadataSlot).Empty? || (old(storage.metadataSlot).Stored? && metaWrite == Written)))
              ==> documents == old(documents) && error == Some(DELETE_FAILED)
    {
      var r := storage.DeleteDocument(id, blobFault, metaWrite);
      if r.Pass? {
        documents := RemoveDocument(documents, id);
        error := None;
      } else {
        error := Some(DELETE_FAILED);
      }
    }

    /** `updateDocument`: merges into the matching documents, with no size check. */
    method UpdateDocument(id: string, u: DocumentUpdate, now: int)
      modifies this`documents
      ensures documents == UpdateMatchingDocs(old(documents), id, u, now)
    {
      documents := UpdateMatchingDocs(documents, id, u, now);
    }
  }
}
