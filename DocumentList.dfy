/** The document list: every document, sorted by pin, then star, then most recent update. */
module DocumentList {
  import opened Sorting
  import opened DocumentStorage

  /** The list comparator as "strictly before". */
  predicate DocBefore(a: Document, b: Document)
  {
    if a.isPinned != b.isPinned then a.isPinned
    else if a.isStarred != b.isStarred then a.isStarred
    else b.updatedAt < a.updatedAt
  }

  function DocOrder(): (Document, Document) -> bool
  {
    (a: Document, b: Document) => DocBefore(a, b)
  }

  /** `[...documents].sort(...)`: a sorted copy; the collection itself is a value and stays as it was. */
  function SortDocuments(docs: seq<Document>): seq<Document>
  {
    InsertionSort(docs, DocOrder())
  }

  /**
   * The sorted list is a permutation of the collection; pinned documents come first, then, among
   * equal pin status, starred ones, and among equal pin and star status the latest update first.
   */
  lemma SortDocumentsSpec(docs: seq<Document>)
    ensures multiset(SortDocuments(docs)) == multiset(docs)
    ensures forall i, j :: 0 <= i < j < |SortDocuments(docs)| && SortDocuments(docs)[j].isPinned
              ==> SortDocuments(docs)[i].isPinned
    ensures forall i, j :: 0 <= i < j < |SortDocuments(docs)|
              && SortDocuments(docs)[i].isPinned == SortDocuments(docs)[j].isPinned && SortDocuments(docs)[j].isStarred
              ==> SortDocuments(docs)[i].isStarred
    ensures forall i, j :: 0 <= i < j < |SortDocuments(docs)|
              && SortDocuments(docs)[i].isPinned == SortDocuments(docs)[j].isPinned
              && SortDocuments(docs)[i].isStarred == SortDocuments(docs)[j].isStarred
              ==> SortDocuments(docs)[j].updatedAt <= SortDocuments(docs)[i].updatedAt
  {
    InsertionSortPermutes(docs, DocOrder());
    InsertionSortOrders(docs, DocOrder(), DocOrder());
    var r := SortDocuments(docs);
    forall i, j | 0 <= i < j < |r| ensures !DocBefore(r[j], r[i]) {
    }
  }
}
