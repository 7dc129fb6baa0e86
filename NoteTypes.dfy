/** The shape of a note and of the partial records that create and update one. */
module NoteTypes {
  import opened Wrappers

  /**
   * A note. Timestamps are milliseconds since the epoch. `isDeleted` is `false` where the
   * stored record leaves it out; `deletedAt == None` where it is `undefined`.
   */
  datatype Note = Note(
    id: string,
    title: string,
    content: string,
    tags: seq<string>,
    color: string,
    isPinned: bool,
    isFavorite: bool,
    isPrivate: bool,
    isDeleted: bool,
    deletedAt: Option<int>,
    createdAt: int,
    updatedAt: int)

  /** What the editor hands over on save: a note without id, timestamps or trash fields. */
  datatype NoteDraft = NoteDraft(
    title: string,
    content: string,
    tags: seq<string>,
    color: string,
    isPinned: bool,
    isFavorite: bool,
    isPrivate: bool)

  /** A partial note: each present field replaces the note's own. */
  datatype NoteUpdate = NoteUpdate(
    title: Option<string>,
    content: Option<string>,
    tags: Option<seq<string>>,
    color: Option<string>,
    isPinned: Option<bool>,
    isFavorite: Option<bool>,
    isPrivate: Option<bool>,
    updatedAt: Option<int>)

  /** An update that changes nothing but the timestamp the registry always refreshes. */
  const NoChange := NoteUpdate(None, None, None, None, None, None, None, None)

  /** Every trashed note carries its deletion time, and only trashed notes do. */
  ghost predicate TrashConsistent(notes: seq<Note>)
  {
    forall i :: 0 <= i < |notes| ==> (notes[i].isDeleted <==> notes[i].deletedAt.Some?)
  }

  /** No two notes share an id. */
  ghost predicate UniqueIds(notes: seq<Note>)
  {
    forall i, j :: 0 <= i < j < |notes| ==> notes[i].id != notes[j].id
  }
}
