/**
 * The note list screen: which notes are on show for the current view selection, in which
 * order, and the screen's own state (the editor and the private-space dialog).
 */
module NoteList {
  import opened Wrappers
  import opened Seqs
  import opened Sorting
  import opened Text
  import opened NoteTypes
  import opened NoteRegistry

  /** The view selection the list reads from the note context. */
  datatype View = View(
    showTrash: bool,
    showPrivateNotes: bool,
    showStarredOnly: bool,
    searchTerm: string,
    selectedTags: seq<string>)

  /** The trash view shows exactly the trashed notes, the other views exactly the rest. */
  predicate PassesTrash(n: Note, v: View)
  {
    n.isDeleted == v.showTrash
  }

  /** The private view shows exactly the private notes, the other views exactly the public ones. */
  predicate PassesPrivate(n: Note, v: View)
  {
    n.isPrivate == v.showPrivateNotes
  }

  predicate PassesStarred(n: Note, v: View)
  {
    v.showStarredOnly ==> n.isFavorite
  }

  /** The lower-cased term occurs in the lower-cased title, content or one of the tags. */
  predicate MatchesSearch(n: Note, term: string)
  {
    var q := Lower(term);
    || Includes(Lower(n.title), q)
    || Includes(Lower(n.content), q)
    || exists i :: 0 <= i < |n.tags| && Includes(Lower(n.tags[i]), q)
  }

  /** Every selected tag is among the note's tags. */
  predicate MatchesTags(n: Note, selected: seq<string>)
  {
    |selected| == 0 || forall t :: t in selected ==> t in n.tags
  }

  predicate IsVisible(n: Note, v: View)
  {
    PassesTrash(n, v) && PassesPrivate(n, v) && PassesStarred(n, v)
    && MatchesSearch(n, v.searchTerm) && MatchesTags(n, v.selectedTags)
  }

  function InView(v: View): Note -> bool
  {
    (n: Note) => IsVisible(n, v)
  }

  /**
   * The list comparator as "strictly before": pinned notes first; then, in the trash, the
   * later deletion first (a missing deletion time compares as equal, as `NaN` does); elsewhere
   * the earlier creation first.
   */
  predicate NoteBefore(a: Note, b: Note, trash: bool)
  {
    if a.isPinned != b.isPinned then a.isPinned
    else if trash then a.deletedAt.Some? && b.deletedAt.Some? && b.deletedAt.value < a.deletedAt.value
    else a.createdAt < b.createdAt
  }

  function NoteOrder(trash: bool): (Note, Note) -> bool
  {
    (a: Note, b: Note) => NoteBefore(a, b, trash)
  }

  /** Pinned before unpinned, and nothing else. */
  function PinOrder(): (Note, Note) -> bool
  {
    (a: Note, b: Note) => a.isPinned && !b.isPinned
  }

  /** The list on show: the visible notes, stably sorted by the list comparator. */
  function FilteredNotes(notes: seq<Note>, v: View): seq<Note>
  {
    InsertionSort(Filter(notes, InView(v)), NoteOrder(v.showTrash))
  }

  /** The list shows every visible note exactly as often as the collection holds it, and nothing else. */
  lemma FilteredNotesSpec(notes: seq<Note>, v: View)
    ensures forall n :: n in FilteredNotes(notes, v) <==> n in notes && IsVisible(n, v)
    ensures multiset(FilteredNotes(notes, v)) <= multiset(notes)
    ensures forall n :: n in notes && IsVisible(n, v) ==> multiset(FilteredNotes(notes, v))[n] == multiset(notes)[n]
  {
    var kept := Filter(notes, InView(v));
    FilterMembership(notes, InView(v));
    FilterSubmultiset(notes, InView(v));
    FilterCountsPassing(notes, InView(v));
    InsertionSortPermutes(kept, NoteOrder(v.showTrash));
    forall n ensures n in FilteredNotes(notes, v) <==> n in kept {
      assert n in FilteredNotes(notes, v) <==> n in multiset(FilteredNotes(notes, v));
    }
  }

  lemma ComparatorAsymmetric(u: seq<Note>, trash: bool)
    ensures AsymmetricOn(u, NoteOrder(trash))
  {
  }

  /** Pinned notes always come before unpinned ones, whatever the view. */
  lemma PinnedFirst(notes: seq<Note>, v: View)
    ensures forall i, j :: 0 <= i < j < |FilteredNotes(notes, v)| && FilteredNotes(notes, v)[j].isPinned
              ==> FilteredNotes(notes, v)[i].isPinned
  {
    var kept := Filter(notes, InView(v));
    ComparatorAsymmetric(kept, v.showTrash);
    InsertionSortOrders(kept, NoteOrder(v.showTrash), PinOrder());
  }

  /** Outside the trash, notes with the same pin status are in ascending creation order. */
  lemma OldestFirst(notes: seq<Note>, v: View)
    requires !v.showTrash
    ensures forall i, j :: 0 <= i < j < |FilteredNotes(notes, v)|
              && FilteredNotes(notes, v)[i].isPinned == FilteredNotes(notes, v)[j].isPinned
              ==> FilteredNotes(notes, v)[i].createdAt <= FilteredNotes(notes, v)[j].createdAt
  {
    var kept := Filter(notes, InView(v));
    ComparatorAsymmetric(kept, false);
    InsertionSortOrders(kept, NoteOrder(false), NoteOrder(false));
    var r := FilteredNotes(notes, v);
    forall i, j | 0 <= i < j < |r| && r[i].isPinned == r[j].isPinned
      ensures r[i].createdAt <= r[j].createdAt
    {
      assert !NoteBefore(r[j], r[i], false);
    }
  }

  /**
   * In the trash, when every trashed note carries its deletion time, notes with the same pin
   * status are in descending deletion order: the most recently trashed first.
   */
  lemma NewestDeletedFirst(notes: seq<Note>, v: View)
    requires v.showTrash && TrashConsistent(notes)
    ensures forall i, j :: 0 <= i < j < |FilteredNotes(notes, v)|
              && FilteredNotes(notes, v)[i].isPinned == FilteredNotes(notes, v)[j].isPinned
              ==> FilteredNotes(notes, v)[i].deletedAt.Some? && FilteredNotes(notes, v)[j].deletedAt.Some?
                  && FilteredNotes(notes, v)[j].deletedAt.value <= FilteredNotes(notes, v)[i].deletedAt.value
  {
    var kept := Filter(notes, InView(v));
    FilterMembership(notes, InView(v));
    forall n | n in kept ensures n.deletedAt.Some? {
      var k :| 0 <= k < |notes| && notes[k] == n;
    }
    ComparatorAsymmetric(kept, true);
    InsertionSortOrders(kept, NoteOrder(true), NoteOrder(true));
    InsertionSortPermutes(kept, NoteOrder(true));
    var r := FilteredNotes(notes, v);
    forall i, j | 0 <= i < j < |r| && r[i].isPinned == r[j].isPinned
      ensures r[i].deletedAt.Some? && r[j].deletedAt.Some? && r[j].deletedAt.value <= r[i].deletedAt.value
    {
      assert r[i] in multiset(kept) && r[j] in multiset(kept);
      assert !NoteBefore(r[j], r[i], true);
    }
  }

  /** An empty search term and an empty tag selection let every note through. */
  lemma EmptyFiltersMatchAll(n: Note, v: View)
    ensures MatchesSearch(n, "")
    ensures MatchesTags(n, [])
  {
    IncludesSpec(Lower(n.title), Lower(""));
  }

  /** A note whose title holds the term, in any letter case, matches the search. */
  lemma TitleMatchIgnoresCase(n: Note, term: string)
    requires Includes(Lower(n.title), Lower(term))
    ensures MatchesSearch(n, term) && MatchesSearch(n, Lower(term))
  {
    LowerIdempotent(term);
  }

  /** A note whose title holds the term exactly matches the search. */
  lemma TitleMatches(n: Note, term: string)
    requires Includes(n.title, term)
    ensures MatchesSearch(n, term)
  {
    LowerKeepsIncludes(n.title, term);
  }

  /** Whatever the view, private notes are listed only in the private view, and that view only lists private notes. */
  lemma PrivateOnlyInPrivateView(notes: seq<Note>, v: View)
    ensures forall n :: n in FilteredNotes(notes, v) ==> (n.isPrivate <==> v.showPrivateNotes)
    ensures forall n :: n in FilteredNotes(notes, v) ==> (n.isDeleted <==> v.showTrash)
  {
    FilteredNotesSpec(notes, v);
  }

  /** The editor's save as an update: every field of the draft, and the save time. */
  function DraftUpdate(d: NoteDraft, now: int): NoteUpdate
  {
    NoteUpdate(Some(d.title), Some(d.content), Some(d.tags), Some(d.color),
               Some(d.isPinned), Some(d.isFavorite), Some(d.isPrivate), Some(now))
  }

  /** Saving an edit gives the note the draft's fields while keeping its id, creation time and trash state. */
  lemma EditSaveTakesDraft(n: Note, d: NoteDraft, now: int)
    ensures ApplyUpdate(n, DraftUpdate(d, now), now)
            == NewNote(d, n.id, n.createdAt).(updatedAt := now, isDeleted := n.isDeleted, deletedAt := n.deletedAt)
  {
  }

  /** The list screen over a note context. */
  class NoteListView {
    const store: NoteStore
    var isEditing: bool
    var editingNote: Option<Note>
    var showPrivateSpaceDialog: bool

    constructor (store: NoteStore)
      ensures this.store == store
      ensures !isEditing && editingNote == None && !showPrivateSpaceDialog
    {
      this.store := store;
      isEditing := false;
      editingNote := None;
      showPrivateSpaceDialog := false;
    }

    function CurrentView(): View
      reads store
    {
      View(store.showTrash, store.showPrivateNotes, store.showStarredOnly, store.searchTerm, store.selectedTags)
    }

    /** The notes on show. */
    function Shown(): seq<Note>
      reads store
    {
      FilteredNotes(store.notes, CurrentView())
    }

    /** The editor is on screen while editing outside the trash. */
    predicate EditorOpen()
      reads this, store
    {
      isEditing && !store.showTrash
    }

    /**
     * The lock button: locks when private notes are on show, opens the dialog when there is no
     * space or it is locked, and otherwise shows the private notes. Afterwards private notes are
     * on show only while the space is unlocked.
     */
    method HandlePrivateClick()
      modifies store`isPrivateSpaceUnlocked, store`showPrivateNotes, this`showPrivateSpaceDialog
      ensures old(store.showPrivateNotes) ==>
                !store.showPrivateNotes && !store.isPrivateSpaceUnlocked && showPrivateSpaceDialog == old(showPrivateSpaceDialog)
      ensures !old(store.showPrivateNotes) && (!old(store.PrivateSpaceExists()) || !old(store.isPrivateSpaceUnlocked)) ==>
                showPrivateSpaceDialog && !store.showPrivateNotes && store.isPrivateSpaceUnlocked == old(store.isPrivateSpaceUnlocked)
      ensures !old(store.showPrivateNotes) && old(store.PrivateSpaceExists()) && old(store.isPrivateSpaceUnlocked) ==>
                store.showPrivateNotes && store.isPrivateSpaceUnlocked && showPrivateSpaceDialog == old(showPrivateSpaceDialog)
      ensures store.Guarded()
    {
      if store.showPrivateNotes {
        store.LockPrivateSpace();
      } else if !store.PrivateSpaceExists() || !store.isPrivateSpaceUnlocked {
        showPrivateSpaceDialog := true;
      } else {
        store.SetShowPrivateNotes(true);
      }
    }

    method HandleEdit(n: Note)
      modifies this`editingNote, this`isEditing
      ensures editingNote == Some(n) && isEditing
      ensures EditorOpen() <==> !store.showTrash
    {
      editingNote := Some(n);
      isEditing := true;
    }

    /** The new-note button: opens an empty editor. */
    method HandleCreate()
      modifies this`editingNote, this`isEditing
      ensures editingNote == None && isEditing
      ensures EditorOpen() <==> !store.showTrash
    {
      editingNote := None;
      isEditing := true;
    }

    method ToggleTrash()
      modifies store`showTrash
      ensures store.showTrash == !old(store.showTrash)
    {
      store.SetShowTrash(!store.showTrash);
    }

    /** The editor's save: updates the note being edited, or adds a new one, then closes the editor. */
    method OnSave(d: NoteDraft, id: string, now: int)
      modifies store`notes, this`isEditing
      ensures editingNote.Some? ==> store.notes == UpdateMatching(old(store.notes), editingNote.value.id, DraftUpdate(d, now), now)
      ensures editingNote.None? ==> store.notes == AppendNote(old(store.notes), d, id, now)
      ensures !isEditing && !EditorOpen()
    {
      if editingNote.Some? {
        store.UpdateNote(editingNote.value.id, DraftUpdate(d, now), now);
      } else {
        store.AddNote(d, id, now);
      }
      isEditing := false;
    }

    method OnClose()
      modifies this`isEditing
      ensures !isEditing && !EditorOpen()
    {
      isEditing := false;
    }

    method ClosePrivateSpaceDialog()
      modifies this`showPrivateSpaceDialog
      ensures !showPrivateSpaceDialog
    {
      showPrivateSpaceDialog := false;
    }
  }
}
