/**
 * The note registry: the collection of notes with its trash lifecycle, the thirty-day trash
 * purge and the password-gated private space, together with the session's view selection.
 * Every operation replaces the collection by a map or a filter of the old one; the functions
 * below are those maps and filters, and the class applies them to its fields.
 */
module NoteRegistry {
  import opened Wrappers
  import opened Seqs
  import opened NoteTypes

  /** How long a trashed note is kept: thirty days, in milliseconds. */
  const RETENTION_MS: int := 30 * 24 * 60 * 60 * 1000

  /** The note `addNote` builds from a draft: a new id, both timestamps `now`, not trashed. */
  function NewNote(d: NoteDraft, id: string, now: int): Note
  {
    Note(id, d.title, d.content, d.tags, d.color, d.isPinned, d.isFavorite, d.isPrivate, false, None, now, now)
  }

  /** The collection after `addNote`: the old notes followed by exactly one new note. */
  function AppendNote(notes: seq<Note>, d: NoteDraft, id: string, now: int): (r: seq<Note>)
    ensures |r| == |notes| + 1 && r[..|notes|] == notes
    ensures r[|notes|].id == id && r[|notes|].createdAt == now && r[|notes|].updatedAt == now
    ensures !r[|notes|].isDeleted && r[|notes|].deletedAt == None
    ensures r[|notes|].title == d.title && r[|notes|].content == d.content && r[|notes|].tags == d.tags
    ensures r[|notes|].color == d.color && r[|notes|].isPinned == d.isPinned
    ensures r[|notes|].isFavorite == d.isFavorite && r[|notes|].isPrivate == d.isPrivate
  {
    notes + [NewNote(d, id, now)]
  }

  /** A fresh id keeps the ids unique. */
  lemma AppendKeepsIdsUnique(notes: seq<Note>, d: NoteDraft, id: string, now: int)
    requires UniqueIds(notes)
    requires forall n :: n in notes ==> n.id != id
    ensures UniqueIds(AppendNote(notes, d, id, now))
  {
    var r := AppendNote(notes, d, id, now);
    forall i, j | 0 <= i < j < |r| ensures r[i].id != r[j].id {
      if j == |notes| {
        assert r[i] == notes[i];
      } else {
        assert r[i] == notes[i] && r[j] == notes[j];
      }
    }
  }

  /** `{ ...note, ...updates, updatedAt: now }`: the supplied fields win, the timestamp is always `now`. */
  function ApplyUpdate(n: Note, u: NoteUpdate, now: int): (r: Note)
    ensures r.id == n.id && r.createdAt == n.createdAt
    ensures r.isDeleted == n.isDeleted && r.deletedAt == n.deletedAt
    ensures r.updatedAt == now
    ensures r.title == u.title.GetOr(n.title) && r.content == u.content.GetOr(n.content)
    ensures r.tags == u.tags.GetOr(n.tags) && r.color == u.color.GetOr(n.color)
    ensures r.isPinned == u.isPinned.GetOr(n.isPinned) && r.isFavorite == u.isFavorite.GetOr(n.isFavorite)
    ensures r.isPrivate == u.isPrivate.GetOr(n.isPrivate)
  {
    n.(title := u.title.GetOr(n.title), content := u.content.GetOr(n.content),
       tags := u.tags.GetOr(n.tags), color := u.color.GetOr(n.color),
       isPinned := u.isPinned.GetOr(n.isPinned), isFavorite := u.isFavorite.GetOr(n.isFavorite),
       isPrivate := u.isPrivate.GetOr(n.isPrivate), updatedAt := now)
  }

  /** The collection after `updateNote(id, u)`: only notes with that id are merged with `u`. */
  function UpdateMatching(notes: seq<Note>, id: string, u: NoteUpdate, now: int): (r: seq<Note>)
    ensures |r| == |notes|
    ensures forall i :: 0 <= i < |notes| && notes[i].id != id ==> r[i] == notes[i]
    ensures forall i :: 0 <= i < |notes| && notes[i].id == id ==> r[i] == ApplyUpdate(notes[i], u, now)
    ensures (forall n :: n in notes ==> n.id != id) ==> r == notes
  {
    seq(|notes|, i requires 0 <= i < |notes| => if notes[i].id == id then ApplyUpdate(notes[i], u, now) else notes[i])
  }

  /** A trashed copy of `n`: deleted at `now`, unpinned and not a favourite, all else as it was. */
  function Trashed(n: Note, now: int): (r: Note)
    ensures r.isDeleted && r.deletedAt == Some(now) && !r.isPinned && !r.isFavorite
    ensures r.(isDeleted := n.isDeleted, deletedAt := n.deletedAt, isPinned := n.isPinned, isFavorite := n.isFavorite) == n
  {
    n.(isDeleted := true, deletedAt := Some(now), isPinned := false, isFavorite := false)
  }

  /** The collection after `moveToTrash(id)`. */
  function TrashMatching(notes: seq<Note>, id: string, now: int): (r: seq<Note>)
    ensures |r| == |notes|
    ensures forall i :: 0 <= i < |notes| && notes[i].id != id ==> r[i] == notes[i]
    ensures forall i :: 0 <= i < |notes| && notes[i].id == id ==> r[i] == Trashed(notes[i], now)
  {
    seq(|notes|, i requires 0 <= i < |notes| => if notes[i].id == id then Trashed(notes[i], now) else notes[i])
  }

  /** A restored copy of `n`: not deleted, no deletion time, all else (pin, favourite, `updatedAt`) as it was. */
  function Restored(n: Note): (r: Note)
    ensures !r.isDeleted && r.deletedAt == None
    ensures r.(isDeleted := n.isDeleted, deletedAt := n.deletedAt) == n
  {
    n.(isDeleted := false, deletedAt := None)
  }

  /** The collection after `restoreFromTrash(id)`. */
  function RestoreMatching(notes: seq<Note>, id: string): (r: seq<Note>)
    ensures |r| == |notes|
    ensures forall i :: 0 <= i < |notes| && notes[i].id != id ==> r[i] == notes[i]
    ensures forall i :: 0 <= i < |notes| && notes[i].id == id ==> r[i] == Restored(notes[i])
  {
    seq(|notes|, i requires 0 <= i < |notes| => if notes[i].id == id then Restored(notes[i]) else notes[i])
  }

  /** Trashing and then restoring an active note gives it back unpinned and not a favourite. */
  lemma TrashThenRestore(n: Note, now: int)
    requires !n.isDeleted && n.deletedAt == None
    ensures Restored(Trashed(n, now)) == n.(isPinned := false, isFavorite := false)
  {
  }

  function IdIsNot(id: string): Note -> bool
  {
    (n: Note) => n.id != id
  }

  /** The collection after `permanentlyDelete(id)`: every note with that id removed, trashed or not. */
  function RemoveNote(notes: seq<Note>, id: string): (r: seq<Note>)
    ensures forall n :: n in r <==> n in notes && n.id != id
    ensures multiset(r) <= multiset(notes)
    ensures forall n: Note :: n.id != id ==> multiset(r)[n] == multiset(notes)[n]
    ensures Subsequence(r, notes)
  {
    FilterMembership(notes, IdIsNot(id));
    FilterSubmultiset(notes, IdIsNot(id));
    FilterCountsPassing(notes, IdIsNot(id));
    FilterOrdered(notes, IdIsNot(id));
    Filter(notes, IdIsNot(id))
  }

  /** A note the purge removes: trashed, with a deletion time at least thirty days before `now`. */
  predicate IsExpired(n: Note, now: int)
  {
    n.isDeleted && n.deletedAt.Some? && n.deletedAt.value <= now - RETENTION_MS
  }

  function Survives(now: int): Note -> bool
  {
    (n: Note) => !IsExpired(n, now)
  }

  /** The collection after the trash check at time `now`. */
  function PurgeExpired(notes: seq<Note>, now: int): seq<Note>
  {
    Filter(notes, Survives(now))
  }

  /** The purge keeps exactly the notes that have not expired, in their order. */
  lemma PurgeSpec(notes: seq<Note>, now: int)
    ensures forall n :: n in PurgeExpired(notes, now) <==> n in notes && !IsExpired(n, now)
    ensures multiset(PurgeExpired(notes, now)) <= multiset(notes)
    ensures (forall n :: n in notes ==> !IsExpired(n, now)) ==> PurgeExpired(notes, now) == notes
    ensures forall n :: !IsExpired(n, now) ==> multiset(PurgeExpired(notes, now))[n] == multiset(notes)[n]
    ensures Subsequence(PurgeExpired(notes, now), notes)
  {
    FilterMembership(notes, Survives(now));
    FilterSubmultiset(notes, Survives(now));
    FilterCountsPassing(notes, Survives(now));
    FilterOrdered(notes, Survives(now));
    if forall n :: n in notes ==> !IsExpired(n, now) {
      FilterKeepsAll(notes, Survives(now));
    }
  }

  /**
   * The boundary is inclusive: a note deleted exactly thirty days ago is purged, one deleted a
   * millisecond later is kept, and a trashed note without a deletion time is never purged.
   */
  lemma PurgeBoundary(n: Note, now: int)
    ensures n.isDeleted && n.deletedAt == Some(now - RETENTION_MS) ==> PurgeExpired([n], now) == []
    ensures n.deletedAt == Some(now - RETENTION_MS + 1) ==> PurgeExpired([n], now) == [n]
    ensures n.deletedAt == None ==> PurgeExpired([n], now) == [n]
  {
    PurgeSpec([n], now);
  }

  /** Purging twice at the same time removes nothing more. */
  lemma PurgeIdempotent(notes: seq<Note>, now: int)
    ensures PurgeExpired(PurgeExpired(notes, now), now) == PurgeExpired(notes, now)
  {
    PurgeSpec(notes, now);
    PurgeSpec(PurgeExpired(notes, now), now);
  }

  /**
   * A note trashed at `t` is gone after a purge 31 days later; one trashed at `t` survives a
   * purge 29 days later and can be restored.
   */
  lemma TrashScenario(a: Note, t: int)
    requires !a.isDeleted && a.deletedAt == None
    ensures PurgeExpired(TrashMatching([a], a.id, t), t + 31 * 24 * 60 * 60 * 1000) == []
    ensures PurgeExpired(TrashMatching([a], a.id, t), t + 29 * 24 * 60 * 60 * 1000) == TrashMatching([a], a.id, t)
    ensures RestoreMatching(PurgeExpired(TrashMatching([a], a.id, t), t + 29 * 24 * 60 * 60 * 1000), a.id)
            == [a.(isPinned := false, isFavorite := false)]
  {
    var trashed := TrashMatching([a], a.id, t);
    assert trashed == [Trashed(a, t)];
    PurgeSpec(trashed, t + 31 * 24 * 60 * 60 * 1000);
    PurgeSpec(trashed, t + 29 * 24 * 60 * 60 * 1000);
  }

  predicate IsPublic(n: Note)
  {
    !n.isPrivate
  }

  /** The collection after `deletePrivateSpace`: exactly the private notes removed, the rest in order. */
  function RemovePrivateNotes(notes: seq<Note>): (r: seq<Note>)
    ensures forall n :: n in r <==> n in notes && !n.isPrivate
    ensures multiset(r) <= multiset(notes)
    ensures forall n: Note :: !n.isPrivate ==> multiset(r)[n] == multiset(notes)[n]
    ensures Subsequence(r, notes)
  {
    FilterMembership(notes, IsPublic);
    FilterSubmultiset(notes, IsPublic);
    FilterCountsPassing(notes, IsPublic);
    FilterOrdered(notes, IsPublic);
    Filter(notes, IsPublic)
  }

  /**
   * The note-by-note operations keep "trashed iff it has a deletion time": creation leaves
   * both out, updates never touch them, and trash and restore set both.
   */
  lemma EditsKeepTrashConsistent(notes: seq<Note>, d: NoteDraft, id: string, u: NoteUpdate, now: int)
    requires TrashConsistent(notes)
    ensures TrashConsistent(AppendNote(notes, d, id, now))
    ensures TrashConsistent(UpdateMatching(notes, id, u, now))
    ensures TrashConsistent(TrashMatching(notes, id, now))
    ensures TrashConsistent(RestoreMatching(notes, id))
  {
    var added := AppendNote(notes, d, id, now);
    forall i | 0 <= i < |added| ensures added[i].isDeleted <==> added[i].deletedAt.Some? {
      if i < |notes| {
        assert added[i] == notes[i];
      }
    }
  }

  /** The removals only drop notes, so they keep "trashed iff it has a deletion time" too. */
  lemma RemovalsKeepTrashConsistent(notes: seq<Note>, id: string, now: int)
    requires TrashConsistent(notes)
    ensures TrashConsistent(RemoveNote(notes, id))
    ensures TrashConsistent(PurgeExpired(notes, now))
    ensures TrashConsistent(RemovePrivateNotes(notes))
  {
    PurgeSpec(notes, now);
    TrashConsistentBySet(notes, RemoveNote(notes, id));
    TrashConsistentBySet(notes, PurgeExpired(notes, now));
    TrashConsistentBySet(notes, RemovePrivateNotes(notes));
  }

  lemma TrashConsistentBySet(notes: seq<Note>, r: seq<Note>)
    requires TrashConsistent(notes)
    requires forall n :: n in r ==> n in notes
    ensures TrashConsistent(r)
  {
    forall i | 0 <= i < |r| ensures r[i].isDeleted <==> r[i].deletedAt.Some? {
      assert r[i] in notes;
    }
  }

  /**
   * The note context: the collection, the private-space password (empty when there is no private
   * space), the transient unlock flag, and the view selection the note list reads.
   */
  class NoteStore {
    var notes: seq<Note>
    var privateSpacePassword: string
    var isPrivateSpaceUnlocked: bool
    var searchTerm: string
    var selectedTags: seq<string>
    var showStarredOnly: bool
    var showPrivateNotes: bool
    var showTrash: bool

    /** Private notes are on show only while the private space is unlocked. */
    ghost predicate Guarded()
      reads this
    {
      showPrivateNotes ==> isPrivateSpaceUnlocked
    }

    /** `privateSpaceExists`: a non-empty password is stored. */
    predicate PrivateSpaceExists()
      reads this
    {
      privateSpacePassword != ""
    }

    /**
     * Rehydrates from the saved snapshot and password (`None` where nothing was saved); the
     * session always starts locked, outside the trash and with no filters.
     */
    constructor (savedNotes: Option<seq<Note>>, savedPassword: Option<string>)
      ensures notes == savedNotes.GetOr([]) && privateSpacePassword == savedPassword.GetOr("")
      ensures !isPrivateSpaceUnlocked && !showPrivateNotes && !showTrash && !showStarredOnly
      ensures searchTerm == "" && selectedTags == []
      ensures Guarded()
    {
      notes := savedNotes.GetOr([]);
      privateSpacePassword := savedPassword.GetOr("");
      isPrivateSpaceUnlocked := false;
      searchTerm := "";
      selectedTags := [];
      showStarredOnly := false;
      showPrivateNotes := false;
      showTrash := false;
    }

    method AddNote(d: NoteDraft, id: string, now: int)
      modifies this`notes
      ensures notes == AppendNote(old(notes), d, id, now)
    {
      notes := AppendNote(notes, d, id, now);
    }

    method UpdateNote(id: string, u: NoteUpdate, now: int)
      modifies this`notes
      ensures notes == UpdateMatching(old(notes), id, u, now)
    {
      notes := UpdateMatching(notes, id, u, now);
    }

    /** Also exported as `deleteNote`. */
    method MoveToTrash(id: string, now: int)
      modifies this`notes
      ensures notes == TrashMatching(old(notes), id, now)
    {
      notes := TrashMatching(notes, id, now);
    }

    method RestoreFromTrash(id: string)
      modifies this`notes
      ensures notes == RestoreMatching(old(notes), id)
    {
      notes := RestoreMatching(notes, id);
    }

    method PermanentlyDelete(id: string)
      modifies this`notes
      ensures notes == RemoveNote(old(notes), id)
    {
      notes := RemoveNote(notes, id);
    }

    /** The trash check run on start-up and every hour. */
    method CheckTrash(now: int)
      modifies this`notes
      ensures notes == PurgeExpired(old(notes), now)
    {
      notes := PurgeExpired(notes, now);
    }

    /** Stores the password and unlocks, without looking at an existing space or the private view. */
    method SetupPrivateSpace(password: string)
      modifies this`privateSpacePassword, this`isPrivateSpaceUnlocked
      ensures privateSpacePassword == password && isPrivateSpaceUnlocked
      ensures Guarded()
    {
      privateSpacePassword := password;
      isPrivateSpaceUnlocked := true;
    }

    /** Succeeds exactly when the password matches; only then are the space unlocked and private notes shown. */
    method UnlockPrivateSpace(password: string) returns (ok: bool)
      modifies this`isPrivateSpaceUnlocked, this`showPrivateNotes
      ensures ok <==> password == privateSpacePassword
      ensures ok ==> isPrivateSpaceUnlocked && showPrivateNotes
      ensures !ok ==> isPrivateSpaceUnlocked == old(isPrivateSpaceUnlocked) && showPrivateNotes == old(showPrivateNotes)
      ensures old(Guarded()) ==> Guarded()
    {
      if password == privateSpacePassword {
        isPrivateSpaceUnlocked := true;
        showPrivateNotes := true;
        return true;
      }
      return false;
    }

    method LockPrivateSpace()
      modifies this`isPrivateSpaceUnlocked, this`showPrivateNotes
      ensures !isPrivateSpaceUnlocked && !showPrivateNotes
      ensures Guarded()
    {
      isPrivateSpaceUnlocked := false;
      showPrivateNotes := false;
    }

    /** Removes every private note, clears the password (so no space exists) and locks. */
    method DeletePrivateSpace()
      modifies this`notes, this`privateSpacePassword, this`isPrivateSpaceUnlocked, this`showPrivateNotes
      ensures notes == RemovePrivateNotes(old(notes))
      ensures privateSpacePassword == "" && !PrivateSpaceExists()
      ensures !isPrivateSpaceUnlocked && !showPrivateNotes
      ensures Guarded()
    {
      notes := RemovePrivateNotes(notes);
      privateSpacePassword := "";
      isPrivateSpaceUnlocked := false;
      showPrivateNotes := false;
    }

    method SetSearchTerm(term: string)
      modifies this`searchTerm
      ensures searchTerm == term
    {
      searchTerm := term;
    }

    method SetSelectedTags(tags: seq<string>)
      modifies this`selectedTags
      ensures selectedTags == tags
    {
      selectedTags := tags;
    }

    method SetShowStarredOnly(show: bool)
      modifies this`showStarredOnly
      ensures showStarredOnly == show
    {
      showStarredOnly := show;
    }

    /** The raw setter; whether the session stays guarded depends on the caller. */
    method SetShowPrivateNotes(show: bool)
      modifies this`showPrivateNotes
      ensures showPrivateNotes == show
      ensures Guarded() <==> (!show || isPrivateSpaceUnlocked)
    {
      showPrivateNotes := show;
    }

    method SetShowTrash(show: bool)
      modifies this`showTrash
      ensures showTrash == show
    {
      showTrash := show;
    }
  }
}
