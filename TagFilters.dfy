/**
 * The tag bar of the filter panel and of the search bar: the list of tags to offer, and the
 * click that selects or deselects one of them.
 */
module TagFilters {
  import opened Seqs
  import opened NoteTypes
  import opened NoteRegistry

  /** `notes.flatMap(note => note.tags)`. */
  function FlatTags(notes: seq<Note>): seq<string>
  {
    if notes == [] then [] else notes[0].tags + FlatTags(notes[1..])
  }

  /** A tag occurs in the flattened list exactly when some note carries it. */
  lemma {:induction false} FlatTagsMembership(notes: seq<Note>)
    ensures forall t :: t in FlatTags(notes) <==> exists n :: n in notes && t in n.tags
  {
    if notes != [] {
      FlatTagsMembership(notes[1..]);
      forall t ensures t in FlatTags(notes) <==> exists n :: n in notes && t in n.tags {
        if t in FlatTags(notes[1..]) {
          var n :| n in notes[1..] && t in n.tags;
          assert n in notes;
        }
        if exists n :: n in notes && t in n.tags {
          var n :| n in notes && t in n.tags;
          if n != notes[0] {
            assert n in notes[1..];
          }
        }
      }
    }
  }

  /** The tag list of the search bar: every tag of every note, each once, in order of first occurrence. */
  function SearchBarTags(notes: seq<Note>): seq<string>
  {
    Dedup(FlatTags(notes))
  }

  function HasPrivacy(showPrivateNotes: bool): Note -> bool
  {
    (n: Note) => n.isPrivate == showPrivateNotes
  }

  /** The notes whose tags the filter panel offers: those of the current privacy, trashed or not. */
  function PanelNotes(notes: seq<Note>, showPrivateNotes: bool): seq<Note>
  {
    Filter(notes, HasPrivacy(showPrivateNotes))
  }

  /** The tag list of the filter panel. */
  function PanelTags(notes: seq<Note>, showPrivateNotes: bool): seq<string>
  {
    Dedup(FlatTags(PanelNotes(notes, showPrivateNotes)))
  }

  /** The search bar offers every tag that occurs, once each, in order of first occurrence. */
  lemma SearchBarTagsSpec(notes: seq<Note>)
    ensures NoDup(SearchBarTags(notes))
    ensures forall t :: t in SearchBarTags(notes) <==> exists n :: n in notes && t in n.tags
    ensures forall t :: t in SearchBarTags(notes) ==> t in FlatTags(notes)
    ensures forall i, j :: 0 <= i < j < |SearchBarTags(notes)| ==>
              IndexOf(FlatTags(notes), SearchBarTags(notes)[i]) < IndexOf(FlatTags(notes), SearchBarTags(notes)[j])
  {
    DedupSpec(FlatTags(notes));
    FlatTagsMembership(notes);
    DedupFirstOccurrenceOrder(FlatTags(notes));
  }

  /**
   * The panel offers exactly the tags carried by some note of the current privacy (trashed notes
   * included), once each, in order of first occurrence.
   */
  lemma PanelTagsSpec(notes: seq<Note>, showPrivateNotes: bool)
    ensures NoDup(PanelTags(notes, showPrivateNotes))
    ensures forall t :: t in PanelTags(notes, showPrivateNotes) <==>
              exists n :: n in notes && n.isPrivate == showPrivateNotes && t in n.tags
    ensures forall t :: t in PanelTags(notes, showPrivateNotes) ==> t in FlatTags(PanelNotes(notes, showPrivateNotes))
    ensures forall i, j :: 0 <= i < j < |PanelTags(notes, showPrivateNotes)| ==>
              IndexOf(FlatTags(PanelNotes(notes, showPrivateNotes)), PanelTags(notes, showPrivateNotes)[i])
              < IndexOf(FlatTags(PanelNotes(notes, showPrivateNotes)), PanelTags(notes, showPrivateNotes)[j])
  {
    var shown := PanelNotes(notes, showPrivateNotes);
    FilterMembership(notes, HasPrivacy(showPrivateNotes));
    SearchBarTagsSpec(shown);
  }

  /** Clicking a tag: a selected tag is deselected (every occurrence), an unselected one is appended. */
  function ToggleTag(selected: seq<string>, tag: string): (r: seq<string>)
    ensures tag in selected ==> tag !in r && forall t :: t != tag ==> (t in r <==> t in selected)
    ensures tag in selected ==> forall t :: t != tag ==> multiset(r)[t] == multiset(selected)[t]
    ensures tag in selected ==> Subsequence(r, selected)
    ensures tag !in selected ==> r == selected + [tag]
  {
    if tag in selected then
      RemoveAllMembership(selected, tag);
      RemoveAllCounts(selected, tag);
      FilterOrdered(selected, Differs(tag));
      RemoveAll(selected, tag)
    else selected + [tag]
  }

  /** Clicking an unselected tag twice restores the selection. */
  lemma ToggleTwiceRestores(selected: seq<string>, tag: string)
    requires tag !in selected
    ensures ToggleTag(ToggleTag(selected, tag), tag) == selected
  {
    RemoveAllAppended(selected, tag);
    RemoveAllAbsent(selected, tag);
  }

  /** The tag button's click handler, in either tag bar. */
  method ClickTag(store: NoteStore, tag: string)
    modifies store`selectedTags
    ensures store.selectedTags == ToggleTag(old(store.selectedTags), tag)
  {
    store.SetSelectedTags(ToggleTag(store.selectedTags, tag));
  }
}
