/**
 * The note editor: the form state of one note being written, and the tag editor inside it,
 * which turns key presses and typing into a list of tags with no duplicates and none longer
 * than the limit.
 */
module NoteEditor {
  import opened Wrappers
  import opened Seqs
  import opened Text
  import opened NoteTypes

  /** The longest tag the editor accepts. */
  const MAX_TAG_LENGTH: nat := 50

  const TAG_TOO_LONG: string := "Tags cannot be longer than 50 characters"

  /** The keys the tag input reacts to; every other key is `OtherKey`. */
  datatype Key = Enter | Backspace | OtherKey

  /** The tag editor's part of the form: the tags, the text being typed, the error shown. */
  datatype TagState = TagState(tags: seq<string>, input: string, error: string)

  /** `handleTagKeyDown`. */
  function KeyDown(s: TagState, key: Key): (r: TagState)
    ensures key == Enter && Trim(s.input) != "" && |Trim(s.input)| > MAX_TAG_LENGTH
            ==> r == s.(error := TAG_TOO_LONG)
    ensures key == Enter && Trim(s.input) != "" && |Trim(s.input)| <= MAX_TAG_LENGTH && Trim(s.input) !in s.tags
            ==> r == TagState(s.tags + [Trim(s.input)], "", "")
    ensures key == Enter && Trim(s.input) != "" && |Trim(s.input)| <= MAX_TAG_LENGTH && Trim(s.input) in s.tags
            ==> r == s.(input := "")
    ensures key == Backspace && s.input == "" && |s.tags| > 0
            ==> r == TagState(s.tags[..|s.tags| - 1], s.input, "")
    ensures (key == Enter && Trim(s.input) == "") || key == OtherKey || (key == Backspace && (s.input != "" || s.tags == []))
            ==> r == s
  {
    var newTag := Trim(s.input);
    if key == Enter && newTag != "" then
      if |newTag| > MAX_TAG_LENGTH then s.(error := TAG_TOO_LONG)
      else if newTag !in s.tags then TagState(s.tags + [newTag], "", "")
      else s.(input := "")
    else if key == Backspace && s.input == "" && |s.tags| > 0 then
      TagState(s.tags[..|s.tags| - 1], s.input, "")
    else s
  }

  /** `handleTagInputChange`: the raw input is kept, and the error is set exactly when it is too long. */
  function InputChange(s: TagState, value: string): (r: TagState)
    ensures r.tags == s.tags && r.input == value
    ensures r.error == TAG_TOO_LONG <==> |value| > MAX_TAG_LENGTH
    ensures r.error == "" <==> |value| <= MAX_TAG_LENGTH
  {
    TagState(s.tags, value, if |value| > MAX_TAG_LENGTH then TAG_TOO_LONG else "")
  }

  /** `removeTag`: every occurrence removed, the other tags kept in order and count; the error cleared. */
  function RemoveTag(s: TagState, tag: string): (r: TagState)
    ensures tag !in r.tags && forall t :: t != tag ==> (t in r.tags <==> t in s.tags)
    ensures forall t :: t != tag ==> multiset(r.tags)[t] == multiset(s.tags)[t]
    ensures Subsequence(r.tags, s.tags)
    ensures r.input == s.input && r.error == ""
  {
    RemoveAllMembership(s.tags, tag);
    RemoveAllCounts(s.tags, tag);
    FilterOrdered(s.tags, Differs(tag));
    TagState(RemoveAll(s.tags, tag), s.input, "")
  }

  /** What can happen to the tag editor. */
  datatype TagEvent = Press(key: Key) | Type(value: string) | Remove(tag: string)

  function Step(s: TagState, e: TagEvent): TagState
  {
    match e
    case Press(key) => KeyDown(s, key)
    case Type(value) => InputChange(s, value)
    case Remove(tag) => RemoveTag(s, tag)
  }

  function Run(s: TagState, events: seq<TagEvent>): TagState
    decreases |events|
  {
    if events == [] then s else Run(Step(s, events[0]), events[1..])
  }

  /** No duplicate tags, and each one non-empty, already trimmed, and within the limit. */
  ghost predicate WellFormedTags(tags: seq<string>)
  {
    NoDup(tags) && forall i :: 0 <= i < |tags| ==> |tags[i]| <= MAX_TAG_LENGTH && tags[i] != "" && Trim(tags[i]) == tags[i]
  }

  lemma AppendKeepsWellFormed(tags: seq<string>, t: string)
    requires WellFormedTags(tags)
    requires t !in tags && t != "" && Trim(t) == t && |t| <= MAX_TAG_LENGTH
    ensures WellFormedTags(tags + [t])
  {
    var r := tags + [t];
    forall i | 0 <= i < |r| ensures |r[i]| <= MAX_TAG_LENGTH && r[i] != "" && Trim(r[i]) == r[i] {
      if i < |tags| {
        assert r[i] == tags[i];
      }
    }
    forall i, j | 0 <= i < j < |r| ensures r[i] != r[j] {
      if j < |tags| {
        assert r[i] == tags[i] && r[j] == tags[j];
      } else {
        assert r[i] == tags[i] && r[i] in tags;
      }
    }
  }

  lemma DropLastKeepsWellFormed(tags: seq<string>)
    requires WellFormedTags(tags) && |tags| > 0
    ensures WellFormedTags(tags[..|tags| - 1])
  {
    var r := tags[..|tags| - 1];
    assert forall i :: 0 <= i < |r| ==> r[i] == tags[i];
  }

  /** A key press keeps the tags well-formed: only a trimmed, non-empty, short, new tag is appended. */
  lemma KeyDownKeepsWellFormed(s: TagState, key: Key)
    requires WellFormedTags(s.tags)
    ensures WellFormedTags(KeyDown(s, key).tags)
  {
    if key == Enter && Trim(s.input) != "" && |Trim(s.input)| <= MAX_TAG_LENGTH && Trim(s.input) !in s.tags {
      TrimIdempotent(s.input);
      AppendKeepsWellFormed(s.tags, Trim(s.input));
    } else if key == Backspace && s.input == "" && |s.tags| > 0 {
      DropLastKeepsWellFormed(s.tags);
    }
  }

  /** Removing a tag keeps the others, so it keeps them well-formed. */
  lemma RemoveTagKeepsWellFormed(s: TagState, tag: string)
    requires WellFormedTags(s.tags)
    ensures WellFormedTags(RemoveTag(s, tag).tags)
  {
    FilterKeepsNoDup(s.tags, Differs(tag));
    FilterMembership(s.tags, Differs(tag));
    var r := RemoveAll(s.tags, tag);
    forall i | 0 <= i < |r| ensures |r[i]| <= MAX_TAG_LENGTH && r[i] != "" && Trim(r[i]) == r[i] {
      assert r[i] in s.tags;
    }
  }

  lemma StepKeepsWellFormed(s: TagState, e: TagEvent)
    requires WellFormedTags(s.tags)
    ensures WellFormedTags(Step(s, e).tags)
  {
    match e
    case Press(key) => KeyDownKeepsWellFormed(s, key);
    case Type(_) =>
    case Remove(tag) => RemoveTagKeepsWellFormed(s, tag);
  }

  /** Starting from well-formed tags, every sequence of edits leaves the tags well-formed. */
  lemma {:induction false} RunKeepsWellFormed(s: TagState, events: seq<TagEvent>)
    requires WellFormedTags(s.tags)
    ensures WellFormedTags(Run(s, events).tags)
    decreases |events|
  {
    if events != [] {
      StepKeepsWellFormed(s, events[0]);
      RunKeepsWellFormed(Step(s, events[0]), events[1..]);
    }
  }

  /** The editor form. Opening it on a note copies the note's fields; opening it empty starts blank. */
  class NoteEditor {
    var title: string
    var content: string
    var tags: seq<string>
    var tagInput: string
    var tagError: string
    var color: string
    var isPinned: bool
    var isFavorite: bool
    var isPrivate: bool

    function Tags(): TagState
      reads this
    {
      TagState(tags, tagInput, tagError)
    }

    constructor (note: Option<Note>)
      ensures note.Some? ==> title == note.value.title && content == note.value.content && tags == note.value.tags
      ensures note.Some? ==> color == note.value.color && isPinned == note.value.isPinned
      ensures note.Some? ==> isFavorite == note.value.isFavorite && isPrivate == note.value.isPrivate
      ensures note.None? ==> title == "" && content == "" && tags == [] && color == ""
      ensures note.None? ==> !isPinned && !isFavorite && !isPrivate
      ensures tagInput == "" && tagError == ""
    {
      match note {
        case Some(n) =>
          title, content, tags, color := n.title, n.content, n.tags, n.color;
          isPinned, isFavorite, isPrivate := n.isPinned, n.isFavorite, n.isPrivate;
        case None =>
          title, content, tags, color := "", "", [], "";
          isPinned, isFavorite, isPrivate := false, false, false;
      }
      tagInput, tagError := "", "";
    }

    /**
     * A key in the tag field. Enter on a blank tag field is not intercepted, so the browser submits
     * the form, which it allows only when the required title and content are filled in; the draft
     * is then what `HandleSubmit` hands over.
     */
    method HandleTagKeyDown(key: Key) returns (submitted: Option<NoteDraft>)
      modifies this`tags, this`tagInput, this`tagError
      ensures Tags() == KeyDown(old(Tags()), key)
      ensures submitted.Some? <==> key == Enter && Trim(old(tagInput)) == "" && title != "" && content != ""
      ensures submitted.Some? ==> submitted.value == NoteDraft(title, content, tags, color, isPinned, isFavorite, isPrivate)
    {
      submitted := None;
      if key == Enter && Trim(tagInput) != "" {
        var newTag := Trim(tagInput);
        if |newTag| > MAX_TAG_LENGTH {
          tagError := TAG_TOO_LONG;
          return;
        }
        if newTag !in tags {
          tags := tags + [newTag];
          tagError := "";
        }
        tagInput := "";
      } else if key == Backspace && tagInput == "" && |tags| > 0 {
        tags := tags[..|tags| - 1];
        tagError := "";
      } else if key == Enter && title != "" && content != "" {
        var d := HandleSubmit();
        submitted := Some(d);
      }
    }

    method HandleTagInputChange(value: string)
      modifies this`tagInput, this`tagError
      ensures Tags() == InputChange(old(Tags()), value)
    {
      tagInput := value;
      if |value| > MAX_TAG_LENGTH {
        tagError := TAG_TOO_LONG;
      } else {
        tagError := "";
      }
    }

    method HandleRemoveTag(tag: string)
      modifies this`tags, this`tagError
      ensures Tags() == RemoveTag(old(Tags()), tag)
    {
      tags := RemoveAll(tags, tag);
      tagError := "";
    }

    method SetTitle(value: string)
      modifies this`title
      ensures title == value
    {
      title := value;
    }

    method SetContent(value: string)
      modifies this`content
      ensures content == value
    {
      content := value;
    }

    method SetColor(value: string)
      modifies this`color
      ensures color == value
    {
      color := value;
    }

    /** The pin checkbox. */
    method SetPinned(checked: bool)
      modifies this`isPinned
      ensures isPinned == checked
    {
      isPinned := checked;
    }

    /** The favourite checkbox. */
    method SetFavorite(checked: bool)
      modifies this`isFavorite
      ensures isFavorite == checked
    {
      isFavorite := checked;
    }

    /** The lock button flips privacy. */
    method TogglePrivate()
      modifies this`isPrivate
      ensures isPrivate == !old(isPrivate)
    {
      isPrivate := !isPrivate;
    }

    /** The save payload: exactly the form's fields, with no id, timestamps or trash fields. */
    method HandleSubmit() returns (d: NoteDraft)
      ensures d.title == title && d.content == content && d.tags == tags && d.color == color
      ensures d.isPinned == isPinned && d.isFavorite == isFavorite && d.isPrivate == isPrivate
    {
      d := NoteDraft(title, content, tags, color, isPinned, isFavorite, isPrivate);
    }
  }
}
