/** The note download: the file name and the text body, and the two header fields of the PDF view. */
module Download {
  import opened Wrappers
  import opened Text
  import opened NoteTypes
  import opened NoteRegistry

  datatype Format = Txt | Pdf

  function Extension(f: Format): string
  {
    match f
    case Txt => "txt"
    case Pdf => "pdf"
  }

  /** `(suggestedName || "note-" + timestamp) + "." + format`: an absent or empty name falls back to the default. */
  function FileName(suggestedName: Option<string>, timestamp: nat, format: Format): (r: string)
    ensures suggestedName.Some? && suggestedName.value != "" ==> r == suggestedName.value + "." + Extension(format)
    ensures suggestedName.None? || suggestedName.value == "" ==> r == "note-" + NatToString(timestamp) + "." + Extension(format)
  {
    var base := if suggestedName.Some? && suggestedName.value != "" then suggestedName.value else "note-" + NatToString(timestamp);
    base + "." + Extension(format)
  }

  /** The default name is never empty before its extension. */
  lemma FallbackNameNotEmpty(timestamp: nat, format: Format)
    ensures |FileName(None, timestamp, format)| > |"note-." + Extension(format)|
    ensures FileName(Some(""), timestamp, format) == FileName(None, timestamp, format)
  {
  }

  /** The text body: title, a blank line, content, and the tag line when there are tags. */
  function TextBody(n: Note): (r: string)
    ensures StartsWith(r, n.title + "\n\n" + n.content)
    ensures n.tags == [] ==> r == n.title + "\n\n" + n.content
    ensures n.tags != [] ==> r == n.title + "\n\n" + n.content + "\n\nTags: " + Join(n.tags, ", ")
  {
    var head := n.title + "\n\n" + n.content;
    var body := if |n.tags| > 0 then head + "\n\nTags: " + Join(n.tags, ", ") else head;
    assert body[..|head|] == head;
    body
  }

  /** The PDF heading: the title, or "Untitled Note" for an empty one. */
  function HeaderTitle(n: Note): (r: string)
    ensures r == "Untitled Note" <==> n.title == "" || n.title == "Untitled Note"
    ensures n.title != "" ==> r == n.title
  {
    if n.title != "" then n.title else "Untitled Note"
  }

  /** The PDF metadata line mentions the update exactly when the note was changed after creation. */
  predicate ShowsUpdated(n: Note)
  {
    n.updatedAt != n.createdAt
  }

  /**
   * Every file name ends in a dot and the format's extension after a non-empty stem, so the two
   * formats never produce the same name.
   */
  lemma FileNameShape(suggestedName: Option<string>, timestamp: nat, format: Format)
    ensures EndsWith(FileName(suggestedName, timestamp, format), "." + Extension(format))
    ensures |FileName(suggestedName, timestamp, format)| > |"." + Extension(format)|
    ensures FileName(suggestedName, timestamp, Txt) != FileName(suggestedName, timestamp, Pdf)
  {
    var t := FileName(suggestedName, timestamp, Txt);
    var p := FileName(suggestedName, timestamp, Pdf);
    assert t[|t| - 1] == 't' && p[|p| - 1] == 'f';
  }

  /** The tag line is there exactly when the note has tags. */
  lemma TextBodyTagLineIffTags(n: Note)
    ensures |TextBody(n)| > |n.title + "\n\n" + n.content| <==> n.tags != []
  {
  }

  /** The PDF heading is never empty. */
  lemma HeaderTitleNeverEmpty(n: Note)
    ensures HeaderTitle(n) != ""
  {
  }

  /** A newly added note shows no update; any later update or edit at another instant does. */
  lemma ShowsUpdatedAfterEdit(d: NoteDraft, id: string, now: int, u: NoteUpdate, later: int)
    requires later != now
    ensures !ShowsUpdated(NewNote(d, id, now))
    ensures ShowsUpdated(ApplyUpdate(NewNote(d, id, now), u, later))
  {
  }
}
