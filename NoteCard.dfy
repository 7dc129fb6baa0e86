/**
 * One note's card: whether its content shows, what copying yields, the tag chips, and which
 * actions the card offers in each view.
 */
module NoteCard {
  import opened Wrappers
  import opened Text
  import opened NoteTypes
  import opened NoteRegistry

  /** Chips shown before the overflow chip. */
  const MAX_CHIPS: nat := 3
  /** Tag labels longer than this are cut. */
  const MAX_CHIP_LABEL: nat := 15

  /** A public note always shows its content; a private one only in the private view. */
  predicate IsContentVisible(n: Note, showPrivateNotes: bool)
  {
    !n.isPrivate || showPrivateNotes
  }

  /** What the copy button writes to the clipboard, if anything. */
  function CopyText(n: Note, showPrivateNotes: bool): (r: Option<string>)
    ensures r.Some? <==> IsContentVisible(n, showPrivateNotes)
    ensures r.Some? ==> r.value == n.content
  {
    if !n.isPrivate || showPrivateNotes then Some(n.content) else None
  }

  /** A chip's text: short tags verbatim, long ones cut to their first 15 characters and "...". */
  function ChipLabel(tag: string): (r: string)
    ensures |tag| <= MAX_CHIP_LABEL ==> r == tag
    ensures |tag| > MAX_CHIP_LABEL ==> |r| == MAX_CHIP_LABEL + 3 && r[..MAX_CHIP_LABEL] == tag[..MAX_CHIP_LABEL]
    ensures |tag| > MAX_CHIP_LABEL ==> r[MAX_CHIP_LABEL..] == "..."
  {
    if |tag| > MAX_CHIP_LABEL then tag[..MAX_CHIP_LABEL] + "..." else tag
  }

  /** The chips for the first three tags, in order. */
  function TagChips(tags: seq<string>): (r: seq<string>)
    ensures |r| <= MAX_CHIPS
    ensures |r| == if |tags| < MAX_CHIPS then |tags| else MAX_CHIPS
    ensures forall i :: 0 <= i < |r| ==> r[i] == ChipLabel(tags[i])
  {
    var shown := if |tags| < MAX_CHIPS then tags else tags[..MAX_CHIPS];
    seq(|shown|, i requires 0 <= i < |shown| => ChipLabel(shown[i]))
  }

  /** How many tags the overflow chip stands for. */
  function HiddenTagCount(tags: seq<string>): nat
  {
    if |tags| > MAX_CHIPS then |tags| - MAX_CHIPS else 0
  }

  /** The "+N" chip, present exactly when there are more than three tags. */
  function OverflowChip(tags: seq<string>): (r: Option<string>)
    ensures r.Some? <==> |tags| > MAX_CHIPS
    ensures r.Some? ==> r.value == "+" + NatToString(HiddenTagCount(tags))
  {
    if |tags| > MAX_CHIPS then Some("+" + NatToString(|tags| - MAX_CHIPS)) else None
  }

  /** Between them, the chips and the overflow count account for every tag exactly once. */
  lemma ChipsCoverAllTags(tags: seq<string>)
    ensures |TagChips(tags)| + HiddenTagCount(tags) == |tags|
    ensures OverflowChip(tags).None? ==> |TagChips(tags)| == |tags|
  {
  }

  /** The buttons a card can show. */
  datatype CardAction = TogglePin | ToggleStar | Copy | Edit | MoveToTrash | Restore | DeleteForever

  /** The trash view offers restore and permanent delete only; elsewhere the card offers the rest, copy only for visible content. */
  function CardActions(showTrash: bool, contentVisible: bool): (r: set<CardAction>)
    ensures showTrash ==> r == {Restore, DeleteForever}
    ensures !showTrash ==> TogglePin in r && ToggleStar in r && Edit in r && MoveToTrash in r
    ensures !showTrash ==> Restore !in r && DeleteForever !in r
    ensures Copy in r <==> !showTrash && contentVisible
  {
    if showTrash then {Restore, DeleteForever}
    else {TogglePin, ToggleStar, Edit, MoveToTrash} + (if contentVisible then {Copy} else {})
  }

  /** The pin button's update. */
  function PinToggle(n: Note): NoteUpdate
  {
    NoChange.(isPinned := Some(!n.isPinned))
  }

  /** The star button's update. */
  function StarToggle(n: Note): NoteUpdate
  {
    NoChange.(isFavorite := Some(!n.isFavorite))
  }

  /** Each toggle flips exactly its own flag (and, like every update, refreshes the timestamp). */
  lemma TogglesFlipOneFlag(n: Note, now: int)
    ensures ApplyUpdate(n, PinToggle(n), now) == n.(isPinned := !n.isPinned, updatedAt := now)
    ensures ApplyUpdate(n, StarToggle(n), now) == n.(isFavorite := !n.isFavorite, updatedAt := now)
  {
  }

  /**
   * While the private space is locked and the session is guarded (private notes shown only when
   * unlocked), no private note's content shows and nothing of it can be copied.
   */
  lemma LockedHidesPrivateContent(n: Note, showPrivateNotes: bool, unlocked: bool)
    requires showPrivateNotes ==> unlocked
    requires !unlocked && n.isPrivate
    ensures !IsContentVisible(n, showPrivateNotes) && CopyText(n, showPrivateNotes) == None
    ensures Copy !in CardActions(false, IsContentVisible(n, showPrivateNotes))
  {
  }
}
