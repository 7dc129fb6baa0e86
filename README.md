# ANotes in Dafny

ANotes is a browser note-taking application. The user writes notes with a title, content, tags and
a colour. They can pin and star notes, move them to a trash that purges itself after thirty days,
and keep some notes in a password-protected private space. A second part of the application keeps
uploaded documents: their metadata goes into one key of the browser's local storage, and their
contents go into an IndexedDB object store.

This project models that core in Dafny and proves what it promises:

- **Shared state as classes.** The note context (`NoteRegistry.NoteStore`), the document context
  (`DocumentRegistry.DocumentRegistry`) and the storage adapter (`DocumentStorage.DocumentStorage`)
  become classes. So do the components that keep their own state: the editor, the private-space
  dialog and the application shell. Each handler is a method whose frame names exactly the fields
  it changes.
- **Pure logic as functions.** Each method is specified by a pure function over values: the
  collection after an add, an update, a trash, a restore or a purge; the filtered and sorted note
  list; the tag state machine of the editor; the submit decision of the dialog; the save/load
  reconciliation of the document store. Lemmas state the properties of those functions.
- **Faithful to the code.** Branches, constants, messages and edge cases follow the code. Every
  time value is an integer count of milliseconds.
- **Inputs for what is outside.** Clocks, fresh identifiers and the outcome of each browser
  storage call are parameters. A storage failure is an explicit value: a `WriteResult` for local
  storage, a `DbFault` per failing database request (the connection fails, the request fails,
  or the request throws at once). This lets every error path be modelled and proved.

Layout:

- `Wrappers`, `Seqs`, `Sorting`, `Text`: option and outcome types, filtering and de-duplication,
  the stable sort that `Array.prototype.sort` performs, and the string operations the code uses
  (trim, lower-case, includes).
- `NoteTypes`, `NoteRegistry`: notes and the note context.
- `NoteList`: the application shell, its filter and its ordering.
- `NoteEditor`, `NoteCard`, `PrivateSpaceDialog`, `TagFilters`: the components.
- `DocumentStorage`, `DocumentRegistry`, `DocumentList`: documents.
- `Attachments`, `Download`: the attachment and download helpers.

Where the code does something other than what its design describes, the model follows the code:

- **Purge boundary.** The purge keeps a trashed note only while its deletion time is strictly
  later than thirty days ago. A note deleted exactly thirty days ago is therefore removed
  (`NoteRegistry.PurgeBoundary`).
- **Existing private space.** Setting up a private space does not check for an existing one; it
  overwrites the password.
- **Missing blob on load.** Loading keeps a document whose blob is missing from the database. The
  database resolves such a read with `undefined`, so the document appears without content. Only
  a read that *fails* drops an entry (`DocumentStorage.MissingBlobKept`).
- **Failed blob write on save.** A document whose blob write failed is still listed by the next
  load. It comes back with whatever content its id already had, or none
  (`DocumentStorage.SaveLoadRoundTrip`).
- **Save error message.** A blob write whose request fails reports the database's own message:
  "Failed to save data", or "Failed to open database" when the connection fails. It does not
  report the generic "Failed to save documents". The reason is that the database rejects with a
  `StorageError`, and `saveDocuments` re-throws those unchanged. Only a request that throws at
  once (the browser's own exception, not a `StorageError`) reports the generic message.
- **Quota across one upload.** `addDocument` checks the total against the collection captured when
  the handler was rendered, but prepends to the latest collection. The files of one upload share
  that capture, so each is checked without the others, and together they can pass the 50 MiB
  ceiling (`DocumentRegistry.SharedSnapshotCanExceedQuota`, `DocumentRegistry.OneUploadScenario`).
- **Delete ordering.** `deleteDocument` removes the blob before it rewrites the metadata. If the
  rewrite fails, or the stored metadata is corrupt, the delete is reported as failed although the
  blob is already gone.

## Model

| member | source | states |
|---|---|---|
| NoteRegistry.NoteStore.constructor | src/context/NoteContext.tsx:6-20 | the notes and password come from the saved snapshot, or are empty; the space starts locked, with every filter off and no search term |
| NoteRegistry.AppendNote | src/context/NoteContext.tsx:64-72 | the existing notes stay in order, and exactly one note is added at the end: it has the given id, both timestamps equal to now, is not trashed, and carries every draft field |
| NoteRegistry.NoteStore.AddNote | src/context/NoteContext.tsx:64-72 | the collection becomes the old one with the new note appended; nothing else in the store changes |
| NoteRegistry.AppendKeepsIdsUnique | src/context/NoteContext.tsx:64-72 | adding a note under a fresh id keeps all ids distinct |
| NoteRegistry.ApplyUpdate | src/context/NoteContext.tsx:74-84 | each field present in the update replaces the note's own, each absent one keeps it; the id, the creation time and the trash fields never change; the update time is always now |
| NoteRegistry.UpdateMatching | src/context/NoteContext.tsx:74-84 | same length; a note with another id is untouched, a note with that id is updated; an unknown id leaves the collection equal to the old one |
| NoteRegistry.NoteStore.UpdateNote | src/context/NoteContext.tsx:74-84 | the collection becomes the matching-update of the old one |
| NoteRegistry.Trashed | src/context/NoteContext.tsx:86-98 | the note becomes trashed with deletion time now, unpinned and unstarred; every other field is unchanged |
| NoteRegistry.TrashMatching | src/context/NoteContext.tsx:86-98 | only the notes with that id are trashed; the rest stay equal, and so does the length |
| NoteRegistry.NoteStore.MoveToTrash | src/context/NoteContext.tsx:86-98 | the collection becomes the trashed-matching of the old one |
| NoteRegistry.Restored | src/context/NoteContext.tsx:100-110 | the note leaves the trash and loses its deletion time; everything else, the update time included, is unchanged |
| NoteRegistry.RestoreMatching | src/context/NoteContext.tsx:100-110 | only the notes with that id are restored; the rest stay equal |
| NoteRegistry.NoteStore.RestoreFromTrash | src/context/NoteContext.tsx:100-110 | the collection becomes the restored-matching of the old one |
| NoteRegistry.TrashThenRestore | src/context/NoteContext.tsx:86-110 | trashing then restoring a live note gives it back with only its pin and star cleared |
| NoteRegistry.RemoveNote | src/context/NoteContext.tsx:112-114 | exactly the notes with another id remain, each as often as before and in their original order, whatever their trash state |
| NoteRegistry.NoteStore.PermanentlyDelete | src/context/NoteContext.tsx:112-114 | the collection loses every note with that id |
| NoteRegistry.PurgeSpec | src/context/NoteContext.tsx:44-62 | a note survives the purge exactly when it is not expired; survivors keep their count and their order; with nothing expired the collection is unchanged |
| NoteRegistry.PurgeBoundary | src/context/NoteContext.tsx:46-52 | a note deleted exactly thirty days ago is purged, one deleted a millisecond later is kept, and a note without a deletion time is never purged |
| NoteRegistry.PurgeIdempotent | src/context/NoteContext.tsx:44-62 | purging twice at the same instant is the same as purging once |
| NoteRegistry.TrashScenario | src/context/NoteContext.tsx:44-110 | a note trashed at t is gone at t plus 31 days, and still present at t plus 29 days, where restoring it gives it back unpinned and unstarred |
| NoteRegistry.NoteStore.CheckTrash | src/context/NoteContext.tsx:44-56 | the collection becomes the purge of the old one at the given time |
| NoteRegistry.NoteStore.SetupPrivateSpace | src/context/NoteContext.tsx:118-121 | the password is stored and the space is unlocked, whether or not one existed; the private-view guard holds |
| NoteRegistry.NoteStore.UnlockPrivateSpace | src/context/NoteContext.tsx:123-130 | it succeeds exactly when the password matches; on success the space is unlocked and private notes are shown; on failure nothing changes; the guard is preserved |
| NoteRegistry.NoteStore.LockPrivateSpace | src/context/NoteContext.tsx:132-135 | the space is locked and private notes are hidden |
| NoteRegistry.RemovePrivateNotes | src/context/NoteContext.tsx:138 | exactly the public notes remain, each as often as before and in their original order |
| NoteRegistry.NoteStore.DeletePrivateSpace | src/context/NoteContext.tsx:137-142 | every private note is removed, the password is cleared so no space exists, and the space is locked and hidden |
| NoteRegistry.EditsKeepTrashConsistent | src/context/NoteContext.tsx:64-110 | add, update, trash and restore keep every trashed note carrying a deletion time and every live note carrying none |
| NoteRegistry.RemovalsKeepTrashConsistent | src/context/NoteContext.tsx:44-142 | delete, purge and private-space removal keep the same trash invariant |
| NoteRegistry.NoteStore.SetSearchTerm | src/context/NoteContext.tsx:16 | the search term becomes the given one and nothing else changes |
| NoteRegistry.NoteStore.SetSelectedTags | src/context/NoteContext.tsx:17 | the selected tags become the given ones |
| NoteRegistry.NoteStore.SetShowStarredOnly | src/context/NoteContext.tsx:18 | the starred filter becomes the given value |
| NoteRegistry.NoteStore.SetShowPrivateNotes | src/context/NoteContext.tsx:19 | the private view becomes the given value; the guard then holds exactly when the view is off or the space is unlocked (the setter itself does not enforce it) |
| NoteRegistry.NoteStore.SetShowTrash | src/context/NoteContext.tsx:20 | the trash view becomes the given value |
| NoteList.FilteredNotesSpec | src/App.tsx:48-64 | a note is listed exactly when it passes the trash, privacy, starred, search and tag checks; no note is invented, and every listed note appears as often as in the collection |
| NoteList.PinnedFirst | src/App.tsx:65-67 | no unpinned note is listed before a pinned one |
| NoteList.OldestFirst | src/App.tsx:74-75 | outside the trash, among notes with the same pin state, creation times ascend |
| NoteList.NewestDeletedFirst | src/App.tsx:69-72 | in the trash, among notes with the same pin state, deletion times descend, and every listed note has one |
| NoteList.EmptyFiltersMatchAll | src/App.tsx:54-61 | an empty search term and an empty tag selection reject no note |
| NoteList.TitleMatchIgnoresCase | src/App.tsx:54-57 | a note whose lower-cased title contains the lower-cased term matches that term in any case |
| NoteList.TitleMatches | src/App.tsx:54-57 | a title containing the term verbatim matches the search |
| NoteList.PrivateOnlyInPrivateView | src/App.tsx:50-51 | a listed note is private exactly when the private view is on, and trashed exactly when the trash view is on |
| NoteList.EditSaveTakesDraft | src/App.tsx:158-161 | saving an edit gives the note every draft field and a new update time, and keeps its id, creation time and trash state |
| NoteList.NoteListView.constructor | src/App.tsx:29-31 | no editor open, no note being edited, dialog closed |
| NoteList.NoteListView.HandleEdit | src/App.tsx:33-36 | the editor opens on that note, and is on screen exactly when the trash is not shown (App.tsx:155) |
| NoteList.NoteListView.HandlePrivateClick | src/App.tsx:38-46 | an open private view is locked and hidden; with no space or a locked one, the dialog opens and the view stays off; with an unlocked space the view turns on; in every case the guard holds afterwards |
| NoteList.NoteListView.ToggleTrash | src/App.tsx:88 | the trash view flips |
| NoteList.NoteListView.HandleCreate | src/App.tsx:119-123 | the editor opens with no note, and is on screen exactly when the trash is not shown |
| NoteList.NoteListView.OnSave | src/App.tsx:158-165 | with a note being edited, the matching notes take the draft; otherwise the draft is added as a new note; the editor closes and leaves the screen |
| NoteList.NoteListView.OnClose | src/App.tsx:166 | the editor closes and leaves the screen |
| NoteList.NoteListView.ClosePrivateSpaceDialog | src/App.tsx:172 | the dialog closes |
| NoteEditor.KeyDown | src/components/NoteEditor.tsx:40-61 | Enter with an over-long trimmed tag only sets the error; with a new tag it appends the tag and clears input and error; with a duplicate it only clears the input; Backspace on empty input drops the last tag and clears the error; anything else changes nothing |
| NoteEditor.InputChange | src/components/NoteEditor.tsx:63-72 | the input becomes the value; the error is set exactly when it exceeds 50 characters and cleared otherwise |
| NoteEditor.RemoveTag | src/components/NoteEditor.tsx:74-77 | every occurrence of the tag goes, the other tags keep their counts and their order, and the error is cleared |
| NoteEditor.StepKeepsWellFormed | src/components/NoteEditor.tsx:40-77 | from duplicate-free tags that are trimmed, non-empty and at most 50 characters, any single event keeps them so |
| NoteEditor.RunKeepsWellFormed | src/components/NoteEditor.tsx:40-77 | any sequence of events keeps the tags well formed |
| NoteEditor.KeyDownKeepsWellFormed | src/components/NoteEditor.tsx:40-61 | a key press keeps the tags duplicate-free, trimmed, non-empty and within the limit |
| NoteEditor.RemoveTagKeepsWellFormed | src/components/NoteEditor.tsx:74-77 | removing a tag keeps the tags well formed |
| NoteEditor.AppendKeepsWellFormed | src/components/NoteEditor.tsx:50-53 | appending a new trimmed, non-empty tag within the limit keeps the tags well formed |
| NoteEditor.DropLastKeepsWellFormed | src/components/NoteEditor.tsx:56-59 | dropping the last tag keeps the tags well formed |
| NoteEditor.NoteEditor.constructor | src/components/NoteEditor.tsx:15-23 | the fields start from the edited note, or are empty and off; tag input and error are empty |
| NoteEditor.NoteEditor.HandleTagKeyDown | src/components/NoteEditor.tsx:40-61 | the tag state changes as KeyDown says; Enter on a blank tag field is not prevented, so it submits the form's draft exactly when the required title and content are filled |
| NoteEditor.NoteEditor.HandleTagInputChange | src/components/NoteEditor.tsx:63-72 | the tag state changes as InputChange says |
| NoteEditor.NoteEditor.HandleRemoveTag | src/components/NoteEditor.tsx:74-77 | the tag state changes as RemoveTag says |
| NoteEditor.NoteEditor.SetTitle | src/components/NoteEditor.tsx:100 | the title becomes the typed value |
| NoteEditor.NoteEditor.SetContent | src/components/NoteEditor.tsx:108 | the content becomes the typed value |
| NoteEditor.NoteEditor.SetColor | src/components/NoteEditor.tsx:120 | the colour becomes the chosen one |
| NoteEditor.NoteEditor.SetPinned | src/components/NoteEditor.tsx:143 | the pin checkbox sets the flag to its checked state |
| NoteEditor.NoteEditor.SetFavorite | src/components/NoteEditor.tsx:152 | the star checkbox sets the flag to its checked state |
| NoteEditor.NoteEditor.TogglePrivate | src/components/NoteEditor.tsx:159 | the private flag flips |
| NoteEditor.NoteEditor.HandleSubmit | src/components/NoteEditor.tsx:27-38 | the draft carries exactly the seven edited fields |
| PrivateSpaceDialog.Decide | src/components/PrivateSpaceDialog.tsx:27-45 | with a space, the result is unlock exactly when the password matches and a refusal exactly when it does not; without one it never unlocks |
| PrivateSpaceDialog.CreatedIffValid | src/components/PrivateSpaceDialog.tsx:34-44 | a space is created exactly when none exists, the password has at least 6 characters, and it equals its confirmation |
| PrivateSpaceDialog.LengthCheckedFirst | src/components/PrivateSpaceDialog.tsx:35-38 | a short password is refused for its length, whatever the confirmation |
| PrivateSpaceDialog.MismatchRefused | src/components/PrivateSpaceDialog.tsx:39-42 | a long enough password that differs from its confirmation is refused as a mismatch |
| PrivateSpaceDialog.PrivateSpaceDialog.constructor | src/components/PrivateSpaceDialog.tsx:18-21 | empty fields, no error, no delete confirmation |
| PrivateSpaceDialog.PrivateSpaceDialog.HandleSubmit | src/components/PrivateSpaceDialog.tsx:23-46 | when the handler runs, the outcome is Decide's, its message is shown; a match unlocks, shows and closes; a wrong password clears the field; a creation stores the password, unlocks and closes; a refusal changes nothing else |
| PrivateSpaceDialog.PrivateSpaceDialog.SubmitForm | src/components/PrivateSpaceDialog.tsx:109-143 | an empty password, or an empty confirmation while creating, stops the submit before the handler and changes nothing; otherwise the handler's outcome, message and effects: a match unlocks, shows and closes; a wrong password clears the field; a creation stores the password, unlocks and closes; a refusal changes nothing else |
| PrivateSpaceDialog.CompleteFormRefusals | src/components/PrivateSpaceDialog.tsx:27-45 | through a complete form, a short or wrong password is never empty and a mismatch is against a typed confirmation |
| PrivateSpaceDialog.PrivateSpaceDialog.HandleDelete | src/components/PrivateSpaceDialog.tsx:48-52 | the private notes and the space go, the space is locked, and the dialog closes |
| PrivateSpaceDialog.PrivateSpaceDialog.CancelDelete | src/components/PrivateSpaceDialog.tsx:70 | the delete confirmation closes |
| PrivateSpaceDialog.PrivateSpaceDialog.OnPasswordChange | src/components/PrivateSpaceDialog.tsx:117-120 | the password becomes the typed value and the error clears |
| PrivateSpaceDialog.PrivateSpaceDialog.OnConfirmChange | src/components/PrivateSpaceDialog.tsx:135-138 | the confirmation becomes the typed value and the error clears |
| PrivateSpaceDialog.PrivateSpaceDialog.AskToDelete | src/components/PrivateSpaceDialog.tsx:151-155 | offered only while a space exists; opens the delete confirmation |
| NoteCard.CopyText | src/components/NoteCard.tsx:21-31 | something is copied exactly when the content is visible, and then it is the note's content |
| NoteCard.ChipLabel | src/components/NoteCard.tsx:88 | a tag of at most 15 characters shows verbatim; a longer one shows its first 15 characters and "..." |
| NoteCard.TagChips | src/components/NoteCard.tsx:83-90 | at most three chips, one per leading tag in order, each with that tag's label |
| NoteCard.OverflowChip | src/components/NoteCard.tsx:91-95 | a "+N" chip appears exactly when there are more than three tags, and N is the number of the rest |
| NoteCard.ChipsCoverAllTags | src/components/NoteCard.tsx:83-95 | the chips and the overflow count add up to the number of tags |
| NoteCard.CardActions | src/components/NoteCard.tsx:48-151 | the trash view offers only restore and permanent delete; elsewhere pin, star, edit and trash are offered; copy appears exactly outside the trash with visible content |
| NoteCard.TogglesFlipOneFlag | src/components/NoteCard.tsx:51-57 | the pin and star buttons each flip only their own flag (and refresh the update time) |
| NoteCard.LockedHidesPrivateContent | src/components/NoteCard.tsx:23-33 | with a locked space and the guard holding, a private note's content shows nowhere and cannot be copied |
| TagFilters.FlatTagsMembership | src/components/NoteFilters.tsx:18 | a tag is in the flattened list exactly when some note carries it |
| TagFilters.SearchBarTagsSpec | src/components/SearchBar.tsx:7 | the search bar offers every tag of every note, each once, in order of first occurrence |
| TagFilters.PanelTagsSpec | src/components/NoteFilters.tsx:17-18 | the panel offers exactly the tags of notes of the current privacy (trashed ones included), each once, in order of first occurrence |
| TagFilters.ToggleTag | src/components/NoteFilters.tsx:53-57 | a selected tag is removed entirely and the other selections keep their counts and order; an unselected one is appended at the end |
| TagFilters.ToggleTwiceRestores | src/components/SearchBar.tsx:31-37 | clicking an unselected tag twice restores the selection |
| TagFilters.ClickTag | src/components/NoteFilters.tsx:52-58 | the store's selection becomes the toggled one |
| DocumentStorage.DocumentStorage.constructor | src/utils/storage.ts:12-14 | the adapter starts on the given metadata slot and blob store |
| DocumentStorage.TotalSizeConcat | src/utils/storage.ts:16-18 | the total size of two collections together is the sum of their totals |
| DocumentStorage.TotalSizeFilter | src/utils/storage.ts:16-18 | dropping documents never raises the total |
| DocumentStorage.ValidateFileSize | src/utils/storage.ts:20-24 | it fails exactly above 5 MiB, with the file-size message |
| DocumentStorage.ValidateTotalSize | src/utils/storage.ts:26-30 | it fails exactly when the new total exceeds 50 MiB, with the total-size message |
| DocumentStorage.CeilingsInclusive | src/utils/storage.ts:5-6 | a file of exactly 5 MiB and a total of exactly 50 MiB are accepted, one byte more is not |
| DocumentStorage.ProjectRoundTrip | src/utils/storage.ts:35 | a document's metadata together with its content rebuilds the document |
| DocumentStorage.ProjectAll | src/utils/storage.ts:35 | one metadata entry per document, in order, each the document without its content |
| DocumentStorage.FirstFault | src/utils/storage.ts:48-50 | no fault is reported exactly when every put succeeds; otherwise it is the earliest failing put's |
| DocumentStorage.PutBlobsFinds | src/utils/storage.ts:48-50 | with distinct ids, after the puts each document's key holds its content, or its old value if its put failed |
| DocumentStorage.PutBlobsUntouched | src/utils/storage.ts:48-50 | the puts of earlier documents leave a later document's key alone |
| DocumentStorage.DocumentStorage.SaveDocuments | src/utils/storage.ts:32-57 | a quota error or failed metadata write reports its message and changes nothing; otherwise the metadata is stored, every successful put is applied, and the first failing put's message is reported, the generic save message when that put threw |
| DocumentStorage.ReconciledSpec | src/utils/storage.ts:65-77 | exactly the entries whose read succeeded are returned, each with the stored content; with no failed read none is lost |
| DocumentStorage.ReconciledAfterSave | src/utils/storage.ts:32-77 | after a save, each of the first n entries is rebuilt as saved, or with its old content where its put failed |
| DocumentStorage.DocumentStorage.LoadDocuments | src/utils/storage.ts:59-82 | the result is the reconciled store; missing or corrupt metadata gives nothing, and there are never more documents than entries |
| DocumentStorage.SaveLoadRoundTrip | src/utils/storage.ts:32-77 | with distinct ids, a load after a save returns one document per saved one in order: a successfully put one exactly as saved, a failed one with its previous content; with no failed put the load equals what was saved |
| DocumentStorage.MissingBlobKept | src/utils/storage.ts:66-73 | an entry whose blob is absent is loaded without content, and only a failed read drops it |
| DocumentStorage.DocumentStorage.DeleteDocument | src/utils/storage.ts:84-98 | a failed blob delete fails and changes nothing; otherwise the blob is gone, and the metadata loses the entry, stays absent, or the delete fails on a failed rewrite or corrupt metadata |
| DocumentStorage.WithoutId | src/utils/storage.ts:92 | exactly the entries with another id remain, in their original order |
| DocumentStorage.DeletedStaysGone | src/utils/storage.ts:84-94 | after the metadata rewrite, no later load can return the deleted id |
| DocumentRegistry.AdmitCheck | src/context/DocumentContext.tsx:37-38 | a document is admitted exactly when it is within the file ceiling and the new total within the total ceiling; the file check reports first |
| DocumentRegistry.ApplyDocumentUpdate | src/context/DocumentContext.tsx:70 | present fields replace the document's own; id and creation time are kept; the update time is now |
| DocumentRegistry.UpdateMatchingDocs | src/context/DocumentContext.tsx:67-73 | only the documents with that id are updated |
| DocumentRegistry.RemoveDocument | src/context/DocumentContext.tsx:60 | exactly the documents with another id remain, and the total size does not grow |
| DocumentRegistry.AdmitAndRemoveKeepQuota | src/context/DocumentContext.tsx:35-65 | an add admitted against the very collection it joins, and any delete, keep the collection within both ceilings |
| DocumentRegistry.SharedSnapshotCanExceedQuota | src/context/DocumentContext.tsx:38-47 | two adds each admitted against the same earlier collection, as one upload's files are, can together pass the 50 MiB ceiling |
| DocumentRegistry.TotalSizeCopies | src/utils/storage.ts:16-18 | k copies of a document total k times its size |
| DocumentRegistry.OneUploadScenario | src/context/DocumentContext.tsx:38-47 | with nine 5 MiB files stored, two more 5 MiB files of one upload are each admitted and leave 55 MiB stored |
| DocumentRegistry.UpdateIgnoresQuota | src/context/DocumentContext.tsx:67-73 | an update can push a collection beyond the ceilings, since it is not checked |
| DocumentRegistry.DocumentRegistry.constructor | src/context/DocumentContext.tsx:18-19 | no documents and no error |
| DocumentRegistry.DocumentRegistry.Hydrate | src/context/DocumentContext.tsx:21-23 | the collection becomes what the storage loads |
| DocumentRegistry.DocumentRegistry.PersistChanges | src/context/DocumentContext.tsx:25-33 | an empty collection is not saved; a failed metadata write leaves the storage as it was and shows its message; otherwise the metadata and every successful put are stored and the first failing put's message becomes the error; the collection itself never changes |
| DocumentRegistry.DocumentRegistry.AddDocument | src/context/DocumentContext.tsx:35-55 | the file and total checks run against the collection the handler captured when rendered; a rejected document leaves the collection and reports its error; an admitted one goes to the front of the current collection with both timestamps now, and the error clears |
| DocumentRegistry.DocumentRegistry.DeleteDocument | src/context/DocumentContext.tsx:57-65 | the blob goes first; with stored metadata and a successful write the metadata loses the id, otherwise it is unchanged; the document leaves the collection only when the storage delete succeeds, otherwise the collection stays and the delete error is shown |
| DocumentRegistry.DocumentRegistry.UpdateDocument | src/context/DocumentContext.tsx:67-73 | the collection becomes the matching-update of the old one |
| DocumentList.SortDocumentsSpec | src/components/DocumentList.tsx:8-12 | the sorted list is a permutation; pinned documents come first, starred ones first within each pin group, and then newest update first |
| Attachments.GetAttachmentType | src/utils/attachmentUtils.ts:26-31 | image, video and audio prefixes are checked in that order, and the type is document exactly when none matches |
| Attachments.PrefixesExclusive | src/utils/attachmentUtils.ts:27-29 | no MIME type starts with two of the three prefixes, so the check order does not matter |
| Attachments.GetAttachmentIcon | src/utils/attachmentUtils.ts:4-15 | the generic file icon is chosen exactly for a type that is not image, video or audio |
| Attachments.MediaIconsDistinct | src/utils/attachmentUtils.ts:4-15 | the three media types have three different icons, and documents the generic one |
| Attachments.IconOfClassified | src/utils/attachmentUtils.ts:4-31 | a classified MIME type gets the generic icon exactly when it is a document |
| Download.FileName | src/utils/downloadUtils.ts:12-14 | a non-empty suggested name is used, otherwise "note-" and the timestamp; the format's extension follows |
| Download.FallbackNameNotEmpty | src/utils/downloadUtils.ts:13 | the fallback name is longer than the bare "note-." and extension, since the timestamp adds digits; an empty suggestion falls back like a missing one |
| Download.TextBody | src/utils/downloadUtils.ts:17 | title, a blank line and the content, followed by the comma-joined tags only when there are any |
| Download.HeaderTitle | src/utils/downloadUtils.ts:111 | an empty title is shown as "Untitled Note", any other verbatim |
| Download.ShowsUpdatedAfterEdit | src/utils/downloadUtils.ts:114 | a note as `addNote` creates it shows no update date; once `updateNote` changes it at any other instant, it does |
| Download.FileNameShape | src/utils/downloadUtils.ts:12-14 | every file name is a non-empty stem, a dot and the format's extension, so the text and PDF names always differ |
| Download.TextBodyTagLineIffTags | src/utils/downloadUtils.ts:17 | the text export is longer than title, blank line and content exactly when the note has tags |
| Download.HeaderTitleNeverEmpty | src/utils/downloadUtils.ts:111 | the PDF heading is never empty, whatever the title |
| Text.TrimSpec | src/components/NoteEditor.tsx:41-43 | the trimmed tag is a contiguous part of the input with no whitespace at either end, and is empty exactly when the input is all whitespace |
| Text.TrimIdempotent | src/components/NoteEditor.tsx:41-43 | trimming twice is trimming once |
| Text.IncludesSpec | src/App.tsx:54-57 | includes holds exactly when the term occurs at some position; the empty term always occurs |
| Text.LowerKeepsIncludes | src/App.tsx:54-57 | lower-casing both sides keeps an occurrence |
| Text.LowerIdempotent | src/App.tsx:54-57 | lower-casing twice is lower-casing once |
| Seqs.DedupSpec | src/components/SearchBar.tsx:7 | de-duplication keeps exactly the same elements, each once |
| Seqs.DedupFirstOccurrenceOrder | src/components/SearchBar.tsx:7 | de-duplication keeps elements in order of their first occurrence |
| Seqs.FilterMembership | src/App.tsx:48-64 | filtering keeps exactly the elements that pass |
| Seqs.FilterOrdered | src/context/NoteContext.tsx:49-55 | filtering keeps the survivors in their original order |
| Sorting.InsertionSortPermutes | src/App.tsx:65-76 | the sort returns a permutation of its input |
| Sorting.InsertionSortOrders | src/components/DocumentList.tsx:8-12 | under a comparator that refines a strict weak order, the sorted list respects that order |

## Left out

- Local-storage persistence of the notes and the password (NoteContext.tsx:26-32) is not modelled: the snapshot is an input to the constructor, and writing it back is a side effect that changes nothing the model observes.
- A malformed saved-notes snapshot, on which the browser's JSON parsing would throw, is not modelled: the constructor receives the parsed notes or nothing.
- The hourly timer driving the purge is not modelled; `NoteStore.CheckTrash` is the one purge run, and the caller supplies the time.
- "Thirty days ago" is computed in the code with calendar `setDate`, which depends on daylight-saving transitions; the model uses a fixed 30 × 24 hours in milliseconds.
- ISO date strings are modelled as integer milliseconds; the comparisons and subtractions of the code are then integer ones.
- The add path reads the clock twice for its two timestamps; the model uses one instant for both.
- Dark mode (NoteContext.tsx:21-41, 144) is presentation and is not modelled.
- `incrementViewCount` is not modelled: it writes a `viewCount` field that the note type does not declare.
- The `deleteNote` alias is `moveToTrash` itself and has no separate member.
- NoteEditor.NoteEditor.SetColor: the colour preview lookup in the palette is presentation and is not modelled.
- NoteEditor.NoteEditor.HandleSubmit: the browser's check that the required title and content are filled before a submit-button click is not modelled. Only the implicit submission from the tag field's Enter key checks them.
- NoteCard.CopyText: the copy button's "copied" flag, its timer and clipboard failures are not modelled; it says only what would be written.
- The card's date formatting and the empty-list messages are presentation and are not modelled.
- Text.Lower: folds only ASCII letters, and lengths count `char`s; JavaScript's full Unicode `toLowerCase` and its UTF-16 lengths are not modelled.
- NoteRegistry.ApplyUpdate: accepts an update that carries the editable fields only; the code's `Partial<Note>` could also overwrite the id, the timestamps or the trash fields, and no caller in the core does so.
- DocumentRegistry.ApplyDocumentUpdate: the same restriction; a partial update of a document's id or creation time is not modelled.
- The metadata slot holds parsed entries, or a corrupt marker; the JSON text itself and its escaping are not modelled.
- The blob writes of a save run concurrently under `Promise.all`; the model applies them in index order and reports the lowest failing index, whereas the browser would report whichever rejection settles first.
- The reads of a load likewise run concurrently; they do not interact, so only their order of results is kept.
- Document sizes are natural numbers; a negative or fractional size is not modelled.
- The file picker, the PDF markup and `window.print` of the download helper, and the DOM link of the attachment download, are browser effects and are not modelled; only the name, the text body and the header are.
- FileUploader.tsx, which reads a file and hands it to `addDocument`, is not part of this model; the collection its handler captured is the `snapshot` parameter of `DocumentRegistry.DocumentRegistry.AddDocument`.
- DocumentRegistry.DocumentRegistry.Hydrate: the mount load is atomic here. In the code, a document added before the load resolves is overwritten when the loaded collection is set.
- DocumentStorage.DocumentStorage.SaveDocuments: a blob put counts as applied once its request succeeds, because the database wrapper resolves on the request's success event. A transaction that aborts at commit after that is not modelled, so the stored blob may differ from what `SaveLoadRoundTrip` promises.
- DocumentStorage.DocumentStorage.DeleteDocument: likewise, a blob delete counts as applied once its request succeeds; an abort at commit that leaves the blob in place is not modelled.
- PrivateNoteAccess.tsx is not part of this model: it calls a `validateNotePassword` that the note context never provides.
- NoteViewer, AttachmentManager, AttachmentList, AttachmentPreview, DocumentCard and useOutsideClick are rendering or plumbing and are not part of this model.
