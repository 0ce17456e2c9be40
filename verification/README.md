# Tracked-change decorations and git-bridge candidate snapshots, in Dafny

This project models two small pieces of sequential logic from Overleaf.

**Tracked-change decorations.** This is the source-editor extension that draws
tracked changes and comments. `TrackChanges` (decorations.dfy) classifies one
change into decorations:

- a deletion becomes two zero-width widgets at its offset: a callout, then the
  deleted-text marker, both on side 1;
- an insertion or comment becomes a callout widget plus a mark over the text it
  covers;
- a comment whose thread the document's tracker lists as resolved becomes
  nothing; with the review panel's data it also becomes nothing when the
  panel does not know the thread or knows it resolved;
- an insertion or comment with empty text becomes nothing.

Offsets are UTF-16 code units, as in the editor: a mark spans
`Utf16Length(text)` positions, so a character outside the Basic
Multilingual Plane counts twice.

It then builds the decorations of a whole document: tracked changes first,
then comments, skipping any change whose construction throws.

`ChangeState` (editor_state.dfy) models the state machinery around this:

- the field that keeps the comments found in a cut until the next paste;
- the undo ("inverted") effect that restores comments an edit detached;
- the transaction extender that answers such an effect with a rebuild request;
- the mapping of a restore effect through later changes;
- the decoration plugin's initial value and its per-transaction update.

The editor toolkit's decorations are plain records `Range(from, to, value)`.
Its position mapping is an abstract `Mapping(length, mapPos)`.

**Candidate snapshot.** In the git bridge, a candidate snapshot pairs every file of a pushed
working tree with the previous version's file at the same path. It serialises
itself to a JSON document: `latestVerId`, `files` (a `name` for each file, plus
a `url` for each changed file) and `postbackUrl`. It writes the changed files
into the project's attachment directory. `CandidateSnapshot` (snapshot.dfy)
models this. A JSON value is a small datatype, and the write is modelled as
the choice of directory and files.

Behaviour of the source worth knowing:

- Under the review-panel redesign, a build effect in the plugin's update
  rebuilds from the document's own tracker, without the panel data used at
  initialisation (`PluginUpdate` keeps this).
- `createChangeRange` checks `resolvedThreadIds` twice for comments when no
  panel data is given. The second check can never succeed after the first has
  failed, so the model has one check.

## Model

| member | source | states |
|---|---|---|
| TrackChanges.CreateChangeRange | services/web/frontend/js/features/source-editor/extensions/track-changes.ts:297-378 | It throws exactly for a comment whose document tracker has no readable resolved-thread table. A deletion always yields a callout then a deleted marker, both zero-width at `p` on side 1. Otherwise the result is empty iff the comment's thread is hidden or the covered text is empty. A non-empty result is a side-0 callout at `p` followed by a mark over `[p, p + Utf16Length(text))`, the text measured in UTF-16 code units. Every decoration carries the change's id, metadata and op type. |
| TrackChanges.Utf16Length | services/web/frontend/js/features/source-editor/extensions/track-changes.ts:354-355 | The editor length of a text is at least its number of characters, and is zero iff the text is empty. |
| TrackChanges.Utf16LengthAppend | services/web/frontend/js/features/source-editor/extensions/track-changes.ts:355 | The UTF-16 length of a concatenation is the sum of the parts' lengths. |
| TrackChanges.AstralCharacterMark | services/web/frontend/js/features/source-editor/extensions/track-changes.ts:353-377 | Inserting one emoji at 5 yields a mark over [5, 7), since the emoji is two UTF-16 units. |
| TrackChanges.CollectRanges | services/web/frontend/js/features/source-editor/extensions/track-changes.ts:234-243 | Collecting over a list keeps every widget zero-width and every mark non-empty. It yields at most two decorations per change. Each decoration comes from some change in the list. |
| TrackChanges.BuildChangeDecorations | services/web/frontend/js/features/source-editor/extensions/track-changes.ts:222-246 | With no ranges (neither panel data nor a tracker) the result is empty. Otherwise it is well formed and bounded by twice the number of changes plus comments. |
| TrackChanges.CollectAppend | services/web/frontend/js/features/source-editor/extensions/track-changes.ts:236-243 | Collecting over a concatenation equals collecting over each part in turn, so the loop's output follows input order. |
| TrackChanges.ChangesBeforeComments | services/web/frontend/js/features/source-editor/extensions/track-changes.ts:232-243 | The built set is all tracked changes' decorations followed by all comments' decorations. |
| TrackChanges.SkipsInvalidChange | services/web/frontend/js/features/source-editor/extensions/track-changes.ts:237-242 | A change whose construction throws contributes nothing. The changes before and after it keep their decorations in order. |
| TrackChanges.CollectSingle | services/web/frontend/js/features/source-editor/extensions/track-changes.ts:238 | One change contributes exactly its own decorations, or none if it throws. |
| ChangeState.UserEventHead | services/web/frontend/js/features/source-editor/extensions/track-changes.ts:85 | Helper for CutPasteExclusive: a user-event annotation that matches an event starts with that event's first letter. |
| ChangeState.CutPasteExclusive | services/web/frontend/js/features/source-editor/extensions/track-changes.ts:85-92 | No transaction counts as both `delete.cut` and `input.paste`, so the order of the two tests is immaterial. |
| ChangeState.CutCommentsUpdate | services/web/frontend/js/features/source-editor/extensions/track-changes.ts:76-95 | A local cut replaces the value with the comments found in the cut. A local paste resets it to empty. Every other transaction leaves it unchanged: remote ones, ones that do not change the doc, and other events. |
| ChangeState.PasteRestores | services/web/frontend/js/features/source-editor/extensions/track-changes.ts:76-95 | The held comments are handed to the paste restorer exactly on a local paste, and what is handed over is the field's current value. |
| ChangeState.PasteRestoresLastCut | services/web/frontend/js/features/source-editor/extensions/track-changes.ts:85-92 | A local paste after a cut, with no cut or paste in between, hands over exactly the comments found in that cut. |
| ChangeState.PasteWithoutCutRestoresNothing | services/web/frontend/js/features/source-editor/extensions/track-changes.ts:73-92 | A local paste with no cut or paste before it hands over no comments. |
| ChangeState.CutCommentsQuiet | services/web/frontend/js/features/source-editor/extensions/track-changes.ts:73-75 | The field starts empty and stays empty through any history without cuts or pastes. |
| ChangeState.CutCommentsHoldsLastCut | services/web/frontend/js/features/source-editor/extensions/track-changes.ts:85-87 | After any history, the field holds the comments of the last cut, provided no paste came after it. |
| ChangeState.CutCommentsEmptyAfterPaste | services/web/frontend/js/features/source-editor/extensions/track-changes.ts:89-92 | After a paste, the field is empty until the next cut. |
| ChangeState.InvertedEffects | services/web/frontend/js/features/source-editor/extensions/track-changes.ts:100-114 | At most one effect is emitted. It is emitted iff the transaction changed the doc, is not remote, and detached a non-empty set of comments. That effect restores exactly those comments. |
| ChangeState.FirstRestore | services/web/frontend/js/features/source-editor/extensions/track-changes.ts:118-122 | It finds a restore effect iff the transaction has one, and returns the comments of the first one. |
| ChangeState.TransactionExtender | services/web/frontend/js/features/source-editor/extensions/track-changes.ts:117-128 | It answers iff the transaction carries a restore effect. The answer restores the comments of the first restore effect and requests a change-marker rebuild. |
| ChangeState.ExtendTransaction | services/web/frontend/js/features/source-editor/extensions/track-changes.ts:117-128 | A transaction without a restore effect is dispatched as it is. One with a restore effect is dispatched with exactly the effects of `buildChangeMarkers()` appended to its own, and nothing else about it changes. |
| ChangeState.KeepInDocument | services/web/frontend/js/features/source-editor/extensions/track-changes.ts:47-49 | The filter keeps exactly the ranges whose two ends lie within the mapped document's length. |
| ChangeState.KeepInDocumentAppend | services/web/frontend/js/features/source-editor/extensions/track-changes.ts:46-50 | Filtering a concatenation filters each part in turn, so the kept ranges stay in order and repeats are kept. |
| ChangeState.KeepInDocumentSingle | services/web/frontend/js/features/source-editor/extensions/track-changes.ts:48 | A single range is kept iff both of its ends are within the document length. |
| ChangeState.MapRanges | services/web/frontend/js/features/source-editor/extensions/track-changes.ts:187 | Mapping a set through a change keeps one range per range. A zero-width range (a widget) stays zero-width, and under a monotone mapping, as the toolkit's mappings are, no range ends before it starts. This stands in for the toolkit's `RangeSet.map`, also used at line 51. |
| ChangeState.EffectsKeepOrdered | services/web/frontend/js/features/source-editor/extensions/track-changes.ts:189-195 | Clear and build effects never produce a range that ends before it starts: clear gives the empty set, build a well-formed one. |
| ChangeState.UpdateKeepsOrdered | services/web/frontend/js/features/source-editor/extensions/track-changes.ts:185-197 | Under a monotone mapping, one transaction's update keeps every decoration from ending before it starts. |
| ChangeState.MapRestoreEffect | services/web/frontend/js/features/source-editor/extensions/track-changes.ts:43-53 | A mapped restore effect never grows. Its ranges are exactly the images of the original ranges that lay within the document: first filtered in order, then mapped. |
| ChangeState.EffectsWithoutMarkers | services/web/frontend/js/features/source-editor/extensions/track-changes.ts:189-195 | Effects other than clear and build leave the decoration set as it is. |
| ChangeState.LastMarkerWins | services/web/frontend/js/features/source-editor/extensions/track-changes.ts:189-195 | Within one transaction the last clear or build effect decides the set, whatever preceded it. After a clear the set is empty. After a build it is the document's rebuilt decorations. |
| ChangeState.TransactionOnlyMaps | services/web/frontend/js/features/source-editor/extensions/track-changes.ts:186-195 | A transaction without clear or build effects only maps the set through its changes. |
| ChangeState.ExtendedRestoreRebuilds | services/web/frontend/js/features/source-editor/extensions/track-changes.ts:117-128 | Once the extender's build request is merged in, a transaction carrying a restore effect rebuilds the decorations from the document, whatever its other effects. |
| ChangeState.UndoRebuildsMarkers | services/web/frontend/js/features/source-editor/extensions/track-changes.ts:100-128 | Undoing a local edit that detached comments works in three steps. The undo carries the restore effect. The extender restores exactly the detached comments. The build request merged into that same transaction rebuilds the decorations from the document. |
| ChangeState.ClearMarkersEmpties | services/web/frontend/js/features/source-editor/extensions/track-changes.ts:210-214 | A transaction carrying only the clear request empties the decoration set. |
| ChangeState.PluginInit | services/web/frontend/js/features/source-editor/extensions/track-changes.ts:170-181 | Under the redesign, the initial set is built from the panel's ranges and threads when both are present, and is empty otherwise. Without the redesign, it is built from the document unless threads are loading, in which case it is empty. It is always well formed. |
| ChangeState.PluginUpdate | services/web/frontend/js/features/source-editor/extensions/track-changes.ts:185-197 | The nested loops compute the sequential composition of the transactions. Each transaction maps the set, then applies its effects in order. |
| CandidateSnapshot.Get | services/git-bridge/src/main/java/uk/ac/ic/wlgitbridge/writelatex/CandidateSnapshot.java:38 | The lookup finds nothing iff no entry has the key. Otherwise it returns a file stored under that key. |
| CandidateSnapshot.Diff | services/git-bridge/src/main/java/uk/ac/ic/wlgitbridge/writelatex/CandidateSnapshot.java:32-41 | There is one entry per file of the new table, in table order. Each is paired with the old table's file at its path, or none, so old-only files get no entry. When the new table is keyed by path, the listed paths are exactly its keys. When the old table is keyed by path, a paired old file has the same path. |
| CandidateSnapshot.NewCandidateSnapshot | services/git-bridge/src/main/java/uk/ac/ic/wlgitbridge/writelatex/CandidateSnapshot.java:26-41 | The snapshot keeps the given project name and version, and `GetProjectName` (the getter at CandidateSnapshot.java lines 78-80) returns the given name. Its files are the diff of the two tables. |
| CandidateSnapshot.ChangedFiles | services/git-bridge/src/main/java/uk/ac/ic/wlgitbridge/writelatex/CandidateSnapshot.java:45-49 | A file is selected iff it is in the list and changed. The selection is no longer than the list. |
| CandidateSnapshot.ChangedFilesAppend | services/git-bridge/src/main/java/uk/ac/ic/wlgitbridge/writelatex/CandidateSnapshot.java:45-49 | Selection distributes over concatenation, so the selected files keep list order. |
| CandidateSnapshot.ChangedFilesSnoc | services/git-bridge/src/main/java/uk/ac/ic/wlgitbridge/writelatex/CandidateSnapshot.java:46-48 | One more file in the list adds that file to the end of the selection iff it changed. |
| CandidateSnapshot.WriteServletFiles | services/git-bridge/src/main/java/uk/ac/ic/wlgitbridge/writelatex/CandidateSnapshot.java:43-50 | Exactly the changed files are written, in list order, into `<root>/.wlgb/atts/<projectName>`. Unchanged files are never written. |
| CandidateSnapshot.FileAsJson | services/git-bridge/src/main/java/uk/ac/ic/wlgitbridge/writelatex/CandidateSnapshot.java:69-76 | The object's `name` is the file's path. It has a `url` iff the file changed, and that url is `projectURL + "/" + path + "?key=" + postbackKey`. |
| CandidateSnapshot.FilesAsJson | services/git-bridge/src/main/java/uk/ac/ic/wlgitbridge/writelatex/CandidateSnapshot.java:61-67 | The array has one object per snapshot file, in the same order. |
| CandidateSnapshot.JsonRepresentation | services/git-bridge/src/main/java/uk/ac/ic/wlgitbridge/writelatex/CandidateSnapshot.java:52-58 | `latestVerId` is the current version. `postbackUrl` is `postbackBase + projectName + "/" + postbackKey + "/postback"`. `files` is the array of the snapshot's file objects, built with the project URL `postbackBase + projectName`, in the snapshot's order. Each entry is named by its path and has a url iff the file changed. |
| CandidateSnapshot.UrlsMatchWrittenFiles | services/git-bridge/src/main/java/uk/ac/ic/wlgitbridge/writelatex/CandidateSnapshot.java:69-76 | Reading the names of the `files` entries that carry a url gives exactly the paths of the files written to disk, in order. |
| CandidateSnapshot.JsonAnnouncesWrittenFiles | services/git-bridge/src/main/java/uk/ac/ic/wlgitbridge/writelatex/CandidateSnapshot.java:52-58 | The same holds for the whole JSON document: the announced urls and the written files agree. |
| CandidateSnapshot.FileUrlRoundTrip | services/git-bridge/src/main/java/uk/ac/ic/wlgitbridge/writelatex/CandidateSnapshot.java:73 | A file url determines the file's path: stripping the project prefix and key suffix recovers it. |
| CandidateSnapshot.PostbackUrlRoundTrip | services/git-bridge/src/main/java/uk/ac/ic/wlgitbridge/writelatex/CandidateSnapshot.java:57 | The postback URL determines the postback key. |

## Left out

- Widget rendering and the theme (`toDOM`, `eq`, `updateDOM`, CSS) are not modelled. They only produce DOM and styles.
- Sorting in `Decoration.set` is not modelled: the set keeps generation order.
- `RangeSet.map` is not modelled in detail. Mapping moves both ends of each range through an abstract position map, and the toolkit's dropping of collapsed ranges is not modelled. The position map may be any function. That it never decreases is stated as the predicate `Monotone` and assumed only where a property needs it.
- The calls outside the extension are not modelled: `findCommentsInCut`, `findDetachedCommentsInChanges`, `restoreCommentsOnPaste`, `restoreDetachedComments` and `isSplitTestEnabled`. Their results are parameters. Which comments are handed to `restoreCommentsOnPaste` and `restoreDetachedComments` is modelled (`PasteRestores`, `Extension.restored`); what those calls then do to the shared document is out of scope.
- The change-manager plugin and the viewport timer plugin are not modelled. They are lifecycle, timer and event plumbing.
- TrackChanges.CreateChangeRange: the only throw modelled is reading a missing resolved-thread table. Other toolkit exceptions for invalid positions are not visible in the source.
- TrackChanges.CreateChangeRange: text is a Dafny string, which holds only Unicode scalar values, so a JavaScript string with a lone surrogate (`.length` 1 for that unit) cannot be expressed; `Utf16Length` is exact only for well-formed text.
- `ServletFile.isChanged` is a parameter, because its definition is not part of this model.
- `Util.getPostbackURL()` is a parameter, for the same reason.
- `ServletFile.writeToDisk` (the file I/O) is not modelled. `WriteServletFiles` returns the target directory and the files to write.
- CandidateSnapshot.AttsDirectory joins with "/" and does not model `java.io.File` path normalisation.
- The subscription-change preview screen is not modelled. It is React UI with network calls, currency and date formatting, and floating-point tax display.
- The versioned snapshot request is not modelled. It wraps a request base class that is not part of this model.
