# Verified models of the GPUI PDF Reader

Dafny models of the stateful core of the reader, with proofs of what that core is relied on for. Objects whose
methods change fields in the original are classes here, its loops are loops, and each method is proved against a
function or relation that says what it is for. `dafny verify dfyconfig.toml` checks everything.

| file | models |
|---|---|
| `Utf.dfy` | offsets into text in UTF-8 bytes and UTF-16 units (section 3 of RFC 3629, section 2.1 of RFC 2781) |
| `TextField.dfy` | the single-line text field: a byte-offset buffer refining an anchor-and-cursor editor over scalars |
| `Projection.dfy`, `ProjectionRuns.dfy` | the projection of rich text to display text with list prefixes, its offset maps, spans and text runs |
| `DataValueCodec.dfy` | the conversion between extension data values and JSON |
| `Outline.dfy` | the stack-based builder of the published outline |
| `CapabilityBridge.dfy` | document generations, handles, revisions, publication, navigation and overlays |
| `RegistryEntries.dfy`, `Registry.dfy` | the durable extension registry: validation, sorting, loading, and commits under I/O faults |
| `ExtensionHost.dfy`, `PackageManager.dfy` | installation, review, permission-gated and provisional upgrades, settlement and rollback |
| `Workspace.dfy` | the table of windows and views, and every index kept beside it |
| `TileCache.dfy`, `TileReader.dfy` | tile eviction, and the render-demand protocol with an asynchronous worker |
| `AnnotationGuard.dfy` | opening another document only after annotations are saved |
| `MapSums.dfy`, `Wrappers.dfy` | sums over maps; `Option` and `Result` |

Environments are classes that answer in any way: the extension host has an arbitrary sequence of fates, one for each
attempt to start an extension, so that contracts can say exactly when a commit or a start succeeds, and it may suspend
other extensions; the render worker answers jobs early, late or never; the annotation service
completes, fails or skips saves; the disk fails at any step. An invariant (`Valid`) that every method keeps is a
statement about every run and every interleaving.

## What the proofs found

- **A reversed composition selection.** `ReplaceAndMark` leaves the selection out of order when an input method asks
  for a reversed selected range. It is in order exactly if the requested start, floored to a scalar, is at most the
  requested end. `TextFields.ReversedCompositionEndsOutOfOrder` runs into it.
- **A decision that is undone.** Changing a permission while an upgrade of its package is provisional keeps the upgrade,
  unless the change stops the package. The decision survives the settlement exactly if there is no such upgrade, or the
  decision itself ended it, or the package is active when it is settled, or the commit found the same decision. An
  input: an optional permission is denied, then the new component fails
  (`PackageManagers.InstallableExtensionManager.DecideThenSettle`). Denying everything required does stop the package but
  keeps the upgrade, so the settlement replaces those denials by what the commit found (`DenyThenSettle`). Disabling
  and removing do end it.
- **A commit that stands is undone.** A commit that stands without being provisional leaves an older provisional upgrade
  of the same package in place. It is final exactly if there is none when it is made. An input: the upgrade from version
  1 to 2 is provisional, 2 fails, 3 is committed before the settlement and stands, stopped; the settlement of the first
  upgrade puts version 1 back (`CommitThenSettle`, `CommitThenRun`).
- **A settlement that ignores the active limit.** Taking an upgrade back starts the previous package without counting.
  The limit holds if fewer than eight others are active, and only then if none of them stops and the package restarts
  (`SettleOne`). An input: a package fails while its upgrade is provisional and seven others are active, an eighth is
  enabled, and the settlement restarts the first.
- **"Restored active" may mean suspended, when the event queue is full.** An activation ends by sending an event to every
  active extension. An event that does not fit the queue of 4096 counts as a violation of its target, and may suspend
  it, the package just started included (crates/key-extension-host/src/host.rs, lines 1135 to 1178). With room in the
  queue, what was active is active again and what was disabled is disabled (`BackTo`, `Started`).
- **An approval that no longer suffices.** With the same signer only what was missing is put up for approval. If a granted
  permission is revoked while the upgrade waits, it is committed without that permission; otherwise it has everything
  it requires (`ContinuityGrantsRequired`, `ProposeThenApprove`).
- **The settings tab counts as an empty PDF view.** Opening a file from a window whose active view is the settings view
  registers the file under the settings view. `Workspaces.ApplicationHost.OpenPdfFrom` states when, exactly;
  `Workspaces.SettingsShowAFile` runs into it.
- **An exhausted revision counter.** The live revision counter saturates at the largest 64-bit value; from then on live
  publication of anything new fails as exhausted, and only then, and never as stale (`PublishLive`). A refused live
  publication may have spent a revision, and a failed document begin a generation.
- **A rollback error after a rollback.** `AtomicRollbackFailed` is also returned when the previous file was restored and
  only the last directory sync failed. The `torn` flag records that the file may differ from memory; the next
  successful commit ends that.
- **A waiting open that nothing will answer.** If an edit made while an open request waits finds the service's bounded
  mailbox full, the saves under way cannot start that request any more: they can exactly if everything is queued
  (`AnnotationGuards.AnnotationGuard.AnswerableIfQueued`, `AllDone`). `AnnotationGuards.StrandedOpen` runs into it. A
  further edit or request that can be queued gets it moving again.
- **Numbers that do not survive JSON.** A value comes back from JSON unchanged exactly if all its numbers are finite;
  other numbers become null.

## Model

| member | source | states |
|---|---|---|
| Utf.Galois | apps/gpui-pdf-reader/src/text_field.rs:159-178 | scalar counts and unit offsets form a Galois connection, in either encoding: at least k scalars fit below an offset iff the first k end at or before it |
| Utf.FloorIsGreatest | apps/gpui-pdf-reader/src/text_field.rs:722-727 | flooring yields a scalar boundary not above the offset, and no boundary in between |
| Utf.IndexMonotone | apps/gpui-pdf-reader/src/text_field.rs:722-727 | flooring and scalar counting never reorder offsets |
| Utf.FloorBeyondEnd | apps/gpui-pdf-reader/src/text_field.rs:722-727 | an offset beyond the text floors to its end |
| Utf.ByteTestFindsScalars | apps/gpui-pdf-reader/src/text_field.rs:722-727 | over the encoded bytes, an offset that is not a continuation byte is exactly a sum of whole scalars |
| Utf.ScalarReadsBack | apps/gpui-pdf-reader/src/text_field.rs:722-727 | the encoded bytes of a scalar give it back, and the first byte tells how many there are |
| Utf.SurrogatesReadBack | apps/gpui-pdf-reader/src/text_field.rs:159-178 | the code units of a scalar give it back: itself, or a high and a low surrogate |
| Utf.SurrogateTestFindsScalars | apps/gpui-pdf-reader/src/text_field.rs:159-178 | over the encoded code units, an offset where no low surrogate stands is exactly a sum of whole scalars |
| Utf.FloorBoundary | apps/gpui-pdf-reader/src/text_field.rs:722-727 | stepping back over continuation bytes finds the floor, for any offset |
| Utf.OffsetFromUtf16 | apps/gpui-pdf-reader/src/text_field.rs:165-178 | the scan over scalars computes the byte offset of the scalar that a UTF-16 offset falls in |
| Utf.Utf16Galois | apps/gpui-pdf-reader/src/text_field.rs:159-178 | the byte offset of u is the greatest boundary whose UTF-16 length is at most u |
| Utf.Utf16RoundTrip | apps/gpui-pdf-reader/src/text_field.rs:159-186 | to UTF-16 and back is flooring, both ways round, hence the identity on boundaries |
| Editing.SingleLineKeepsBytes | apps/gpui-pdf-reader/src/text_field.rs:710-721 | turning line breaks into spaces changes no byte length |
| Editing.SplicedText | apps/gpui-pdf-reader/src/text_field.rs:118-149 | a replacement keeps the text before and after it and accounts for every byte |
| Editing.RunKeeps | apps/gpui-pdf-reader/src/text_field.rs:76-157 | after any sequence of edits the text is single-line and within its limit, and selection and mark lie inside it |
| Editing.ErasesOneScalar | apps/gpui-pdf-reader/src/text_field.rs:257-279 | on an empty selection backspace and delete take exactly the scalar before or after the cursor, and are never refused |
| Editing.ReplaceBack | apps/gpui-pdf-reader/src/text_field.rs:118-149 | putting the removed text back in place of the inserted one restores the text |
| TextFields.NeighboursAreOneScalarAway | apps/gpui-pdf-reader/src/text_field.rs:729-741 | the previous and next boundaries are one scalar away, or at the ends |
| TextFields.BoundaryOrder | apps/gpui-pdf-reader/src/text_field.rs:722-741 | byte boundaries and scalar positions are ordered alike |
| TextFields.TextField.ModelIsWellFormed | apps/gpui-pdf-reader/src/text_field.rs:68-94 | a valid buffer stands for a well-formed editor state, cursor and range ends included |
| TextFields.TextField.MoveTo | apps/gpui-pdf-reader/src/text_field.rs:96-100 | both ends of the selection go to the floored offset |
| TextFields.TextField.SelectTo | apps/gpui-pdf-reader/src/text_field.rs:102-116 | the anchor stays and the cursor goes to the floored offset, whatever the direction was |
| TextFields.TextField.Splice | apps/gpui-pdf-reader/src/text_field.rs:130-149 | an accepted replacement is the editor's replacement, with the cursor after the inserted text |
| TextFields.TextField.Replace | apps/gpui-pdf-reader/src/text_field.rs:118-149 | a replacement that fits is made; one that does not reports the attempted size and changes nothing |
| TextFields.TextField.ReplaceSelection | apps/gpui-pdf-reader/src/text_field.rs:151-157 | typing replaces the selection, or changes nothing |
| TextFields.TextField.Backspace | apps/gpui-pdf-reader/src/text_field.rs:257-267 | is the editor's backspace and always succeeds |
| TextFields.TextField.Delete | apps/gpui-pdf-reader/src/text_field.rs:269-279 | is the editor's delete and always succeeds |
| TextFields.TextField.Left | apps/gpui-pdf-reader/src/text_field.rs:281-290 | moves one scalar left, or to the left end of a selection |
| TextFields.TextField.Right | apps/gpui-pdf-reader/src/text_field.rs:292-301 | moves one scalar right, or to the right end of a selection |
| TextFields.TextField.SelectLeft | apps/gpui-pdf-reader/src/text_field.rs:303-308 | moves the cursor one scalar left and keeps the anchor |
| TextFields.TextField.SelectRight | apps/gpui-pdf-reader/src/text_field.rs:310-315 | moves the cursor one scalar right and keeps the anchor |
| TextFields.TextField.ReplaceAndMark | apps/gpui-pdf-reader/src/text_field.rs:494-522 | composing replaces what was asked for, else the marked text, else the selection, and marks; the selection ends in order exactly if the requested one is, once floored |
| TextFields.TextField.InputRangeIsReplaceable | apps/gpui-pdf-reader/src/text_field.rs:503-506 | the byte range of an input request covers the scalars asked for, or else the marked or the selected ones |
| TextFields.OrderOfRequestedSelection | apps/gpui-pdf-reader/src/text_field.rs:509-518 | the condition for an ordered selection, in scalars; an ordered request always meets it |
| TextFields.ReversedCompositionEndsOutOfOrder | apps/gpui-pdf-reader/src/text_field.rs:494-522 | a concrete composition that leaves the selection end before its start |
| Projections.LinesSplitAtNewlines | crates/key-editor-gpui/src/projection.rs:37-60 | lines have no newline inside and meet at one, and there is one more of them than newlines |
| Projections.OverlapsTile | crates/key-editor-gpui/src/projection.rs:70-104 | cutting tiling style runs to a line yields runs that tile the line |
| Projections.OverlapsKeepStyle | crates/key-editor-gpui/src/projection.rs:70-104 | every byte of a line keeps its style |
| Projections.BlockNumberCounts | crates/key-editor-gpui/src/projection.rs:47-66 | a numbered prefix shows the position within its maximal numbered block |
| Projections.DigitsSpell | crates/key-editor-gpui/src/projection.rs:68-83 | the digits of a block number read as that number, without leading zeros |
| Projections.PrefixSpells | crates/key-editor-gpui/src/projection.rs:60-83 | a bulleted line is prefixed by a bullet, a numbered one by its number and a full stop, a quotation by a single quotation mark, each with a space |
| Projections.New | crates/key-editor-gpui/src/projection.rs:37-113 | one pass builds the display text, the line table and the spans that the line-by-line definitions give |
| Projections.LinesAreLinked | crates/key-editor-gpui/src/projection.rs:47-112 | the line table covers model and display text, each line starting past the previous one |
| Projections.MapsAreAdjoint | crates/key-editor-gpui/src/projection.rs:115-137 | on any linked line table the two maps are adjoint |
| Projections.DisplayForModel | crates/key-editor-gpui/src/projection.rs:115-123 | the search computes the forward map at the clamped offset, inside the display text |
| Projections.ModelForDisplay | crates/key-editor-gpui/src/projection.rs:125-137 | the search computes the backward map at the clamped offset, inside the model text |
| Projections.OffsetsFormGaloisConnection | crates/key-editor-gpui/src/projection.rs:115-137 | for every buffer: adjointness, model round trip, and the display round trip moves an offset iff it lies in a prefix |
| Projections.OffsetMapsAreMonotone | crates/key-editor-gpui/src/projection.rs:115-137 | both maps are monotone |
| ProjectionRuns.SpansTile | crates/key-editor-gpui/src/projection.rs:47-112 | spans tile the display text, and their model parts the whole model text, without gap or overlap |
| ProjectionRuns.SpansAreFaithful | crates/key-editor-gpui/src/projection.rs:70-112 | each model part shows the very bytes it stands for, in one style and on one line |
| ProjectionRuns.Boundaries | crates/key-editor-gpui/src/projection.rs:150-172 | the cuts of a span are increasing and include every edge of selection and mark inside it |
| ProjectionRuns.PieceIsUniform | crates/key-editor-gpui/src/projection.rs:160-196 | between two cuts every byte looks the same, so each run is wholly inside or outside selection and mark |
| ProjectionRuns.SpanRuns | crates/key-editor-gpui/src/projection.rs:150-196 | the runs of a span paint each byte as that byte is to look |
| ProjectionRuns.DisplayTextRuns | crates/key-editor-gpui/src/projection.rs:140-196 | the runs paint the whole display text, byte for byte, and add up to its length |
| ProjectionRuns.BytesLookAsMarked | crates/key-editor-gpui/src/projection.rs:198-240 | a byte has the selection behind it iff selected, is underlined iff marked, and otherwise looks as its style and block say |
| DataValueCodec.DecodeEncode | apps/gpui-pdf-reader/src/pdf_capability_bridge.rs:1512-1567 | decoding an encoded value returns it with every non-finite number replaced by null |
| DataValueCodec.ValueRoundTrip | apps/gpui-pdf-reader/src/pdf_capability_bridge.rs:1512-1567 | a value survives the round trip iff all its numbers are finite |
| DataValueCodec.EncodeDecode | apps/gpui-pdf-reader/src/pdf_capability_bridge.rs:1532-1567 | JSON decodes iff it holds no integer above the signed range, and then encodes back to itself; the error names the first such integer |
| DataValueCodec.FiniteByExponent | apps/gpui-pdf-reader/src/pdf_capability_bridge.rs:1512-1531 | a number is finite unless its exponent is all ones |
| Outlines.Build | apps/gpui-pdf-reader/src/pdf_capability_bridge.rs:1044-1093 | the stack loop emits a threaded list carrying the kept entries; `truncated` iff something was dropped |
| Outlines.KeptLength | apps/gpui-pdf-reader/src/pdf_capability_bridge.rs:1045-1057 | nothing is dropped iff every entry has a page and a title |
| Outlines.TitleMeans | apps/gpui-pdf-reader/src/pdf_capability_bridge.rs:1052-1056 | a title is the text without the space around it, cut to the most whole scalars within the byte limit |
| Outlines.SpacesAre | apps/gpui-pdf-reader/src/pdf_capability_bridge.rs:1052-1056 | space is the 25 characters with the property White_Space |
| Outlines.FractionMeans | apps/gpui-pdf-reader/src/pdf_capability_bridge.rs:1476-1480 | a finite coordinate becomes the nearest fraction between zero and one; another is left out |
| Outlines.DepthIsBounded | apps/gpui-pdf-reader/src/pdf_capability_bridge.rs:1058-1062 | depths stay below the limit, the input depth and the position |
| Outlines.NestedKeepsDepths | apps/gpui-pdf-reader/src/pdf_capability_bridge.rs:1058-1062 | well-nested input keeps its depths |
| Outlines.OutputIsPreorder | apps/gpui-pdf-reader/src/pdf_capability_bridge.rs:1044-1093 | identifiers count from 1, and each parent is the nearest earlier entry one level up, with nothing as shallow in between |
| Outlines.RebuildThenFlatten | apps/gpui-pdf-reader/src/pdf_capability_bridge.rs:1044-1093 | rebuilding the forest uses the whole list, and flattening it returns the list |
| CapabilityBridges.PageHandlesInvert | apps/gpui-pdf-reader/src/pdf_capability_bridge.rs:632-676 | a handle has a page index iff it is the handle of that page |
| CapabilityBridges.PublishKeepsCount | apps/gpui-pdf-reader/src/pdf_capability_bridge.rs:1184-1289 | publishing keeps the revision counter above every stored revision, until it saturates |
| CapabilityBridges.LiveRevisionIsNewer | apps/gpui-pdf-reader/src/pdf_capability_bridge.rs:678-693 | an allocated live revision is newer than what its slot holds |
| CapabilityBridges.RefusalIsNotStale | apps/gpui-pdf-reader/src/pdf_capability_bridge.rs:1184-1289 | no check before the revision check refuses as stale |
| CapabilityBridges.RefusalMeans | apps/gpui-pdf-reader/src/pdf_capability_bridge.rs:1184-1288 | a snapshot is refused before its revision is looked at iff its content is unsound, it names a page or document that was not issued, or it is a partial text |
| CapabilityBridges.AddressedMeans | apps/gpui-pdf-reader/src/pdf_capability_bridge.rs:1315-1334 | a live snapshot speaks for the active document iff it names it, or one of its pages |
| CapabilityBridges.SlotsSeparate | apps/gpui-pdf-reader/src/pdf_capability_bridge.rs:1184-1288 | two snapshots share a place iff they are of one kind and, where pages matter, of one page |
| CapabilityBridges.CapabilityBridge.RetiredIsStale | apps/gpui-pdf-reader/src/pdf_capability_bridge.rs:1715-1727 | handles of a retired generation are refused as stale, forever |
| CapabilityBridges.CapabilityBridge.IdsNeverCollide | apps/gpui-pdf-reader/src/pdf_capability_bridge.rs:609-643 | document, page and overlay identifiers of a generation differ |
| CapabilityBridges.CapabilityBridge.CloseDocument | apps/gpui-pdf-reader/src/pdf_capability_bridge.rs:129-141 | closing retires the active generation |
| CapabilityBridges.CapabilityBridge.AllocateGeneration | apps/gpui-pdf-reader/src/pdf_capability_bridge.rs:696-705 | generations rise strictly, or are exhausted |
| CapabilityBridges.CapabilityBridge.BeginLiveDocument | apps/gpui-pdf-reader/src/pdf_capability_bridge.rs:143-187 | a begin that succeeds seeds every slot under a handle never given before; one that fails leaves the active document |
| CapabilityBridges.CapabilityBridge.PublishSnapshot | apps/gpui-pdf-reader/src/pdf_capability_bridge.rs:488-498 | accepted iff sound, made of issued handles, and newer than what its place holds |
| CapabilityBridges.CapabilityBridge.PublishLive | apps/gpui-pdf-reader/src/pdf_capability_bridge.rs:578-593 | skipped iff its place holds the same content under some revision; stored iff new, sound and made of issued handles while the counter lasts; afterwards its place holds the content; exhausted iff something new meets a spent counter; never stale |
| CapabilityBridges.CapabilityBridge.Navigate | apps/gpui-pdf-reader/src/pdf_capability_bridge.rs:833-861 | accepted iff sound, refinable, for the active document and while the counter lasts; receipts rise strictly and exceed the viewport revision |
| CapabilityBridges.CapabilityBridge.TakePendingNavigation | apps/gpui-pdf-reader/src/pdf_capability_bridge.rs:500-508 | hands out the waiting navigation once |
| CapabilityBridges.CapabilityBridge.ReplaceOverlays | apps/gpui-pdf-reader/src/pdf_capability_bridge.rs:863-894 | accepted iff sound, for the active document, newer, countable and while identifiers last; identifiers and revisions rise strictly |
| CapabilityBridges.Seed | apps/gpui-pdf-reader/src/pdf_capability_bridge.rs:161-180 | the seeding loops fill every slot at revision one, or report the unsound part |
| RegistryEntries.SortSorts | apps/gpui-pdf-reader/src/extension_registry.rs:727-743 | sorting decisions orders them by key and keeps exactly them |
| RegistryEntries.SortOfSorted | apps/gpui-pdf-reader/src/extension_registry.rs:727-743 | sorting sorted decisions changes nothing |
| RegistryEntries.SortPermissionDecisions | apps/gpui-pdf-reader/src/extension_registry.rs:727-743 | the in-place sort leaves the sorted permutation |
| RegistryEntries.ValidatePermissionDecisions | apps/gpui-pdf-reader/src/extension_registry.rs:599-619 | accepts iff bounded, valid and without repetition, and returns them sorted |
| RegistryEntries.SortKeepsValid | apps/gpui-pdf-reader/src/extension_registry.rs:599-619 | valid decisions stay valid when sorted |
| RegistryEntries.VisitCounts | apps/gpui-pdf-reader/src/extension_registry.rs:635-690 | threading the counter through the tree succeeds iff the tree is shallow and small, and then adds its size |
| RegistryEntries.SettingsAccepted | apps/gpui-pdf-reader/src/extension_registry.rs:621-690 | settings are accepted iff a record, short enough, shallow enough and small enough |
| RegistryEntries.KeysAreWords | apps/gpui-pdf-reader/src/extension_registry.rs:662-676 | a settings key is 1 to 128 letters, digits, hyphens and underscores |
| RegistryEntries.ContentHashIsHexadecimal | apps/gpui-pdf-reader/src/extension_registry.rs:588-598 | a content hash is 32 bytes in lower-case hexadecimal |
| RegistryEntries.ComponentsSplit | apps/gpui-pdf-reader/src/extension_registry.rs:561-586 | the components joined by slashes are the path, and hold no slash |
| RegistryEntries.SourcePathsStay | apps/gpui-pdf-reader/src/extension_registry.rs:561-586 | a source path is accepted iff absolute, short enough, and two dots never stand alone between its slashes |
| RegistryEntries.LexLeMeans | apps/gpui-pdf-reader/src/extension_registry.rs:727-743 | strings are ordered by the first character in which they differ, prefixes first |
| RegistryEntries.PutKeeps | apps/gpui-pdf-reader/src/extension_registry.rs:291-300 | inserting keeps the entries valid and ordered and changes one identifier only |
| RegistryEntries.WithoutKeeps | apps/gpui-pdf-reader/src/extension_registry.rs:302-312 | removing keeps the entries valid and ordered and takes one identifier only |
| RegistryEntries.ValidateWire | apps/gpui-pdf-reader/src/extension_registry.rs:519-535 | a stored entry is accepted iff all its parts are valid, with its decisions sorted |
| RegistryEntries.ValidateInput | apps/gpui-pdf-reader/src/extension_registry.rs:500-517 | accepts iff hash, canonical path, permissions and settings are valid; the result is a valid entry at its canonical path, its permissions sorted |
| RegistryEntries.LoadEntries | apps/gpui-pdf-reader/src/extension_registry.rs:446-498 | loading returns what the file means, which is valid, or fails exactly if it means nothing |
| RegistryEntries.GatheredMeans | apps/gpui-pdf-reader/src/extension_registry.rs:476-498 | a file is accepted iff each entry is acceptable and no identifier repeats, and then holds each entry under its identifier with its permissions sorted |
| RegistryEntries.GatheredIsIdentity | apps/gpui-pdf-reader/src/extension_registry.rs:446-498 | reading back valid entries, permission sort included, is the identity |
| RegistryEntries.LoadAfterPersist | apps/gpui-pdf-reader/src/extension_registry.rs:745-779 | a persisted file means exactly the entries persisted |
| Registries.BackupPreviousFile | apps/gpui-pdf-reader/src/extension_registry.rs:833-861 | yields the file as it is, or fails before anything changed |
| Registries.RestorePreviousFile | apps/gpui-pdf-reader/src/extension_registry.rs:863-875 | the previous file is back unless the restoring step itself fails |
| Registries.AtomicWrite | apps/gpui-pdf-reader/src/extension_registry.rs:789-831 | under any faults: success installs the new file, any error but a failed rollback leaves the old one, and at every moment the file is wholly old or wholly new |
| Registries.ExtensionRegistry.Commit | apps/gpui-pdf-reader/src/extension_registry.rs:417-424 | memory and file agree after every commit unless a rollback failed; when it succeeds is stated exactly |
| Registries.ExtensionRegistry.Upsert | apps/gpui-pdf-reader/src/extension_registry.rs:291-300 | succeeds iff the input is acceptable, both limits hold and no step fails; then the input at its canonical path, its permissions sorted, is on disk and in memory, and nothing else changed |
| Registries.ExtensionRegistry.Remove | apps/gpui-pdf-reader/src/extension_registry.rs:302-312 | succeeds iff nothing is to be removed or no step of the commit fails; one entry goes on disk and in memory together |
| Registries.ExtensionRegistry.ReplaceSettings | apps/gpui-pdf-reader/src/extension_registry.rs:380-395 | succeeds iff the settings are valid, the entry exists and no step of the commit fails; its settings change on disk and in memory together |
| Registries.Load | apps/gpui-pdf-reader/src/extension_registry.rs:248-264 | a registry loads iff its file means something, and then agrees with it |
| ExtensionHosts.NothingMissing | crates/key-extension-host/src/host.rs:708-861 | no required permission is denied or undecided iff all are granted |
| ExtensionHosts.ExtensionHost.Install | crates/key-extension-host/src/host.rs:347-390 | installs a licensed, new and acceptable manifest, and only that; otherwise names the first reason and changes nothing |
| ExtensionHosts.ExtensionHost.ReplacePackage | crates/key-extension-host/src/host.rs:392-412 | replaces the manifest of a stopped extension, and refuses exactly otherwise |
| ExtensionHosts.ExtensionHost.Activate | crates/key-extension-host/src/host.rs:708-861 | succeeds iff the extension is stopped, nothing stands in its way, every required permission is granted and its component starts; then it is active, and with room in the event queue no other changes; a refusal for permissions names the undecided ones |
| ExtensionHosts.ExtensionHost.Unload | crates/key-extension-host/src/host.rs:2265-2317 | disables one extension; others are at most suspended |
| ExtensionHosts.ExtensionHost.RemovePackage | crates/key-extension-host/src/host.rs:2319-2332 | takes out the record and the decisions of one extension |
| PackageManagers.SnapshotRestores | apps/gpui-pdf-reader/src/extension_packages.rs:1409-1441 | restoring a permission snapshot brings back every decision in either manifest and leaves the rest undecided |
| PackageManagers.CapturePermissionSnapshot | apps/gpui-pdf-reader/src/extension_packages.rs:1409-1430 | the loop captures each permission once, as observed |
| PackageManagers.RestorePermissionSnapshot | apps/gpui-pdf-reader/src/extension_packages.rs:1432-1441 | the loop leaves exactly the snapshot's decisions, for one extension |
| PackageManagers.RequiredAre | apps/gpui-pdf-reader/src/extension_packages.rs:477-487 | the required requests are exactly the requests marked required |
| PackageManagers.AuthorityMeans | apps/gpui-pdf-reader/src/extension_packages.rs:858-867 | a commit grants what was approved and keeps the other decisions, or clears them after a reset |
| PackageManagers.ToApproveMeans | apps/gpui-pdf-reader/src/extension_packages.rs:803-818 | an upgrade signed by the same key of the same identity is to be approved for what is required and not granted, another for all that is required |
| PackageManagers.PreviewDescribes | apps/gpui-pdf-reader/src/extension_packages.rs:1097-1119 | a preview equals that of a package iff it tells its identifier, version, content hash, required permissions and standing |
| PackageManagers.ResetGrantsRequired | apps/gpui-pdf-reader/src/extension_packages.rs:809-824 | after a reset a permission is granted iff some request of the candidate asks for it as required |
| PackageManagers.ContinuityGrantsRequired | apps/gpui-pdf-reader/src/extension_packages.rs:809-824 | with a verified same signer, approving what was missing leaves every required permission granted iff none granted at the proposal was revoked since |
| PackageManagers.InstallableExtensionManager.ProposeThenApprove | apps/gpui-pdf-reader/src/extension_packages.rs:786-833 | the same over a run: propose, decide, approve, commit |
| PackageManagers.ApprovalGrants | apps/gpui-pdf-reader/src/extension_packages.rs:466-475 | after approval every required permission is granted iff each is approved or was granted already |
| PackageManagers.UngrantedAreMissing | apps/gpui-pdf-reader/src/extension_packages.rs:552-569 | nothing is left to ask for iff every required permission is granted |
| PackageManagers.RestoreLifecycle | apps/gpui-pdf-reader/src/extension_packages.rs:1443-1468 | a previously active extension is active again, or suspended if the event queue is full, or an error is reported; a disabled one is disabled |
| PackageManagers.LinkedElsewhere | apps/gpui-pdf-reader/src/extension_packages.rs:835-945 | changing one package and its host side leaves all other packages, records and adapters linked |
| PackageManagers.FittingKeepsLimit | apps/gpui-pdf-reader/src/extension_packages.rs:1193-1215 | a candidate that passes the byte check may be staged or put in place within the limit |
| PackageManagers.StagedFits | apps/gpui-pdf-reader/src/extension_packages.rs:1193-1215 | within the limit, every staged candidate may still be committed |
| PackageManagers.FreshActive | apps/gpui-pdf-reader/src/extension_packages.rs:712-718 | a new package started below the active limit does not exceed it |
| PackageManagers.RestartWithinLimit | apps/gpui-pdf-reader/src/extension_packages.rs:1232-1247 | if at most one package starts, the active limit holds if fewer than eight others are active, and if it does start and no other stops, only then |
| PackageManagers.InstallableExtensionManager.ActivationReport | apps/gpui-pdf-reader/src/extension_packages.rs:696-748 | a package ends running or disabled, never started at the limit |
| PackageManagers.InstallableExtensionManager.LoadManaged | apps/gpui-pdf-reader/src/extension_packages.rs:1051-1071 | accepts exactly non-native packages within the package and byte limits that compile, and names the first limit broken |
| PackageManagers.InstallableExtensionManager.PreviewManaged | apps/gpui-pdf-reader/src/extension_packages.rs:1073-1120 | previews exactly non-native, licensed packages that are new to the host or upgrades by the same publisher of one not suspended |
| PackageManagers.InstallableExtensionManager.InstallReviewed | apps/gpui-pdf-reader/src/extension_packages.rs:373-391 | a package that loads and is described by the review is installed iff the host takes it, staged if it needs approval, and else committed; any other changes nothing; the limits hold |
| PackageManagers.InstallableExtensionManager.InstallLoaded | apps/gpui-pdf-reader/src/extension_packages.rs:750-784 | succeeds iff licensed, acceptable, unknown to the host and below the package limit; then it is linked, and runs iff there is room for an active package and it starts; otherwise nothing changes |
| PackageManagers.InstallableExtensionManager.UpgradeLoaded | apps/gpui-pdf-reader/src/extension_packages.rs:786-833 | an upgrade that needs approval touches nothing but the waiting list; another is a commit; a refusal names its first reason and changes nothing |
| PackageManagers.InstallableExtensionManager.CommitUpgrade | apps/gpui-pdf-reader/src/extension_packages.rs:835-945 | stands iff the host takes the candidate and, where the old package was active, it comes up; it is then provisional iff a result is owed, and otherwise package, adapter, decisions and, with room in the event queue, lifecycle are as found |
| PackageManagers.InstallableExtensionManager.StoppedUpgradeStands | apps/gpui-pdf-reader/src/extension_packages.rs:922-949 | an upgrade of a stopped package stands iff the host takes the candidate |
| PackageManagers.InstallableExtensionManager.ActiveUpgradeStands | apps/gpui-pdf-reader/src/extension_packages.rs:898-949 | within the limits, an upgrade of an active package stands iff the host takes the candidate and its start leaves it active or owing a result |
| PackageManagers.InstallableExtensionManager.RollBack | apps/gpui-pdf-reader/src/extension_packages.rs:1232-1247 | previous package, adapter and captured decisions are back; an active package is active again, with room in the event queue, iff its start succeeds |
| PackageManagers.InstallableExtensionManager.RestoreUnreplaced | apps/gpui-pdf-reader/src/extension_packages.rs:1040-1049 | after a refused replacement the old package has its adapter, decisions and, with room in the event queue, exactly its lifecycle again |
| PackageManagers.InstallableExtensionManager.ActiveUpgradeIsNotCapped | apps/gpui-pdf-reader/src/extension_packages.rs:835-945 | within the limits, an upgrade of an active package never fails for the active limit |
| PackageManagers.CommitWithin | apps/gpui-pdf-reader/src/extension_packages.rs:835-945 | a commit keeps all three limits, however it ends |
| PackageManagers.InstallableExtensionManager.ApprovePending | apps/gpui-pdf-reader/src/extension_packages.rs:466-475 | approval commits the waiting upgrade; after a reset a permission is granted iff it is asked for as required, and otherwise all required ones are iff approved or granted; on failure it goes on waiting |
| PackageManagers.InstallableExtensionManager.GrantPermissionsAndActivate | apps/gpui-pdf-reader/src/extension_packages.rs:460-494 | commits a waiting upgrade, or else grants exactly what is asked for as required and starts the package iff there is room and nothing stands in its way |
| PackageManagers.InstallableExtensionManager.DenyPermissions | apps/gpui-pdf-reader/src/extension_packages.rs:497-528 | drops a waiting upgrade and changes nothing else; otherwise denies exactly what is asked for as required and stops the package |
| PackageManagers.InstallableExtensionManager.Disable | apps/gpui-pdf-reader/src/extension_packages.rs:530-540 | stops a package and forgets its waiting and provisional upgrades |
| PackageManagers.InstallableExtensionManager.Enable | apps/gpui-pdf-reader/src/extension_packages.rs:542-570 | starts a package iff its required permissions are granted, there is room and nothing stands in its way; else asks for the missing ones |
| PackageManagers.InstallableExtensionManager.Remove | apps/gpui-pdf-reader/src/extension_packages.rs:572-584 | takes a package out of every map, with record, adapter and decisions |
| PackageManagers.InstallableExtensionManager.SetPermissionDecision | apps/gpui-pdf-reader/src/extension_packages.rs:591-623 | changes one decision; revoking a required one of a running package stops it and ends its provisional upgrade, and only then |
| PackageManagers.InstallableExtensionManager.SettleOne | apps/gpui-pdf-reader/src/extension_packages.rs:966-1009 | stands iff the package is active; otherwise package, adapter and snapshot decisions are back, active unless the queue is full; the active limit holds if fewer than eight others are active, and if none stops only then |
| PackageManagers.InstallableExtensionManager.Settle | apps/gpui-pdf-reader/src/extension_packages.rs:955-1010 | exactly the upgrades no worker owes anything are settled; each stands or is exactly taken back, and is active unless the queue is full or another was taken back; only what was taken back may newly be active |
| PackageManagers.InstallableExtensionManager.DisableThenSettle | apps/gpui-pdf-reader/src/extension_packages.rs:530-540 | an upgrade cancelled by disabling is never rolled back into life |
| PackageManagers.InstallableExtensionManager.DenyThenSettle | apps/gpui-pdf-reader/src/extension_packages.rs:497-528 | denials made during activation are all replaced by the decisions the commit found; without a provisional upgrade they last |
| PackageManagers.InstallableExtensionManager.DecideThenSettle | apps/gpui-pdf-reader/src/extension_packages.rs:591-623 | a decision survives the next settlement iff no provisional upgrade remains, or the package is active then, or the snapshot holds the same decision |
| PackageManagers.InstallableExtensionManager.Run | apps/gpui-pdf-reader/src/extension_packages.rs:298-306 | any sequence of steps keeps packages, records and adapters linked; a provisional upgrade is the one at the start or that of the last provisional commit of its package; one without stays in place unless a step replaces it; in-call steps keep at most 32 packages, 8 active ones and 64 MiB |
| PackageManagers.InstallableExtensionManager.RunThenSettle | apps/gpui-pdf-reader/src/extension_packages.rs:955-1010 | after any run, a failed settlement brings back exactly what the last provisional commit found |
| PackageManagers.InstallableExtensionManager.CommitThenSettle | apps/gpui-pdf-reader/src/extension_packages.rs:835-945 | a commit that stands is undone by the settlement of an older provisional upgrade iff there is one and the package is not active then |
| PackageManagers.InstallableExtensionManager.CommitThenRun | apps/gpui-pdf-reader/src/extension_packages.rs:835-945 | without an older provisional upgrade, a commit that stands outlasts every run that does not replace its package |
| PackageManagers.NextSettled | apps/gpui-pdf-reader/src/extension_packages.rs:966-1009 | settling one more upgrade keeps what was settled before it |
| MapSums.SumValues | apps/gpui-pdf-reader/src/extension_packages.rs:1198-1209 | adding values one key at a time gives the sum, in any order |
| Workspaces.RetainKeepsOrder | apps/gpui-pdf-reader/src/application_host.rs:119-129 | taking views out keeps the order of last use of the rest |
| Workspaces.OneInteractive | apps/gpui-pdf-reader/src/application_host.rs:171-187 | at most one view is interactive, the active one |
| Workspaces.FewHiddenAwake | apps/gpui-pdf-reader/src/application_host.rs:171-187 | at most four hidden views are not suspended, however many are open |
| Workspaces.RanksMean | apps/gpui-pdf-reader/src/application_host.rs:171-187 | the active view is in the foreground, those beside it visible, the two hidden views used last warm, two more cold, the rest suspended, by their place in the order |
| Workspaces.ShownOnce | apps/gpui-pdf-reader/src/application_host.rs:344-348 | a view is in one window and a file in one view |
| Workspaces.Shown | apps/gpui-pdf-reader/src/application_host.rs:283-331 | registering a view, or showing a file in an empty one, keeps table, path index and settings in agreement |
| Workspaces.Dropped | apps/gpui-pdf-reader/src/application_host.rs:474-506 | removing a view keeps them in agreement |
| Workspaces.Carried | apps/gpui-pdf-reader/src/application_host.rs:519-557 | moving a view keeps them in agreement |
| Workspaces.Narrowed | apps/gpui-pdf-reader/src/application_host.rs:135-169 | forgetting closed windows keeps them in agreement |
| Workspaces.ApplicationHost.RefreshActivityLevels | apps/gpui-pdf-reader/src/application_host.rs:171-187 | the loop gives every view the activity its place deserves |
| Workspaces.ApplicationHost.SetActiveViews | apps/gpui-pdf-reader/src/application_host.rs:119-129 | the view comes to the front of the order and becomes the interactive one; a view not yet registered only comes to the front |
| Workspaces.ApplicationHost.SelectTabViews | apps/gpui-pdf-reader/src/application_host.rs:457-472 | as above, and it becomes its window's active view; before its registration the tab awaits it |
| Workspaces.ApplicationHost.ReconcileTargets | apps/gpui-pdf-reader/src/application_host.rs:189-204 | every changed allocation reaches the window that holds its view; none is lost, also while a tab awaits its view |
| Workspaces.ApplicationHost.InsertWindow | apps/gpui-pdf-reader/src/application_host.rs:283-303 | one window, view, path and participant more, the view last in the order; a new window, view and file keep all indexes in agreement |
| Workspaces.ApplicationHost.RegisterView | apps/gpui-pdf-reader/src/application_host.rs:305-342 | one view, path and participant more; a new view and file in a known window make all indexes agree, also after an early activation |
| Workspaces.ApplicationHost.AddTab | apps/gpui-pdf-reader/src/workspace_window.rs:773-803 | a tab that comes forward, is registered and comes forward again ends registered, in front, with all indexes in agreement |
| Workspaces.ApplicationHost.OpenPdfWindow | apps/gpui-pdf-reader/src/application_host.rs:590-642 | a file that is open is found and its view comes forward with the views beside it; otherwise a fresh window and view show it in front |
| Workspaces.ApplicationHost.OpenPdfFrom | apps/gpui-pdf-reader/src/application_host.rs:663-737 | found and brought forward, shown in the empty active view, or in a fresh tab in front; the settings view stays without a file unless it is the active view it is opened from |
| Workspaces.SettingsShowAFile | apps/gpui-pdf-reader/src/application_host.rs:691-731 | a run after which the settings view shows a file |
| Workspaces.ApplicationHost.ComeForward | apps/gpui-pdf-reader/src/workspace_window.rs:1107-1176 | the view of an open file becomes its window's and the workspace's active one |
| Workspaces.ApplicationHost.OpenSettings | apps/gpui-pdf-reader/src/application_host.rs:752-817 | the settings are open at most once, beside the active view if there is one; open ones come forward |
| Workspaces.ApplicationHost.RemoveView | apps/gpui-pdf-reader/src/application_host.rs:474-506 | the view leaves every index, whether it was registered or not |
| Workspaces.ApplicationHost.Transfer | apps/gpui-pdf-reader/src/application_host.rs:519-557 | the view, its file and the settings index move together; an unknown view or window moves what there is |
| Workspaces.ApplicationHost.PruneClosedWindows | apps/gpui-pdf-reader/src/application_host.rs:135-169 | the views of closed windows leave every index, and only they |
| Workspaces.ApplicationHost.Idle | apps/gpui-pdf-reader/src/application_host.rs:559-568 | only the active view may become idle |
| TileCaches.VisibleIsNotObsolete | apps/gpui-pdf-reader/src/reader.rs:3539-3564 | with one raster per page no visible tile is of the wrong scale or obsolete |
| TileCaches.DesiredByPage | apps/gpui-pdf-reader/src/reader.rs:3539-3547 | one pass gathers the raster and visible tiles wanted on each page |
| TileCaches.ObsoleteTiles | apps/gpui-pdf-reader/src/reader.rs:3548-3564 | obsolete tiles are of another scale, on pages whose visible tiles are all there |
| TileCaches.WrongScaleMeans | apps/gpui-pdf-reader/src/reader.rs:3548-3564 | a tile is of the wrong scale iff its page is wanted at another size |
| TileCaches.ExpendableGoesBefore | apps/gpui-pdf-reader/src/reader.rs:3596-3611 | wrong scale goes before right scale, and among alike the farther goes first |
| TileCaches.SortCandidates | apps/gpui-pdf-reader/src/reader.rs:3596-3611 | candidates are listed once each, wrong scale first, then farthest |
| TileCaches.GoesBeforeIsTotalOrder | apps/gpui-pdf-reader/src/reader.rs:3596-3611 | the order of candidates is total, so that a first one exists |
| TileCaches.GiveUp | apps/gpui-pdf-reader/src/reader.rs:3572-3620 | the running byte count is the true sum; tiles go in order, and each only while over a limit |
| TileCaches.EvictDistantTiles | apps/gpui-pdf-reader/src/reader.rs:3538-3623 | no visible tile goes; the rest is within the limits or all visible; of a wrong scale and far away goes first, and only as needed |
| TileCaches.RetainedIsAShare | apps/gpui-pdf-reader/src/reader.rs:196-198 | trimming never raises a limit, and rounds the share up |
| TileCaches.ResourceCacheLimits | apps/gpui-pdf-reader/src/reader.rs:200-242 | limits are zero when dormant, at most half the graphics memory and the activity's cap, and tiles are allowed iff bytes are |
| TileCaches.BytesAreTheMost | apps/gpui-pdf-reader/src/reader.rs:200-242 | the byte limit is the most that half the graphics memory and the cap of the activity allow |
| TileCaches.CapsAre | apps/gpui-pdf-reader/src/reader.rs:200-242 | the caps of the activities, in bytes |
| TileCaches.TilesFollowBytes | apps/gpui-pdf-reader/src/reader.rs:200-242 | one tile for every four mebibytes, at least 2 and at most 128 |
| TileReaders.PlannedKeepsVisible | apps/gpui-pdf-reader/src/reader.rs:3438-3446 | filtering the plan drops prefetched tiles only |
| TileReaders.TileReader.QuietMeansSettled | apps/gpui-pdf-reader/src/reader.rs:3410-3497 | when the worker is idle, nothing is awaited and every visible tile is cached or failed |
| TileReaders.TileReader.RequestVisibleTiles | apps/gpui-pdf-reader/src/reader.rs:3410-3497 | a demand is sent iff demand may be sent and the plan or the text changed; it asks for exactly the missing tiles; the reader ends in error iff a demand does not reach the worker |
| TileReaders.TileReader.EvictTiles | apps/gpui-pdf-reader/src/reader.rs:3538-3623 | eviction loses no visible tile, and a dormant reader keeps none |
| TileReaders.TileReader.TileRendered | apps/gpui-pdf-reader/src/reader.rs:1482-1529 | a result of another document or appearance is ignored; a sound one is cached with its true length and evicted for, a visible one stays; a malformed one ends in error |
| TileReaders.LimitBoundsPixels | apps/gpui-pdf-reader/src/reader.rs:1494-1523 | within its limits a reader keeps no more than the limit of pixel bytes |
| TileReaders.TileReader.TileFailed | apps/gpui-pdf-reader/src/reader.rs:1530-1538 | a current failure is reported, another is ignored |
| TileReaders.TileReader.BeginOpen | apps/gpui-pdf-reader/src/reader.rs:2486-2605 | tiles and demand of the old document are gone before the new one; ends in error iff the worker cannot be reached |
| TileReaders.TileReader.Resumed | apps/gpui-pdf-reader/src/reader.rs:1353-1360 | after a resume everything visible and not cached is asked for again |
| TileReaders.TileReader.ZoomTimer | apps/gpui-pdf-reader/src/reader.rs:3957-3970 | only the timer of the last zoom step counts; then everything visible is wanted again |
| TileReaders.TileReader.WorkerError | apps/gpui-pdf-reader/src/reader.rs:1722-1734 | the reader ends in error and awaits nothing |
| TileReaders.TileReader.Opened | apps/gpui-pdf-reader/src/reader.rs:1361-1481 | the new document starts with an empty cache and a full demand; it is ready iff laid out and its demand reaches the worker |
| TileReaders.TileReader.SynchronizeAppearance | apps/gpui-pdf-reader/src/reader.rs:3214-3224 | a new appearance leaves no tile of the old one |
| TileReaders.TileReader.DeferRenderAfterZoom | apps/gpui-pdf-reader/src/reader.rs:3937-3971 | the first step of a burst empties the worker's queue; cached tiles stay |
| TileReaders.TileReader.ApplyResourceAllocation | apps/gpui-pdf-reader/src/reader.rs:1012-1085 | a dormant reader holds and awaits nothing; another evicts under the new limits and awaits exactly what is missing of its viewport, or ends in error if it cannot resume |
| TileReaders.TileReader.HibernateTimer | apps/gpui-pdf-reader/src/reader.rs:1147-1175 | the worker hibernates iff resources are suspended and it is reached; then nothing is awaited |
| TileReaders.TileReader.IdleTrimTimer | apps/gpui-pdf-reader/src/reader.rs:1126-1144 | trimming waits for awaited tiles, then evicts to the smaller limits |
| AnnotationGuards.TransitionPendingOpen | apps/gpui-pdf-reader/src/reader.rs:556-576 | a waiting request opens only if all is saved, is cancelled only by a failure, and otherwise goes on waiting |
| AnnotationGuards.AnnotationGuard.PersistAnnotations | apps/gpui-pdf-reader/src/reader/comments.rs:188-214 | queues the current revision iff saving is possible and the service takes it |
| AnnotationGuards.AnnotationGuard.OpenPath | apps/gpui-pdf-reader/src/reader.rs:2449-2482 | leaves the document iff nothing is unsaved; otherwise the request waits, displacing an earlier one, or is abandoned, and no revision is lost |
| AnnotationGuards.AnnotationGuard.BeginOpen | apps/gpui-pdf-reader/src/reader.rs:2484-2560 | the document is left only with every annotation on disk |
| AnnotationGuards.AnnotationGuard.Loaded | apps/gpui-pdf-reader/src/reader.rs:1748-1763 | loaded annotations count as saved, and saving is no longer blocked |
| AnnotationGuards.AnnotationGuard.SaveDone | apps/gpui-pdf-reader/src/reader.rs:1764-1777 | starts the waiting request iff it now covers everything, which is then on disk; otherwise no revision is lost and the request goes on waiting |
| AnnotationGuards.AnnotationGuard.SaveFailed | apps/gpui-pdf-reader/src/reader.rs:1778-1820 | a failed save abandons the waiting request |
| AnnotationGuards.AnnotationGuard.SaveSkipped | apps/gpui-pdf-reader/src/reader.rs:1741-1837 | a save overtaken by one as new or newer strands no request |
| AnnotationGuards.AnnotationGuard.NothingSavingNothingWaiting | apps/gpui-pdf-reader/src/reader.rs:2449-2482 | with no save under way, a request waits only if an edit could not be queued |
| AnnotationGuards.AnnotationGuard.AnswerableIfQueued | apps/gpui-pdf-reader/src/reader.rs:556-576 | a save under way can start the waiting request iff everything is queued |
| AnnotationGuards.AnnotationGuard.AllDone | apps/gpui-pdf-reader/src/reader.rs:1764-1777 | when all saves under way are done in any order, the waiting request has started iff everything was queued |
| AnnotationGuards.StrandedOpen | apps/gpui-pdf-reader/src/reader/comments.rs:188-214 | a run after which a request waits and nothing is being saved |

## Left out

- Views, layout, menus, animation, clipboard, theme and panels: presentation only.
- PDFium, the WebAssembly runtime, network fetchers and window handles: foreign calls; they appear as environments.
- Serialized text, hashes and signatures: serialization is a trusted inverse pair with lengths as parameters; content hashes and verified signer identities are opaque values.
- `restore_registered`, package loading from archives and declarative UI validation: the checks are of the same kind as those modelled; a package arrives as a value.
- Settings kept by the extension host and its effects: not part of this model. Of its event queue only whether there is room until the next tick.
- Order of settlement results and of maps in general: sets and maps stand for ordered maps, and a loop over them takes any order.
- PackageManagers.RestoreLifecycle: for a package that was validated or failed, it states only that the package is not active afterwards, because the original does not reproduce those states exactly.
- PackageManagers.InstallableExtensionManager.Run: the limits are not claimed across ticks and settlements, because a settlement restarts a package without checking them.
- ExtensionHosts.ExtensionHost.Activate: which of safe mode, dependencies and capabilities refuses first is left open.
- Floating-point geometry: tile distances are abstract numbers, and tiles come from a plan. A plan is taken to draw each page at one size.
- Prefetch flags and text pages of a render request: the text part appears only as "has changed".
- TileReaders.TileReader.RequestVisibleTiles: the stored viewport is compared as a multiset, because the original sorts it only to compare it.
- Wrap-around of generation and revision counters of the reader after 2^64 steps, and overflow of sums of sizes.
- The test-only mutators of the registry, lock poisoning, and the exact validation of snapshot bodies (a flag says whether a body is sound).
- Window titles and the split layout of tabs; opening windows is a yes-or-no outcome. Paths are taken as already canonical.
- Draft confirmation before opening, autosave timing, and the texts of error messages.
- NaN and infinite numbers in stored settings: stored numbers are finite.
- The contract of style runs and lines of the rich-text buffer is stated as definitions (runs tile the text, lines split at newlines), not derived from the editor core.
