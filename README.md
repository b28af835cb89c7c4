# PurgePoint free-space overwrite engine, in Dafny

PurgePoint is a macOS menu-bar utility. It overwrites the free space of the
volumes a user selected. It does so by running `/bin/dd` into a fill file
until the disk is full (or, with the safety buffer on, for a budget meant to
leave 2 GiB free, which the unit mismatch below defeats), and then deleting
the file. This project models the engine and the app's two bookmark tables,
and proves properties of that model:

- `WipeManager` resolves the saved security-scoped bookmarks into a queue and
  visits each queued volume in turn. For each volume it requests scoped access,
  creates `PurgePointFill` in the volume's working root and assembles the dd
  command. It then follows dd's output into the log and the progress value,
  removes the fill file and folder, and logs the outcome.
- `SettingsManager` keeps four persisted preferences and the `volumeBookmarks`
  table. The table is updated in place by save, load and clear, and read back
  as a set of paths. The root volume is remapped to its data partition on save
  and reported as `/` on read.
- `BookmarksManager` keeps a second table, `rawBookmarks`, that the engine
  does not read. Its save does not remap `/`, and it persists under its own
  key. It has a load like the first table's, `storedBookmarkURLs`, and a laxer
  `resolvedVolumePaths`.

## How the model is built

Modules follow the source:

- `Platform`: URLs, bookmark data, and the key/value store `Defaults`.
- `Paths`: path strings and the `/` ↔ `/System/Volumes/Data` remaps.
- `Decimal`: the number formatting used for `count=` and the digit parsing.
- `Progress`: the readability handler's arithmetic.
- `WipePlan`: the working root, the fill paths, the capacity budget and the dd
  argument list.
- `BookmarkTable`: what a save adds, the persisted dictionary, and decoding.
- `Settings` and `Bookmarks`: the two settings classes.
- `Wipe`: the `WipeManager` class.
- `WipeProperties`: the lemmas about whole runs.

The classes keep the source's fields (`isWiping`, `wipeProgress`,
`lastLogOutput`, `task`, `volumeBookmarks`, `rawBookmarks`). Their methods
update those fields in place. Each method is proved against a specification
function of the old state and the inputs.

Everything the operating system decides is a parameter:

- For the bookmark tables, the `Os` oracle and the `parseUrl`/`resolve`
  functions decide bookmark creation and resolution, existence and directory
  checks, scoped access and `URL(string:)`.
- For the engine, one `VolumeWorld` per queued volume decides:
  - whether scoped access is granted;
  - whether the folder is created;
  - the available capacity, when it can be read;
  - whether dd starts;
  - the chunks dd prints;
  - after how many chunks the user presses cancel.

`world(i)` is the world of the i-th queued volume. The ghost field `effects`
records, in order, every request the engine makes of the system: scoped
access, folder creation, the capacity query, the dd launch, terminate, the
removals, and the access release. The log is a sequence of `LogEntry` values.
`lastLogOutput` is proved equal to their rendering.

Dictionary iteration order is not fixed by the source. Each loop over a table
picks its next key with `:|`, and the order it chose is returned as a ghost
sequence. The properties hold for every order.

The model follows the code where the code and the design description differ:

- **A second start is not refused.** `startWiping` resets the state and runs
  again. Only the UI greys the button out.
- **Progress is not reset per volume, and it is not monotone.** Each chunk
  with a byte count sets the value. A volume that prints no count keeps the
  previous volume's value (`ProgressCarriesOver`).
- **A cancel does not stop the queue.** `cancelWipe` terminates the running dd
  and clears `isWiping`. The loop then cleans up, logs the completion and goes
  on with the next volume (`OneOutcomePerVolume` holds for every world).
- **dd's exit status is never inspected.** A launched dd always ends in the
  completion line.
- **Bookmark resolution checks nothing else.** `overwriteFreeSpace` drops only
  bookmarks whose resolution throws. It does not check that the target exists.
- **Unit mismatch.** `count=` counts 32 MiB blocks (`bs=32m`), while
  `totalBytes` counts MiB. dd is therefore asked for 32 times the byte budget,
  and a failed capacity query gives `count=1`
  (`DdRequestsThirtyTwoTimesBudget`, `SafetyBufferExample`).
- **`\d` is Unicode, `Int(_:)` is ASCII.** The pattern's `\d` matches any
  Unicode decimal digit, but `Int(_:)` accepts only ASCII digits. A chunk
  whose first match holds, say, an Arabic-Indic digit reports no byte count,
  even when an ASCII count follows (`NonAsciiDigitHidesCount`).
- **A cancel can trap.** `task` is set when dd is assembled (line 119) but
  launched only at line 159. When the launch fails, the unlaunched process
  stays in `task`, and a later `cancelWipe` calls `terminate()` on it, which
  traps (`CancelTrapsAfterWipe`).
- **Failure lines come after the reset.** `appendLog` hops to the main queue.
  The lines for unresolvable bookmarks are therefore applied after the
  synchronous reset at the start of `startWiping`. `OverwriteFreeSpace` hands
  them to `StartWiping` as a backlog that is delivered right after the reset.

## Model

| member | source | states |
|---|---|---|
| Platform.AbsoluteStringInjective | PurgePoint/SettingsManager.swift:95-97 | distinct URLs never share the `absoluteString` that keys the persisted dictionary |
| Platform.AbsoluteString | PurgePoint/SettingsManager.swift:95-97 | a file URL's `absoluteString` is the `file://` scheme followed by its path |
| Platform.StoredFlag | PurgePoint/SettingsManager.swift:132-134 | `bool(forKey:)` is true exactly when the key holds the flag true; an absent key or another kind of value reads as false |
| Platform.StoredStrings | PurgePoint/SettingsManager.swift:136-142 | a string array is read back exactly when the key holds one, and then it is the stored set |
| Platform.StoredPlist | PurgePoint/SettingsManager.swift:107-113 | a bookmark dictionary is read back exactly when the key holds decodable property-list data, and then it is the stored dictionary |
| Decimal.NatToString | PurgePoint/WipeManager.swift:129 | the interpolated count is a non-empty run of decimal digits without a leading zero |
| Decimal.NatToStringRoundTrip | PurgePoint/WipeManager.swift:129 | parsing the formatted count gives the count back |
| Decimal.DigitsValue | PurgePoint/WipeManager.swift:149 | the value of a run of ASCII digits; for canonical digits (no leading zero) formatting the value gives the digits back |
| Decimal.CanonicalStep | PurgePoint/WipeManager.swift:149 | one more digit after canonical digits keeps the formatting round trip |
| Paths.SelectablePath | PurgePoint/SettingsManager.swift:77 | a selection is never bookmarked as `/`: `/` becomes the data partition and every other path is kept |
| Paths.ReportedPath | PurgePoint/SettingsManager.swift:56-62 | the data partition is reported as `/` and every other path as itself |
| Paths.SelectionReadsBack | PurgePoint/SettingsManager.swift:56-62 | remapping for save and then reporting gives the selection back, with the data partition read as `/` |
| Paths.AppendedPath | PurgePoint/WipeManager.swift:101-106 | `appendingPathComponent` extends the base with one separator and then the component |
| Paths.AppendPathComponent | PurgePoint/WipeManager.swift:101-106 | `appendingPathComponent` adds the component and at most one separator; `AppendedPath` states where they go |
| Paths.TrimTrailingSlashes | PurgePoint/WipeManager.swift:42 | the trimmed path is a prefix of the path without a trailing separator, and only separators were removed |
| Paths.AfterLastSlash | PurgePoint/WipeManager.swift:42 | the result is the separator-free tail of the path, preceded by a separator unless it is the whole path |
| Paths.LastPathComponent | PurgePoint/WipeManager.swift:42 | `lastPathComponent` is the last non-empty run of non-separators, or `/` for a path made of separators only |
| Paths.AfterLastSlashOfSuffix | PurgePoint/WipeManager.swift:42 | after a separator, a separator-free tail is the last component |
| Paths.LastComponentOfAppended | PurgePoint/WipeManager.swift:42 | taking the last component of an appended path gives the appended component back |
| Progress.DigitRunEnd | PurgePoint/WipeManager.swift:148 | the end of the longest run of `\d` digits that starts at a position, where `\d` is any Unicode decimal digit (general category Nd) and not only ASCII |
| Progress.FindMatch | PurgePoint/WipeManager.swift:148 | the regular expression `(\d+) bytes`, with Unicode `\d`, matches first at the position found and nowhere before it, and none is found exactly when it matches nowhere |
| Progress.BytesWritten | PurgePoint/WipeManager.swift:148-149 | no count without a match; with one, the count is what `Int(_:)` reads from the first match's digits, which is none when they hold a non-ASCII digit or exceed `Int.max`; a count always fits |
| Progress.ParseInt | PurgePoint/WipeManager.swift:149 | `Int(_:)` on the digits succeeds exactly when they are non-empty ASCII digits whose value fits a 64-bit `Int`, and then gives that value |
| Progress.ParseIntRoundTrip | PurgePoint/WipeManager.swift:149 | a formatted number up to `Int.max` parses back to itself |
| Progress.BytesWrittenOfReport | PurgePoint/WipeManager.swift:147-149 | a chunk that starts with dd's `<n> bytes` reports `n`, whatever follows, for every `n` up to `Int.max` |
| Progress.LeadingDigitMatches | PurgePoint/WipeManager.swift:148-149 | a chunk that starts with a non-ASCII decimal digit followed by ` bytes` reports no count, whatever follows |
| Progress.ArabicIndicThreeIsDigit | PurgePoint/WipeManager.swift:148 | U+0663 is a decimal digit for `\d` but not an ASCII digit |
| Progress.NonAsciiDigitHidesCount | PurgePoint/WipeManager.swift:148-149 | a chunk `٣ bytes: 1048576 bytes transferred` reports no count: the first match wins and `Int(_:)` refuses it |
| Progress.Percent | PurgePoint/WipeManager.swift:152 | `min(100, written/total·100)`: it stays in 0…100, is 100 once the budget is written, and is the exact ratio before that |
| Progress.NextProgress | PurgePoint/WipeManager.swift:140-154 | the value changes only for decodable text carrying a byte count while a budget exists, and then becomes that percentage; it stays in 0…100 |
| Progress.ProgressStep | PurgePoint/WipeManager.swift:140-154 | handling one more chunk applies the handler to the value the earlier chunks left |
| Progress.ProgressStaysInRange | PurgePoint/WipeManager.swift:152 | whatever dd prints, the progress value stays within 0…100 |
| Progress.NoBudgetNoProgress | PurgePoint/WipeManager.swift:150 | without a byte budget the progress value never changes |
| Progress.ProgressIsLastReport | PurgePoint/WipeManager.swift:147-154 | after any output, the value is the one before it or the percentage of some chunk's byte count |
| Progress.SilentOutputKeepsProgress | PurgePoint/WipeManager.swift:147-154 | output that never carries a byte count leaves any previous value in place |
| WipePlan.WorkingRootInsideVolume | PurgePoint/WipeManager.swift:99-103 | the working root is the volume itself, except that the data partition's top is replaced by a folder inside it |
| WipePlan.WorkingRoot | PurgePoint/WipeManager.swift:99-103 | the working root is the volume's own path, except at the data partition, where `Users/Shared` is appended |
| WipePlan.FillPaths | PurgePoint/WipeManager.swift:105-106 | the fill folder `PurgePointFill` lies inside the working root and the fill file `junk` inside the fill folder |
| WipePlan.FillDirectory | PurgePoint/WipeManager.swift:105 | the fill folder is the working root with `PurgePointFill` appended |
| WipePlan.JunkPath | PurgePoint/WipeManager.swift:106 | the fill file is the fill folder with `junk` appended |
| WipePlan.DataVolumeFillPath | PurgePoint/WipeManager.swift:99-106 | the data partition is filled at `/System/Volumes/Data/Users/Shared/PurgePointFill/junk` |
| WipePlan.AvailableMegabytes | PurgePoint/WipeManager.swift:190-195 | `calculateWritableMegabytes`: the available bytes in whole MiB rounded down, or 1 when the capacity cannot be read |
| WipePlan.WritableMegabytes | PurgePoint/WipeManager.swift:127 | `max(available − 2048, 1)`: at least one, and exactly the larger of the two |
| WipePlan.BlockCount | PurgePoint/WipeManager.swift:125-131 | a count exists exactly when the safety buffer is on; it is at least 1, and exactly 1 when the capacity query fails |
| WipePlan.BudgetLeavesHeadroom | PurgePoint/WipeManager.swift:126-128 | with more than 2 GiB + 1 MiB free, the byte budget leaves at least 2 GiB of the volume free |
| WipePlan.DdArguments | PurgePoint/WipeManager.swift:121-129 | the argument list has five operands, or six with a count |
| WipePlan.InputDevice | PurgePoint/WipeManager.swift:121 | the input device is `/dev/urandom` exactly when a secure erase is asked for, and `/dev/zero` exactly when it is not |
| WipePlan.TotalBytes | PurgePoint/WipeManager.swift:125-128 | the byte budget is a whole number of MiB: 0 without a count, otherwise the count in MiB |
| WipePlan.IndexOfEquals | PurgePoint/WipeManager.swift:122 | the position of the first `=` in an operand, or none when there is none |
| WipePlan.SplitOperand | PurgePoint/WipeManager.swift:122 | a `key=value` operand with an `=`-free key reads back as that key and value |
| WipePlan.OperandsOfConcat | PurgePoint/WipeManager.swift:122-129 | reading two argument lists one after the other reads their operands, the later ones winning |
| WipePlan.DdArgumentsRoundTrip | PurgePoint/WipeManager.swift:121-129 | reading back the arguments gives exactly `if=` the input device (`/dev/urandom` for a secure erase, `/dev/zero` otherwise), `of=` the fill file, `bs=32m`, `status=progress` and `oflag=direct`, plus `count=` the block count when there is one |
| WipePlan.CountOperand | PurgePoint/WipeManager.swift:129 | the optional last operand reads back as the block count |
| WipePlan.DdRequestsThirtyTwoTimesBudget | PurgePoint/WipeManager.swift:122-129 | dd is asked for `count` blocks of 32 MiB, 32 times the budget the progress is measured against, and runs unbounded without a count |
| WipePlan.SafetyBufferExample | PurgePoint/WipeManager.swift:125-131 | with 4 GiB free the count is 2048 and dd is asked for 64 GiB; with 1000 MiB free the count is 1 |
| BookmarkTable.Created | PurgePoint/SettingsManager.swift:80-92 | a save creates an entry for exactly the listed URLs whose bookmark can be created, holding that bookmark |
| BookmarkTable.CreatedSnoc | PurgePoint/SettingsManager.swift:80-92 | handling one more URL inserts or overwrites its entry exactly when its bookmark can be created |
| BookmarkTable.Persisted | PurgePoint/SettingsManager.swift:94-99 | each entry is persisted under its URL's `absoluteString`, and every key comes from an entry |
| BookmarkTable.ImageOfInjective | PurgePoint/SettingsManager.swift:95-97 | distinct URLs give distinct keys |
| BookmarkTable.PersistedHasOneKeyPerEntry | PurgePoint/BookmarksManager.swift:26-30 | the persisted dictionary has exactly one key per table entry, and its keys are the entries' `absoluteString`s |
| BookmarkTable.Decode | PurgePoint/SettingsManager.swift:113-118 | the decoded table holds exactly the URLs that some stored key parses to, each with a stored key's data; keys that do not parse are dropped |
| BookmarkTable.ReloadRestoresTable | PurgePoint/SettingsManager.swift:94-118 | saving and then loading gives the same table back, when every saved `absoluteString` parses as its URL |
| BookmarkTable.LoadedEntryIsSaved | PurgePoint/SettingsManager.swift:113-118 | every reloaded entry is the saved entry of the same URL |
| BookmarkTable.SavedEntryIsLoaded | PurgePoint/SettingsManager.swift:113-118 | every saved entry is reloaded |
| BookmarkTable.ListsOnceStep | PurgePoint/WipeManager.swift:26 | visiting one more key keeps the visiting order free of repeats |
| BookmarkTable.VisitStep | PurgePoint/WipeManager.swift:26 | visiting one more of the remaining keys lists it once |
| Settings.SavedUrl | PurgePoint/SettingsManager.swift:77 | the URL a selection is saved under is never `/`, and it is the selection itself for any other path |
| Settings.SavedUrls | PurgePoint/SettingsManager.swift:77 | the remap applied to every selected URL, in order |
| Settings.SavedUrlsAvoidRoot | PurgePoint/SettingsManager.swift:77-87 | no entry a save adds is keyed by `/` |
| Settings.AcceptedPath | PurgePoint/SettingsManager.swift:40-68 | an entry contributes a path exactly when its bookmark resolves, the path exists and is a directory, and scoped access is granted; the path is the reported one and never the data partition |
| Settings.AcceptedPathsStep | PurgePoint/SettingsManager.swift:40-69 | visiting one more entry adds its accepted path, if it has one |
| Settings.RootSelectionReadsBack | PurgePoint/SettingsManager.swift:56-77 | a saved `/` selection resolves and reads back as `/` |
| Settings.SettingsManager.constructor | PurgePoint/SettingsManager.swift:131-145 | the three flags and the selected volumes are read from the store, with false and the empty set as defaults, and then the bookmarks are loaded |
| Settings.SettingsManager.SetUseSecureErase | PurgePoint/SettingsManager.swift:6-11 | the flag takes the new value, which is written under `useSecureErase` and nowhere else |
| Settings.SettingsManager.SetLeaveSafetyBuffer | PurgePoint/SettingsManager.swift:13-18 | the flag takes the new value, which is written under `leaveSafetyBuffer` and nowhere else |
| Settings.SettingsManager.SetTestMode | PurgePoint/SettingsManager.swift:20-25 | the flag takes the new value, which is written under `testMode` and nowhere else |
| Settings.SettingsManager.SetSelectedVolumes | PurgePoint/SettingsManager.swift:27-32 | the selection takes the new value, which is written under `selectedVolumes` and nowhere else |
| Settings.SettingsManager.ResolvedVolumePaths | PurgePoint/SettingsManager.swift:37-73 | the result is exactly the accepted paths of the table's entries, and never holds the data partition |
| Settings.SettingsManager.SaveVolumeBookmarks | PurgePoint/SettingsManager.swift:75-104 | the table gains or overwrites the entries of the remapped URLs whose bookmark can be created and keeps all others; no new entry is `/`; the whole table is persisted under `volumeBookmarks` |
| Settings.SettingsManager.AddBookmarks | PurgePoint/SettingsManager.swift:80-92 | the save loop adds exactly the entries `Created` describes on top of the old table |
| Settings.SettingsManager.LoadVolumeBookmarks | PurgePoint/SettingsManager.swift:106-123 | missing or undecodable data leaves the table unchanged; otherwise the table is decoded from the stored dictionary |
| Settings.SettingsManager.ClearVolumeBookmarks | PurgePoint/SettingsManager.swift:125-129 | the table is empty and its stored copy removed, with every other key kept |
| Bookmarks.ScopedPath | PurgePoint/BookmarksManager.swift:57-73 | an entry contributes a path exactly when its bookmark resolves and scoped access is granted, with no existence check; the path is the resolved one |
| Bookmarks.ScopedPathsStep | PurgePoint/BookmarksManager.swift:54-77 | visiting one more entry adds its path, if it has one |
| Bookmarks.EnumeratesStep | PurgePoint/BookmarksManager.swift:36-52 | visiting one more entry lists it with its resolved URL exactly when it resolves |
| Bookmarks.BookmarksManager.constructor | PurgePoint/BookmarksManager.swift:8-10 | the table starts empty and is loaded from the store |
| Bookmarks.BookmarksManager.Save | PurgePoint/BookmarksManager.swift:12-34 | each URL whose bookmark can be created is inserted or overwritten, others stay, nothing is remapped, and the table is persisted under `BookmarkStorage` |
| Bookmarks.BookmarksManager.StoredBookmarkURLs | PurgePoint/BookmarksManager.swift:36-52 | one resolved URL per entry that resolves, each entry once, failures dropped, so never more URLs than entries |
| Bookmarks.BookmarksManager.ResolvedVolumePaths | PurgePoint/BookmarksManager.swift:54-77 | the result is exactly the set of scoped paths of the entries, so duplicates collapse |
| Bookmarks.BookmarksManager.Load | PurgePoint/BookmarksManager.swift:79-91 | missing or undecodable data leaves the table unchanged; otherwise keys that do not parse are dropped |
| Bookmarks.ScopedPathsAreStoredUrls | PurgePoint/BookmarksManager.swift:36-77 | every path `resolvedVolumePaths()` reports is the path of a URL `storedBookmarkURLs()` lists |
| Wipe.TargetFor | PurgePoint/WipeManager.swift:36-44 | a bookmark resolving to `/` is queued as the data partition with display `/`; any other keeps its URL and is displayed by its last component; no queued URL is `/` |
| Wipe.Delivered | PurgePoint/WipeManager.swift:140-160 | the handler sees a prefix of dd's output, and all of it when nobody cancels |
| Wipe.OutputEntries | PurgePoint/WipeManager.swift:140-145 | dd's output adds only verbatim output entries, at most one per chunk |
| Wipe.OutputEntriesStep | PurgePoint/WipeManager.swift:140-145 | one more chunk adds its own entry, if it is non-empty text |
| Wipe.RenderConcat | PurgePoint/WipeManager.swift:174-176 | the log text of two runs of entries is the concatenation of their texts |
| Wipe.RenderSnoc | PurgePoint/WipeManager.swift:174-176 | one more entry appends its text |
| Wipe.Messages | PurgePoint/WipeManager.swift:47 | one line per failure entry |
| Wipe.Message | PurgePoint/WipeManager.swift:47-170 | every log line starts with the prefix of its own kind (resolve failure, scope warning, folder failure, launch failure, completion), so the kind can be read back from the line |
| Wipe.PrefixesExclusive | PurgePoint/WipeManager.swift:47-170 | no line starts with two different message prefixes |
| Wipe.MessagesRender | PurgePoint/WipeManager.swift:174-176 | appending the failure messages one `appendLog` at a time renders exactly those entries |
| Wipe.CountConcat | PurgePoint/WipeManager.swift:68-84 | counting over two runs of entries adds up |
| Wipe.RunStep | PurgePoint/WipeManager.swift:68-84 | one more queued volume extends the requests, the log, the progress and the process by that volume's own |
| Wipe.LaunchedCount | PurgePoint/WipeManager.swift:157-161 | the number of volumes on which dd started, never more than the volumes visited |
| Wipe.QueueStep | PurgePoint/WipeManager.swift:26-49 | visiting one more bookmark extends the queue or the failure lines by that bookmark's contribution |
| Wipe.ResolveFailures | PurgePoint/WipeManager.swift:46-48 | the resolution phase logs only resolution failures |
| Wipe.ResolvingStep | PurgePoint/WipeManager.swift:26-49 | the resolution loop's account is kept by one more visit |
| Wipe.QueueTargets | PurgePoint/WipeManager.swift:26-44 | never more queued targets than visited bookmarks, and each target is `TargetFor` the resolution of a visited bookmark that resolved |
| Wipe.QueuedFromStep | PurgePoint/WipeManager.swift:26-44 | visiting one more bookmark keeps every earlier target's origin, and its own entry comes from it |
| Wipe.AssemblyEffects | PurgePoint/WipeManager.swift:117-131 | while dd is assembled, the only launch requested is `/bin/dd` with this volume's arguments, and a capacity query happens only with the buffer on, for the working root |
| Wipe.DdRunEffects | PurgePoint/WipeManager.swift:157-169 | once dd is assembled, only terminations and removals are requested |
| Wipe.WipeEffects | PurgePoint/WipeManager.swift:96-171 | `doWipe` first asks to create the fill folder; any dd launch it requests uses this volume's arguments; any capacity query is for the working root, with the buffer on |
| Wipe.WipeLog | PurgePoint/WipeManager.swift:108-170 | `doWipe` logs only dd's output before one final outcome line, and that line is the completion exactly when dd started |
| Wipe.WipeManager.constructor | PurgePoint/WipeManager.swift:13-18 | not wiping, progress 0, empty log, no process |
| Wipe.WipeManager.AppendLog | PurgePoint/WipeManager.swift:174-176 | the message and a newline are appended to the log |
| Wipe.WipeManager.HandleOutput | PurgePoint/WipeManager.swift:140-154 | non-empty UTF-8 text is appended verbatim, and the progress becomes `NextProgress` of the chunk |
| Wipe.WipeManager.CancelWipe | PurgePoint/WipeManager.swift:209-213 | on a process that was never launched, `terminate()` traps: this is reported and nothing changes; otherwise a held process is marked terminated with one terminate request, no process means no request, and the wiping flag is cleared |
| Wipe.WipeManager.FollowOutput | PurgePoint/WipeManager.swift:140-155 | following dd's output chunk by chunk appends their entries' text and leaves the progress that `ProgressAfter` describes |
| Wipe.WipeManager.FollowDd | PurgePoint/WipeManager.swift:157-170 | the held process is launched; after dd's output (and a terminate on cancel), both removals are requested and the completion line is logged, whatever dd's exit status |
| Wipe.WipeManager.AssembleDd | PurgePoint/WipeManager.swift:117-131 | the capacity is queried only with the safety buffer on; `task` holds a new, not yet launched process with `/bin/dd` and the argument list; the budget is the block count in MiB |
| Wipe.WipeManager.LaunchDd | PurgePoint/WipeManager.swift:117-170 | once the folder exists: the assembly requests, then the cleanup only if dd starts; a failed start logs its line and leaves the process unlaunched in `task` |
| Wipe.WipeManager.DoWipe | PurgePoint/WipeManager.swift:96-171 | the requests, log, progress, wiping flag and process after one volume are the ones `WipeEffects`, `WipeLog`, `WipeProgress` and `WipeTask` describe |
| Wipe.WipeManager.VisitVolume | PurgePoint/WipeManager.swift:70-84 | scoped access around `doWipe`: the warning when it is refused, and the release only when it was granted |
| Wipe.WipeManager.RunQueue | PurgePoint/WipeManager.swift:65-85 | every queued volume is visited in order; the run's requests and log are the volumes' concatenated; the wiping flag is cleared once some volume was cancelled |
| Wipe.WipeManager.DeliverBacklog | PurgePoint/WipeManager.swift:174-176 | the queued log lines are appended in order, each with a newline |
| Wipe.WipeManager.BeginRun | PurgePoint/WipeManager.swift:60-62 | the run starts with `isWiping` set, progress 0 and an empty log, followed by the backlog |
| Wipe.WipeManager.StartWiping | PurgePoint/WipeManager.swift:58-93 | the log is the backlog followed by the run's log; the run's requests are made in order; afterwards `isWiping` is false and progress is 0 |
| Wipe.WipeManager.ResolveBookmarks | PurgePoint/WipeManager.swift:24-49 | every saved bookmark is visited once; the queue and the failure lines are what the bookmarks contribute in that order |
| Wipe.WipeManager.OverwriteFreeSpace | PurgePoint/WipeManager.swift:21-55 | the log is the resolution failures followed by the run over the queue built from the saved bookmarks; the run ends with `isWiping` false and progress 0 |
| WipeProperties.Outcome | PurgePoint/WipeManager.swift:113-170 | the line that ends a volume is an outcome line, and it is the completion exactly when dd was started |
| WipeProperties.WipeLogEndsWithOutcome | PurgePoint/WipeManager.swift:108-170 | `doWipe` logs dd's output only when dd ran, then exactly one outcome line; a cancelled run still ends with "Overwrite complete" |
| WipeProperties.WipeCount | PurgePoint/WipeManager.swift:108-170 | a count that ignores dd's output sees only the outcome line |
| WipeProperties.VolumeCount | PurgePoint/WipeManager.swift:70-84 | a count that ignores dd's output and the scope warning sees only the volume's outcome line |
| WipeProperties.OneOutcomePerVolume | PurgePoint/WipeManager.swift:68-84 | each queued volume ends with exactly one outcome line, whatever fails and whenever the user cancels: no volume stops the loop |
| WipeProperties.CompletionsCountLaunched | PurgePoint/WipeManager.swift:157-170 | an "Overwrite complete" line is logged exactly once for each volume on which dd started |
| WipeProperties.Accessed | PurgePoint/WipeManager.swift:73 | the URLs whose scope was requested, never more than the requests |
| WipeProperties.AccessedConcat | PurgePoint/WipeManager.swift:68-84 | the scope requests of two runs of requests are concatenated |
| WipeProperties.AccessedNone | PurgePoint/WipeManager.swift:96-171 | requests that touch no scope contribute no scope request |
| WipeProperties.KeepsScopeConcat | PurgePoint/WipeManager.swift:96-171 | two runs of requests that touch no scope together touch none |
| WipeProperties.WipeEffectsKeepScope | PurgePoint/WipeManager.swift:96-171 | `doWipe` never requests or releases a scope |
| WipeProperties.ScopeReleasedIffGranted | PurgePoint/WipeManager.swift:72-83 | scope is requested first, and released, as the volume's last request, exactly when it was granted |
| WipeProperties.WarningIffRefused | PurgePoint/WipeManager.swift:72-83 | the scope warning is logged exactly when access was refused, and the wipe is still attempted: the fill folder is requested right after the scope, and the volume ends with its outcome line |
| WipeProperties.VolumeAccessesItsUrl | PurgePoint/WipeManager.swift:68-84 | one volume requests scope for its own URL and no other |
| WipeProperties.EveryTargetVisitedInOrder | PurgePoint/WipeManager.swift:68-84 | the scope requests of a run are the queued URLs, in queue order, once each |
| WipeProperties.FolderBeforeDd | PurgePoint/WipeManager.swift:108-122 | `doWipe` first creates the fill folder, and assembles dd exactly when the folder was created |
| WipeProperties.CleanupOnlyAfterLaunch | PurgePoint/WipeManager.swift:157-169 | the fill file and folder are removed, as the last two requests, exactly when dd started; a launch failure leaves them |
| WipeProperties.CancelTrapsAfterWipe | PurgePoint/WipeManager.swift:119-164 | after one volume, a cancel traps exactly when the folder was created and dd failed to start; when the folder failed, exactly when it would have before |
| WipeProperties.CancelTrapsAfterRun | PurgePoint/WipeManager.swift:65-85 | after a whole run, a cancel traps exactly when the last volume that got a folder failed to launch dd, or, with no such volume, when it would have before the run |
| WipeProperties.NothingRemovedBeforeRun | PurgePoint/WipeManager.swift:108-133 | nothing is removed before dd has run |
| WipeProperties.LaunchedEffects | PurgePoint/WipeManager.swift:157-169 | once dd started, the cleanup (after a terminate on cancel) follows the assembly |
| WipeProperties.TerminateOnlyOnCancel | PurgePoint/WipeManager.swift:157-169 | dd is terminated exactly when the user cancelled while it ran, and before the cleanup |
| WipeProperties.FillStaysInsideVolume | PurgePoint/WipeManager.swift:99-169 | everything `doWipe` creates or removes lies strictly inside the queued volume and its working root, never at the data partition's top |
| WipeProperties.FilesystemPaths | PurgePoint/WipeManager.swift:105-169 | the only paths created or removed are the fill folder and the fill file |
| WipeProperties.FillPathsInsideVolume | PurgePoint/WipeManager.swift:99-106 | the fill folder and file lie strictly inside the volume and its working root, and neither is the data partition's top |
| WipeProperties.PrefixTransitive | PurgePoint/WipeManager.swift:101-106 | a path inside a path inside another lies inside the other |
| WipeProperties.ProgressCarriesOver | PurgePoint/WipeManager.swift:140-154 | a volume whose output carries no byte count, or that has no budget, leaves the previous volume's progress in place |
| WipeProperties.RunProgressInRange | PurgePoint/WipeManager.swift:152 | across the whole queue the progress value stays within 0…100 |
| WipeProperties.NoBufferNoProgress | PurgePoint/WipeManager.swift:125-150 | without the safety buffer the progress value never moves during a run |
| WipeProperties.QueueAccounting | PurgePoint/WipeManager.swift:26-49 | every visited bookmark either joins the queue or leaves one failure line |
| WipeProperties.EveryBookmarkCounted | PurgePoint/WipeManager.swift:26-49 | the queue length plus the failure lines equal the number of saved bookmarks |
| WipeProperties.BookmarkAccountedFor | PurgePoint/WipeManager.swift:26-48 | a resolving bookmark is queued as its target; a failing one leaves a line naming its saved path and the error |
| WipeProperties.QueuedTargetsAvoidRoot | PurgePoint/WipeManager.swift:37-44 | no queued volume is `/` |

## Left out

- Concurrency. The background queue, the main-queue hops of `appendLog` and
  the output handler, and the readability handler's thread are not modelled.
  Work handed to the main queue is applied in the order it was queued. The
  handler is applied to dd's chunks in order, before dd's exit is observed.
- Wipe.WipeManager.CancelWipe: during a run the model places a cancel only
  between dd's output chunks. A cancel between volumes, before the folder
  exists, or in the window between lines 119 and 159 while the process is
  assembled is not modelled. In that window `task` already holds the new,
  unlaunched process, so such a cancel traps. Between volumes it terminates
  the previous volume's process again, or traps when that one never launched.
  `CancelWipe` itself models the trap on an unlaunched process, and
  `CancelTrapsAfterRun` says when one is left behind after a run.
- Progress.FindMatch: the digit table follows Unicode 15.0. The ICU version
  of the running system may list a few more or fewer digit runs.
- Settings changed during a run. `useSecureErase` and `leaveSafetyBuffer` are
  read once per run; in the source they are read again for each volume.
- Processes, pipes and the file system. dd's launch outcome and its output are
  inputs. The removals' outcome is ignored, as in the source.
- Floating point. `wipeProgress` is a `real`, and `Double` rounding is not
  modelled.
- URLs are identified by their path. Percent-encoding, `file://` parsing and
  URL equality beyond the path are not modelled. `URL(string:)` is an oracle.
- Property-list encoding and decoding. The store holds either a decodable
  dictionary or undecodable bytes. Encoding is assumed to succeed, so its
  `catch` branch is not modelled.
- `print`, `sendCompletionNotification` and `currentFreeSpaceInGB` are not
  modelled: console output, a notification, and floating-point display
  formatting.
- The bookmarks' staleness flag is ignored, as the source ignores it.
- Settings.SettingsManager.ResolvedVolumePaths: the scoped access it obtains
  is never released. The model records the grant through the oracle but does
  not track it.
- Bookmarks.BookmarksManager.StoredBookmarkURLs: a `compactMap` over the
  dictionary, whose order the source leaves open. It is a method that picks
  the order and returns it as a ghost sequence.
- The UI is not part of this model. This includes the volume picker's remap,
  which repeats `SelectablePath`, and the empty-selection alert.
