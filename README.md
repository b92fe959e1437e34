# TechnicalSketcher, modelled in Dafny

TechnicalSketcher is a small desktop program for drawing technical sketches out of lines,
strips, circles and arcs on layers. The program exists in several generations that share one
repository: an Allegro front end (`TechnicalSketcher-Allegro/`), an ImGui front end
(`src/`, `include/`) and a newer front end built on a home-made standard library
(`src/shared/`, `src/app/`). Three updaters replace the installed program with a newer release.

This project models the logic at the heart of these parts and proves what it promises:

- **Updaters** (`updater_py`, `updater_legacy`, `updater_native`, `disk`). The installation is a
  class `Disk` holding a map from directory to a set of entry names. Every move or delete may fail
  through a fault oracle, and a failed tree removal may stop partway, leaving any part of the tree. The model follows the commit flag, the rollback and the best-effort
  cleanup of the Python updaters. It also follows the status phases, the release lookup and the
  download retries of the native updater.
- **Home-made standard library** (`tinystd_*`, `std_arena`, `hex_color`). This covers arenas
  with chunk lists, the linked list, string find/substr/startsWith/endsWith, the string buffer,
  the brace-escaping formatter and hexadecimal colours. `src/shared/std.cpp` and
  `src/shared/std.h` repeat much of `TinyStd.hpp`, so each such operation is defined once.
- **Utilities** (`utils`, `components`, `decimal`). This covers `mapInt`, the split helpers, file
  extensions, character classes, the class-string parser and the UI cache stacks.
- **Layers and documents** (`allegro_layer`, `allegro_layer_list`, `allegro_sketch_file`,
  `src_layer_state`, `src_layer`, `src_layer_list`, `file_content`, `tsk_document`,
  `layer_names`, `json`). These are layer lists with order, selection and unique names, and shape
  layers with id counters. They include undo snapshots, where every copy of a shape takes a fresh id, and all-or-nothing loading.
- **Selection, settings, shape ids** (`selection_handler`, `settings`, `shape_id`).
- **Front ends** (`engine`, `application_logic`, `navigator`, `tools`). These are the event
  handlers of the Allegro engine and application, the navigator's line preview, and the state
  machines of the line, line-strip, circle and arc tools.

Each entity that the source updates in place is a `class` whose methods state its whole new
state. Values are datatypes. Floating-point numbers are `real`. A fixed-width integer is written
out explicitly where its wrap-around matters. Distances, JSON parsing, file and network access
are function parameters of the model.

## Model

| member | source | states |
|---|---|---|
| PythonUpdater.FirstLine | PythonModules/updater.py:258-264 | the line `readlines()[0]` gives: a prefix of the (newline-translated) text with no line break before its last character, ending in the newline unless it is the whole text |
| PythonUpdater.UniversalNewlines | PythonModules/updater.py:261-262 | text-mode reading: no carriage return is left, the text never grows, and text without one is unchanged |
| PythonUpdater.VersionLineEndings | PythonModules/updater.py:261-262 | "7\r\n8" and "7\r" both read as the version "7\n" |
| PythonUpdater.InstalledVersion | PythonModules/updater.py:256-264 | a missing `version` file reads as ""; an existing one as the first line of its text-mode reading, which holds no carriage return |
| PythonUpdater.ReplaceBinary | PythonModules/updater.py:122-127 | on success the staged binary left `update/` and sits in the root, and the live one was kept under its `_outdated` name; on failure only the root may have changed, and no live binary is lost |
| PythonUpdater.SwapBinaries | PythonModules/updater.py:117-139 | without both staged binaries nothing changes; a success leaves the swapped root; a failure leaves every live binary under its own or its backup name, and when the restore ran through both live binaries are back and no backup is left |
| PythonUpdater.RestoreBinaries | PythonModules/updater.py:129-135 | the updater comes back exactly when its backup exists and the move works; if it does not, nothing changes and the uninstaller is not tried; otherwise the uninstaller comes back exactly when its move works, and the root becomes RestoredRoot |
| PythonUpdater.RestoredRoot | PythonModules/updater.py:129-135 | the updater is back and its backup gone; the uninstaller too when both moves worked, otherwise as it was; every other root entry is kept |
| PythonUpdater.Recover | PythonModules/updater.py:146-160 | a success empties `latest/`, moves the whole rotated payload back into it and drops `outdated/`; in every case no rotated entry is lost |
| PythonUpdater.ReturnOutdated | PythonModules/updater.py:155-157 | a success moves the whole of `outdated/` into `latest/` and removes it, exactly when no call failed; otherwise `latest/` only gained and no entry of `outdated/` is lost |
| PythonUpdater.EmptyLatest | PythonModules/updater.py:150-154 | a success leaves `latest/` existing and empty with everything else as it was; a failure changes nothing but `latest/` |
| PythonUpdater.MoveStaged | PythonModules/updater.py:103-112 | on success `latest/` holds exactly what `update/latest/` held, and `update/`, the root and the binaries are untouched; only `latest/` and `update/latest/` change |
| PythonUpdater.InstallNewFiles | PythonModules/updater.py:103-139 | on success `latest/` holds exactly the staged payload and the binaries are swapped when both were staged; only the listed directories change |
| PythonUpdater.InstallOrRecover | PythonModules/updater.py:99-160 | after the rotation: Applied installs the staged payload, leaving `outdated/` alone; Recovered puts the rotated payload back and drops `outdated/`; no rotated entry is lost |
| PythonUpdater.UpdateApplication | PythonModules/updater.py:57-162 | Applied means `latest/` is the staged payload and `outdated/` the old one; Recovered means `latest/` is back as before; with no `outdated/` the run aborts before the rotation exactly when a call of the rotation fails, and then the rotation stopped at that call; no installed entry is lost |
| PythonUpdater.RotationFaultThenNextRun | PythonModules/updater.py:79-199 | as written: one failing move in the rotation of {a, b}, then the next run's purge, leaves only one of the two entries |
| PythonUpdater.UpdateApplicationUndoingRotation | PythonModules/updater.py:57-162 | corrected: a failed rotation is moved back, so with one failing call `outdated/` is gone and `latest/` is as before |
| PythonUpdater.RotationFaultUndone | PythonModules/updater.py:79-199 | corrected, on the same run: both entries are still there after the next run's purge |
| Disk.RotateForUpdate | PythonModules/updater.py:62-99 | a success leaves `latest/` empty with its old entries in `outdated/` (no `outdated/` when there was no `latest/`); only those two change; no installed entry is lost |
| PythonUpdater.DeleteOutdatedFiles | PythonModules/updater.py:165-199 | the process exits only when the purge of `outdated/` fails, and then `outdated/` shrank with its `.exe` files gone before anything else; with no failing call it does not exit; otherwise `outdated/` is gone and at most the two `_outdated` binaries left the root |
| PythonUpdater.DeleteFiles | PythonModules/updater.py:202-221 | the staging tree only loses entries (a failed `rmtree` may stop halfway); with a working first call it is gone; the archive is the only root entry that may disappear |
| PythonUpdater.DownloadUpdate | PythonModules/updater.py:29-42 | success needs the asset and adds exactly the archive to the root; failure changes nothing |
| PythonUpdater.UnzipUpdate | PythonModules/updater.py:44-55 | success needs the archive and adds the payload to `update/latest/`, touching only `update/`; failure changes nothing |
| PythonUpdater.RunScript | PythonModules/updater.py:249-315 | no lock or no release means exit -1; the version file changes only to the release tag after a complete update, which also leaves the staged payload in `latest/`; an equal version leaves `latest/` alone |
| LegacyUpdater.SwapBinaries | ApplicationUpdater/updater.py:88-91 | a success renames both live binaries to their `_outdated` names and moves both staged copies into place |
| LegacyUpdater.Install | ApplicationUpdater/updater.py:76-97 | a success adds the whole of `update/app/` to `latest/`, swaps the binaries when both were staged, and removes `update/` |
| LegacyUpdater.InstallApp | ApplicationUpdater/updater.py:76-81 | a success moves the whole of `update/app/` into `latest/` and removes it; `latest/` never loses an entry and only gains staged ones |
| LegacyUpdater.FinishStaging | ApplicationUpdater/updater.py:85-97 | a success leaves no staging tree, with the binaries swapped when both were staged and the root unchanged otherwise |
| LegacyUpdater.ReturnOutdated | ApplicationUpdater/updater.py:102-108 | a success leaves `latest/` holding its old entries and all of `outdated/`, which is left empty; only those two change, and neither loses an entry overall |
| LegacyUpdater.Revert | ApplicationUpdater/updater.py:99-118 | `outdated/` is emptied into `latest/` (which keeps what it had), and the binaries are restored only when both backups exist |
| LegacyUpdater.RestoreBinaries | ApplicationUpdater/updater.py:111-114 | with both backups a success puts both binaries back and drops the backups; without both nothing changes; only the root may change |
| LegacyUpdater.UpdateApplication | ApplicationUpdater/updater.py:51-122 | a success rotates the old payload into `outdated/` and installs the staged one; a revert leaves `outdated/` empty; a failing rotation call makes the outcome Failed with the rotation stopped there; no installed entry is lost |
| LegacyUpdater.FailedRotationThenCleanup | ApplicationUpdater/updater.py:51-138 | as written: one failing move in the rotation of {a, b}, then `deleteFiles`, leaves only one of the two entries |
| LegacyUpdater.UpdateThenGuardedCleanup | ApplicationUpdater/updater.py:172-176 | corrected: `outdated/` is purged only after Updated or Reverted, so after any other outcome the installed payload is still in `latest/` or `outdated/` |
| LegacyUpdater.FailedRotationKept | ApplicationUpdater/updater.py:172-176 | corrected, on the same run: both entries are kept |
| LegacyUpdater.DeleteFiles | ApplicationUpdater/updater.py:125-149 | a kept `outdated/` only shrank, with its `.exe` files gone before anything else; with no failing call it is gone; the archive is the only root entry that may disappear |
| LegacyUpdater.DownloadUpdate | ApplicationUpdater/updater.py:26-38 | only the root may change, and the archive is the only entry it may gain (only when the asset exists); failures are only printed |
| LegacyUpdater.RunScript | ApplicationUpdater/updater.py:157-182 | the four steps run, in order, exactly when a release tag was read and differs from the installed version, and only then is there an outcome; Updated leaves no staging and `latest/` between the staged app and it plus the downloaded payload; Reverted keeps the old `latest/` |
| NativeUpdater.LatestRelease | src/Updater.cpp:35-76 | at most eleven requests; every request before the last failed to connect, and a failed last one means the attempts ran out; a non-empty tag comes only from that connection, exactly when it names both a tag and a link |
| NativeUpdater.DownloadAsWritten | src/Updater.cpp:78-101 | as written: only the innermost retry can report failure |
| NativeUpdater.DownloadAsWrittenIgnoresFailures | src/Updater.cpp:78-101 | with every attempt failing, the top-level call still reports success, where the retry that returns its result reports failure |
| NativeUpdater.DownloadWithRetry | src/Updater.cpp:78-101 | true exactly when one of the remaining attempts works |
| NativeUpdater.MoveTarget | src/Updater.cpp:220-229 | the k-th target is `outdated/` followed by k times `temp/` |
| NativeUpdater.MoveInstallToOutdated | src/Updater.cpp:220-229 | the targets tried are the first ones in order, at most ten; it stops at the first that works, and it moved iff one worked |
| NativeUpdater.UpdateMonitor.InstallPhase | src/Updater.cpp:216-283 | ends in DONE after the new files were moved in, or in FAILED after emptying the install directory, moving `outdated/` (whatever target the install used) back and cleaning up; statuses stay in order |
| NativeUpdater.UpdateMonitor.UpdatePhase | src/Updater.cpp:186-283 | DONE only after a working download (with the corrected retry), extraction, an existing install directory and the move of the new files; otherwise FAILED with the right clean-up |
| NativeUpdater.UpdateMonitor.RunUpdater | src/Updater.cpp:108-283 | no status change and no download from `outdated/`, without the lock, without a tag, or when up to date; otherwise the update phase's outcome (corrected download retry, see Findings) |
| Disk.Disk.MoveAll | PythonModules/updater.py:79-89 | whatever the listing order and wherever a move fails, every entry that left the source arrived in the target, and no other directory changed |
| Disk.Disk.Rmtree | PythonModules/updater.py:72 | works exactly when the directory exists and the call does not fail, and then removes its whole tree; a failure may have removed any part of the tree and nothing outside it |
| Disk.Disk.RotateLatest | PythonModules/updater.py:79-97 | on success `outdated/` holds the old `latest/` and `latest/` is empty; on failure no entry of `latest/` is lost |
| Disk.Disk.PurgeOutdated | PythonModules/updater.py:63-76 | success removes `outdated/`; a failure leaves `outdated/` a subset of what it was, with every `.exe` gone before any other entry, and changes nothing else; success exactly when no call failed |
| Disk.Disk.ExtractArchive | PythonModules/updater.py:44-55 | the archive's files land in `update/`, its payload folder in the chosen folder; failure changes nothing |
| TinyString.FindLastStartAsWritten | src/shared/TinyStd.hpp:2507-2518 | as written, the loop bound `length - delimiter.length` is exact for a delimiter that fits and wraps to a value near 2^64 for a longer one |
| TinyString.FindAsWrittenReadsPastEnd | src/shared/TinyStd.hpp:2507-2518 | with a delimiter longer than the string, the first `memcmp` runs past the end of the string |
| TinyString.Find | src/shared/TinyStd.hpp:2507-2518 | the result is the first index at or after `start` where the delimiter occurs; npos exactly for an empty delimiter, a start at or past the end, or no occurrence |
| TinyString.SubstrAsWritten | src/shared/TinyStd.hpp:2521-2532 | as written: empty past the end, clamped when the `size_t` sum exceeds the length, and otherwise `count` characters even when the sum wrapped |
| TinyString.SubstrAsWrittenOverruns | src/shared/TinyStd.hpp:2521-2532 | `"abcdef".substr(3, 2^64 - 2)` yields a view that reaches past the end of the string |
| TinyString.Substr | src/shared/TinyStd.hpp:2521-2532 | empty at or past the end; otherwise the text at `start`, at most `count` long, and cut short only by the end of the string |
| TinyString.StartsWith | src/shared/TinyStd.hpp:2557-2568 | true exactly when the other string is a prefix |
| TinyString.EndsWith | src/shared/TinyStd.hpp:2571-2582 | true exactly when the other string is a suffix (false when it is longer) |
| TinyString.Equals | src/shared/TinyStd.hpp:2619-2625 | equal length and equal bytes is string equality |
| TinyString.StringBuffer.Clone | src/shared/TinyStd.hpp:2651-2659 | the copy holds the text and reserves twice its length |
| TinyString.StringBuffer.Enlarge | src/shared/TinyStd.hpp:2714-2725 | keeps the text; an empty buffer reserves max(8, 2 needed), a used one max(2 capacity, 2 needed) |
| TinyString.StringBuffer.AppendChar | src/shared/TinyStd.hpp:2675-2694 | the character is appended, and the capacity stays when it fitted |
| TinyString.StringBuffer.AppendString | src/shared/TinyStd.hpp:2675-2694 | the text is appended, and the capacity stays when it fitted |
| TinyString.StringBuffer.FindUntil | src/shared/TinyStd.hpp:2696-2712 | the result is the text from `skip` up to the first occurrence of the criteria after it, or to the end |
| TinyArena.BufferCapacity | src/shared/TinyStd.hpp:2426-2442 | a buffer no larger than a chunk header panics; otherwise the chunk gets what remains after the header |
| TinyArena.TotalUsedBumpLast | src/shared/TinyStd.hpp:1193-1215 | bumping the last chunk by n bytes hands out n bytes more in total |
| TinyArena.Arena.Create | src/shared/TinyStd.hpp:2411-2424 | one empty heap chunk of the requested size |
| TinyArena.Arena.FromBuffer | src/shared/TinyStd.hpp:2426-2442 | one empty chunk over the caller's buffer, marked as a stack arena |
| TinyArena.Arena.Enlarge | src/shared/TinyStd.hpp:2445-2461 | appends an empty chunk exactly when the arena is initialised and not a stack arena; otherwise nothing changes |
| TinyArena.Arena.Allocate | src/shared/TinyStd.hpp:1193-1215 | succeeds exactly when initialised and not a full stack arena; the bytes come from the last chunk, after a new chunk of max(16 MiB, size) when it was too full; exactly `size` more bytes are handed out |
| TinyArena.Arena.Free | src/shared/TinyStd.hpp:2464-2475 | every chunk released and the arena uninitialised |
| TinyArena.Arena.ClearAndReinit | src/shared/TinyStd.hpp:2478-2495 | an uninitialised arena is created afresh with the default size; otherwise only the first chunk stays, emptied; nothing is handed out afterwards |
| TinyArena.Concat | src/shared/TinyStd.hpp:2498-2504 | the result is the two strings joined, in `a.length + b.length + 1` fresh bytes; a failed allocation changes nothing |
| TinyArena.CStr | src/shared/TinyStd.hpp:2550-2554 | the string followed by a NUL, in `length + 1` fresh bytes |
| TinyList.List.Get | src/shared/TinyStd.hpp:1571-1581 | the element at the index, and a panic (None) exactly when the index is out of range |
| TinyList.List.Push | src/shared/TinyStd.hpp:1510-1524 | appends at the tail and counts it; the new element is found at the old length |
| TinyList.List.Pop | src/shared/TinyStd.hpp:1532-1551 | panics on an empty list; otherwise removes exactly the last element and decrements the length |
| TinyList.List.RemoveIf | src/shared/TinyStd.hpp:1553-1569 | the list becomes the non-matching elements in order, and the length drops by the number of matches |
| TinyList.KeptExactly | src/shared/TinyStd.hpp:1553-1569 | an element survives `remove_if` iff it was there and does not match, and one element goes per match |
| TinyList.KeptIsSubsequence | src/shared/TinyStd.hpp:1553-1569 | the survivors keep their order: they are embedded in the original by increasing indices |
| TinyList.List.Reverse | src/shared/TinyStd.hpp:1618-1631 | a fresh list whose items are the elements in reverse order |
| TinyList.ReversedAt | src/shared/TinyStd.hpp:1618-1631 | position k of the reversed list holds the k-th element from the end |
| TinyList.ReversedTwice | src/shared/TinyStd.hpp:1618-1631 | reversing twice gives the list back |
| TinyFormat.EscapeRoundTrip | src/shared/TinyStd.hpp:1967-2006 | a template made by doubling every brace of a text expands back to that text |
| TinyFormat.EscapedPrefix | src/shared/TinyStd.hpp:1967-2006 | an escaped prefix comes out literally, ahead of whatever follows |
| TinyFormat.PlaceholderFilled | src/shared/TinyStd.hpp:1967-2006 | `{}` between two escaped texts is replaced by the argument's text |
| TinyFormat.CopiedLengthAsWritten | src/shared/TinyStd.hpp:1873-1884 | as written, the `String` formatter reports the whole text length whatever room was left |
| TinyFormat.CopiedLengthOverrunsBuffer | src/shared/TinyStd.hpp:1873-1884 | with MaxSize 4, `format("{}", "hello")` ends with a buffer length of 5, past the buffer |
| TinyFormat.CopiedLength | src/shared/TinyStd.hpp:1873-1884 | the corrected length is what was copied: the text, or the room left when that is smaller |
| TinyFormat.PrintedLength | src/shared/TinyStd.hpp:1795-1802 | `vsnprintf` keeps one byte for the NUL: at most `remaining - 1` characters, nothing when no room is left |
| TinyFormat.ArgLength | src/shared/TinyStd.hpp:1943-1956 | an argument never adds more than the room left, and an argument that fits is added whole |
| TinyFormat.Put | src/shared/TinyStd.hpp:1958-1965 | a character is appended while the buffer is below MaxSize and dropped once it is full |
| TinyFormat.FormatStep | src/shared/TinyStd.hpp:1978-2002 | one pass of the loop moves past at least one template character, keeps the buffer within MaxSize, and while the expansion fits leaves the buffer plus the rest of the expansion unchanged |
| TinyFormat.Format | src/shared/TinyStd.hpp:1967-2006 | the result never exceeds MaxSize, and it is exactly the expansion of the template whenever that is shorter than MaxSize |
| HexColor.HexDigit | src/shared/TinyStd.hpp:2877-2889 | a hex digit of either case reads as its value below 16; any other character reads as 0 |
| HexColor.HexDigitOfHexChar | src/shared/TinyStd.hpp:2877-2889 | every value below 16 is read back from the digit printed for it |
| HexColor.HexCharOfHexDigit | src/app/components.cpp:50-64 | every hex digit prints back as itself, folded to upper case |
| HexColor.HexToColor | src/shared/TinyStd.hpp:2891-2920 | lengths other than 4, 5, 7, 9 give transparent black; the forms without alpha get alpha 255 |
| HexColor.ShortFormDoubles | src/app/components.cpp:66-99 | `#rgb` and `#rgba` mean their long forms with every digit doubled |
| HexColor.LongFormReadsPairs | src/shared/TinyStd.hpp:2891-2920 | in `#rrggbb` each channel is the value of its digit pair, most significant first, with alpha 255 |
| HexColor.ColorToHex | src/shared/TinyStd.hpp:2922-2925 | `#` and eight hex digits |
| HexColor.ColorRoundTrip | src/shared/TinyStd.hpp:2922-2925 | parsing the text `colorToHex` prints gives the colour back |
| StdArena.ChunkedArena.Create | src/shared/std.h:25-40 | one zeroed chunk that is its own last chunk |
| StdArena.ChunkedArena.Enlarge | src/shared/std.h:42-55 | appends one empty chunk, keeps every chunk's contents, and points every chunk's last-chunk link at the new one |
| StdArena.ChunkedArena.Allocate | src/shared/std.h:57-76 | through any chunk, the bytes come from the newest chunk (a new one of max(16 MiB, size) when it is too full), and exactly `size` more bytes are handed out |
| StdArena.UsedIgnoresLinks | src/shared/std.h:42-55 | repointing the last-chunk links does not change what has been handed out |
| StdArena.ChunkedArena.Free | src/shared/std.h:79-93 | from any chunk, the walk back reaches the first chunk and the chunks are then freed oldest first until none is left |
| StdArena.CStr | src/shared/std.h:127-133 | the string and a NUL in `length + 1` fresh bytes |
| StdArena.Concat | src/shared/std.h:111-117 | the two strings joined, in `a.length + b.length + 1` fresh bytes |
| StdArena.StdList.Create | src/shared/std.h:146-152 | no elements and length 0 |
| StdArena.StdList.PushAsWritten | src/shared/std.h:154-167 | as written: the element is linked at the tail but `length` stays as it was |
| StdArena.PushAsWrittenMiscounts | src/shared/std.h:154-167 | one push onto a new list leaves one element and a length of 0 |
| StdArena.StdList.Push | src/shared/std.h:154-167 | corrected: the element is linked at the tail and counted |
| StdArena.PushCounts | src/shared/std.h:154-167 | with the corrected push, two pushes give two elements and length 2 |
| StdArena.StdList.Pop | src/shared/std.h:169-182 | the body is commented out: nothing changes |
| AllegroUtils.TruncDiv | TechnicalSketcher-Allegro/utils.cpp:18-20 | C's `/` truncates toward zero: Euclidean division for a non-negative dividend and positive divisor, and a non-negative quotient when the signs agree |
| AllegroUtils.TruncDivExact | TechnicalSketcher-Allegro/utils.cpp:18-20 | an exact multiple divides back to its factor, whatever the signs |
| AllegroUtils.MapIntEndpoints | TechnicalSketcher-Allegro/utils.cpp:18-20 | `mapInt` sends the ends of the input range to the ends of the output range |
| AllegroUtils.MapIntInRange | TechnicalSketcher-Allegro/utils.cpp:18-20 | on increasing ranges a value inside the input range lands inside the output range |
| AllegroUtils.SplitString | TechnicalSketcher-Allegro/utils.cpp:109-119 | the result is the maximal runs of non-delimiter characters, left to right |
| AllegroUtils.TokensWellFormed | TechnicalSketcher-Allegro/utils.cpp:109-119 | every piece `splitString` returns is non-empty and holds no delimiter |
| AllegroUtils.TokensOfJoin | TechnicalSketcher-Allegro/utils.cpp:109-119 | splitting the join of non-empty, delimiter-free pieces gives the pieces back |
| AllegroUtils.FindFirstNotOf | TechnicalSketcher-Allegro/utils.cpp:113 | the first index at or after `from` that is not the delimiter, or the length |
| AllegroUtils.FindFirstOf | TechnicalSketcher-Allegro/utils.cpp:115 | the first index at or after `from` that is the delimiter, or the length |
| AllegroUtils.SplitAtFirst | TechnicalSketcher-Allegro/utils.cpp:121-153 | `[s]` without a delimiter; otherwise the text before and after the first delimiter, each dropped when empty |
| AllegroUtils.SplitAtFirstRebuilds | TechnicalSketcher-Allegro/utils.cpp:121-153 | when both pieces survive they rebuild the string around the delimiter, and the first holds no delimiter |
| AllegroUtils.SplitAtLast | TechnicalSketcher-Allegro/utils.cpp:155-186 | `[s]` without a delimiter; otherwise the text before and after the last delimiter, each dropped when empty |
| AllegroUtils.LastSeparator | TechnicalSketcher-Allegro/utils.cpp:188-204 | the index of a '.' or '/' with none after it, or None when the name has neither |
| AllegroUtils.GetFileExtensionAsWritten | TechnicalSketcher-Allegro/utils.cpp:188-204 | as written: the text after the last '.', "" when a '/' comes after it, and the whole name when it has neither |
| AllegroUtils.ExtensionAsWrittenOfPlainName | TechnicalSketcher-Allegro/utils.cpp:188-204 | as written, "Makefile" has the extension "Makefile" |
| AllegroUtils.GetFileExtension | TechnicalSketcher-Allegro/utils.cpp:188-204 | corrected: the same scan, with "" for a name without '.' |
| AllegroUtils.ExtensionMeaning | TechnicalSketcher-Allegro/utils.cpp:188-204 | the extension holds no '.' or '/', and a non-empty one is exactly what follows the last '.', with no '/' after it |
| AllegroUtils.ExtensionExamples | TechnicalSketcher-Allegro/utils.cpp:188-204 | "dir/example.txt" gives "txt"; "Makefile" and "a.b/c" give "" |
| AllegroUtils.IsNumber | TechnicalSketcher-Allegro/utils.cpp:226-237 | throws (None) exactly on the empty string; otherwise true iff the first character is a digit or '-' and all others are digits |
| AllegroUtils.IsPrintable | TechnicalSketcher-Allegro/utils.cpp:239-246 | true iff every character is printable (codes 32 to 126, line feed, carriage return) |
| Components.Split | src/app/components.cpp:10-24 | the pieces between occurrences of the delimiter, empty ones kept |
| Components.JoinPieces | src/app/components.cpp:10-24 | joining the pieces of `split` with the delimiter rebuilds the string |
| Components.PiecesFree | src/app/components.cpp:10-24 | no piece holds the delimiter |
| Components.PiecesCount | src/app/components.cpp:10-24 | with a one-character delimiter there is one piece more than there are delimiters |
| Components.NextOccurrence | src/app/components.cpp:16 | the first occurrence at or after `pos`, or None when there is none |
| Components.ParseClassMeaning | src/app/components.cpp:35-48 | no ':' gives ("", s); one ':' splits the class around it; two or more give ("", "") |
| Components.UiCache.DivStep | src/app/components.cpp:130-191 | one pass of the loop keeps the background, direction and pushed styles equal to those of the commands seen so far |
| Components.UiCache.DivWalk | src/app/components.cpp:129-192 | the background is DivBackground, the direction is `col` iff it is listed, and exactly the styles of PushedColors/PushedSizes were pushed and counted |
| Components.UiCache.TextStep | src/app/components.cpp:248-289 | one pass of the loop keeps the pushed styles and counts equal to those of the commands seen so far |
| Components.UiCache.TextWalk | src/app/components.cpp:247-290 | exactly the styles of PushedColors/PushedSizes were pushed and counted |
| Components.ParseBgClass | src/app/components.cpp:101-113 | only `bg-` classes parse; `bg-[...]` always gives a colour; `bg-name` gives one iff the name is in the table, and that entry |
| Components.BgClassOfHex | src/app/components.cpp:101-113 | the class `bg-[#RRGGBBAA]` printed from a colour parses back to that colour |
| Components.OwnColorWins | src/app/components.cpp:115-234 | a `text-<colour>` command of the element itself decides the text colour, whatever was inherited |
| Components.InheritedColor | src/app/components.cpp:115-234 | without `text-` commands nothing is pushed and the inherited colour stays in force |
| Components.UiCache.ApplyTextCommand | src/app/components.cpp:182-192 | a colour name pushes its colour, else a size name pushes its size, and the counts say what was pushed |
| Components.UiCache.PopStyles | src/app/components.cpp:227-232 | exactly the counted entries are popped from each stack |
| Components.UiCache.Div | src/app/components.cpp:115-234 | the background is the last accepted `bg-` class, the direction is `col`, the text style is the stack top after this element's pushes (or the defaults), and both stacks end as they began |
| Components.UiCache.Text | src/app/components.cpp:236-314 | the text is drawn with the style in force after its own `text-` commands, and both stacks end as they began |
| Components.PushedAppend | src/app/components.cpp:115-234 | what one more command pushes comes after what the earlier ones pushed, and a later background class wins |
| AllegroLayer.NewLayerIdsFresh | TechnicalSketcher-Allegro/include/Layer.h:18-23 | a new layer has no shapes, its shape counter at 0, so its shape ids are trivially fresh |
| AllegroLayer.IndexOfShape | TechnicalSketcher-Allegro/include/Layer.h:97-106 | the first position holding a shape with the id; none exactly when no shape has it |
| AllegroLayer.AddShape | TechnicalSketcher-Allegro/include/Layer.h:62-68 | the shape is appended with the counter's value as id, the old shapes are kept, and fresh ids stay fresh with the new shape found at the end |
| AllegroLayer.RemoveShape | TechnicalSketcher-Allegro/include/Layer.h:70-80 | true iff some shape has the id; then exactly the first such shape is erased, otherwise the layer is unchanged; with unique ids no shape with the id remains |
| AllegroLayer.RemovedGone | TechnicalSketcher-Allegro/include/Layer.h:70-80 | erasing a position from a layer with unique ids leaves no shape with that id and keeps the ids fresh |
| AllegroLayer.FindShape | TechnicalSketcher-Allegro/include/Layer.h:97-106 | the loop returns the first matching index, none where the source returns a null pointer |
| AllegroLayer.IndexOfShapeIs | TechnicalSketcher-Allegro/include/Layer.h:97-106 | a position that matches with no earlier match is the one reported |
| AllegroLayer.GetJson | TechnicalSketcher-Allegro/include/Layer.h:108-127 | the loop builds the object with keys id, name, next_layer_id and the encoded shapes |
| AllegroLayer.LayerJsonFields | TechnicalSketcher-Allegro/include/Layer.h:119-124 | each key written by getJson is found with its value |
| AllegroLayer.ShapesOf | TechnicalSketcher-Allegro/include/Layer.h:39-41 | the shape list parses iff every element parses, and then holds the parsed shapes in order |
| AllegroLayer.FromJson | TechnicalSketcher-Allegro/include/Layer.h:33-42 | reading a layer from JSON, with its loop, gives what LayerOfJson specifies |
| AllegroLayer.ShapesOfFails | TechnicalSketcher-Allegro/include/Layer.h:39-41 | one shape that does not parse makes the whole layer fail |
| AllegroLayer.ShapesRoundTrip | TechnicalSketcher-Allegro/include/Layer.h:39-41 | shapes written then read back come back unchanged, given that each shape round-trips |
| AllegroLayer.JsonRoundTrip | TechnicalSketcher-Allegro/include/Layer.h:33-42 | a layer read back from its getJson output is the same layer |
| AllegroLayerList.IndexIn | TechnicalSketcher-Allegro/LayerList.cpp:247-256 | the first index of the id, none (the source's -1) exactly when the id is absent |
| AllegroLayerList.IndexInIs | TechnicalSketcher-Allegro/LayerList.cpp:247-256 | the first match of a scan is the index reported |
| AllegroLayerList.Swap | TechnicalSketcher-Allegro/LayerList.cpp:53 | iter_swap exchanges the two positions, leaves the rest and keeps the multiset |
| AllegroLayerList.EraseAt | TechnicalSketcher-Allegro/LayerList.cpp:88-89 | vector::erase shifts the tail down by one and keeps the head |
| AllegroLayerList.EraseAtMultiset | TechnicalSketcher-Allegro/LayerList.cpp:88-89 | erasing takes exactly the erased element out of the multiset |
| AllegroLayerList.EraseAtIds | TechnicalSketcher-Allegro/LayerList.cpp:88 | erasing a layer with distinct ids keeps them distinct and removes just its id |
| AllegroLayerList.AppendFreshId | TechnicalSketcher-Allegro/LayerList.cpp:18 | appending a layer whose id is above every existing one keeps the ids distinct |
| AllegroLayerList.LayerList.OrderDistinct | TechnicalSketcher-Allegro/LayerList.cpp:14-36 | the drawing order holds each existing layer id exactly once |
| AllegroLayerList.LayerList.constructor | TechnicalSketcher-Allegro/LayerList.cpp:7-9 | an empty list with no selection and the counter at 0 |
| AllegroLayerList.LayerList.Assign | TechnicalSketcher-Allegro/src/SketchFile.cpp:149-150 | copy assignment (`layers = tempLayers`): the list takes exactly the given layers, order, selection and counter, and its invariant holds |
| AllegroLayerList.LayerList.AddShapeAt | TechnicalSketcher-Allegro/include/Layer.h:62-68 | addShape through a pointer into the vector changes only that layer |
| AllegroLayerList.LayerList.RemoveShapeAt | TechnicalSketcher-Allegro/include/Layer.h:70-80 | removeShape through a pointer into the vector changes only that layer, as RemoveShape states |
| AllegroLayerList.LayerList.LayerExists | TechnicalSketcher-Allegro/LayerList.cpp:103-115 | true iff the id is not -1 and some layer has it |
| AllegroLayerList.LayerList.SelectLayer | TechnicalSketcher-Allegro/LayerList.cpp:117-126 | an existing layer becomes the selection; otherwise false and nothing changes |
| AllegroLayerList.LayerList.AddLayerFront | TechnicalSketcher-Allegro/LayerList.cpp:14-24 | the new layer takes the next id, is appended to the vector, goes to the front of the order and is selected; the invariant holds |
| AllegroLayerList.LayerList.AddLayerBack | TechnicalSketcher-Allegro/LayerList.cpp:26-36 | as AddLayerFront but the id goes to the back of the order |
| AllegroLayerList.LayerList.FindLayerOrderIndex | TechnicalSketcher-Allegro/LayerList.cpp:247-256 | the loop returns the id's first position in the drawing order |
| AllegroLayerList.LayerList.FindLayer | TechnicalSketcher-Allegro/LayerList.cpp:141-150 | the loop returns the position of the layer with the id, none for a null pointer |
| AllegroLayerList.LayerList.GetSelectedLayer | TechnicalSketcher-Allegro/LayerList.cpp:132-134 | the selected layer's position; none exactly when nothing is selected |
| AllegroLayerList.LayerList.MoveLayerFront | TechnicalSketcher-Allegro/LayerList.cpp:43-56 | false for an unknown id or one already in front; otherwise the id swaps with its neighbour nearer the front; layers and selection unchanged |
| AllegroLayerList.LayerList.MoveLayerBack | TechnicalSketcher-Allegro/LayerList.cpp:58-71 | false for an unknown id or one already at the back; otherwise the id swaps with its neighbour nearer the back |
| AllegroLayerList.LayerList.DeleteLayer | TechnicalSketcher-Allegro/LayerList.cpp:77-97 | true iff the id exists; then the layer leaves the vector and the order, and a deleted selection becomes none; otherwise nothing changes |
| AllegroLayerList.LayerList.GetSortedLayerIDs | TechnicalSketcher-Allegro/LayerList.cpp:162-171 | the ids in drawing order, each existing id once |
| AllegroLayerList.LayerList.GetSortedLayerIDsReverse | TechnicalSketcher-Allegro/LayerList.cpp:173-182 | the drawing order reversed |
| AllegroLayerList.LayerList.GetJson | TechnicalSketcher-Allegro/LayerList.cpp:206-227 | the two loops build the object with keys layers, layer_order and next_id |
| AllegroLayerList.EraseKeepsInvariant | TechnicalSketcher-Allegro/LayerList.cpp:77-97 | erasing one layer from both vectors, with its selection, keeps the list invariant |
| AllegroLayerList.DistinctCount | TechnicalSketcher-Allegro/LayerList.cpp:83 | an id in a duplicate-free order is counted at most once |
| AllegroLayerList.ErasedGone | TechnicalSketcher-Allegro/LayerList.cpp:89 | erasing the only place an id is held removes it from the order |
| AllegroLayerList.LayersRoundTrip | TechnicalSketcher-Allegro/LayerList.cpp:210-213 | the layers written then read back come back unchanged |
| AllegroLayerList.LayersOfSnoc | TechnicalSketcher-Allegro/LayerList.cpp:210-213 | reading one more layer appends it |
| AllegroLayerList.NumsRoundTrip | TechnicalSketcher-Allegro/LayerList.cpp:215-218 | the drawing order written then read back comes back unchanged |
| AllegroLayerList.ListJsonRoundTrip | TechnicalSketcher-Allegro/LayerList.cpp:206-227 | nothing getJson writes is lost: the layers, the order and the counter are read back |
| AllegroLayerList.MoveBackGuardEmpty | TechnicalSketcher-Allegro/LayerArray.cpp:40 | on an empty vector the wrapped guard admits index 0, past the end |
| AllegroLayerList.MoveBackGuardAgrees | TechnicalSketcher-Allegro/LayerArray.cpp:40 | with at least one layer the guard as written agrees with index + 1 < size |
| AllegroLayerList.LayerArray.constructor | TechnicalSketcher-Allegro/LayerArray.cpp:7-9 | an empty array with no selection and the counter at 0 |
| AllegroLayerList.LayerArray.AddLayerFront | TechnicalSketcher-Allegro/LayerArray.cpp:11-19 | the new layer goes to the front; it is selected only when nothing was |
| AllegroLayerList.LayerArray.AddLayerBack | TechnicalSketcher-Allegro/LayerArray.cpp:21-29 | the new layer goes to the back; it is selected only when nothing was |
| AllegroLayerList.LayerArray.MoveLayerFront | TechnicalSketcher-Allegro/LayerArray.cpp:31-37 | true iff 0 < index < size; then the layer swaps with the one before it |
| AllegroLayerList.LayerArray.MoveLayerBack | TechnicalSketcher-Allegro/LayerArray.cpp:39-45 | with the corrected guard: true iff index + 1 < size; then the layer swaps with the one after it |
| AllegroLayerList.LayerArray.FindLayer | TechnicalSketcher-Allegro/LayerArray.cpp:47-56 | the position of the layer with the id; none where the source throws logic_error |
| AllegroLayerList.SwapIds | TechnicalSketcher-Allegro/LayerArray.cpp:33 | swapping two layers swaps their ids and keeps them distinct |
| AllegroSketchFile.SketchFile.constructor | TechnicalSketcher-Allegro/src/SketchFile.cpp:6-8 | a new file holds one selected layer "Layer #0" with id 0, the default name, no location and no unsaved changes |
| AllegroSketchFile.SketchFile.GetCurrentLayer | TechnicalSketcher-Allegro/src/SketchFile.cpp:15-22 | the selected layer's position; none exactly when the selection is not an existing layer |
| AllegroSketchFile.SketchFile.GetCurrentLayerShapes | TechnicalSketcher-Allegro/src/SketchFile.cpp:33-41 | the current layer's shapes, empty when there is no current layer |
| AllegroSketchFile.SketchFile.FileChanged | TechnicalSketcher-Allegro/src/SketchFile.cpp:107-112 | the file is marked changed and the event flag is raised only by the first change |
| AllegroSketchFile.SketchFile.SetPreviewRegenerateFlag | TechnicalSketcher-Allegro/src/SketchFile.cpp:85-87 | raises the preview flag and changes nothing else |
| AllegroSketchFile.SketchFile.ClearPreviewRegenerateFlag | TechnicalSketcher-Allegro/src/SketchFile.cpp:89-91 | lowers the preview flag and changes nothing else |
| AllegroSketchFile.SketchFile.GetPreviewRegenerateFlag | TechnicalSketcher-Allegro/src/SketchFile.cpp:93-95 | reports the preview flag |
| AllegroSketchFile.SketchFile.AddNewLayerNamed | TechnicalSketcher-Allegro/src/SketchFile.cpp:51-56 | a new selected layer in front of the drawing order; the name counter moves on, previews are redrawn and the file is marked changed |
| AllegroSketchFile.SketchFile.AddNewLayer | TechnicalSketcher-Allegro/src/SketchFile.cpp:47-49 | as AddNewLayerNamed with the name "Layer #n" for the name counter n |
| AllegroSketchFile.SketchFile.DeleteLayer | TechnicalSketcher-Allegro/src/SketchFile.cpp:58-62 | the id is gone afterwards, the rest as LayerList.deleteLayer; previews are redrawn and the file is marked changed either way |
| AllegroSketchFile.SketchFile.MoveLayerFront | TechnicalSketcher-Allegro/src/SketchFile.cpp:66-70 | one step to the front when possible; the file is marked changed either way |
| AllegroSketchFile.SketchFile.MoveLayerBack | TechnicalSketcher-Allegro/src/SketchFile.cpp:72-76 | one step to the back when possible; the file is marked changed either way |
| AllegroSketchFile.SketchFile.AddShape | TechnicalSketcher-Allegro/src/SketchFile.cpp:99-105 | the shape is added to the current layer only; without a current layer nothing changes |
| AllegroSketchFile.SketchFile.OpenNewFile | TechnicalSketcher-Allegro/src/SketchFile.cpp:114-126 | the list holds one selected layer "Layer #0"; the name counter is 1 and the name, location and change flags are reset |
| AllegroSketchFile.SketchFile.LoadFile | TechnicalSketcher-Allegro/src/SketchFile.cpp:128-160 | true iff the content parsed; then the list, the counter, the name and the path are replaced and the file is unchanged; on failure nothing changes |
| AllegroSketchFile.SketchFile.GetJson | TechnicalSketcher-Allegro/src/SketchFile.cpp:162-170 | the layer list's JSON with next_layer_name added |
| AllegroSketchFile.IndexInUnique | TechnicalSketcher-Allegro/src/SketchFile.cpp:66-76 | in a duplicate-free drawing order an id is found where it stands |
| AllegroSketchFile.SketchJsonRoundTrip | TechnicalSketcher-Allegro/src/SketchFile.cpp:162-170 | reading a saved file back gives the name counter, the layers, the order and the id counter |
| AllegroSketchFile.ListJsonNoNameField | TechnicalSketcher-Allegro/src/SketchFile.cpp:166-167 | the layer list's JSON has no next_layer_name key, so adding it loses nothing |
| ShapeIdentity.IsValidInverted | include/Shape.h:36-38 | IsValid as written answers true exactly where the id is the invalid -1 |
| ShapeIdentity.DefaultIsInvalid | include/Shape.h:14-16 | a default id is -1, which IsValid as written accepts |
| ShapeIdentity.Same | include/Shape.h:44-46 | two ids are equal iff they hold the same number |
| ShapeIdentity.IdSource.constructor | include/Shape.h:11 | the static counter starts at 0 |
| ShapeIdentity.IdSource.MakeID | include/Shape.h:26-30 | the id is the counter's value, which then moves on by one; from a non-negative counter the id is valid |
| SrcLayerState.Counter.constructor | src/LayerState.cpp:9-10 | the id counter starts at 0 |
| SrcLayerState.Counter.Take | src/LayerState.cpp:14 | hands out the counter's value and moves it on by one |
| SrcLayerState.Renumbered | src/LayerState.cpp:12-16 | duplicating keeps the count and the geometry and gives the ids from the counter on |
| SrcLayerState.Numbered | src/LayerState.cpp:85-93 | new shapes for parsed geometry keep it in order, with consecutive ids |
| SrcLayerState.RenumberedIsNumbered | src/LayerState.cpp:12-23 | a copied state is its geometry given fresh consecutive ids, the same as shapes newly made from that geometry |
| SrcLayerState.Duplicates | src/LayerState.cpp:12-16 | the loop duplicates every shape in order; the counter moves on by their number |
| SrcLayerState.IndexOfId | src/LayerState.cpp:40-49 | the first shape with the id; none exactly when no shape has it |
| SrcLayerState.IndexOfIdIs | src/LayerState.cpp:40-49 | a scan's first match is the index reported |
| SrcLayerState.RemoveFirst | src/LayerState.cpp:29-38 | true iff some shape has the id; then exactly one shape fewer, otherwise unchanged; never adds a shape |
| SrcLayerState.MoveFirst | src/Layer.cpp:132-142 | moves only the first shape with the id, keeps every id and every other shape; true iff it exists |
| SrcLayerState.BoxOf | src/LayerState.cpp:62-75 | the box always contains the origin, and bounds every shape's corners as the source's min/max updates combine them |
| SrcLayerState.ParsedAll | src/LayerState.cpp:85-93 | the list parses iff every element does, and then holds their geometry in order |
| SrcLayerState.StateJsonRoundTrip | src/LayerState.cpp:109-117 | what GetJson writes parses back to the same geometry |
| SrcLayerState.LayerState.constructor | src/LayerState.cpp:9-10 | a new state has no shapes |
| SrcLayerState.LayerState.Assign | src/LayerState.cpp:18-23 | the state becomes a duplicate of the source's shapes, in order, with fresh ids |
| SrcLayerState.LayerState.PushShape | src/LayerState.cpp:25-27 | the shape goes to the end |
| SrcLayerState.LayerState.RemoveShape | src/LayerState.cpp:29-38 | erases the first shape with the id and reports whether there was one |
| SrcLayerState.LayerState.FindShape | src/LayerState.cpp:40-49 | the loop finds the first shape with the id |
| SrcLayerState.LayerState.ShapeExists | src/LayerState.cpp:51-60 | true iff some shape has the id |
| SrcLayerState.LayerState.GetBoundingBox | src/LayerState.cpp:62-75 | the loop computes the box BoxOf specifies |
| SrcLayerState.LayerState.LoadJson | src/LayerState.cpp:81-107 | true iff every shape parses; then the state holds exactly the parsed geometry numbered from the counter, which moves by one per element; on failure the shapes stay and the counter has moved by `FailedIds` (the shapes parsed before the failing one, plus one for a failing "line" element) |
| SrcLayerState.LayerState.GetJson | src/LayerState.cpp:109-117 | the loop writes the array StateJson specifies |
| SrcLayer.MakeShape | src/Layer.cpp:55-62 | the factory makes a line for the line type with the given ends and thickness, and nothing for NONE |
| SrcLayer.PushedLast | src/Layer.cpp:270-273 | after a push the newest snapshot is the pushed one and the history holds at most MAX_NUMBER_OF_UNDOS |
| SrcLayer.PushedKeeps | src/Layer.cpp:270-273 | below capacity a push keeps all older snapshots |
| SrcLayer.PushedDropsOldest | src/Layer.cpp:270-273 | at capacity a push drops exactly the oldest snapshot |
| SrcLayer.SizesSnoc | src/Layer.cpp:27 | the shapes held by a history with one more snapshot grow by that snapshot's |
| SrcLayer.GrownRoom | include/LayerHistory.h:15 | a push keeps the room when there is space, otherwise grows it past the size |
| SrcLayer.PushCostAtCapacity | include/LayerHistory.h:14-21 | a push onto a full history (with room) draws the pushed copy, the shifted older snapshots and the shifted new one |
| SrcLayer.History.constructor | include/LayerHistory.h:12 | an empty history with no room |
| SrcLayer.History.PushState | include/LayerHistory.h:14-21 | append, then erase the front while over capacity, as Pushed states; the room grows as GrownRoom; the ids drawn are PushCost |
| SrcLayer.History.EraseOldest | include/LayerHistory.h:17-20 | the oldest snapshots are erased until at most `MaxUndos` are left, the newest kept in order; the ids drawn are EraseCost |
| SrcLayer.History.PopState | include/LayerHistory.h:23-32 | none on an empty history, no ids drawn; otherwise the newest snapshot, removed, after two copies of it |
| SrcLayer.History.Clear | include/LayerHistory.h:34-36 | empties the history and keeps its room |
| SrcLayer.RemoveEach | src/Layer.cpp:117-130 | removing each id in turn: true iff every id removed a shape; never adds a shape |
| SrcLayer.MoveEach | src/Layer.cpp:252-268 | moving each id in turn keeps the count and ids; true iff every id was found |
| SrcLayer.SameIdsSameIndex | src/Layer.cpp:252-268 | lookup by id sees only the ids |
| SrcLayer.MoveEachKeepsLookup | src/Layer.cpp:252-268 | after moving shapes every id is found where it was |
| SrcLayerState.ParsedPrefix | src/Layer.cpp:82-93 | how many leading elements parse before AddShapes gives up |
| SrcLayerState.ParsedPrefixAll | src/Layer.cpp:82-101 | all elements parse exactly when the parsed prefix is the whole list |
| SrcLayer.LayerOfJson | src/Layer.cpp:373-392 | a layer reads back iff it has a string name and every shape parses |
| SrcLayer.LayerJsonRoundTrip | src/Layer.cpp:394-401 | what GetJson writes LoadJson reads back with the same name and geometry |
| SrcLayer.Layer.constructor | src/Layer.cpp:9-12 | a fresh id from the layer counter, the name, no shapes and no history |
| SrcLayer.Layer.GetState | src/Layer.cpp:14-16 | a copy of the state whose shapes take new ids |
| SrcLayer.Layer.LoadState | src/Layer.cpp:18-20 | the state becomes a copy of the given one |
| SrcLayer.Layer.Duplicate | src/Layer.cpp:22-30 | a new layer named "name - copy" with a new id, a duplicate of the shapes and the same snapshots (room for exactly them), marked changed; the counter moves on by the shapes plus every stored snapshot's shapes |
| SrcLayer.Layer.SaveState | src/Layer.cpp:270-273 | the current geometry is pushed as PushedHistory states, and the counter moves on by `SaveIds()` |
| SrcLayer.Layer.AddShapeJson | src/Layer.cpp:44-53 | the parsed shape appended iff it parses, with the id after the snapshot's, which a "line" that fails to load draws too; the snapshot draws `SaveIds()` ids (the GetState copy, the push copy, a reallocation's copies, the erase shifts) and the history becomes PushedHistory |
| SrcLayer.Layer.AddShapeOfType | src/Layer.cpp:55-62 | a line appended for the line type with the id after the snapshot's, nothing for NONE; the snapshot draws `SaveIds()` ids (the GetState copy, the push copy, a reallocation's copies, the erase shifts) and the line one more; the history becomes PushedHistory |
| SrcLayer.Layer.AddShape | src/Layer.cpp:64-80 | a made shape appended with id `old(nextID) + SaveIds()`, nothing when the factory returns none; the snapshot draws `SaveIds()` ids (the GetState copy, the push copy, a reallocation's copies, the erase shifts) and the history becomes PushedHistory |
| SrcLayer.Layer.AddShapes | src/Layer.cpp:82-101 | true iff every element parses; then the shapes, numbered as parsed, appended in order after one snapshot, the counter moving on by both; otherwise nothing changes but the ids `FailedIds` counts |
| SrcLayerState.NumberAll | src/Layer.cpp:85-93 | the shapes iff every element parses, numbered in order from the counter, which moves on by their count; on a failure the parsed prefix draws ids, and so does the failing element when it is a "line" |
| SrcLayerState.FailedIds | src/Shapes/GenericShape.cpp:24-45 | a failed `AddShapes` or `LoadJson` draws one id per parsed element, plus one exactly when the failing element is typed "line" |
| SrcLayer.Layer.AddMadeShapes | src/Layer.cpp:103-109 | the shapes appended as they are; the snapshot draws `SaveIds()` ids (the GetState copy, the push copy, a reallocation's copies, the erase shifts) and the history becomes PushedHistory |
| SrcLayer.Layer.RemoveShape | src/Layer.cpp:111-115 | the first shape with the id erased; the snapshot draws `SaveIds()` ids (the GetState copy, the push copy, a reallocation's copies, the erase shifts) and the history becomes PushedHistory |
| SrcLayer.Layer.RemoveShapes | src/Layer.cpp:117-130 | each id removed in turn; true iff all were found; the snapshot draws `SaveIds()` ids (the GetState copy, the push copy, a reallocation's copies, the erase shifts) and the history becomes PushedHistory |
| SrcLayer.Layer.RemoveAll | src/Layer.cpp:119-127 | the loop removes each id in turn, as RemoveEach states, without a snapshot |
| SrcLayer.Layer.MoveShapeBy | src/Layer.cpp:132-178 | the shape with the id moved when it exists; the snapshot draws `SaveIds()` ids (the GetState copy, the push copy, a reallocation's copies, the erase shifts) and the history becomes PushedHistory |
| SrcLayer.Layer.MoveOne | src/Layer.cpp:132-178 | the shape with the id moved when it exists, without a snapshot |
| SrcLayer.Layer.MoveShapeLeft | src/Layer.cpp:132-142 | x decreases by the amount for the shape with the id; the snapshot draws `SaveIds()` ids (the GetState copy, the push copy, a reallocation's copies, the erase shifts) and the history becomes PushedHistory |
| SrcLayer.Layer.MoveShapeRight | src/Layer.cpp:144-154 | x increases by the amount; the snapshot draws `SaveIds()` ids (the GetState copy, the push copy, a reallocation's copies, the erase shifts) and the history becomes PushedHistory |
| SrcLayer.Layer.MoveShapeUp | src/Layer.cpp:156-166 | y decreases by the amount; the snapshot draws `SaveIds()` ids (the GetState copy, the push copy, a reallocation's copies, the erase shifts) and the history becomes PushedHistory |
| SrcLayer.Layer.MoveShapeDown | src/Layer.cpp:168-178 | y increases by the amount; the snapshot draws `SaveIds()` ids (the GetState copy, the push copy, a reallocation's copies, the erase shifts) and the history becomes PushedHistory |
| SrcLayer.Layer.MoveShapes | src/Layer.cpp:180-268 | each id's shape moved; true iff every id was found; the snapshot draws `SaveIds()` ids (the GetState copy, the push copy, a reallocation's copies, the erase shifts) and the history becomes PushedHistory |
| SrcLayer.Layer.MoveAll | src/Layer.cpp:252-268 | the loop moves the shape of each id in turn, as MoveEach states, without a snapshot |
| SrcLayer.Layer.UndoAction | src/Layer.cpp:275-285 | with no history nothing changes; otherwise the newest snapshot is popped (two copies, 2·|top| ids) and loaded with the ids after those, the room unchanged |
| SrcLayer.AddLineAfterSnapshot | src/Layer.cpp:64-80 | a layer with shape 0 and the counter at 1: the added line gets id 3 |
| SrcLayer.Layer.FindShape | src/Layer.cpp:298-300 | the index of a shape with the id, none iff there is none |
| SrcLayer.Layer.ShapeExists | src/Layer.cpp:302-304 | true iff some shape has the id |
| SrcLayer.Layer.LoadJson | src/Layer.cpp:373-392 | true iff the name and every shape parse; then name and geometry are replaced, the history cleared, and the shapes hold the ids of the second copy: the temporary parse draws one id per element and the copy into the layer as many again; a missing name fails before any id is drawn; a failed parse leaves the layer unchanged but has drawn `FailedIds` |
| SrcLayer.Layer.GetJson | src/Layer.cpp:394-401 | the object with the shapes and the name |
| SrcLayer.History.CopyFrom | src/Layer.cpp:27 | copy assignment: the same snapshots, each copied (their shapes' ids drawn), the room grown to fit them |
| SrcLayerList.IdsOf | src/LayerList.cpp:221-230 | the layers' ids in vector order |
| SrcLayerList.FindIndex | src/LayerList.cpp:221-230 | the first index of the id, none (the source's -1) exactly when no layer has it |
| SrcLayerList.FindIndexIs | src/LayerList.cpp:221-230 | a scan's first match is the index reported |
| SrcLayerList.DeleteActiveAsWrittenFails | src/LayerList.cpp:83-86 | the id-against-count comparison as written both clears a selection that still exists and keeps a deleted one |
| SrcLayerList.ListJson | src/LayerList.cpp:200-212 | the object's "layers" field holds each layer's JSON in order |
| SrcLayerList.LayerList.constructor | src/LayerList.cpp:6-8 | an empty list with no active layer |
| SrcLayerList.LayerList.AddLayerFront | src/LayerList.cpp:13-20 | a new layer with a fresh id at the front, made active |
| SrcLayerList.LayerList.AddLayerBack | src/LayerList.cpp:22-29 | a new layer with a fresh id at the back, made active |
| SrcLayerList.LayerList.MoveLayerFront | src/LayerList.cpp:36-47 | false for an unknown id or the front layer; otherwise it swaps with the layer before it; the active layer is kept |
| SrcLayerList.LayerList.MoveLayerBack | src/LayerList.cpp:49-60 | false for an unknown id or the back layer; otherwise it swaps with the layer after it |
| SrcLayerList.LayerList.Clear | src/LayerList.cpp:64-67 | no layers and no active layer |
| SrcLayerList.LayerList.DeleteLayer | src/LayerList.cpp:73-89 | corrected: true iff the id exists; then that layer is erased and the active id is cleared exactly when it was the deleted one; unknown ids change nothing |
| SrcLayerList.LayerList.LayerExists | src/LayerList.cpp:95-107 | false for -1, otherwise true iff some layer has the id |
| SrcLayerList.LayerList.SelectLayer | src/LayerList.cpp:109-119 | an existing layer becomes active; otherwise false and nothing changes |
| SrcLayerList.LayerList.GetActiveLayer | src/LayerList.cpp:125-127 | the active layer's position, none when there is none |
| SrcLayerList.LayerList.FindLayerIndex | src/LayerList.cpp:134-143 | the loop finds the layer with the id, as FindIndex states |
| SrcLayerList.LayerList.GetLayersReverse | src/LayerList.cpp:161-170 | the layers back to front |
| SrcLayerList.LayerList.LoadJson | src/LayerList.cpp:177-198 | its reading is commented out, so it always reports success |
| SrcLayerList.LayerList.GetJson | src/LayerList.cpp:200-212 | the loop builds the object ListJson specifies |
| SrcLayerList.ReversedCons | src/LayerList.cpp:165-167 | reversing a list with one more element in front puts it last |
| SrcLayerList.SwapKeepsActive | src/LayerList.cpp:45 | swapping two layers keeps an existing active id existing |
| SrcLayerList.EraseDropsId | src/LayerList.cpp:81 | with distinct ids, erasing a layer leaves no layer with its id |
| SrcLayerList.EraseKeepsOthers | src/LayerList.cpp:81 | erasing a layer keeps every other layer's id findable |
| SrcFileContent.Names | include/FileContent.h:43-53 | the layers' names in order |
| SrcFileContent.CorrectedIndex | include/FileContent.h:148-153 | the active index after correction is within the list and unchanged when it already was |
| SrcFileContent.FirstFreeOfNone | include/FileContent.h:35-36 | with no layers the first free name is "Layer #1" |
| SrcFileContent.Renumber | src/LayerState.cpp:12-23 | a copied state has the same geometry, in order, under ids from the counter on |
| SrcFileContent.CopiedInOrder | include/FileContent.h:60-70 | copying the layers one after another keeps each drawing and gives every copied shape an id between the counter and the counter plus the copies' cost |
| SrcFileContent.Pushed | include/FileContent.h:60-70 | a push keeps every old drawing and appends the new one under fresh ids; with room to spare the old layers stay as they were, in a full vector they all get ids above the new layer's |
| SrcFileContent.Erased | include/FileContent.h:85-97 | erasing keeps the layers before the erased one as they were and moves the ones behind it down, with their drawings kept under fresh ids |
| SrcFileContent.Swapped | include/FileContent.h:109-132 | swapping trades the two layers' drawings, both under fresh ids, and keeps every other layer |
| SrcFileContent.PushedIdsBelow | include/FileContent.h:60-70 | after a push every shape id is below the advanced counter |
| SrcFileContent.ReallocationRenumbers | include/FileContent.h:60-64 | when a push reallocates, no shape of an old layer keeps any id it had, so an earlier selection of ids names none of them |
| SrcFileContent.ErasedIdsBelow | include/FileContent.h:85-97 | after an erase every shape id is below the advanced counter |
| SrcFileContent.SwappedIdsBelow | include/FileContent.h:109-132 | after a swap every shape id is below the advanced counter |
| SrcFileContent.FileContent.constructor | include/FileContent.h:12-17 | with init, one active empty layer named "Layer #1", the layer counter moved by one and capacity 1; without, no layers, no active layer and capacity 0; no shape id is drawn |
| SrcFileContent.FileContent.UnusedName | include/FileContent.h:33-54 | the loop finds the first "Layer #k" from k = 1 that no layer carries |
| SrcFileContent.FileContent.PushNewLayer | include/FileContent.h:33-58 | a new empty layer under the first unused name with a fresh id, made active; the old layers' bodies and the shape counter as `Pushed` and `PushCost` say |
| SrcFileContent.FileContent.PushNamedLayer | include/FileContent.h:60-64 | a new empty layer with the name and a fresh id goes last and is made active; a full vector grows and recopies every old layer, whose shapes get new ids |
| SrcFileContent.FileContent.PushLayer | include/FileContent.h:66-70 | a copy of the given layer goes last, its shapes under new ids, and the first layer with its id is made active; a full vector grows and recopies the old layers |
| SrcFileContent.FileContent.PushBody | include/FileContent.h:66-67 | the bodies, capacity and shape counter after `push_back` of a copy |
| SrcFileContent.FileContent.ActivateLayer | include/FileContent.h:72-83 | true iff some layer has the id; then its index is active; otherwise nothing changes |
| SrcFileContent.FileContent.RemoveLayer | include/FileContent.h:85-97 | true iff the id exists; then it is erased, the layers behind it move down with their shapes renumbered and the active index is corrected; when it was the only layer a new "Layer #1" takes the next layer id; the capacity stays; otherwise nothing changes |
| SrcFileContent.FileContent.FindLayerIndex | include/FileContent.h:156-166 | the first index of the id, none for the source's -1 |
| SrcFileContent.FileContent.MoveLayerFront | include/FileContent.h:109-120 | after correction (an empty list gets "Layer #1", the next layer id and grown capacity), false for an unknown id or the front layer; otherwise it swaps with the one before it and both layers' shapes get new ids, 2a + b of them for layers of a and b shapes; the capacity stays |
| SrcFileContent.FileContent.MoveLayerBack | include/FileContent.h:122-132 | false for an unknown id or the back layer; otherwise it swaps with the one after it and both layers' shapes get new ids |
| SrcFileContent.FileContent.CorrectLayers | include/FileContent.h:142-154 | afterwards there is a layer and the active index is within the list; an empty list gets one new empty layer; no shape id is drawn |
| SrcFileContent.FileContent.GetActiveLayer | include/FileContent.h:19-22 | the corrected active index, within the list; with layers, the list, the bodies, the capacity and the layer counter stay; with none, one active "Layer #1" with the next layer id, an empty body and grown capacity |
| SrcFileContent.FileContent.IsIndexValid | include/FileContent.h:168-170 | true iff the index is within the list |
| TskDocumentModel.SameLayer | include/TskDocument.hpp:99-105 | two layer ids are equal iff their uuids are |
| TskDocumentModel.DocNames | src/TskDocument.cpp:35-37 | the layers' names in order |
| TskDocumentModel.LayerIndex | src/TskDocument.cpp:43-46 | std::find_if's distance: the first index with the id, the vector's size when none has it |
| TskDocumentModel.LayerIndexPastEnd | src/TskDocument.cpp:43-46 | the index is the size exactly when no layer has the id |
| TskDocumentModel.AnyUnsaved | src/TskDocument.cpp:392 | true iff some layer has unsaved changes |
| TskDocumentModel.Clamp | src/TskDocument.cpp:16 | std::clamp to the last index: within the vector, unchanged when already within it |
| TskDocumentModel.MoveBackUnknownAsWritten | include/TskDocument.hpp:213-220 | as written, an unknown id makes moveLayerBack swap the element one past the end with the last one |
| TskDocumentModel.TskDocument.constructor | include/TskDocument.hpp:174 | the defaulted constructor gives no layers, so the class guarantee of at least one layer fails |
| TskDocumentModel.TskDocument.WithFirstLayer | include/TskDocument.hpp:115 | the constructor the class comment promises: one layer "Layer 1", active, and the guarantee holds |
| TskDocumentModel.TskDocument.LayerExists | src/TskDocument.cpp:35-37 | true iff some layer has the name |
| TskDocumentModel.TskDocument.ContainsUnsavedChanges | src/TskDocument.cpp:388-396 | true iff the document or any of its layers has unsaved changes |
| TskDocumentModel.TskDocument.AddLayer | src/TskDocument.cpp:8-18 | a named layer goes last; an empty name becomes the first "Layer k" not in use; the active index is clamped and the document changed |
| TskDocumentModel.TskDocument.RemoveLayerAt | src/TskDocument.cpp:20-27 | the layer is erased, a new "Layer 1" added when none is left; the active index is clamped and the guarantee holds |
| TskDocumentModel.TskDocument.RemoveLayer | src/TskDocument.cpp:29-33 | corrected, see Findings: the layer with the id is removed as by index; an unknown id changes nothing |
| TskDocumentModel.RemoveUnknownAsWritten | src/TskDocument.cpp:29-33 | as written, an unknown id is looked up as the index one past the last layer |
| TskDocumentModel.TskDocument.GetLayerIndex | src/TskDocument.cpp:43-46 | the loop computes LayerIndex |
| TskDocumentModel.TskDocument.GetLayer | src/TskDocument.cpp:39-41 | a layer of the document with the id |
| TskDocumentModel.TskDocument.GetActiveLayer | include/TskDocument.hpp:185-186 | the layer at the active index |
| TskDocumentModel.TskDocument.MoveLayerFront | include/TskDocument.hpp:204-211 | swaps the layer with the next one when there is one; otherwise nothing changes |
| TskDocumentModel.TskDocument.MoveLayerBack | include/TskDocument.hpp:213-220 | corrected: swaps the layer with the previous one when there is one; an unknown id changes nothing |
| TskDocumentModel.FirstFreeOfNone | src/TskDocument.cpp:9-14 | with no layers the generated name is "Layer 1" |
| SelectionModel.ShapeIds | src/SelectionHandler.cpp:113-115 | the shapes' ids in order |
| SelectionModel.HoveredIds | src/SelectionHandler.cpp:28-34 | exactly the ids of the hovered shapes |
| SelectionModel.EraseDistinct | src/SelectionHandler.cpp:92 | erasing from a duplicate-free selection keeps it duplicate-free and removes just that id |
| SelectionModel.SelectionHandler.constructor | src/SelectionHandler.cpp:6 | nothing selected, the cycling index at 0 |
| SelectionModel.SelectionHandler.GetSelectedShapes | src/SelectionHandler.cpp:6-21 | ids of shapes that no longer exist are unselected; the rest stay, in order (`Kept`) |
| SelectionModel.SelectionHandler.GetHoveredShape | src/SelectionHandler.cpp:25-49 | -1 when nothing is hovered; otherwise the hovered shape at the cycling index, reset to 0 when out of range |
| SelectionModel.SelectionHandler.GetLastHoveredShape | src/SelectionHandler.cpp:51-53 | the last hovered shape |
| SelectionModel.SelectionHandler.SelectNextPossibleShape | src/SelectionHandler.cpp:55-58 | the cycling index moves on and the hovered shape is picked again |
| SelectionModel.SelectionHandler.IsShapeSelected | src/SelectionHandler.cpp:63-72 | true iff the id is selected |
| SelectionModel.SelectionHandler.SelectShape | src/SelectionHandler.cpp:74-86 | true iff the shape exists; then it is appended unless already selected |
| SelectionModel.SelectionHandler.UnselectShape | src/SelectionHandler.cpp:88-98 | true iff the id was selected; then it is erased and nothing else, the rest keeping their order |
| SelectionModel.Without | src/SelectionHandler.cpp:15-18 | the ids left after removing a list of ids are those not in it |
| SelectionModel.Kept | src/SelectionHandler.cpp:6-21 | the ids kept are exactly the selected ones whose shapes exist |
| SelectionModel.WithoutAbsent | src/SelectionHandler.cpp:88-98 | removing ids that are not there changes nothing |
| SelectionModel.EraseIsWithout | src/SelectionHandler.cpp:88-98 | with distinct ids, erasing the one at an index is removing that id |
| SelectionModel.WithoutTwice | src/SelectionHandler.cpp:15-18 | removing ids in two rounds is removing them all at once |
| SelectionModel.WithoutGoneIsKept | src/SelectionHandler.cpp:6-21 | removing exactly the ids whose shapes are gone leaves the kept ones in their order |
| SelectionModel.SelectionHandler.ToggleSelection | src/SelectionHandler.cpp:100-108 | a selected id is removed from the selection with the rest in order; an unselected one is appended iff its shape exists; nothing else changes, and the hover bookkeeping stays |
| SelectionModel.SelectionHandler.SelectAll | src/SelectionHandler.cpp:110-116 | exactly the ids of the active layer's shapes, in order |
| SelectionModel.SelectionHandler.ClearSelection | src/SelectionHandler.cpp:118-120 | nothing selected |
| Settings.SettingNamesDistinct | include/TskSettings.hpp:8-19 | each setting's enum name is its own and none is the recent-files key |
| Settings.SettingFromNameInverts | include/TskSettings.hpp:8-19 | a setting is recovered from its enum name, and no name has the length of the recent-files key |
| Settings.StandardSetting | src/TskSettings.cpp:4-37 | NONE has no default; the numbers are positive; the colours are opaque RGBA; only the filename is a string |
| Settings.StandardDefaults | src/TskSettings.cpp:7-14 | the defaults are 10 recent files, 100 undos and "Untitled" |
| Settings.RecentJson | include/TskSettings.hpp:64 | the list stored as an array of strings |
| Settings.StringsOf | include/TskSettings.hpp:35-48 | the stored list reads back iff every element is a string |
| Settings.RecentJsonRoundTrip | include/TskSettings.hpp:35-64 | a stored list reads back unchanged |
| Settings.Without | include/TskSettings.hpp:53-56 | the erase-remove idiom: every occurrence of the path goes, everything else stays |
| Settings.KeepLast | include/TskSettings.hpp:58-61 | erasing the front until at most n are left keeps the last n |
| Settings.RecentAsWrittenOverflows | include/TskSettings.hpp:58-63 | as written, a full list grows to one more than the maximum |
| Settings.RecentAsWrittenElevenFiles | include/TskSettings.hpp:58-63 | with the standard maximum of 10 and ten other files, the list holds 11 |
| Settings.RecentAfterAddIsBounded | include/TskSettings.hpp:50-65 | corrected: the path ends up once, last; the others keep their order; nothing is dropped while there is room; the maximum holds |
| Settings.EraseAll | include/TskSettings.hpp:54-56 | the loop computes Without |
| Settings.EraseOldest | include/TskSettings.hpp:59-61 | the loop computes KeepLast |
| Settings.TskSettings.constructor | include/TskSettings.hpp:21 | the cache holds what the settings file stored |
| Settings.TskSettings.Get | include/TskSettings.hpp:67-74 | the cached value when there is one, otherwise the standard setting |
| Settings.TskSettings.MaxRecentFiles | include/TskSettings.hpp:59 | the maximum as a number, 10 when nothing is stored |
| Settings.TskSettings.Set | include/TskSettings.hpp:76-78 | only that setting changes |
| Settings.TskSettings.RecentFiles | include/TskSettings.hpp:35-48 | the stored list, empty when missing or unreadable |
| Settings.TskSettings.MostRecentFile | include/TskSettings.hpp:27-33 | the last recent file, empty when there is none |
| Settings.TskSettings.AddRecentFile | include/TskSettings.hpp:50-65 | corrected: the list becomes RecentAfterAdd of the old one, the path is now the most recent, no setting changes |
| Settings.TskSettings.StoreRecent | include/TskSettings.hpp:64 | the list is stored and read back as given |
| NavigatorModel.Presses | src/Navigator.cpp:171-220 | a frame's button presses in order: lines are only appended, none with coinciding ends, and no circle preview appears |
| NavigatorModel.LeftClick | src/Navigator.cpp:242-323 | a click adds at most the line from the preview start to the point, only when the line tool finishes a line preview with nothing hovered, and the preview then ends |
| NavigatorModel.TwoClicksAddLine | src/Navigator.cpp:292-323 | two clicks on empty space with the line tool add the line between them (unless they coincide) and end the preview |
| NavigatorModel.PressesWithoutLineTool | src/Navigator.cpp:242-250 | every tool but the line tool, and a click on a hovered shape, leave the sketch unchanged |
| NavigatorModel.Navigator.Current | src/Navigator.cpp:292-323 | the preview shape and the lines added so far |
| NavigatorModel.Navigator.constructor | include/Navigator.h:24-66 | the member initialisers: select tool, no preview, nothing hovered, thickness 5, empty buffers |
| NavigatorModel.Navigator.OnAttach | src/Navigator.cpp:10-14 | the select tool is taken up and shows the preview point; nothing else changes |
| NavigatorModel.Navigator.OnEvent | src/Navigator.cpp:82-111 | scroll, press, release and move events are buffered and reported handled; others are not; only the buffers change |
| NavigatorModel.Navigator.IsShapeSelected | src/Navigator.cpp:138-147 | true iff the id is selected |
| NavigatorModel.Navigator.UseTool | src/Navigator.cpp:232-235 | the tool is selected and the preview point is shown for the select tool, hidden for the line tool and left for the strip tool; nothing else changes |
| NavigatorModel.Navigator.OnToolChanged | src/Navigator.cpp:330-351 | the preview point is shown for the select tool and hidden for the line tool; nothing else changes |
| NavigatorModel.Navigator.AddLineTo | src/Navigator.cpp:358-368 | the line with the current thickness goes to the file unless its ends coincide |
| NavigatorModel.Navigator.OnSpaceClicked | src/Navigator.cpp:292-323 | the line tool starts a preview or finishes one by adding the line; a finished preview ends |
| NavigatorModel.Navigator.OnMouseLeftClicked | src/Navigator.cpp:242-250 | with no hovered shape it is a click on empty space; otherwise nothing changes |
| NavigatorModel.Navigator.OnMouseHovered | src/Navigator.cpp:280-285 | the preview point follows the snapped mouse and the preview's second point the event's |
| NavigatorModel.Navigator.UpdateEvents | src/Navigator.cpp:171-220 | the buffers are emptied, the presses take effect as Presses states, and with the left button up the last move sets the preview end and the preview point; the tool, hover, thickness, selection, snapped mouse, scroll and the shown flag stay |
| NavigatorModel.Navigator.HandlePresses | src/Navigator.cpp:173-193 | the presses take effect in order as Presses states and the buffer is emptied; nothing else changes |
| NavigatorModel.Navigator.HandleMoves | src/Navigator.cpp:208-219 | with the left button up the last move decides the preview end and the preview point; with it down nothing moves; the buffer is emptied and nothing else changes |
| NavigatorModel.Navigator.OnUpdate | src/Navigator.cpp:20-37 | the snapped mouse is exact while CTRL is held; a buffered scroll zooms once and is cleared; the presses take effect as Presses states and the last move sets the preview end and puts the preview point at the new snapped mouse; the tool, hover, thickness, selection and shown flag stay |
| AllegroEngineModel.NamedLayer | TechnicalSketcher-Allegro/TechnicalSketcher-Allegro.cpp:35-38 | a new layer has the name, no shapes and fresh ids |
| AllegroEngineModel.AddShapeTo | TechnicalSketcher-Allegro/TechnicalSketcher-Allegro.cpp:62-68 | the shape is appended with the counter's value as its id, the counter moves on, and fresh ids stay fresh |
| AllegroEngineModel.RemoveShapeFrom | TechnicalSketcher-Allegro/TechnicalSketcher-Allegro.cpp:70-80 | true iff some shape has the id; then the first such shape is erased, otherwise nothing changes; with unique ids none is left |
| AllegroEngineModel.GetShape | TechnicalSketcher-Allegro/TechnicalSketcher-Allegro.cpp:90-99 | a copy of the first shape with the id, or the default shape when there is none |
| AllegroEngineModel.CopyAsWritten | TechnicalSketcher-Allegro/TechnicalSketcher-Allegro.cpp:40-44 | the copy constructor as written keeps the name and shapes but leaves the counter at 0 |
| AllegroEngineModel.CopyAsWrittenRepeatsId | TechnicalSketcher-Allegro/TechnicalSketcher-Allegro.cpp:40-68 | drawing on a copied layer that holds shape 0 hands out id 0 a second time |
| AllegroEngineModel.CopyAsWrittenAfterFirstLine | TechnicalSketcher-Allegro/TechnicalSketcher-Allegro.cpp:630-642 | the first layer with one line, copied when a layer is inserted in front, then repeats an id |
| AllegroEngineModel.AssignAsWritten | TechnicalSketcher-Allegro/TechnicalSketcher-Allegro.cpp:46-50 | `operator=` as written copies the name and shapes and keeps the target's counter |
| AllegroEngineModel.SwapAsWritten | TechnicalSketcher-Allegro/TechnicalSketcher-Allegro.cpp:600 | `iter_swap` as written: names and shapes change places, each counter stays at its position |
| AllegroEngineModel.SwapAsWrittenRepeatsId | TechnicalSketcher-Allegro/TechnicalSketcher-Allegro.cpp:594-628 | after the swap as written, a layer holding the id its new counter stands at hands it out again |
| AllegroEngineModel.SwapAsWrittenAfterTwoLines | TechnicalSketcher-Allegro/TechnicalSketcher-Allegro.cpp:594-610 | whatever the names and thickness, moving an empty layer up over one with lines 0 and 1 makes the next line on them repeat id 0, though both layers had fresh ids |
| AllegroEngineModel.BoxSelection | TechnicalSketcher-Allegro/TechnicalSketcher-Allegro.cpp:815-824 | exactly the ids of the lines with both ends inside the box |
| AllegroEngineModel.BoxSelectionDistinct | TechnicalSketcher-Allegro/TechnicalSketcher-Allegro.cpp:815-824 | on a layer with unique ids the box selection holds no id twice |
| AllegroEngineModel.TopmostNear | TechnicalSketcher-Allegro/TechnicalSketcher-Allegro.cpp:862-876 | the last drawn line the mouse is near; none exactly when no line is near |
| AllegroEngineModel.HoveredIdIsNear | TechnicalSketcher-Allegro/TechnicalSketcher-Allegro.cpp:859-876 | the hovered id is -1 exactly when no line is near, otherwise that of the topmost near line |
| AllegroEngineModel.TopmostIs | TechnicalSketcher-Allegro/TechnicalSketcher-Allegro.cpp:863-873 | a near line with none near after it is the one the backward scan stops at |
| AllegroEngineModel.EraseMatches | TechnicalSketcher-Allegro/TechnicalSketcher-Allegro.cpp:777-781 | the loop keeps every other id and, on a duplicate-free selection, removes the id |
| AllegroEngineModel.Engine.constructor | TechnicalSketcher-Allegro/TechnicalSketcher-Allegro.cpp:149-218 | the field initialisers: select mode, no layers, layer 0 selected, nothing hovered, thickness 0.1 |
| AllegroEngineModel.Engine.Setup | TechnicalSketcher-Allegro/TechnicalSketcher-Allegro.cpp:220-244 | select mode, a first layer "Layer #n" in front, no selection, previews regenerated |
| AllegroEngineModel.Engine.CancelShape | TechnicalSketcher-Allegro/TechnicalSketcher-Allegro.cpp:880-883 | the preview point shows and no line is being drawn |
| AllegroEngineModel.Engine.MoveLayerUp | TechnicalSketcher-Allegro/TechnicalSketcher-Allegro.cpp:594-610 | corrected (see Findings: the swap as written keeps the counters in place): for layer > 0 the whole layer swaps with the one in front and the selection stays on the same layer |
| AllegroEngineModel.Engine.MoveLayerDown | TechnicalSketcher-Allegro/TechnicalSketcher-Allegro.cpp:612-628 | corrected guard and swap (see Findings): a layer with one behind it swaps whole with it, the selection stays on the same layer; otherwise nothing changes |
| AllegroEngineModel.Engine.AddDefaultLayer | TechnicalSketcher-Allegro/TechnicalSketcher-Allegro.cpp:630-632 | corrected copy, see Findings: a layer named "Layer #" and the count of layers added so far goes in front |
| AllegroEngineModel.Engine.AddLayer | TechnicalSketcher-Allegro/TechnicalSketcher-Allegro.cpp:634-642 | corrected copy: the named layer goes in front, the others keep their shape counters, the count moves on |
| AllegroEngineModel.Engine.SelectLayer | TechnicalSketcher-Allegro/TechnicalSketcher-Allegro.cpp:644-653 | an existing layer becomes selected and the shape selection is cleared; false where the source throws |
| AllegroEngineModel.Engine.AddLine | TechnicalSketcher-Allegro/TechnicalSketcher-Allegro.cpp:655-666 | a line with distinct ends is added to the selected layer; false where the source throws |
| AllegroEngineModel.Engine.ChangeMode | TechnicalSketcher-Allegro/TechnicalSketcher-Allegro.cpp:668-700 | the selection is cleared; select mode hides the preview point, the line modes show it at the snapped mouse |
| AllegroEngineModel.Engine.IsShapeSelected | TechnicalSketcher-Allegro/TechnicalSketcher-Allegro.cpp:702-711 | true iff the id is selected |
| AllegroEngineModel.Engine.DeleteShape | TechnicalSketcher-Allegro/TechnicalSketcher-Allegro.cpp:713-717 | true iff the selected layer had the shape; afterwards it has none with the id |
| AllegroEngineModel.Engine.MouseLeftPressed | TechnicalSketcher-Allegro/TechnicalSketcher-Allegro.cpp:723-793 | ignored over the GUI or in an unknown mode; in the select mode the selection changes as SelectPressed states and nothing is drawn; in the line modes a line starts, is added, goes on or stops as LinePressed states, the selection stays, and the preview flag is raised iff a line was added |
| AllegroEngineModel.Engine.LinePressed | TechnicalSketcher-Allegro/TechnicalSketcher-Allegro.cpp:728-755 | the first click starts a line at the snapped mouse and raises nothing; a further click adds the line and goes on (strip) or stops (line); a failed add leaves the layers and, for a strip, the drawing state; the preview flag is raised iff a line was added |
| AllegroEngineModel.Engine.ContinueStrip | TechnicalSketcher-Allegro/TechnicalSketcher-Allegro.cpp:737-744 | the segment to the click is added unless it is empty, and the strip goes on from there; a failed add changes nothing; the preview flag is raised iff the segment was added |
| AllegroEngineModel.Engine.FinishLine | TechnicalSketcher-Allegro/TechnicalSketcher-Allegro.cpp:745-752 | the line to the click is added unless it is empty, and drawing stops; a failed add leaves the layers; the preview flag is raised iff the line was added |
| AllegroEngineModel.Engine.SelectPressed | TechnicalSketcher-Allegro/TechnicalSketcher-Allegro.cpp:756-792 | on empty space without CTRL a box starts; on a shape it becomes the selection, or with CTRL is toggled (an unselected one appended); the preview point moves only for the box |
| AllegroEngineModel.Engine.MouseRightPressed | TechnicalSketcher-Allegro/TechnicalSketcher-Allegro.cpp:795-797 | drops the line being drawn |
| AllegroEngineModel.Engine.MouseLeftReleased | TechnicalSketcher-Allegro/TechnicalSketcher-Allegro.cpp:799-826 | a dragged box ends and the selection becomes BoxSelection of the selected layer |
| AllegroEngineModel.Engine.MouseHovered | TechnicalSketcher-Allegro/TechnicalSketcher-Allegro.cpp:845-878 | ignored over the GUI; the line modes move the preview point when not drawing; the select mode hovers the topmost near line or -1 |
| AllegroApplication.HoveredLines | TechnicalSketcher-Allegro/Application_logic.cpp:162-177 | exactly the ids of the lines within the highlight distance of the mouse |
| AllegroApplication.Closest | TechnicalSketcher-Allegro/Application_logic.cpp:187-204 | the first line within the distance whose distance is least; none exactly when no line is within it |
| AllegroApplication.ClosestHoveredAsWritten | TechnicalSketcher-Allegro/Application_logic.cpp:182-207 | as written: with a selected layer, the closest line's id |
| AllegroApplication.ClosestAsWrittenNoLayer | TechnicalSketcher-Allegro/Application_logic.cpp:184-185 | with no layer selected the source returns false, that is shape 0, not -1 |
| AllegroApplication.EraseFirst | TechnicalSketcher-Allegro/Application_logic.cpp:354-361 | the loop erases the first occurrence and reports whether there was one |
| AllegroApplication.Application.constructor | TechnicalSketcher-Allegro/include/Application.h:17-63 | the field initialisers: select tool, no preview point, nothing drawn, hovered or selected, thickness 0.1 |
| AllegroApplication.Application.CancelShape | TechnicalSketcher-Allegro/Application_logic.cpp:134-142 | no line is being drawn; the preview point shows iff the tool is not the select tool |
| AllegroApplication.Application.AddDefaultLayer | TechnicalSketcher-Allegro/Application_logic.cpp:55-58 | a layer named "Layer #" and the count goes to the front of the order and is selected; the layer counter moves by one, the drawing is cancelled and the previews regenerated |
| AllegroApplication.Application.AddLayer | TechnicalSketcher-Allegro/Application_logic.cpp:60-68 | the shape is cancelled, the named layer added in front and selected, the layer counter and the count move on |
| AllegroApplication.Application.AddLine | TechnicalSketcher-Allegro/Application_logic.cpp:70-82 | with no layer selected nothing changes; otherwise a line with distinct ends is added to the selected layer |
| AllegroApplication.Application.ChangeMode | TechnicalSketcher-Allegro/Application_logic.cpp:84-116 | the selection is cleared; select mode hides the preview point, the line tools show it at the snapped mouse |
| AllegroApplication.Application.IsShapeSelected | TechnicalSketcher-Allegro/Application_logic.cpp:118-127 | true iff the id is selected |
| AllegroApplication.Application.DeleteShape | TechnicalSketcher-Allegro/Application_logic.cpp:129-132 | the shape is removed from the selected layer, which must exist; previews are regenerated; the order, selection and layer counter stay |
| AllegroApplication.Application.GetHoveredShapes | TechnicalSketcher-Allegro/Application_logic.cpp:159-180 | empty with no layer selected, otherwise the hovered lines of the selected layer |
| AllegroApplication.Application.GetClosestHoveredShape | TechnicalSketcher-Allegro/Application_logic.cpp:182-207 | corrected: -1 with no layer selected, otherwise the closest hovered line of the selected layer or -1 |
| AllegroApplication.Application.MouseMoved | TechnicalSketcher-Allegro/Application_logic.cpp:215-236 | corrected, see Findings (with no layer the source stores shape 0): the select tool records the closest hovered shape; the line tools change nothing |
| AllegroApplication.Application.MouseHovered | TechnicalSketcher-Allegro/Application_logic.cpp:238-290 | corrected closest shape, see Findings: the select tool hovers the closest line and ends a dragged box by selecting the lines inside it; the line tools move the preview point when not drawing |
| AllegroApplication.Application.FinishSelectionBox | TechnicalSketcher-Allegro/Application_logic.cpp:247-265 | ending a dragged box selects exactly the lines of the selected layer lying wholly inside it, and the selection has no repeated id |
| AllegroApplication.Application.MouseDragged | TechnicalSketcher-Allegro/Application_logic.cpp:292-305 | the hovered shape is dropped when the mouse is off it |
| AllegroApplication.Application.SelectToolSpaceClicked | TechnicalSketcher-Allegro/Application_logic.cpp:328-335 | a selection box starts at the mouse and the preview point hides |
| AllegroApplication.Application.SelectToolShapeReleased | TechnicalSketcher-Allegro/Application_logic.cpp:343-374 | releasing the pressed shape selects it alone, or with CTRL toggles it; the selection stays duplicate-free |
| AllegroApplication.Application.SelectToolSpaceReleased | TechnicalSketcher-Allegro/Application_logic.cpp:382-391 | without CTRL and with nothing hovered the selection is cleared; otherwise it is kept |
| AllegroApplication.Application.LineToolSpaceClicked | TechnicalSketcher-Allegro/Application_logic.cpp:402-417 | the first click starts a line and leaves the preview point and the regenerate flag; the second adds it to the selected layer (unless empty), stops, and raises the flag iff a layer is selected; the layer list otherwise stays |
| AllegroApplication.Application.LineToolRightClicked | TechnicalSketcher-Allegro/Application_logic.cpp:420-425 | cancels the shape |
| AllegroApplication.Application.LineStripToolSpaceClicked | TechnicalSketcher-Allegro/Application_logic.cpp:441-456 | every click after the first adds the segment (unless empty), raises the regenerate flag iff a layer is selected, and the strip goes on from the click; the first leaves the flag; the layer list otherwise stays |
| AllegroApplication.Application.LineStripToolRightClicked | TechnicalSketcher-Allegro/Application_logic.cpp:459-464 | cancels the shape |
| AllegroApplication.HoveredIn | TechnicalSketcher-Allegro/Application_logic.cpp:162-177 | the loop computes HoveredLines |
| AllegroApplication.ClosestIn | TechnicalSketcher-Allegro/Application_logic.cpp:187-204 | the loop computes Closest |
| AllegroApplication.SelectInBox | TechnicalSketcher-Allegro/Application_logic.cpp:253-264 | the loop computes the box selection |
| AllegroApplication.BoxSelectionDistinct | TechnicalSketcher-Allegro/Application_logic.cpp:253-264 | on a layer with unique ids the box selection holds no id twice |
| AllegroApplication.ToggleOff | TechnicalSketcher-Allegro/Application_logic.cpp:354-361 | unselecting a selected id removes just it and keeps the selection duplicate-free |
| DrawingTools.UpwardOffset | src/Tools/ArcTool.cpp:62-63 | the vector from the arc's centre to the mouse with its y axis pointing up |
| DrawingTools.Angle | src/Tools/ArcTool.cpp:23-34 | 0 for a zero vector; with an arc cosine in [0, 180], an angle in [0, 360], at most 180 above the x axis and at least 180 below it, where it is 360 minus the arc cosine |
| DrawingTools.Accepted | src/TskHost.cpp:746-784 | the navigator's log gains the shape exactly when it has non-zero extent (distinct line end points, non-zero radius) and gains nothing otherwise |
| DrawingTools.ToolHost.constructor | include/Navigator.h:26-51 | no shapes, preview point hidden, line thickness 5 |
| DrawingTools.ToolHost.AddSegment | src/Navigator.cpp:358-368 | a line with identical end points is refused; any other is appended in the current thickness |
| DrawingTools.ToolHost.AddLine | src/TskHost.cpp:746-757 | the line is appended unless its end points coincide |
| DrawingTools.ToolHost.AddCircle | src/TskHost.cpp:759-770 | the circle is appended unless its radius is 0 |
| DrawingTools.ToolHost.AddArc | src/TskHost.cpp:772-783 | the arc is appended unless its radius is 0 |
| DrawingTools.LineTool.constructor | include/Tools/LineTool.h:9-13 | no line started; the preview line is the zero, transparent line |
| DrawingTools.LineTool.OnToolChanged | src/Tools/LineTool.cpp:6-9 | the preview point is shown at the snapped mouse |
| DrawingTools.LineTool.CancelShape | src/Tools/LineTool.cpp:56-60 | the line is dropped and the preview point shown at the snapped mouse |
| DrawingTools.LineTool.OnSpaceClicked | src/Tools/LineTool.cpp:11-28 | a first left click starts a line at the point and hides the preview point; a second hands the line ending there to the navigator and resets; any other button drops the line and adds nothing |
| DrawingTools.LineTool.OnMouseHovered | src/Tools/LineTool.cpp:34-41 | a started line's end follows the snapped point; otherwise the preview point follows the mouse |
| DrawingTools.LineTool.StepToolBack | src/Tools/LineTool.cpp:78-85 | reports whether a line was started, and afterwards none is; only then is the preview point reset |
| DrawingTools.LineTool.IsPropertiesWindowShown | src/Tools/LineTool.cpp:87-93 | shown exactly when no line is started |
| DrawingTools.LineStripTool.constructor | include/Tools/LineStripTool.h:8-12 | no strip started, the strip invariant holds |
| DrawingTools.LineStripTool.OnToolChanged | src/Tools/LineStripTool.cpp:6-9 | the preview point is shown at the snapped mouse |
| DrawingTools.LineStripTool.CancelShape | src/Tools/LineStripTool.cpp:56-60 | the strip is dropped and the preview point shown; the invariant is kept |
| DrawingTools.LineStripTool.OnSpaceClicked | src/Tools/LineStripTool.cpp:11-32 | each click makes the point the next joint of a chained strip; from the second click on, the segment from the previous joint is handed over unless it has length zero |
| DrawingTools.LineStripTool.OnMouseHovered | src/Tools/LineStripTool.cpp:37-44 | a started strip's loose end follows the snapped point; otherwise the preview point follows the mouse |
| DrawingTools.CircleTool.constructor | include/Tools/CircleTool.h:10-14 | no circle started; the preview is a zero circle in the default thickness and colour |
| DrawingTools.CircleTool.OnToolChanged | src/Tools/CircleTool.cpp:6-9 | the preview point is shown at the snapped mouse |
| DrawingTools.CircleTool.CancelShape | src/Tools/CircleTool.cpp:53-57 | the circle is dropped and the preview point shown at the snapped mouse |
| DrawingTools.CircleTool.OnSpaceClicked | src/Tools/CircleTool.cpp:11-27 | a first left click centres a circle of radius 0 at the point; a second hands the previewed circle over and resets; any other button drops it and adds nothing |
| DrawingTools.CircleTool.OnMouseHovered | src/Tools/CircleTool.cpp:33-39 | a started circle's radius is the distance from its centre to the snapped point, its centre unchanged; the preview point follows the mouse |
| DrawingTools.CircleTool.StepToolBack | src/Tools/CircleTool.cpp:75-82 | reports whether a circle was started, and afterwards none is |
| DrawingTools.CircleTool.IsPropertiesWindowShown | src/Tools/CircleTool.cpp:84-90 | shown exactly when no circle is started |
| DrawingTools.StartArcAsWritten | src/Tools/ArcTool.cpp:46-52 | as written: the arc is started at the point with radius 0 but the guide circle keeps its old radius |
| DrawingTools.StartArc | src/Tools/ArcTool.cpp:46-52 | the arc and its thin black guide circle both start at the point with radius 0 |
| DrawingTools.StartArcAsWrittenKeepsRadius | src/Tools/ArcTool.cpp:50 | the as-written start agrees on the arc and differs on the guide circle whenever the old radius is not 0 |
| DrawingTools.ArcTool.constructor | include/Tools/ArcTool.h:11-17 | no arc started; the preview arc is a zero arc in the default thickness and colour |
| DrawingTools.ArcTool.OnToolChanged | src/Tools/ArcTool.cpp:39-42 | the preview point is shown at the snapped mouse |
| DrawingTools.ArcTool.CancelShape | src/Tools/ArcTool.cpp:108-113 | both stages are dropped and the preview point shown |
| DrawingTools.ArcTool.OnSpaceClicked | src/Tools/ArcTool.cpp:44-75 | corrected first click, see Findings (the guide circle restarts at radius 0): first click starts the arc, second fixes radius and start angle, third hands the arc over and resets; any other button drops it and adds nothing; the second stage implies the first |
| DrawingTools.ArcTool.OnMouseHovered | src/Tools/ArcTool.cpp:81-94 | first stage: the guide circle's radius follows the point; second stage: the end angle follows the mouse; the preview point follows the mouse |
| DrawingTools.ArcTool.StepToolBack | src/Tools/ArcTool.cpp:131-138 | reports whether an arc was started, and afterwards none is |
| DrawingTools.ArcTool.IsPropertiesWindowShown | src/Tools/ArcTool.cpp:140-146 | shown exactly when no arc is started |

## Left out

- Network, archive and process steps: the release request, the download, zip extraction, the lock file and launching programs are oracles that succeed or fail. Printed and logged messages become outcome values.
- Threads: the native updater's worker thread is modelled as one sequential run.
- SrcLayerState.FailedIds: the `parse` oracle that stands for a shape's own `LoadJson` is not tied to `LineTyped`, so the model also admits a parse that succeeds on an element whose "type" is not "line", where `MakeShape` builds no shape and the source fails; the id counts are exact for every outcome the oracle gives.
- Floating point: coordinates, thicknesses and angles are `real`. Distances, vector lengths, `acos` and the screen/workspace conversions (`updateMousePositions` and the navigator's conversions) are function parameters.
- Rendering and GUI: previews, bitmaps, layer previews, properties windows, ImGui tab bookkeeping, panning and zooming (`RenderPreview`, `ShowPropertiesWindow`, `updateGUI`, `generateLayerPreviews`, `RenderLayerToBitmap`) are not modelled. Only the flags they set are kept.
- Empty handlers (`OnShapeClicked`, `OnMouseDragged`, `OnMouseReleased`, `OnLayerSelected` and the clipboard handlers of the tools) change nothing and are not modelled.
- `LineStripTool::StepToolBack` is declared in include/Tools/LineStripTool.h but has no definition, so it is not modelled.
- DrawingTools.ToolHost: the navigator's `AddLine(LineShape)`, `AddCircle` and `AddArc` exist only as commented-out code in src/TskHost.cpp. The host keeps a log of the shapes it accepts, with the safety checks of that code, instead of a file.
- ShapeIdentity.IdSource.MakeID: the 32-bit `nextID` counter is unbounded here, so its overflow after 2^31 ids is not modelled.
- The `size_t` wrap-around of the home-made library is written out only where a finding depends on it. Other counters are unbounded.
- AllegroUtils.MapInt: requires `inMax != inMin`, since the source divides by their difference.
- AllegroUtils.MapInt: the products and differences are unbounded integers here, so the overflow of C `int` arithmetic in `mapInt` (TechnicalSketcher-Allegro/utils.cpp:18-20) for large arguments is not modelled.
- NativeUpdater.UpdateMonitor.RunUpdater: the two `catch` blocks of src/Updater.cpp:271-282, which reset the status to NOTHING after any exception, are not modelled, because the library calls are oracles that report failure by their result and never throw.
- SrcLayer.Layer.UndoAction: the pair returned by `PopState` and the layer returned by `Duplicate` are assumed to be constructed in place (named return value optimisation); a compiler that copies them draws |top| (or |shapes| plus the snapshots') more ids.
- SrcLayer.History.PushState: the growth of the snapshot vector by half its size is the Microsoft standard library's policy, which the C++ standard leaves open; a library that doubles draws the same ids at different pushes.
- Components.Split: requires a non-empty delimiter, since the source never advances past an empty one and loops forever.
- AllegroApplication.Closest: the `-1` sentinel of the source assumes distances are never negative, and the model takes distances as given.
- AllegroLayerList.LayerList.Clear: `clear` and `loadJson` are declared in TechnicalSketcher-Allegro/include/LayerList.h but not defined. Clear empties the lists as a fresh list would, and loading is a parse oracle.
- SrcLayerList.LayerList: the body of `LoadJson` in src/LayerList.cpp is commented out, so it is not modelled.
- SrcLayerList.LayerList: its layers are id and name values only. src/LayerList.cpp uses a `Layer` with a `layerID` member, a class that is not part of this model, so what copying such a layer costs in shape ids is not modelled.
- SrcFileContent.FileContent: a layer is held as a value (`LayerBody`: its shapes and its snapshots' geometry) rather than as a `SrcLayer.Layer` object; its preview image and its `layerChanged` flag are not stored, and how the vector's capacity grows is taken to be by half, at least by one (`GrownRoom`).
- SrcLayer.History: include/LayerHistory.h is entirely commented out, yet include/Layer.h uses the class. It is modelled as the bounded snapshot stack its text describes.
- AllegroEngineModel.Engine.MoveLayerUp: requires an index below the layer count when it is positive, since the source swaps without checking.
- AllegroEngineModel.Engine.SelectLayer: the exception thrown for an unknown layer becomes `ok == false` with nothing changed. The same holds for AddLine without a selected layer.
- AllegroEngineModel.Engine.MouseLeftReleased: requires a selected layer while a selection box is dragged, since the source indexes the layer without a check.
- AllegroEngineModel.Engine.MouseHovered: requires a selected layer in select mode off the GUI, for the same reason.
- AllegroEngineModel.Engine.DeleteShape: requires a selected layer, for the same reason.
- AllegroApplication.Application.DeleteShape: requires a selected layer, since the source dereferences it without a check.
- AllegroApplication.Application.MouseHovered: requires a selected layer while a selection box is drawn, for the same reason.
- AllegroApplication.Application: include/Application.h is out of step with Application_logic.cpp (for example, `getSelectedLayer` returns a pointer in one and a reference in the other). The model follows Application_logic.cpp.
- Settings.TskSettings.AddRecentFile: requires the maximum-recent-files setting to be numeric, as the standard table makes it.
- TskDocumentModel.TskDocument.GetLayer: requires an existing id, since the source's lookup assumes one.
- TskDocumentModel.TskDocument.GetActiveLayer: requires a valid active index, since the source indexes without a check.
- Layer names follow each source: TskDocument names new layers "Layer k", while FileContent names them "Layer #k".
- JSON parsing of shapes and layers (nlohmann) is a function parameter that succeeds or fails.

## Findings

| source | as written | input that shows it | evidently intended | confidence | as-written member | corrected member |
|---|---|---|---|---|---|---|
| src/Updater.cpp:78-101 | the retry's result is ignored by the outer call, so the download reports success whatever happens | every attempt fails | report failure when every attempt fails | not executed | NativeUpdater.DownloadAsWrittenIgnoresFailures | NativeUpdater.DownloadWithRetry |
| src/shared/TinyStd.hpp:2507-2518 | `find` loops up to `length - delimiter.length` in `size_t` | a delimiter longer than the string | no match, npos | not executed | TinyString.FindAsWrittenReadsPastEnd | TinyString.Find |
| src/shared/TinyStd.hpp:2521-2532 | `substr` clamps only when `start + count` exceeds the length in `size_t` | `"abcdef".substr(3, 2^64 - 2)` | "def" | not executed | TinyString.SubstrAsWrittenOverruns | TinyString.Substr |
| src/shared/TinyStd.hpp:1873-1884 | the string formatter reports the full text length, not what fitted | MaxSize 4, `format("{}", "hello")` | the buffer length stays within MaxSize | not executed | TinyFormat.CopiedLengthOverrunsBuffer | TinyFormat.CopiedLength |
| src/shared/std.h:154-167 | `List::push` links the node but never increments `length` | one push onto an empty list | length 1 | not executed | StdArena.PushAsWrittenMiscounts | StdArena.PushCounts |
| TechnicalSketcher-Allegro/utils.cpp:188-204 | a name without '.' is returned whole as its extension | "Makefile" | "" | not executed | AllegroUtils.ExtensionAsWrittenOfPlainName | AllegroUtils.ExtensionMeaning |
| TechnicalSketcher-Allegro/LayerArray.cpp:40 | the guard `index < size() - 1` wraps on an empty vector | an empty array, index 0 | refused | not executed | AllegroLayerList.MoveBackGuardEmpty | AllegroLayerList.LayerArray.MoveLayerBack |
| include/Shape.h:36-38 | `IsValid` is true exactly for the invalid id -1 | a default-constructed id | invalid | not executed | ShapeIdentity.IsValidInverted | ShapeIdentity.IsValid |
| src/LayerList.cpp:83-86 | after a delete, the active layer id is compared with the layer count | delete the active layer of two | active cleared exactly when it was deleted | not executed | SrcLayerList.DeleteActiveAsWrittenFails | SrcLayerList.LayerList.DeleteLayer |
| include/TskDocument.hpp:174 | the defaulted constructor leaves no layers although the class promises at least one | `TskDocument()` | one layer "Layer 1" | not executed | TskDocumentModel.TskDocument.constructor | TskDocumentModel.TskDocument.WithFirstLayer |
| include/TskDocument.hpp:213-220 | `moveLayerBack` swaps at the search index even when the id was not found | an unknown id | nothing changes | not executed | TskDocumentModel.MoveBackUnknownAsWritten | TskDocumentModel.TskDocument.MoveLayerBack |
| include/TskSettings.hpp:58-63 | the trim runs before the append, so a full list grows to maximum + 1 | ten other recent files, maximum 10 | at most 10 | not executed | Settings.RecentAsWrittenElevenFiles | Settings.RecentAfterAddIsBounded |
| TechnicalSketcher-Allegro/TechnicalSketcher-Allegro.cpp:40-50 | the Layer copy does not copy `maxShapeID`, so a copied layer hands out used ids again | a layer holding shape 0, copied by inserting a layer in front | ids stay unique | not executed | AllegroEngineModel.CopyAsWrittenRepeatsId | AllegroEngineModel.Engine.AddLayer |
| TechnicalSketcher-Allegro/TechnicalSketcher-Allegro.cpp:612-628 | `moveLayerDown` uses the same wrapping `size() - 1` guard | no layers, layer 0 | refused | not executed | AllegroLayerList.MoveBackGuardEmpty | AllegroEngineModel.Engine.MoveLayerDown |
| TechnicalSketcher-Allegro/Application_logic.cpp:184-185 | with no layer selected, `false` is returned as a shape id, which is shape 0 | no selected layer | -1, no shape | not executed | AllegroApplication.ClosestAsWrittenNoLayer | AllegroApplication.Application.GetClosestHoveredShape |
| src/Tools/ArcTool.cpp:50 | the arc's radius is reset twice and the guide circle's radius never | start an arc after a previous guide circle of radius 5 | the guide circle starts at radius 0 | not executed | DrawingTools.StartArcAsWrittenKeepsRadius | DrawingTools.StartArc |
| PythonModules/updater.py:79-99 | a move that fails during the rotation leaves `outdatedSet` at 0, so nothing is moved back, and the next run's purge of `outdated/` deletes the installed entries already moved | `latest/` holding a and b, the second move failing, then the next run | the moved entries go back to `latest/` before the update gives up | not executed | PythonUpdater.RotationFaultThenNextRun | PythonUpdater.UpdateApplicationUndoingRotation |
| ApplicationUpdater/updater.py:51-138 | a failed rotation is caught by the outer `except` and the script goes on to `deleteFiles`, which purges `outdated/` holding the entries already moved | `latest/` holding a and b, the second move failing | the purge runs only after an update or a revert | not executed | LegacyUpdater.FailedRotationThenCleanup | LegacyUpdater.UpdateThenGuardedCleanup |
| TechnicalSketcher-Allegro/TechnicalSketcher-Allegro.cpp:594-628 | `iter_swap` goes through the copy constructor and `operator=`, which move names and shapes but leave each `maxShapeID` at its position | `moveLayerUp(1)` on a layer with lines 0 and 1 and an empty layer | each layer's counter moves with it | not executed | AllegroEngineModel.SwapAsWrittenRepeatsId | AllegroEngineModel.Engine.MoveLayerUp |
| src/TskDocument.cpp:29-33 | an unknown id is passed on as the index `size()`, where `erase` is undefined | `removeLayer` with an id no layer has | nothing changes | not executed | TskDocumentModel.RemoveUnknownAsWritten | TskDocumentModel.TskDocument.RemoveLayer |
