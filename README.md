# PST-to-EML extractor, modelled in Dafny

The extractor turns an Outlook PST archive into one `.eml` file per e-mail
message. It reads the archive through the MailBee library. The repository
holds three pieces, and this project models the decision logic of each:

- `pst_to_mime.exe` (`tomes_pst_extractor/lib/pst_to_mime.cs`), the backend
  the Python wrapper runs. It takes `accountName pstFile outputPath` and
  writes under `outputPath/accountName`. A folder is skipped when its
  `SafeShortName`, lower-cased, starts with "delete". Every other folder gets a
  directory named by its normalised name (backslashes become slashes, invalid
  path characters become `_`). Each `IPM.Note` item of that folder is written
  there as `<PstID>.eml`. A folder whose items throw is reported and left
  behind, and the run continues. Module `PstToMime` in `pst_to_mime.dfy`.
- The Docker build (`Program.cs`, class `PstExtractor`). It takes
  `pstFileName accountName` and works under fixed container roots. Pass 1
  skips every folder whose path `mbox_folder/name` matches `Delete.+`,
  ignoring case. For each folder it keeps, it appends `<PstID>\t<name>` to
  `folder_map.tsv`, creates a directory named by the PstID, and records that
  directory in `good_paths`. Pass 2 writes the notes of each recorded folder.
  A range or index fault abandons the rest of that folder; any other exception
  ends the program. Module `DockerExtractor` in `program.dfy`.
- The Python wrapper (`tomes_pst_extractor/pst_extractor.py`). It reads the
  backend's standard output character by character and assembles lines. It
  logs each line at the level its prefix names (`ERROR: …`, `warning: …`), or
  at "info". Module `Wrapper` in `pst_extractor.dfy`.

Shared parts:

- `text.dfy` (`Text`): ASCII case folding, Python's `strip()`, search for a
  character, and the decimal text of an identifier.
- `pst.dfy` (`Pst`): the archive as plain data, with folders, items and
  faults. It also defines the item loop both extractors share, `NoteRun`: write
  each note, and stop at the first item that raises.
- `filesystem.dfy` (`FileSystem`): class `Disk`. It holds the directories
  created, the EML files written and the lines of each text file. Every
  operation that touches the filesystem takes the `Disk` and states its effect
  on it.

MailBee stands outside the model. An archive is an `Archive` value:
`Opened(folders)`, or `Unreadable(fault)` when opening it throws. An item
carries two exceptions, each optional. The first is raised by reading its
`MessageClass` field, which the loops do for every item. The second is raised
by materialising and saving the item, which the loops do only for notes.
Each extractor's `Main` is a method taking the arguments, the archive and
the disk. It returns the exit status or the crash, plus the `ERROR:` line
printed.

### Notes on the code as written

The model follows the code where the code differs from its comments or
documentation:

- The Docker build's exclusion pattern is `Delete.+`, not `Delete.*`. A path
  that ends exactly in "Delete" does not match on that account
  (`DockerExtractor.TrailingDelete`). The pattern is searched in
  `mbox_folder + "/" + name`. The account name is therefore part of the test.
  An account name holding "delete" in any case, not followed by a line feed,
  skips every folder: the "/" after the account name supplies the character
  `.+` needs (`DockerExtractor.SlashMatchIff`,
  `DockerExtractor.MatchingAccountSkipsAll`). An account such as "Xdelete"
  skips every folder although it does not match on its own.
- `pst_to_mime.cs` tests `SafeShortName` with a prefix check, while the Docker
  build tests the path with a search anywhere. Take a folder named
  "Deleted Items/Inbox" whose short name is "Inbox" (the short name being the
  last path segment). `pst_to_mime.cs` keeps it and the Docker build skips it
  (`DockerExtractor.VariantsDisagree`). A folder named and short-named "Delete"
  is skipped by `pst_to_mime.cs` and kept by the Docker build, unless the
  account folder holds "delete" not followed by a line feed
  (`DockerExtractor.TrailingDeleteDisagrees`).
- `NormalizeFolderName` replaces only the characters of
  `Path.GetInvalidPathChars()`. On Unix that set holds NUL only, so `:` and `*`
  pass through. The function does not lower-case, and does not replace
  whitespace. The one-for-one replacement keeps the length, so a non-empty name
  never normalises to an empty one.
- The Docker build does not sanitise folder names at all, despite its header
  comment. Its directories are named by PstID, and `folder_map.tsv` holds the
  lower-cased raw name.
- In the Docker build, only `ArgumentOutOfRangeException` and
  `IndexOutOfRangeException` are caught in pass 2. Any other exception ends the
  program (`DockerExtractor.Crash.Uncaught`).
- The Python wrapper never logs characters after the last line feed. Its
  buffer is not flushed when the loop ends
  (`Wrapper.AssembleIsTheCut`, `Wrapper.NothingLoggedWithoutLineFeed`).

## Model

| member | source | states |
|---|---|---|
| Text.Strip | tomes_pst_extractor/pst_extractor.py:148 | the result is the input without a leading and a trailing run of whitespace: a slice of the input with only whitespace cut off either side, and it starts and ends with a non-whitespace character unless empty |
| Text.StripBlank | tomes_pst_extractor/pst_extractor.py:148 | a line made only of whitespace strips to the empty string |
| Text.FirstIndexOf | tomes_pst_extractor/pst_extractor.py:147 | finds the first occurrence of a character: none exactly when absent; otherwise the character is at that position and not before it |
| Text.IdText | Program.cs:100 | the text of a PstID as `Int32.ToString` writes it: a minus sign first exactly for a negative identifier, digits everywhere else, and no leading zero unless the identifier is 0 |
| Text.IdTextValue | Program.cs:100 | the text of a PstID reads back as the identifier's decimal value |
| Text.IdTextInjective | Program.cs:100-104 | distinct identifiers have distinct texts, so directory names, `.eml` names and map keys never collide |
| Pst.EmlPathInjective | tomes_pst_extractor/lib/pst_to_mime.cs:193 | within one directory, two items get the same `.eml` path only if they have the same PstID |
| Pst.EmlPath | tomes_pst_extractor/lib/pst_to_mime.cs:193 | the file of an item is `<folder directory>/<PstID>.eml` (also Program.cs:126) |
| Pst.Raised | tomes_pst_extractor/lib/pst_to_mime.cs:185-195 | the exception an item raises when reached: reading its class for any item, materialising and saving only for a note |
| Pst.NoteStep | tomes_pst_extractor/lib/pst_to_mime.cs:182-197 | one turn of the item loop: nothing after an exception, the item's exception if it raises, its file if it is a note, otherwise nothing |
| Pst.NoteRun | tomes_pst_extractor/lib/pst_to_mime.cs:181-197 | the item loop as the turns of `NoteStep` over the items in order (also Program.cs:122-130) |
| Pst.Notes | tomes_pst_extractor/lib/pst_to_mime.cs:186-189 | the notes of a folder are exactly its items whose class is `IPM.Note`, never more than the items |
| Pst.NoteRunNext | tomes_pst_extractor/lib/pst_to_mime.cs:182-197 | the item loop after one more item is one more turn of the loop |
| Pst.NoteRunStops | tomes_pst_extractor/lib/pst_to_mime.cs:192-195 | once an item has raised, later items change nothing: the loop has ended |
| Pst.NoteRunComplete | tomes_pst_extractor/lib/pst_to_mime.cs:181-200 | a loop that raised nothing wrote exactly the notes, in order, each to `dir/<PstID>.eml`, and at most as many files as items |
| Pst.NoteRunFault | tomes_pst_extractor/lib/pst_to_mime.cs:181-200 | a loop that raised stopped at an item raising that exception, having written exactly the notes before it |
| Pst.NoteRunWritesNotes | tomes_pst_extractor/lib/pst_to_mime.cs:186-195 | every file written belongs to a note of the folder that did not raise |
| Pst.NoteRunDistinct | tomes_pst_extractor/lib/pst_to_mime.cs:193-195 | with distinct item identifiers, no file is written twice |
| FileSystem.AppendLines | Program.cs:150-159 | appending lines creates the file if missing and leaves every other file as it was |
| FileSystem.AppendLinesAppends | Program.cs:150-159 | appending only adds at the end: the old lines stay a prefix, the new lines are the last ones, and the file grows by their number |
| FileSystem.AppendLinesTwice | Program.cs:150-159 | appending twice equals appending the concatenation: earlier lines are never rewritten, reordered or removed |
| FileSystem.Disk.CreateDirectory | tomes_pst_extractor/lib/pst_to_mime.cs:152 | `Directory.CreateDirectory` adds the directory and changes no file (also Program.cs:78, 87, 103) |
| FileSystem.Disk.SaveMessage | tomes_pst_extractor/lib/pst_to_mime.cs:195 | saving a message adds exactly one file at the end of the files written and changes nothing else (also Program.cs:128) |
| FileSystem.Disk.FileExists | Program.cs:150 | a text file exists exactly when it has been created or appended to |
| FileSystem.Disk.CreateFile | Program.cs:150-155 | `File.Create` leaves an empty file and changes nothing else |
| FileSystem.Disk.AppendLine | Program.cs:157-159 | a line written in append mode goes at the end of the file, which is created if missing |
| PstToMime.SplitAny | tomes_pst_extractor/lib/pst_to_mime.cs:221 | `Split` gives one piece more than there are separators, and no piece holds a separator |
| PstToMime.JoinSplitIsMask | tomes_pst_extractor/lib/pst_to_mime.cs:221 | splitting at the invalid characters and joining with `_` replaces each one by exactly one `_`, with no collapsing |
| PstToMime.NormalizeFolderName | tomes_pst_extractor/lib/pst_to_mime.cs:217-221 | same length as the input, no backslash; each character is the input character with `\` made `/` and an invalid character made `_` |
| PstToMime.NormalizeIdempotent | tomes_pst_extractor/lib/pst_to_mime.cs:217-221 | normalising twice equals normalising once when `_` and `/` are valid path characters |
| PstToMime.NormalizeMergesSeparators | tomes_pst_extractor/lib/pst_to_mime.cs:217 | `Inbox\2019` and `Inbox/2019` normalise to the same directory name |
| PstToMime.SkipsByShortName | tomes_pst_extractor/lib/pst_to_mime.cs:110 | a folder is skipped when its lower-cased `SafeShortName` starts with "delete" |
| PstToMime.SelectedIds | tomes_pst_extractor/lib/pst_to_mime.cs:104-120 | the identifiers of the folders not skipped by the short-name rule, in enumeration order |
| PstToMime.GetFoldersToProcess | tomes_pst_extractor/lib/pst_to_mime.cs:104-120 | returns the identifiers the selection function gives for the folders, in enumeration order |
| PstToMime.SelectedIdsMembers | tomes_pst_extractor/lib/pst_to_mime.cs:104-120 | an identifier is selected exactly when some folder carrying it has a lower-cased `SafeShortName` not starting with "delete" |
| PstToMime.SelectedIdsAppend | tomes_pst_extractor/lib/pst_to_mime.cs:105-118 | selection preserves enumeration order: selecting from two runs of folders concatenates the selections |
| PstToMime.KeptDespiteName | tomes_pst_extractor/lib/pst_to_mime.cs:110 | the test reads only `SafeShortName`: "Deleted Items/Inbox" with short name "Inbox" is kept, "Deleted Items" itself is skipped |
| PstToMime.ProcessedIffKept | tomes_pst_extractor/lib/pst_to_mime.cs:104-146 | with unique identifiers, a folder is processed exactly when its short name does not start with "delete" |
| PstToMime.ProcessMessages | tomes_pst_extractor/lib/pst_to_mime.cs:181-200 | writes the files of the item loop and returns their count, or throws the exception of the first item that raises: reading the class of any item, or materialising and saving a note |
| PstToMime.ReturnedCountIsNotes | tomes_pst_extractor/lib/pst_to_mime.cs:181-200 | a returned count is the number of `IPM.Note` items, at most the folder's item count |
| PstToMime.ProcessFolders | tomes_pst_extractor/lib/pst_to_mime.cs:140-163 | the total, directories and files are those of the folder loop over the listed folders; no text file changes |
| PstToMime.FolderDir | tomes_pst_extractor/lib/pst_to_mime.cs:149-150 | a processed folder's directory is `mimePath/NormalizeFolderName(name)` |
| PstToMime.RunFolders | tomes_pst_extractor/lib/pst_to_mime.cs:140-161 | the folder loop as the turns of `FolderStep` over the folders in order |
| PstToMime.FolderStep | tomes_pst_extractor/lib/pst_to_mime.cs:141-161 | one turn of the folder loop: an unlisted folder changes nothing; a listed one gets its directory and its files, and adds its count unless it throws |
| PstToMime.RunFoldersNext | tomes_pst_extractor/lib/pst_to_mime.cs:141-161 | the folder loop after one more folder is one more turn of the loop |
| PstToMime.RunFoldersDirs | tomes_pst_extractor/lib/pst_to_mime.cs:144-152 | a directory is created exactly for listed folders, named `mimePath/NormalizeFolderName(name)`, so folders normalising alike share one |
| PstToMime.RunFoldersAppend | tomes_pst_extractor/lib/pst_to_mime.cs:141-161 | the loop splits at any folder: later folders are processed the same whatever earlier ones did |
| PstToMime.ThrowingFolderAddsNothing | tomes_pst_extractor/lib/pst_to_mime.cs:155-160 | a listed folder that throws adds 0 to the total, yet its files written before the throw stay |
| PstToMime.TotalAtMostWritten | tomes_pst_extractor/lib/pst_to_mime.cs:140-160 | the total never exceeds the number of files written |
| PstToMime.MimePath | tomes_pst_extractor/lib/pst_to_mime.cs:72 | the account's MIME directory is `outputPath + "/" + accountName` |
| PstToMime.ParseArgs | tomes_pst_extractor/lib/pst_to_mime.cs:62-72 | fewer than three arguments is an error; otherwise the MIME path is `outputPath + "/" + accountName` and the PST file is the second argument |
| PstToMime.Run | tomes_pst_extractor/lib/pst_to_mime.cs:62-88 | missing arguments: status 1 and the `ERROR:` line, nothing written; unreadable archive: the exception's HResult and message; otherwise status 0 and exactly the effects of processing the selected folders under `outputPath/accountName` |
| DockerExtractor.MatchesDeleteInside | Program.cs:84-98 | a match anywhere inside a path is a match of the path |
| DockerExtractor.DeleteAt | Program.cs:84 | `Delete.+` ignoring case matches at a position: "delete" in any case, then one character other than a line feed |
| DockerExtractor.MatchesDelete | Program.cs:84-95 | the pattern matches somewhere in the text |
| DockerExtractor.Skipped | Program.cs:90-98 | a folder is skipped when `mbox_folder + "/" + name` matches |
| DockerExtractor.TrailingDelete | Program.cs:84 | a path ending in "Delete" matches exactly when the part before already matches or itself ends in "delete": the trailing word alone never matches |
| DockerExtractor.NoMatchStartsInTail | Program.cs:84 | with "Delete" appended to `p`, no match starts at any of the last five characters of `p`, whose six-letter windows reach the appended "D" |
| DockerExtractor.SlashMatchIff | Program.cs:84-95 | a path followed by `/` matches exactly when the path holds "delete" in any case, not followed by a line feed |
| DockerExtractor.MatchingAccountSkipsAll | Program.cs:77-98 | an account name holding "delete" in any case, not followed by a line feed, makes every folder skipped, whatever its name |
| DockerExtractor.VariantsDisagree | Program.cs:84-98 | a folder "Deleted Items/Inbox" with short name "Inbox" is kept by the short-name prefix rule of `pst_to_mime.cs` and skipped by this build |
| DockerExtractor.TrailingDeleteDisagrees | Program.cs:84-98 | when the account folder holds no "delete" (in any case) that is not followed by a line feed, a folder named and short-named "Delete" is skipped by `pst_to_mime.cs` and kept by this build |
| DockerExtractor.TopName | Program.cs:75-85 | the top name has the root folder name's length; each space becomes `_` and every other character its lower-case form, so no space or upper-case ASCII letter remains and `_` appears exactly where the name had a space or `_` |
| DockerExtractor.TopNameIdempotent | Program.cs:75-85 | deriving the top name from a top name gives it back unchanged |
| DockerExtractor.MapLineRoundTrip | Program.cs:100-101 | a `folder_map.tsv` line reads back, split at its first tab, as the folder's PstID text and its lower-cased name, even when the name holds tabs |
| DockerExtractor.MapLine | Program.cs:100-101 | the line of a folder: its PstID text, a tab, and its lower-cased name |
| DockerExtractor.Combine | Program.cs:148 | `Path.Combine` on Unix for a relative name: a separator is added unless the directory is empty or ends with one |
| DockerExtractor.Pass1 | Program.cs:88-106 | pass 1 as the steps of `Pass1Step` over the folders in order |
| DockerExtractor.Pass1Step | Program.cs:90-104 | one folder of pass 1: nothing when skipped, else its map line, its `good_paths` entry and its directory |
| DockerExtractor.Pass1Snoc | Program.cs:88-106 | pass 1 over one more folder adds that folder's line, path entry and directory, or nothing if it is skipped |
| DockerExtractor.Pass1Paths | Program.cs:102-104 | `good_paths` has an entry for an identifier exactly when a folder with it is not skipped, and the entry is `account_top_path/<PstID>` |
| DockerExtractor.Pass1DirsArePaths | Program.cs:102-104 | the directories pass 1 creates are exactly the `good_paths` values |
| DockerExtractor.Pass1Lines | Program.cs:88-106 | a map line is written exactly for each folder that is not skipped, and no more lines than folders |
| DockerExtractor.Accepted | Program.cs:88-98 | the accepted folders are exactly the folders not skipped |
| DockerExtractor.Pass1LinesInOrder | Program.cs:88-106 | the map gets one line per accepted folder, in collection order, and nothing else |
| DockerExtractor.OneMapLinePerDirectory | Program.cs:100-104 | with unique identifiers, the map lines have pairwise distinct keys, and a key is present exactly for the folders with a `good_paths` entry |
| DockerExtractor.KeysDistinct | Program.cs:100-101 | with unique identifiers, every map line parses and no two carry the same key |
| DockerExtractor.EarlierKey | Program.cs:100-101 | a map line written before a folder was reached does not carry that folder's key |
| DockerExtractor.SkippedFolderHasNoPath | Program.cs:95-118 | with unique identifiers, a skipped folder has no `good_paths` entry, so pass 2 writes nothing for it |
| DockerExtractor.Pass2Next | Program.cs:108-141 | pass 2 after one more folder is one more turn of the folder loop |
| DockerExtractor.Pass2 | Program.cs:108-141 | pass 2 as the turns of `Pass2Step` over the folders in order |
| DockerExtractor.Structural | Program.cs:131-138 | the exceptions pass 2 catches per folder are exactly `ArgumentOutOfRangeException` and `IndexOutOfRangeException` |
| DockerExtractor.Pass2Step | Program.cs:108-139 | one folder of pass 2: nothing after an escaped exception or without a `good_paths` entry, else the folder's files, with a range or index fault caught and any other escaping |
| DockerExtractor.Pass2Stops | Program.cs:108-141 | once an exception has escaped, later folders change nothing |
| DockerExtractor.Pass2Continues | Program.cs:131-139 | after folders that let nothing escape, the following folders are processed as if they came first |
| DockerExtractor.AbandonedFolderKeepsFiles | Program.cs:120-139 | a folder abandoned on a range or index fault keeps its files, and the folders after it are processed as usual |
| DockerExtractor.Pass2WritesNotesOfGoodFolders | Program.cs:111-128 | every file written is an `IPM.Note` item of a folder with a `good_paths` entry, written to `good_paths[PstID]/<item PstID>.eml` |
| DockerExtractor.PstExtractor.constructor | Program.cs:70-80 | the PST path is under the input root; `mbox_folder` is the output root, `/`, and the account name, and it is created |
| DockerExtractor.PstExtractor.WriteToFile | Program.cs:145-161 | appends exactly `<id>\t<path>` to `mbox_folder/folder_map.tsv`, creating it if missing, and changes nothing else |
| DockerExtractor.PstExtractor.SaveFolderItems | Program.cs:120-130 | writes the files of the item loop and returns the exception of the first item that raises: reading the class of any item, or materialising and saving a note |
| DockerExtractor.PstExtractor.RecordFolder | Program.cs:90-104 | one folder of pass 1: nothing for a skipped folder, else its map line, directory and `good_paths` entry |
| DockerExtractor.PstExtractor.RecordFolders | Program.cs:88-106 | `good_paths`, `folder_map.tsv` and the directories afterwards are those of pass 1 over the collection |
| DockerExtractor.PstExtractor.WriteGoodFolders | Program.cs:108-141 | the files written and the escaping exception are those of pass 2 over the collection with the final `good_paths` |
| DockerExtractor.PstExtractor.Extract | Program.cs:82-142 | sets the top name and path from the first root folder, creates the top directory, then has exactly the effects of both passes |
| DockerExtractor.RunDocker | Program.cs:28-48 | a missing argument, an unreadable archive or an empty root collection ends the run with that crash and no effect; otherwise the effects of both passes under `/home/tomes/data/mime_emails/<account>` and a crash exactly when an exception escapes pass 2 |
| Wrapper.SplitLevel | tomes_pst_extractor/pst_extractor.py:147-150 | no split exactly when the line has no colon; otherwise a colon-free prefix and a rest that rebuild the line around the first colon |
| Wrapper.ClassifyLine | tomes_pst_extractor/pst_extractor.py:146-154 | the level is always one of debug, info, warning, error and critical, and a level other than info needs a colon in the line |
| Wrapper.ClassifyNamedLevel | tomes_pst_extractor/pst_extractor.py:146-148 | a prefix naming a level, once stripped and lower-cased, gives that level and the stripped text after the first colon |
| Wrapper.ClassifyOtherPrefix | tomes_pst_extractor/pst_extractor.py:153-154 | a prefix naming no level gives info and the whole line stripped |
| Wrapper.ClassifyNoColon | tomes_pst_extractor/pst_extractor.py:149-154 | a line without a colon gives info and the whole line stripped |
| Wrapper.SplitAtFirstColon | tomes_pst_extractor/pst_extractor.py:147 | a line splits at the first colon, after a colon-free prefix |
| Wrapper.LaterColonsKept | tomes_pst_extractor/pst_extractor.py:147 | only the first colon splits: later colons stay in the message |
| Wrapper.StripAfterSpace | tomes_pst_extractor/pst_extractor.py:148 | leading whitespace does not survive `strip()` |
| Wrapper.StripUnpadded | tomes_pst_extractor/pst_extractor.py:148 | `strip()` leaves a string with no whitespace at either end unchanged |
| Wrapper.StripPadded | tomes_pst_extractor/pst_extractor.py:148 | `strip()` removes exactly the whitespace around a word |
| Wrapper.LevelIgnoresCaseAndSpace | tomes_pst_extractor/pst_extractor.py:148 | the level prefix is matched ignoring case and surrounding whitespace |
| Wrapper.BackendErrorLogged | tomes_pst_extractor/pst_extractor.py:146-154 | every `ERROR: <message>` line of the backend is logged at error with the message stripped |
| Wrapper.AssembleSplitsOutput | tomes_pst_extractor/pst_extractor.py:192-202 | the logged lines hold no line feed, nor does the leftover buffer; the lines, each with its line feed, followed by the leftover, are exactly the output |
| Wrapper.Assemble | tomes_pst_extractor/pst_extractor.py:181-202 | the buffer after reading the output: each line feed turns the characters since the last one into a line |
| Wrapper.TerminatedUnique | tomes_pst_extractor/pst_extractor.py:192-202 | a text has only one cut into line-feed-free lines, each ended by a line feed, plus a line-feed-free remainder |
| Wrapper.AssembleIsTheCut | tomes_pst_extractor/pst_extractor.py:187-202 | the lines logged are exactly the line-feed-terminated lines of the output; the characters after the last line feed are never logged |
| Wrapper.NothingLoggedWithoutLineFeed | tomes_pst_extractor/pst_extractor.py:192-202 | output without a line feed logs nothing |
| Wrapper.BackendErrorReport | tomes_pst_extractor/pst_extractor.py:192-202 | a backend report `ERROR: <message>` ending in a line feed is logged as exactly one error record with the message stripped |
| Wrapper.LogBackendOutput | tomes_pst_extractor/pst_extractor.py:181-202 | the records logged are the classifications of the assembled lines, in order, and the buffer ends holding the unfinished line |

## Left out

- MailBee (`PstReader`, `GetPstRootFolders`, `PstFields`, `GetAsMailMessage`, `SaveMessage`) is foreign code. An archive is an `Archive` value, and an item carries two optional exceptions: the one reading its `MessageClass` field raises, and the one materialising and saving it would raise.
- What MailBee puts in `SafeShortName` is not modelled. It is an independent field of `Folder`, so the lemmas only say what the skip test does with it.
- The license key set-up in both `Main`s is left out, including `Convert.FromBase64String` of the placeholder text in `Program.cs`.
- `Path.GetInvalidPathChars()` is a parameter. The model requires only that the set contains NUL, which holds on every platform.
- `Path.GetFullPath` (Program.cs:72 and 126) is taken as the identity on the absolute paths it receives. It also removes `.` and `..` segments and collapses repeated separators, and it resolves nothing through symbolic links; none of that is modelled. An account name ending in `/`, or an empty name of the first root folder, therefore gives `//` inside the model's paths, where the program's `.eml` paths have a single separator.
- Parent directories created implicitly by `Directory.CreateDirectory` are not recorded.
- No `Disk` operation fails in the model. In the source, `Directory.CreateDirectory`, `File.Create` and `StreamWriter` can throw on a path that is too long, a permission problem or a file in the way. In `pst_to_mime.cs`, `Directory.CreateDirectory(folderPath)` at line 152 is outside the per-folder `try`. Such an exception there ends the run through `Main`'s handler with its HResult, and no later folder is processed. In `Program.cs`, such exceptions at lines 78, 87, 103, 153 and 157 end the program. `RunFoldersAppend` and `Run`'s status 0 hold only for a filesystem that does not fail.
- A text file is modelled as the sequence of strings passed to `WriteLine`. A folder name holding a line feed is written by `WriteToFile` as several physical lines of `folder_map.tsv`, one of which can carry another folder's key. In the model it is one line, so `OneMapLinePerDirectory` and `KeysDistinct` are about `WriteLine` records, not about the physical lines of the file.
- `ToLower` and Python's `lower()` are ASCII lower-casing: a non-ASCII letter such as `É` stays as it is in the model, while .NET and Python lower it. This affects `MapLine`, `TopName` and the short-name test. For the Python level test the model is still exact: no non-ASCII character lower-cases to a letter of the five level names.
- `StartsWith("delete")` in `pst_to_mime.cs` is a culture-sensitive comparison. It ignores code points such as the soft hyphen U+00AD. The model compares ordinally, character by character.
- Console output other than the `ERROR:` lines of `pst_to_mime.cs`'s `Main` is left out.
- Python logging dispatch, the event logger, the CLI, YAML configuration and `sys.exit` are left out.
- `validate`, the `.exe` check and the path helpers of the Python wrapper are left out. They are filesystem checks and platform-specific normalisation.
- Subprocess plumbing is left out: `Popen`, `poll`, the `mono` prefix, and the charset encode/decode round trip. The modelled input is the sequence of characters the loop reads. The timing of `poll()` may stop the loop before every character has been read, and that timing is not modelled.
- The integration test in `tests/test__pst_extractor.py` is not modelled. It needs the compiled backend and a sample archive.
- The exit status is the full `HResult`. Truncation of the status by the operating system is not modelled.
- PstToMime.ProcessFolders: the total is an unbounded natural number, so 32-bit overflow of `int totalFromPST` is not modelled.
- PstToMime.ProcessMessages: the count is an unbounded natural number, so 32-bit overflow of `int totalFromFolder` is not modelled.
