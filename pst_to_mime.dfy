/** The command-line extractor `pst_to_mime.exe` that the Python wrapper runs:
    it keeps the folders whose short name does not start with "delete", writes
    each folder's `IPM.Note` items as `<PstID>.eml` under a directory named by
    the normalised folder name, and isolates a failing folder from the others. */
module PstToMime {
  import opened Text
  import opened Pst
  import opened FileSystem

  /** `Path.GetInvalidPathChars()`. The set is platform-specific, but on every
      platform it contains NUL, so it is never empty. */
  type InvalidPathChars = s: set<char> | '\0' in s witness {'\0'}

  // ---------------------------------------------------------------------------
  // Folder-name normalisation

  /** The number of characters of `s` that are in `seps`. */
  function SeparatorCount(s: string, seps: set<char>): nat {
    if s == [] then 0 else (if s[0] in seps then 1 else 0) + SeparatorCount(s[1..], seps)
  }

  /** `String.Split(char[])`: the pieces between separators, empty pieces kept,
      so `n` separators give `n + 1` pieces, none holding a separator. */
  function SplitAny(s: string, seps: set<char>): (parts: seq<string>)
    ensures |parts| == SeparatorCount(s, seps) + 1
    ensures forall i, k :: 0 <= i < |parts| && 0 <= k < |parts[i]| ==> parts[i][k] !in seps
  {
    if s == [] then [[]]
    else
      var rest := SplitAny(s[1..], seps);
      if s[0] in seps then [[]] + rest else [[s[0]] + rest[0]] + rest[1..]
  }

  /** `String.Join(sep, parts)`. */
  function Join(sep: string, parts: seq<string>): string {
    if parts == [] then []
    else if |parts| == 1 then parts[0]
    else parts[0] + sep + Join(sep, parts[1..])
  }

  /** `s` with every character of `seps` replaced by `_`, one for one. */
  function Mask(s: string, seps: set<char>): string {
    seq(|s|, i requires 0 <= i < |s| => if s[i] in seps then '_' else s[i])
  }

  lemma {:induction false} JoinConsChar(sep: string, c: char, p: string, ps: seq<string>)
    ensures Join(sep, [[c] + p] + ps) == [c] + Join(sep, [p] + ps)
  {
    if ps != [] {
      assert ([[c] + p] + ps)[1..] == ps == ([p] + ps)[1..];
      assert ([c] + p) + sep + Join(sep, ps) == [c] + (p + sep + Join(sep, ps));
    }
  }

  /** Splitting at every separator and joining the pieces with `_` replaces
      each separator by exactly one `_`, without collapsing runs of them. */
  lemma {:induction false} JoinSplitIsMask(s: string, seps: set<char>)
    ensures Join("_", SplitAny(s, seps)) == Mask(s, seps)
  {
    if s != [] {
      var rest := SplitAny(s[1..], seps);
      JoinSplitIsMask(s[1..], seps);
      if s[0] in seps {
        assert ([[]] + rest)[1..] == rest;
        assert Mask(s, seps) == "_" + Mask(s[1..], seps);
      } else {
        assert rest == [rest[0]] + rest[1..];
        JoinConsChar("_", s[0], rest[0], rest[1..]);
        assert Mask(s, seps) == [s[0]] + Mask(s[1..], seps);
      }
    }
  }

  /** What normalisation does to one character: a backslash becomes a slash,
      and then an invalid path character becomes `_`. */
  function NormalizeChar(c: char, invalid: set<char>): char {
    var d := if c == '\\' then '/' else c;
    if d in invalid then '_' else d
  }

  /** `NormalizeFolderName`: backslashes become slashes, then the name is split
      at every invalid path character and the pieces are joined with `_`. The
      result has the length of the input, holds no backslash, and each of its
      characters is the normalisation of the input character at that position. */
  function NormalizeFolderName(name: string, invalid: InvalidPathChars): (r: string)
    ensures |r| == |name|
    ensures forall i :: 0 <= i < |name| ==> r[i] == NormalizeChar(name[i], invalid)
    ensures '\\' !in r
  {
    var slashed := ReplaceChar(name, '\\', '/');
    JoinSplitIsMask(slashed, invalid);
    Join("_", SplitAny(slashed, invalid))
  }

  /** Normalising twice changes nothing more, as long as neither `_` nor `/` is
      itself an invalid path character (true on every platform). */
  lemma NormalizeIdempotent(name: string, invalid: InvalidPathChars)
    requires '_' !in invalid && '/' !in invalid
    ensures NormalizeFolderName(NormalizeFolderName(name, invalid), invalid) == NormalizeFolderName(name, invalid)
  {
    var once := NormalizeFolderName(name, invalid);
    var twice := NormalizeFolderName(once, invalid);
    forall i | 0 <= i < |name|
      ensures twice[i] == once[i]
    {
      assert twice[i] == NormalizeChar(once[i], invalid);
    }
  }

  /** Normalisation is lossy: a name written with backslashes and the same name
      written with slashes end up in the same directory. */
  lemma NormalizeMergesSeparators(invalid: InvalidPathChars)
    requires '/' !in invalid
    ensures NormalizeFolderName("Inbox\\2019", invalid) == NormalizeFolderName("Inbox/2019", invalid)
  {
    var a := NormalizeFolderName("Inbox\\2019", invalid);
    var b := NormalizeFolderName("Inbox/2019", invalid);
    forall i | 0 <= i < |a|
      ensures a[i] == b[i]
    {
      assert a[i] == NormalizeChar("Inbox\\2019"[i], invalid);
    }
  }

  // ---------------------------------------------------------------------------
  // Folder selection

  /** A folder is skipped when its lower-cased `SafeShortName` starts with "delete". */
  predicate SkipsByShortName(f: Folder) {
    StartsWith(Lower(f.safeShortName), "delete")
  }

  /** The identifiers of the folders that are not skipped, in enumeration order. */
  function SelectedIds(folders: seq<Folder>): seq<int> {
    if folders == [] then []
    else
      var prev := SelectedIds(folders[..|folders| - 1]);
      var f := folders[|folders| - 1];
      if SkipsByShortName(f) then prev else prev + [f.pstId]
  }

  /** `GetFoldersToProcess`. */
  method GetFoldersToProcess(folders: seq<Folder>) returns (ids: seq<int>)
    ensures ids == SelectedIds(folders)
  {
    ids := [];
    var i := 0;
    while i < |folders|
      invariant 0 <= i <= |folders|
      invariant ids == SelectedIds(folders[..i])
    {
      var folder := folders[i];
      assert folders[..i + 1][..i] == folders[..i];
      if !SkipsByShortName(folder) {
        ids := ids + [folder.pstId];
      }
      i := i + 1;
    }
    assert folders[..|folders|] == folders;
  }

  /** An identifier is selected exactly when some folder carrying it is not skipped. */
  lemma {:induction false} SelectedIdsMembers(folders: seq<Folder>, x: int)
    ensures x in SelectedIds(folders) <==> exists f :: f in folders && f.pstId == x && !SkipsByShortName(f)
  {
    if folders != [] {
      var init := folders[..|folders| - 1];
      SelectedIdsMembers(init, x);
      assert folders == init + [folders[|folders| - 1]];
    }
  }

  /** Selection keeps enumeration order: selecting from two consecutive runs of
      folders is selecting from each and concatenating. */
  lemma {:induction false} SelectedIdsAppend(a: seq<Folder>, b: seq<Folder>)
    ensures SelectedIds(a + b) == SelectedIds(a) + SelectedIds(b)
  {
    if b == [] {
      assert a + b == a;
    } else {
      var init := b[..|b| - 1];
      SelectedIdsAppend(a, init);
      assert (a + b)[..|a + b| - 1] == a + init;
    }
  }

  /** The skip test reads only `SafeShortName`: a folder inside "Deleted Items"
      whose own short name is "Inbox" is still processed, while the "Deleted
      Items" folder itself is skipped. */
  lemma KeptDespiteName(id: int, items: seq<Item>)
    ensures SelectedIds([Folder(id, "Deleted Items/Inbox", "Inbox", items)]) == [id]
    ensures SelectedIds([Folder(id, "Deleted Items", "Deleted Items", items)]) == []
  {
    var keep := [Folder(id, "Deleted Items/Inbox", "Inbox", items)];
    var skip := [Folder(id, "Deleted Items", "Deleted Items", items)];
    assert keep[..0] == [] && skip[..0] == [];
    assert Lower("Deleted Items")[..6] == "delete";
    assert Lower("Inbox")[..5] == "inbox";
  }

  // ---------------------------------------------------------------------------
  // Message extraction

  /** How `ProcessMessages` ends: it returns the number of files it wrote, or it
      throws. */
  datatype FolderOutcome = Returned(count: nat) | Threw(fault: Fault)

  function MessagesOutcome(run: ItemRun): FolderOutcome {
    match run.fault
    case None => Returned(|run.written|)
    case Some(e) => Threw(e)
  }

  /** When `ProcessMessages` returns, its count is the number of `IPM.Note`
      items in the folder, which is at most the folder's item count. */
  lemma ReturnedCountIsNotes(dir: string, items: seq<Item>)
    requires MessagesOutcome(NoteRun(dir, items)).Returned?
    ensures MessagesOutcome(NoteRun(dir, items)).count == |Notes(items)| <= |items|
  {
    NoteRunComplete(dir, items);
  }

  /** `ProcessMessages`. */
  method ProcessMessages(folderPath: string, folder: Folder, disk: Disk) returns (outcome: FolderOutcome)
    modifies disk
    ensures disk.files == old(disk.files) + NoteRun(folderPath, folder.items).written
    ensures disk.dirs == old(disk.dirs) && disk.texts == old(disk.texts)
    ensures outcome == MessagesOutcome(NoteRun(folderPath, folder.items))
  {
    var items := folder.items;
    var totalFromFolder := 0;
    var i := 0;
    while i < |items|
      invariant 0 <= i <= |items|
      invariant NoteRun(folderPath, items[..i]).fault.None?
      invariant disk.files == old(disk.files) + NoteRun(folderPath, items[..i]).written
      invariant totalFromFolder == |NoteRun(folderPath, items[..i]).written|
      invariant disk.dirs == old(disk.dirs) && disk.texts == old(disk.texts)
    {
      var item := items[i];
      NoteRunNext(folderPath, items, i);
      if item.readFault.Some? {
        NoteRunStops(folderPath, items, i + 1);
        return Threw(item.readFault.value);
      }
      if item.messageClass != NoteClass {
        i := i + 1;
        continue;
      }
      if item.fault.Some? {
        NoteRunStops(folderPath, items, i + 1);
        return Threw(item.fault.value);
      }
      disk.SaveMessage(EmlPath(folderPath, item));
      totalFromFolder := totalFromFolder + 1;
      i := i + 1;
    }
    assert items[..|items|] == items;
    outcome := Returned(totalFromFolder);
  }

  // ---------------------------------------------------------------------------
  // Folder processing

  /** The directory a processed folder's messages go to. */
  function FolderDir(mimePath: string, f: Folder, invalid: InvalidPathChars): string {
    mimePath + "/" + NormalizeFolderName(f.name, invalid)
  }

  /** What the folder loop did: the running total, the directories it created
      and the files it wrote, in order. */
  datatype FoldersRun = FoldersRun(total: nat, dirs: set<string>, written: seq<string>)

  /** The folder loop of `ProcessFolders` over `folders`: a folder whose
      identifier is listed gets its directory and its messages; a folder whose
      messages throw keeps the files already written but adds nothing to the total. */
  function RunFolders(mimePath: string, ids: seq<int>, folders: seq<Folder>, invalid: InvalidPathChars): FoldersRun {
    if folders == [] then FoldersRun(0, {}, [])
    else FolderStep(mimePath, ids, RunFolders(mimePath, ids, folders[..|folders| - 1], invalid), folders[|folders| - 1], invalid)
  }

  /** One turn of the folder loop. */
  function FolderStep(mimePath: string, ids: seq<int>, prev: FoldersRun, f: Folder, invalid: InvalidPathChars): FoldersRun {
    if f.pstId !in ids then prev
    else
      var dir := FolderDir(mimePath, f, invalid);
      var run := NoteRun(dir, f.items);
      var added := match MessagesOutcome(run) case Returned(n) => n case Threw(_) => 0;
      FoldersRun(prev.total + added, prev.dirs + {dir}, prev.written + run.written)
  }

  /** The folder loop after one more folder. */
  lemma RunFoldersNext(mimePath: string, ids: seq<int>, folders: seq<Folder>, invalid: InvalidPathChars, i: nat)
    requires i < |folders|
    ensures RunFolders(mimePath, ids, folders[..i + 1], invalid)
         == FolderStep(mimePath, ids, RunFolders(mimePath, ids, folders[..i], invalid), folders[i], invalid)
  {
    assert folders[..i + 1][..i] == folders[..i];
  }

  /** `ProcessFolders`. */
  method ProcessFolders(mimePath: string, foldersToProcess: seq<int>, folders: seq<Folder>,
                        invalid: InvalidPathChars, disk: Disk) returns (totalFromPST: nat)
    modifies disk
    ensures totalFromPST == RunFolders(mimePath, foldersToProcess, folders, invalid).total
    ensures disk.dirs == old(disk.dirs) + RunFolders(mimePath, foldersToProcess, folders, invalid).dirs
    ensures disk.files == old(disk.files) + RunFolders(mimePath, foldersToProcess, folders, invalid).written
    ensures disk.texts == old(disk.texts)
  {
    totalFromPST := 0;
    var i := 0;
    while i < |folders|
      invariant 0 <= i <= |folders|
      invariant totalFromPST == RunFolders(mimePath, foldersToProcess, folders[..i], invalid).total
      invariant disk.dirs == old(disk.dirs) + RunFolders(mimePath, foldersToProcess, folders[..i], invalid).dirs
      invariant disk.files == old(disk.files) + RunFolders(mimePath, foldersToProcess, folders[..i], invalid).written
      invariant disk.texts == old(disk.texts)
    {
      var folder := folders[i];
      RunFoldersNext(mimePath, foldersToProcess, folders, invalid, i);
      if folder.pstId !in foldersToProcess {
        i := i + 1;
        continue;
      }
      var folderName := NormalizeFolderName(folder.name, invalid);
      var folderPath := mimePath + "/" + folderName;
      disk.CreateDirectory(folderPath);
      var outcome := ProcessMessages(folderPath, folder, disk);
      if outcome.Returned? {
        totalFromPST := totalFromPST + outcome.count;
      }
      i := i + 1;
    }
    assert folders[..|folders|] == folders;
  }

  /** A folder gets a directory exactly when its identifier is listed; its
      directory is named by its normalised name, so folders whose names
      normalise alike share one. */
  lemma {:induction false} RunFoldersDirs(mimePath: string, ids: seq<int>, folders: seq<Folder>,
                                          invalid: InvalidPathChars, d: string)
    ensures d in RunFolders(mimePath, ids, folders, invalid).dirs <==>
      exists f :: f in folders && f.pstId in ids && d == FolderDir(mimePath, f, invalid)
  {
    if folders != [] {
      var init := folders[..|folders| - 1];
      RunFoldersDirs(mimePath, ids, init, invalid, d);
      assert folders == init + [folders[|folders| - 1]];
    }
  }

  /** The folder loop splits at any point: whatever an earlier folder did,
      including throwing, the later folders are processed as if they came first. */
  lemma {:induction false} RunFoldersAppend(mimePath: string, ids: seq<int>, a: seq<Folder>, b: seq<Folder>,
                                            invalid: InvalidPathChars)
    ensures RunFolders(mimePath, ids, a + b, invalid).total
      == RunFolders(mimePath, ids, a, invalid).total + RunFolders(mimePath, ids, b, invalid).total
    ensures RunFolders(mimePath, ids, a + b, invalid).dirs
      == RunFolders(mimePath, ids, a, invalid).dirs + RunFolders(mimePath, ids, b, invalid).dirs
    ensures RunFolders(mimePath, ids, a + b, invalid).written
      == RunFolders(mimePath, ids, a, invalid).written + RunFolders(mimePath, ids, b, invalid).written
  {
    if b == [] {
      assert a + b == a;
    } else {
      var init, f := b[..|b| - 1], b[|b| - 1];
      RunFoldersAppend(mimePath, ids, a, init, invalid);
      assert (a + b)[..|a + b| - 1] == a + init && (a + b)[|a + b| - 1] == f;
      var ra, ri := RunFolders(mimePath, ids, a, invalid), RunFolders(mimePath, ids, init, invalid);
      var rai := RunFolders(mimePath, ids, a + init, invalid);
      if f.pstId in ids {
        var dir := FolderDir(mimePath, f, invalid);
        var run := NoteRun(dir, f.items);
        assert rai.dirs + {dir} == ra.dirs + (ri.dirs + {dir});
        assert rai.written + run.written == ra.written + (ri.written + run.written);
      }
    }
  }

  /** A listed folder whose messages throw adds nothing to the total, yet the
      files it wrote before throwing stay written. */
  lemma ThrowingFolderAddsNothing(mimePath: string, ids: seq<int>, a: seq<Folder>, f: Folder, invalid: InvalidPathChars)
    requires f.pstId in ids
    requires NoteRun(FolderDir(mimePath, f, invalid), f.items).fault.Some?
    ensures RunFolders(mimePath, ids, a + [f], invalid).total == RunFolders(mimePath, ids, a, invalid).total
    ensures RunFolders(mimePath, ids, a + [f], invalid).written
      == RunFolders(mimePath, ids, a, invalid).written + NoteRun(FolderDir(mimePath, f, invalid), f.items).written
  {
    assert (a + [f])[..|a|] == a;
  }

  /** The total never exceeds the number of files written: files written by a
      folder that later threw are on disk but not counted. */
  lemma {:induction false} TotalAtMostWritten(mimePath: string, ids: seq<int>, folders: seq<Folder>, invalid: InvalidPathChars)
    ensures RunFolders(mimePath, ids, folders, invalid).total <= |RunFolders(mimePath, ids, folders, invalid).written|
  {
    if folders != [] {
      TotalAtMostWritten(mimePath, ids, folders[..|folders| - 1], invalid);
    }
  }

  /** With the identifiers `GetFoldersToProcess` returns and identifiers unique
      in the archive, a folder is processed exactly when its short name does not
      start with "delete". */
  lemma ProcessedIffKept(folders: seq<Folder>, k: nat)
    requires k < |folders|
    requires forall i, j :: 0 <= i < j < |folders| ==> folders[i].pstId != folders[j].pstId
    ensures folders[k].pstId in SelectedIds(folders) <==> !SkipsByShortName(folders[k])
  {
    var id := folders[k].pstId;
    SelectedIdsMembers(folders, id);
    if id in SelectedIds(folders) {
      var f :| f in folders && f.pstId == id && !SkipsByShortName(f);
      var j :| 0 <= j < |folders| && folders[j] == f;
      assert j == k;
    } else {
      assert folders[k] in folders;
    }
  }

  // ---------------------------------------------------------------------------
  // Command line

  /** The three positional arguments, in order. */
  datatype Invocation = Invocation(accountName: string, pstFile: string, outputPath: string)

  /** The directory the account's MIME data goes to: `outputPath + "/" + accountName`. */
  function MimePath(inv: Invocation): string {
    inv.outputPath + "/" + inv.accountName
  }

  /** The line printed when arguments are missing. */
  const MissingArgumentsLine := "ERROR: Missing required argument(s)."

  /** The argument check of `Main`: fewer than three arguments is an error; any
      further arguments are ignored. */
  function ParseArgs(args: seq<string>): (r: Option<Invocation>)
    ensures r.None? <==> |args| < 3
    ensures r.Some? ==> MimePath(r.value) == args[2] + "/" + args[0] && r.value.pstFile == args[1]
  {
    if |args| < 3 then None else Some(Invocation(args[0], args[1], args[2]))
  }

  /** `Main`: `archive` stands for opening `args[1]` with the PST reader and
      reading its root folder collection, which either yields the folders or
      throws. Returns the exit status and the `ERROR: ` line `Main` prints, if any. */
  method Run(args: seq<string>, archive: Archive, invalid: InvalidPathChars, disk: Disk)
    returns (status: int, error: Option<string>)
    modifies disk
    ensures |args| < 3 ==>
              (status == 1 && error == Some(MissingArgumentsLine)
               && disk.dirs == old(disk.dirs) && disk.files == old(disk.files) && disk.texts == old(disk.texts))
    ensures |args| >= 3 && archive.Unreadable? ==>
              (status == archive.fault.hresult && error == Some("ERROR: " + archive.fault.message)
               && disk.dirs == old(disk.dirs) && disk.files == old(disk.files) && disk.texts == old(disk.texts))
    ensures |args| >= 3 && archive.Opened? ==>
              var run := RunFolders(args[2] + "/" + args[0], SelectedIds(archive.folders), archive.folders, invalid);
              (status == 0 && error == None
               && disk.dirs == old(disk.dirs) + run.dirs && disk.files == old(disk.files) + run.written
               && disk.texts == old(disk.texts))
  {
    var parsed := ParseArgs(args);
    if parsed.None? {
      return 1, Some(MissingArgumentsLine);
    }
    var mimePath := MimePath(parsed.value);
    match archive
    case Unreadable(e) =>
      status, error := e.hresult, Some("ERROR: " + e.message);
    case Opened(folderObjects) =>
      var foldersToProcess := GetFoldersToProcess(folderObjects);
      var _ := ProcessFolders(mimePath, foldersToProcess, folderObjects, invalid, disk);
      status, error := 0, None;
  }
}
