/** The Docker build of the extractor (`TomesPst2Mime`). It runs in two passes
    over the root folder collection. Pass 1 skips every folder whose path
    matches `Delete.+` (ignoring case). For each folder it keeps, it appends
    `<PstID>\t<name>` to `folder_map.tsv`, creates a directory named by the
    PstID, and remembers that directory in `good_paths`. Pass 2 writes the
    `IPM.Note` items of each remembered folder into its directory. */
module DockerExtractor {
  import opened Text
  import opened Pst
  import opened FileSystem
  import PstToMime

  /** The fixed output root of the container. */
  const MimeRoot := "/home/tomes/data/mime_emails"

  /** The fixed input root of the container. */
  const PstRoot := "/home/tomes/data/pst"

  const FolderMapName := "folder_map.tsv"

  // ---------------------------------------------------------------------------
  // The exclusion pattern

  /** The pattern `Delete.+`, ignoring case, matches at position `i` of `s`:
      "delete" in any case, followed by at least one character that is not a
      line feed (the greedy `.+` then extends the match, which does not change
      whether there is one). */
  predicate DeleteAt(s: string, i: int) {
    0 <= i && i + 7 <= |s| && Lower(s[i..i + 6]) == "delete" && s[i + 6] != '\n'
  }

  /** `Regex("Delete.+", RegexOptions.IgnoreCase).Matches(s).Count > 0`. */
  predicate MatchesDelete(s: string) {
    exists i | 0 <= i <= |s| - 7 :: DeleteAt(s, i)
  }

  /** A match anywhere inside a string is a match of the whole string. */
  lemma MatchesDeleteInside(x: string, u: string, y: string)
    requires MatchesDelete(u)
    ensures MatchesDelete(x + u + y)
  {
    var i :| 0 <= i <= |u| - 7 && DeleteAt(u, i);
    var s := x + u + y;
    assert s[|x| + i..|x| + i + 6] == u[i..i + 6];
    assert s[|x| + i + 6] == u[i + 6];
    assert DeleteAt(s, |x| + i);
  }

  /** A trailing "Delete" never matches on its own: it has nothing after it,
      and no earlier start can run into it. A path ending in "Delete" matches
      exactly when the part before it already matches or itself ends in
      "delete" (which the trailing "D" then completes). */
  lemma TrailingDelete(p: string)
    ensures MatchesDelete(p + "Delete") <==>
              MatchesDelete(p) || (|p| >= 6 && Lower(p[|p| - 6..]) == "delete")
  {
    var s := p + "Delete";
    if MatchesDelete(s) {
      var i :| 0 <= i <= |s| - 7 && DeleteAt(s, i);
      NoMatchStartsInTail(p, i);
      if i + 7 <= |p| {
        assert s[i..i + 6] == p[i..i + 6] && s[i + 6] == p[i + 6];
        assert DeleteAt(p, i);
      } else {
        assert s[i..i + 6] == p[|p| - 6..];
      }
    }
    if MatchesDelete(p) {
      MatchesDeleteInside([], p, "Delete");
      assert [] + p + "Delete" == s;
    } else if |p| >= 6 && Lower(p[|p| - 6..]) == "delete" {
      assert s[|p| - 6..|p|] == p[|p| - 6..];
      assert DeleteAt(s, |p| - 6);
    }
  }

  /** No match of the pattern starts at any of the last five characters of
      `p` when "Delete" is appended: the six-letter window from such a start
      reaches the appended "D", which would have to be one of the letters
      "elete". */
  lemma NoMatchStartsInTail(p: string, i: int)
    ensures |p| - 5 <= i < |p| ==> !DeleteAt(p + "Delete", i)
  {
    if 0 <= i && |p| - 5 <= i < |p| {
      var s := p + "Delete";
      var k := |p| - i;
      assert s[i..i + 6][k] == 'D';
      assert Lower(s[i..i + 6])[k] == 'd';
      assert k == 1 || k == 2 || k == 3 || k == 4 || k == 5;
      assert "delete"[k] != 'd';
    }
  }

  /** The folder a path belongs to is skipped when its candidate path — the
      account folder, a slash and the folder's name — matches the pattern. */
  predicate Skipped(mboxFolder: string, f: Folder) {
    MatchesDelete(mboxFolder + "/" + f.name)
  }

  /** "delete", in any case, at position `i` of `s`, at the end of `s` or
      followed by a character other than a line feed. */
  predicate DeleteWordAt(s: string, i: int) {
    0 <= i && i + 6 <= |s| && Lower(s[i..i + 6]) == "delete" && (i + 6 == |s| || s[i + 6] != '\n')
  }

  /** `s` holds "delete", in any case, at a place not followed by a line feed. */
  predicate ContainsDelete(s: string) {
    exists i | 0 <= i <= |s| - 6 :: DeleteWordAt(s, i)
  }

  /** A path followed by a slash matches exactly when the path holds "delete"
      not followed by a line feed: the slash supplies the character `.+` needs
      after a trailing "delete". */
  lemma SlashMatchIff(p: string)
    ensures MatchesDelete(p + "/") <==> ContainsDelete(p)
  {
    var s := p + "/";
    if MatchesDelete(s) {
      var i :| 0 <= i <= |s| - 7 && DeleteAt(s, i);
      assert s[i..i + 6] == p[i..i + 6];
      if i + 6 < |p| {
        assert s[i + 6] == p[i + 6];
      }
      assert DeleteWordAt(p, i);
    }
    if ContainsDelete(p) {
      var i :| 0 <= i <= |p| - 6 && DeleteWordAt(p, i);
      assert s[i..i + 6] == p[i..i + 6];
      assert s[i + 6] == if i + 6 == |p| then '/' else p[i + 6];
      assert DeleteAt(s, i);
    }
  }

  /** An account whose name holds "delete" in any case, not followed by a line
      feed, skips every folder, whatever the folder's name: the "/" before the
      name completes a trailing "delete". */
  lemma MatchingAccountSkipsAll(accountName: string, f: Folder)
    requires ContainsDelete(accountName)
    ensures Skipped(MimeRoot + "/" + accountName, f)
  {
    SlashMatchIff(accountName);
    MatchesDeleteInside(MimeRoot + "/", accountName + "/", f.name);
    assert MimeRoot + "/" + accountName + "/" + f.name == (MimeRoot + "/") + (accountName + "/") + f.name;
  }

  // ---------------------------------------------------------------------------
  // Names and paths

  /** The account's top-level directory name: the first root folder's name
      lower-cased, with each space replaced by an underscore. */
  function TopName(rootName: string): (r: string)
    ensures |r| == |rootName|
    ensures forall i :: 0 <= i < |r| ==> r[i] == if rootName[i] == ' ' then '_' else LowerChar(rootName[i])
    ensures ' ' !in r
    ensures forall i :: 0 <= i < |r| ==> !('A' <= r[i] <= 'Z')
    ensures forall i :: 0 <= i < |r| ==> (r[i] == '_' <==> rootName[i] == ' ' || rootName[i] == '_')
  {
    ReplaceChar(Lower(rootName), ' ', '_')
  }

  /** Deriving the top name again from a top name changes nothing. */
  lemma TopNameIdempotent(rootName: string)
    ensures TopName(TopName(rootName)) == TopName(rootName)
  {
    var once := TopName(rootName);
    var twice := TopName(once);
    forall i | 0 <= i < |rootName|
      ensures twice[i] == once[i]
    {
      assert twice[i] == (if once[i] == ' ' then '_' else LowerChar(once[i]));
    }
  }

  /** `Path.Combine(dir, name)` on a Unix platform for a relative `name`: a
      separator is added unless `dir` is empty or already ends with one. */
  function Combine(dir: string, name: string): string {
    if dir == [] then name
    else if dir[|dir| - 1] == '/' then dir + name
    else dir + "/" + name
  }

  /** The line `folder_map.tsv` gets for an accepted folder. */
  function MapLine(f: Folder): string {
    IdText(f.pstId) + "\t" + Lower(f.name)
  }

  /** Reading a `folder_map.tsv` line back: the key before the first tab and
      the name after it. */
  function ParseMapLine(line: string): Option<(string, string)> {
    match FirstIndexOf(line, '\t')
    case None => None
    case Some(k) => Some((line[..k], line[k + 1..]))
  }

  /** Every line the folder map gets reads back as the folder's identifier and
      its lower-cased name, even when the name itself contains tabs. */
  lemma {:induction false} MapLineRoundTrip(f: Folder)
    ensures ParseMapLine(MapLine(f)) == Some((IdText(f.pstId), Lower(f.name)))
  {
    var key := IdText(f.pstId);
    assert '\t' !in key;
    FirstIndexOfAfter(key, '\t', Lower(f.name));
    assert MapLine(f) == key + ['\t'] + Lower(f.name);
    assert MapLine(f)[..|key|] == key;
    assert MapLine(f)[|key| + 1..] == Lower(f.name);
  }

  // ---------------------------------------------------------------------------
  // The two passes as functions of the folder collection

  /** What pass 1 produced: the lines appended to `folder_map.tsv`, the
      `good_paths` entries, and the directories created. */
  datatype Pass1Run = Pass1Run(lines: seq<string>, paths: map<int, string>, dirs: set<string>)

  /** What pass 1 does for one folder. */
  function Pass1Step(mboxFolder: string, topPath: string, f: Folder): Pass1Run {
    if Skipped(mboxFolder, f) then Pass1Run([], map[], {})
    else
      var dir := topPath + "/" + IdText(f.pstId);
      Pass1Run([MapLine(f)], map[f.pstId := dir], {dir})
  }

  /** Pass 1 as the steps of `Pass1Step` over the folders in order. */
  function Pass1(mboxFolder: string, topPath: string, folders: seq<Folder>): Pass1Run {
    if folders == [] then Pass1Run([], map[], {})
    else
      var prev := Pass1(mboxFolder, topPath, folders[..|folders| - 1]);
      var step := Pass1Step(mboxFolder, topPath, folders[|folders| - 1]);
      Pass1Run(prev.lines + step.lines, prev.paths + step.paths, prev.dirs + step.dirs)
  }

  /** Pass 1 over one more folder adds that folder's step. */
  lemma Pass1Snoc(mboxFolder: string, topPath: string, folders: seq<Folder>, f: Folder)
    ensures var run, step := Pass1(mboxFolder, topPath, folders), Pass1Step(mboxFolder, topPath, f);
            Pass1(mboxFolder, topPath, folders + [f]) == Pass1Run(run.lines + step.lines, run.paths + step.paths, run.dirs + step.dirs)
  {
    assert (folders + [f])[..|folders|] == folders;
  }

  /** What pass 1 has recorded after `i` folders, followed by the step of
      folder `i`, is what it has recorded after `i + 1` folders. */
  lemma Pass1Extends(mboxFolder: string, topPath: string, folders: seq<Folder>, i: nat,
                     texts: map<string, seq<string>>, mapFile: string, paths: map<int, string>, dirs: set<string>)
    requires i < |folders|
    ensures var run, step, next := Pass1(mboxFolder, topPath, folders[..i]), Pass1Step(mboxFolder, topPath, folders[i]),
                                   Pass1(mboxFolder, topPath, folders[..i + 1]);
            && AppendLines(AppendLines(texts, mapFile, run.lines), mapFile, step.lines) == AppendLines(texts, mapFile, next.lines)
            && paths + run.paths + step.paths == paths + next.paths
            && dirs + run.dirs + step.dirs == dirs + next.dirs
  {
    var run, step := Pass1(mboxFolder, topPath, folders[..i]), Pass1Step(mboxFolder, topPath, folders[i]);
    AppendLinesTwice(texts, mapFile, run.lines, step.lines);
    assert folders[..i + 1] == folders[..i] + [folders[i]];
    Pass1Snoc(mboxFolder, topPath, folders[..i], folders[i]);
    MergeAssociative(paths, run.paths, step.paths);
  }

  lemma MergeAssociative<K, V>(a: map<K, V>, b: map<K, V>, c: map<K, V>)
    ensures a + b + c == a + (b + c)
  {
  }

  /** What pass 2 produced: the files written, and the exception that escaped
      and ended the run, if any. */
  datatype Pass2Run = Pass2Run(written: seq<string>, crash: Option<Fault>)

  /** The two exception types pass 2 catches per folder. */
  predicate Structural(e: Fault) {
    e.kind == ArgumentOutOfRange || e.kind == IndexOutOfRange
  }

  function Pass2(paths: map<int, string>, folders: seq<Folder>): Pass2Run {
    if folders == [] then Pass2Run([], None)
    else Pass2Step(paths, Pass2(paths, folders[..|folders| - 1]), folders[|folders| - 1])
  }

  /** One turn of the pass-2 folder loop: a folder with a `good_paths` entry
      has its notes written; a range or index fault abandons the rest of that
      folder, any other exception ends the pass. */
  function Pass2Step(paths: map<int, string>, prev: Pass2Run, f: Folder): Pass2Run {
    if prev.crash.Some? || f.pstId !in paths then prev
    else
      var run := NoteRun(paths[f.pstId], f.items);
      var escaped := if run.fault.Some? && !Structural(run.fault.value) then run.fault else None;
      Pass2Run(prev.written + run.written, escaped)
  }

  lemma Pass2Next(paths: map<int, string>, folders: seq<Folder>, i: nat)
    requires i < |folders|
    ensures Pass2(paths, folders[..i + 1]) == Pass2Step(paths, Pass2(paths, folders[..i]), folders[i])
  {
    assert folders[..i + 1][..i] == folders[..i];
  }

  // ---------------------------------------------------------------------------
  // Properties of the passes

  /** `good_paths` holds exactly the identifiers of the accepted folders, each
      mapped to the directory named by that identifier under the top path. */
  lemma {:induction false} Pass1Paths(mboxFolder: string, topPath: string, folders: seq<Folder>, id: int)
    ensures id in Pass1(mboxFolder, topPath, folders).paths <==>
              exists f :: f in folders && f.pstId == id && !Skipped(mboxFolder, f)
    ensures id in Pass1(mboxFolder, topPath, folders).paths ==>
              Pass1(mboxFolder, topPath, folders).paths[id] == topPath + "/" + IdText(id)
  {
    if folders != [] {
      var init := folders[..|folders| - 1];
      Pass1Paths(mboxFolder, topPath, init, id);
      assert folders == init + [folders[|folders| - 1]];
    }
  }

  /** The directories created in pass 1 are exactly the `good_paths` values. */
  lemma {:induction false} Pass1DirsArePaths(mboxFolder: string, topPath: string, folders: seq<Folder>, d: string)
    ensures d in Pass1(mboxFolder, topPath, folders).dirs <==>
              exists id :: id in Pass1(mboxFolder, topPath, folders).paths && Pass1(mboxFolder, topPath, folders).paths[id] == d
  {
    if folders != [] {
      var init := folders[..|folders| - 1];
      var f := folders[|folders| - 1];
      var prev, step := Pass1(mboxFolder, topPath, init), Pass1Step(mboxFolder, topPath, f);
      var run := Pass1(mboxFolder, topPath, folders);
      assert run.paths == prev.paths + step.paths && run.dirs == prev.dirs + step.dirs;
      Pass1DirsArePaths(mboxFolder, topPath, init, d);
      if d in run.dirs {
        if d in step.dirs {
          assert run.paths[f.pstId] == d;
        } else {
          var id :| id in prev.paths && prev.paths[id] == d;
          assert id !in step.paths by {
            Pass1Paths(mboxFolder, topPath, init, id);
          }
          assert run.paths[id] == d;
        }
      }
      if exists id :: id in run.paths && run.paths[id] == d {
        var id :| id in run.paths && run.paths[id] == d;
        if id !in step.paths {
          assert prev.paths[id] == d;
        }
      }
    }
  }

  /** One map line per accepted folder, in collection order, and none for a
      skipped folder. */
  lemma {:induction false} Pass1Lines(mboxFolder: string, topPath: string, folders: seq<Folder>, line: string)
    ensures |Pass1(mboxFolder, topPath, folders).lines| <= |folders|
    ensures line in Pass1(mboxFolder, topPath, folders).lines <==>
              exists f :: f in folders && !Skipped(mboxFolder, f) && line == MapLine(f)
  {
    if folders != [] {
      var init := folders[..|folders| - 1];
      Pass1Lines(mboxFolder, topPath, init, line);
      assert folders == init + [folders[|folders| - 1]];
    }
  }

  /** With identifiers unique in the archive, every folder that has an output
      directory has exactly one line in `folder_map.tsv`: the map lines carry
      pairwise distinct keys, and the keys are exactly the `good_paths` keys. */
  lemma {:induction false} OneMapLinePerDirectory(mboxFolder: string, topPath: string, folders: seq<Folder>)
    requires forall i, j :: 0 <= i < j < |folders| ==> folders[i].pstId != folders[j].pstId
    ensures var run := Pass1(mboxFolder, topPath, folders);
            forall k :: 0 <= k < |run.lines| ==> ParseMapLine(run.lines[k]).Some?
    ensures var run := Pass1(mboxFolder, topPath, folders);
            forall i, j :: 0 <= i < j < |run.lines| ==> ParseMapLine(run.lines[i]).value.0 != ParseMapLine(run.lines[j]).value.0
    ensures var run := Pass1(mboxFolder, topPath, folders);
            forall id :: id in run.paths <==> exists k :: 0 <= k < |run.lines| && ParseMapLine(run.lines[k]).value.0 == IdText(id)
  {
    var run := Pass1(mboxFolder, topPath, folders);
    forall k | 0 <= k < |run.lines|
      ensures exists f :: f in folders && !Skipped(mboxFolder, f) && run.lines[k] == MapLine(f)
    {
      Pass1Lines(mboxFolder, topPath, folders, run.lines[k]);
    }
    KeysDistinct(mboxFolder, topPath, folders);
    forall id
      ensures id in run.paths <==> exists k :: 0 <= k < |run.lines| && ParseMapLine(run.lines[k]).value.0 == IdText(id)
    {
      Pass1Paths(mboxFolder, topPath, folders, id);
      if id in run.paths {
        var f :| f in folders && f.pstId == id && !Skipped(mboxFolder, f);
        Pass1Lines(mboxFolder, topPath, folders, MapLine(f));
        var k :| 0 <= k < |run.lines| && run.lines[k] == MapLine(f);
        MapLineRoundTrip(f);
      }
      if exists k :: 0 <= k < |run.lines| && ParseMapLine(run.lines[k]).value.0 == IdText(id) {
        var k :| 0 <= k < |run.lines| && ParseMapLine(run.lines[k]).value.0 == IdText(id);
        var f :| f in folders && !Skipped(mboxFolder, f) && run.lines[k] == MapLine(f);
        MapLineRoundTrip(f);
        IdTextInjective(f.pstId, id);
      }
    }
  }

  lemma {:induction false} KeysDistinct(mboxFolder: string, topPath: string, folders: seq<Folder>)
    requires forall i, j :: 0 <= i < j < |folders| ==> folders[i].pstId != folders[j].pstId
    ensures forall k :: 0 <= k < |Pass1(mboxFolder, topPath, folders).lines| ==>
              ParseMapLine(Pass1(mboxFolder, topPath, folders).lines[k]).Some?
    ensures var lines := Pass1(mboxFolder, topPath, folders).lines;
            forall i, j :: 0 <= i < j < |lines| ==> ParseMapLine(lines[i]).value.0 != ParseMapLine(lines[j]).value.0
  {
    if folders != [] {
      var init := folders[..|folders| - 1];
      var f := folders[|folders| - 1];
      var prev := Pass1(mboxFolder, topPath, init);
      KeysDistinct(mboxFolder, topPath, init);
      MapLineRoundTrip(f);
      if !Skipped(mboxFolder, f) {
        var lines := prev.lines + [MapLine(f)];
        forall i | 0 <= i < |prev.lines|
          ensures ParseMapLine(prev.lines[i]).value.0 != IdText(f.pstId)
        {
          EarlierKey(mboxFolder, topPath, folders, prev.lines[i]);
        }
        assert forall i :: 0 <= i < |prev.lines| ==> lines[i] == prev.lines[i];
      }
    }
  }

  /** A map line written before the last folder was reached does not carry the
      last folder's key. */
  lemma EarlierKey(mboxFolder: string, topPath: string, folders: seq<Folder>, line: string)
    requires folders != []
    requires forall i, j :: 0 <= i < j < |folders| ==> folders[i].pstId != folders[j].pstId
    requires line in Pass1(mboxFolder, topPath, folders[..|folders| - 1]).lines
    ensures ParseMapLine(line).Some? && ParseMapLine(line).value.0 != IdText(folders[|folders| - 1].pstId)
  {
    var init := folders[..|folders| - 1];
    var f := folders[|folders| - 1];
    Pass1Lines(mboxFolder, topPath, init, line);
    var g :| g in init && !Skipped(mboxFolder, g) && line == MapLine(g);
    var m :| 0 <= m < |init| && init[m] == g;
    assert g.pstId != f.pstId by {
      assert folders[m] == g && m < |folders| - 1;
    }
    MapLineRoundTrip(g);
    if IdText(g.pstId) == IdText(f.pstId) {
      IdTextInjective(g.pstId, f.pstId);
      assert false;
    }
  }

  /** Once an exception has escaped pass 2, later folders change nothing. */
  lemma {:induction false} Pass2Stops(paths: map<int, string>, folders: seq<Folder>, i: nat)
    requires i <= |folders|
    requires Pass2(paths, folders[..i]).crash.Some?
    ensures Pass2(paths, folders) == Pass2(paths, folders[..i])
  {
    if i < |folders| {
      assert folders[..|folders| - 1][..i] == folders[..i];
      Pass2Stops(paths, folders[..|folders| - 1], i);
    } else {
      assert folders[..i] == folders;
    }
  }

  /** After a run of folders that let no exception escape — including folders
      abandoned on a range or index fault — the following folders are processed
      as if they came first. */
  lemma {:induction false} Pass2Continues(paths: map<int, string>, a: seq<Folder>, b: seq<Folder>)
    requires Pass2(paths, a).crash.None?
    ensures Pass2(paths, a + b) == Pass2Run(Pass2(paths, a).written + Pass2(paths, b).written, Pass2(paths, b).crash)
  {
    if b == [] {
      assert a + b == a;
    } else {
      var init := b[..|b| - 1];
      Pass2Continues(paths, a, init);
      assert (a + b)[..|a + b| - 1] == a + init;
    }
  }

  /** Every file pass 2 writes is an `IPM.Note` item of a folder that has a
      `good_paths` entry, written into that folder's directory. */
  lemma {:induction false} Pass2WritesNotesOfGoodFolders(paths: map<int, string>, folders: seq<Folder>, p: string)
    requires p in Pass2(paths, folders).written
    ensures exists f, it :: f in folders && f.pstId in paths && it in f.items && IsNote(it)
                            && p == EmlPath(paths[f.pstId], it)
  {
    var init := folders[..|folders| - 1];
    var f := folders[|folders| - 1];
    if p in Pass2(paths, init).written {
      Pass2WritesNotesOfGoodFolders(paths, init, p);
      var g, it :| g in init && g.pstId in paths && it in g.items && IsNote(it) && p == EmlPath(paths[g.pstId], it);
      assert g in folders;
    } else {
      NoteRunWritesNotes(paths[f.pstId], f.items, p);
    }
  }

  /** With identifiers unique in the archive, a folder skipped in pass 1 has no
      `good_paths` entry, so pass 2 writes nothing for it. */
  lemma SkippedFolderHasNoPath(mboxFolder: string, topPath: string, folders: seq<Folder>, k: nat)
    requires k < |folders|
    requires forall i, j :: 0 <= i < j < |folders| ==> folders[i].pstId != folders[j].pstId
    requires Skipped(mboxFolder, folders[k])
    ensures folders[k].pstId !in Pass1(mboxFolder, topPath, folders).paths
  {
    Pass1Paths(mboxFolder, topPath, folders, folders[k].pstId);
  }

  /** The folders pass 1 accepts, in collection order. */
  function Accepted(mboxFolder: string, folders: seq<Folder>): (r: seq<Folder>)
    ensures forall f :: f in r <==> f in folders && !Skipped(mboxFolder, f)
  {
    if folders == [] then []
    else
      var init := folders[..|folders| - 1];
      var f := folders[|folders| - 1];
      assert folders == init + [f];
      if Skipped(mboxFolder, f) then Accepted(mboxFolder, init) else Accepted(mboxFolder, init) + [f]
  }

  /** `folder_map.tsv` gets one line per accepted folder, in collection order,
      and nothing else. */
  lemma {:induction false} Pass1LinesInOrder(mboxFolder: string, topPath: string, folders: seq<Folder>)
    ensures var acc := Accepted(mboxFolder, folders);
            Pass1(mboxFolder, topPath, folders).lines == seq(|acc|, i requires 0 <= i < |acc| => MapLine(acc[i]))
  {
    if folders != [] {
      var init := folders[..|folders| - 1];
      Pass1LinesInOrder(mboxFolder, topPath, init);
    }
  }

  /** A folder abandoned on a range or index fault keeps the files it already
      wrote, and the folders after it are processed as usual. */
  lemma AbandonedFolderKeepsFiles(paths: map<int, string>, a: seq<Folder>, f: Folder, b: seq<Folder>)
    requires Pass2(paths, a).crash.None?
    requires f.pstId in paths
    requires NoteRun(paths[f.pstId], f.items).fault.Some? && Structural(NoteRun(paths[f.pstId], f.items).fault.value)
    ensures Pass2(paths, a + [f] + b).written
         == Pass2(paths, a).written + NoteRun(paths[f.pstId], f.items).written + Pass2(paths, b).written
    ensures Pass2(paths, a + [f] + b).crash == Pass2(paths, b).crash
  {
    assert (a + [f])[..|a|] == a;
    Pass2Continues(paths, a + [f], b);
  }

  /** The two extractors disagree on a folder inside "Deleted Items", say one
      named "Deleted Items/Inbox" with short name "Inbox": `pst_to_mime.cs`
      keeps it, because the short name does not start with "delete"; this
      build skips it, because the pattern matches inside the path. */
  lemma VariantsDisagree(mboxFolder: string, id: int, items: seq<Item>)
    ensures var f := Folder(id, "Deleted Items/Inbox", "Inbox", items);
            !PstToMime.SkipsByShortName(f) && Skipped(mboxFolder, f)
  {
    var f := Folder(id, "Deleted Items/Inbox", "Inbox", items);
    assert |Lower(f.safeShortName)| < 6;
    assert DeleteAt(f.name, 0);
    MatchesDeleteInside(mboxFolder + "/", f.name, []);
    assert mboxFolder + "/" + f.name == (mboxFolder + "/") + f.name + [];
  }

  /** They also disagree the other way, on a folder named and short-named
      "Delete": `pst_to_mime.cs` skips it, while this build keeps it unless the
      account folder holds "delete" not followed by a line feed, because the
      trailing "Delete" has nothing after it for `.+`. */
  lemma TrailingDeleteDisagrees(mboxFolder: string, id: int, items: seq<Item>)
    requires !ContainsDelete(mboxFolder)
    ensures var f := Folder(id, "Delete", "Delete", items);
            PstToMime.SkipsByShortName(f) && !Skipped(mboxFolder, f)
  {
    SlashMatchIff(mboxFolder);
    var p := mboxFolder + "/";
    TrailingDelete(p);
    if |p| >= 6 {
      assert Lower(p[|p| - 6..])[5] == LowerChar(p[|p| - 1]) == '/';
    }
    assert Lower("Delete")[..6] == "delete";
  }

  // ---------------------------------------------------------------------------
  // The extractor object

  class PstExtractor {
    const pstFile: string
    const pstFolders: seq<Folder>
    const collectionRoot: string
    const accountName: string
    var mboxFolder: string
    var accountTopName: string
    var accountTopPath: string
    var goodPaths: map<int, string>

    /** Derives the PST path and the account folder and creates the account
        folder. `pstFolders` stands for reading the root folder collection of
        the file at `pstFile`; indexing its first folder requires it to be non-empty. */
    constructor (pstFileName: string, accountName: string, pstFolders: seq<Folder>, disk: Disk)
      requires pstFolders != []
      modifies disk
      ensures this.pstFile == PstRoot + "/" + pstFileName
      ensures this.pstFolders == pstFolders && this.accountName == accountName
      ensures collectionRoot == TopName(pstFolders[0].name)
      ensures mboxFolder == MimeRoot + "/" + accountName
      ensures goodPaths == map[]
      ensures disk.dirs == old(disk.dirs) + {mboxFolder}
      ensures disk.files == old(disk.files) && disk.texts == old(disk.texts)
    {
      this.pstFile := PstRoot + "/" + pstFileName;
      this.pstFolders := pstFolders;
      collectionRoot := TopName(pstFolders[0].name);
      this.accountName := accountName;
      mboxFolder := MimeRoot;
      mboxFolder := mboxFolder + "/" + accountName;
      accountTopName, accountTopPath := [], [];
      goodPaths := map[];
      new;
      disk.CreateDirectory(mboxFolder);
    }

    /** `WriteToFile`: appends `<id>\t<path>` to `folder_map.tsv` in the account
        folder, creating the file first when it is missing. Earlier lines are
        kept as they are, and a repeated id gives a repeated line. */
    method WriteToFile(id: string, path: string, disk: Disk)
      modifies disk
      ensures disk.texts == AppendLines(old(disk.texts), Combine(mboxFolder, FolderMapName), [id + "\t" + path])
      ensures disk.dirs == old(disk.dirs) && disk.files == old(disk.files)
    {
      var fullPath := Combine(mboxFolder, FolderMapName);
      if !disk.FileExists(fullPath) {
        disk.CreateFile(fullPath);
      }
      disk.AppendLine(fullPath, id + "\t" + path);
    }

    /** The `try` block around one folder's item loop in pass 2: writes the
        folder's `IPM.Note` items until one raises. */
    method SaveFolderItems(folderPath: string, items: seq<Item>, disk: Disk) returns (fault: Option<Fault>)
      modifies disk
      ensures disk.files == old(disk.files) + NoteRun(folderPath, items).written
      ensures fault == NoteRun(folderPath, items).fault
      ensures disk.dirs == old(disk.dirs) && disk.texts == old(disk.texts)
    {
      var i := 0;
      while i < |items|
        invariant 0 <= i <= |items|
        invariant NoteRun(folderPath, items[..i]).fault.None?
        invariant disk.files == old(disk.files) + NoteRun(folderPath, items[..i]).written
        invariant disk.dirs == old(disk.dirs) && disk.texts == old(disk.texts)
      {
        var item := items[i];
        NoteRunNext(folderPath, items, i);
        if item.readFault.Some? {
          NoteRunStops(folderPath, items, i + 1);
          return item.readFault;
        }
        if item.messageClass != NoteClass {
          i := i + 1;
          continue;
        }
        if item.fault.Some? {
          NoteRunStops(folderPath, items, i + 1);
          return item.fault;
        }
        disk.SaveMessage(EmlPath(folderPath, item));
        i := i + 1;
      }
      assert items[..|items|] == items;
      fault := None;
    }

    /** The body of pass 1 for one folder: unless the folder's path matches
        the exclusion pattern, its map line, its directory under the top path,
        and its `good_paths` entry. */
    method RecordFolder(folder: Folder, disk: Disk)
      modifies this`goodPaths, disk
      ensures var step := Pass1Step(mboxFolder, accountTopPath, folder);
              && goodPaths == old(goodPaths) + step.paths
              && disk.texts == AppendLines(old(disk.texts), Combine(mboxFolder, FolderMapName), step.lines)
              && disk.dirs == old(disk.dirs) + step.dirs
              && disk.files == old(disk.files)
    {
      var testingPath := mboxFolder + "/" + folder.name;
      if MatchesDelete(testingPath) {
        return;
      }
      var path := IdText(folder.pstId);
      WriteToFile(path, Lower(folder.name), disk);
      var fullPath := accountTopPath + "/" + path;
      disk.CreateDirectory(fullPath);
      goodPaths := goodPaths[folder.pstId := fullPath];
    }

    /** Pass 1 of `Extract`: for each folder whose path does not match the
        exclusion pattern, a `folder_map.tsv` line, a directory under the top
        path, and a `good_paths` entry. */
    method RecordFolders(disk: Disk)
      modifies this`goodPaths, disk
      ensures goodPaths == old(goodPaths) + Pass1(mboxFolder, accountTopPath, pstFolders).paths
      ensures disk.texts == AppendLines(old(disk.texts), Combine(mboxFolder, FolderMapName),
                                        Pass1(mboxFolder, accountTopPath, pstFolders).lines)
      ensures disk.dirs == old(disk.dirs) + Pass1(mboxFolder, accountTopPath, pstFolders).dirs
      ensures disk.files == old(disk.files)
    {
      var mapFile := Combine(mboxFolder, FolderMapName);
      ghost var mbox, top, paths0 := mboxFolder, accountTopPath, goodPaths;
      var i := 0;
      while i < |pstFolders|
        invariant 0 <= i <= |pstFolders|
        invariant mboxFolder == mbox && accountTopPath == top
        invariant goodPaths == paths0 + Pass1(mbox, top, pstFolders[..i]).paths
        invariant disk.texts == AppendLines(old(disk.texts), mapFile, Pass1(mbox, top, pstFolders[..i]).lines)
        invariant disk.dirs == old(disk.dirs) + Pass1(mbox, top, pstFolders[..i]).dirs
        invariant disk.files == old(disk.files)
      {
        RecordFolder(pstFolders[i], disk);
        Pass1Extends(mbox, top, pstFolders, i, old(disk.texts), mapFile, paths0, old(disk.dirs));
        i := i + 1;
      }
      assert pstFolders[..|pstFolders|] == pstFolders;
    }

    /** Pass 2 of `Extract`: the notes of every folder that has a `good_paths`
        entry, until an exception other than a range or index fault escapes. */
    method WriteGoodFolders(disk: Disk) returns (crash: Option<Fault>)
      modifies disk
      ensures disk.files == old(disk.files) + Pass2(goodPaths, pstFolders).written
      ensures crash == Pass2(goodPaths, pstFolders).crash
      ensures disk.dirs == old(disk.dirs) && disk.texts == old(disk.texts)
    {
      var paths, folders := goodPaths, pstFolders;
      var i := 0;
      while i < |folders|
        invariant 0 <= i <= |folders|
        invariant Pass2(paths, folders[..i]).crash.None?
        invariant disk.files == old(disk.files) + Pass2(paths, folders[..i]).written
        invariant disk.dirs == old(disk.dirs) && disk.texts == old(disk.texts)
      {
        var folder := folders[i];
        Pass2Next(paths, folders, i);
        if folder.pstId !in paths {
          // an excluded folder
          i := i + 1;
          continue;
        }
        var fault := SaveFolderItems(paths[folder.pstId], folder.items, disk);
        if fault.Some? && !Structural(fault.value) {
          Pass2Stops(paths, folders, i + 1);
          return fault;
        }
        i := i + 1;
      }
      assert folders[..|folders|] == folders;
      crash := None;
    }

    /** `Extract`: the top directory, then both passes. Returns the exception
        that escaped pass 2 and ended the program, if any. */
    method Extract(disk: Disk) returns (crash: Option<Fault>)
      requires pstFolders != []
      modifies this, disk
      ensures mboxFolder == old(mboxFolder)
      ensures accountTopName == TopName(pstFolders[0].name)
      ensures accountTopPath == mboxFolder + "/" + accountTopName
      ensures goodPaths == old(goodPaths) + Pass1(mboxFolder, accountTopPath, pstFolders).paths
      ensures disk.texts == AppendLines(old(disk.texts), Combine(mboxFolder, FolderMapName),
                                        Pass1(mboxFolder, accountTopPath, pstFolders).lines)
      ensures disk.dirs == old(disk.dirs) + {accountTopPath} + Pass1(mboxFolder, accountTopPath, pstFolders).dirs
      ensures disk.files == old(disk.files) + Pass2(goodPaths, pstFolders).written
      ensures crash == Pass2(goodPaths, pstFolders).crash
    {
      accountTopName := TopName(pstFolders[0].name);
      accountTopPath := mboxFolder + "/" + accountTopName;
      disk.CreateDirectory(accountTopPath);
      RecordFolders(disk);
      crash := WriteGoodFolders(disk);
    }
  }

  // ---------------------------------------------------------------------------
  // The program

  /** Why the program ended with an unhandled exception. */
  datatype Crash =
    | MissingArgument             // `args[0]` or `args[1]` is absent
    | OpenFailed(fault: Fault)    // the PST reader could not open the file
    | NoRootFolder                // the root folder collection is empty
    | Uncaught(fault: Fault)      // an exception other than a range or index fault in pass 2

  datatype Outcome = Finished | Crashed(reason: Crash)

  /** `Main`: `args[0]` names the PST file under the input root, `args[1]` the
      account. `archive` stands for opening that file and reading its root
      folder collection. */
  method RunDocker(args: seq<string>, archive: Archive, disk: Disk) returns (outcome: Outcome)
    modifies disk
    ensures |args| < 2 ==>
              (outcome == Crashed(MissingArgument)
               && disk.dirs == old(disk.dirs) && disk.files == old(disk.files) && disk.texts == old(disk.texts))
    ensures |args| >= 2 && archive.Unreadable? ==>
              (outcome == Crashed(OpenFailed(archive.fault))
               && disk.dirs == old(disk.dirs) && disk.files == old(disk.files) && disk.texts == old(disk.texts))
    ensures |args| >= 2 && archive == Opened([]) ==>
              (outcome == Crashed(NoRootFolder)
               && disk.dirs == old(disk.dirs) && disk.files == old(disk.files) && disk.texts == old(disk.texts))
    ensures |args| >= 2 && archive.Opened? && archive.folders != [] ==>
              var mbox := MimeRoot + "/" + args[1];
              var top := mbox + "/" + TopName(archive.folders[0].name);
              var p1 := Pass1(mbox, top, archive.folders);
              var p2 := Pass2(p1.paths, archive.folders);
              (disk.dirs == old(disk.dirs) + {mbox, top} + p1.dirs
               && disk.texts == AppendLines(old(disk.texts), Combine(mbox, FolderMapName), p1.lines)
               && disk.files == old(disk.files) + p2.written
               && outcome == if p2.crash.None? then Finished else Crashed(Uncaught(p2.crash.value)))
  {
    if |args| < 2 {
      return Crashed(MissingArgument);
    }
    var account := args[0];
    var accountName := args[1];
    match archive
    case Unreadable(e) =>
      outcome := Crashed(OpenFailed(e));
    case Opened(folders) =>
      if folders == [] {
        return Crashed(NoRootFolder);
      }
      var extract := new PstExtractor(account, accountName, folders, disk);
      assert extract.goodPaths + Pass1(extract.mboxFolder, extract.mboxFolder + "/" + TopName(folders[0].name), folders).paths
          == Pass1(extract.mboxFolder, extract.mboxFolder + "/" + TopName(folders[0].name), folders).paths;
      var crash := extract.Extract(disk);
      outcome := if crash.None? then Finished else Crashed(Uncaught(crash.value));
  }
}
