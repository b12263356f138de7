/** The part of the filesystem the extractors change: the directories they
    create, the EML files they save, and the text files they append lines to. */
module FileSystem {

  /** `texts` with `lines` appended to the file at `path`; a missing file is
      first created empty, and appending no lines leaves everything as it was. */
  function AppendLines(texts: map<string, seq<string>>, path: string, lines: seq<string>): (r: map<string, seq<string>>)
    ensures lines != [] ==> path in r
    ensures forall q :: q != path ==> (q in r <==> q in texts) && (q in texts ==> r[q] == texts[q])
  {
    if lines == [] then texts
    else texts[path := (if path in texts then texts[path] else []) + lines]
  }

  /** Appending only ever adds at the end: the old lines stay a prefix of the
      file, the new lines are its last ones, and it grows by their number. */
  lemma AppendLinesAppends(texts: map<string, seq<string>>, path: string, lines: seq<string>)
    ensures var r := AppendLines(texts, path, lines);
            && (path in texts ==> path in r && texts[path] <= r[path])
            && (path in r ==> |r[path]| == (if path in texts then |texts[path]| else 0) + |lines|
                              && r[path][|r[path]| - |lines|..] == lines)
  {
  }

  /** Appending twice is appending the concatenation: no earlier line is ever
      rewritten, reordered or removed. */
  lemma AppendLinesTwice(texts: map<string, seq<string>>, path: string, a: seq<string>, b: seq<string>)
    ensures AppendLines(AppendLines(texts, path, a), path, b) == AppendLines(texts, path, a + b)
  {
    if a == [] {
      assert a + b == b;
    } else if b == [] {
      assert a + b == a;
    } else {
      var old0 := if path in texts then texts[path] else [];
      assert (old0 + a) + b == old0 + (a + b);
    }
  }

  class Disk {
    var dirs: set<string>
    var files: seq<string>
    var texts: map<string, seq<string>>

    constructor ()
      ensures dirs == {} && files == [] && texts == map[]
    {
      dirs, files, texts := {}, [], map[];
    }

    /** `Directory.CreateDirectory`. */
    method CreateDirectory(path: string)
      modifies this
      ensures dirs == old(dirs) + {path}
      ensures files == old(files) && texts == old(texts)
    {
      dirs := dirs + {path};
    }

    /** `MailMessage.SaveMessage`: one more EML file written. */
    method SaveMessage(path: string)
      modifies this
      ensures files == old(files) + [path]
      ensures dirs == old(dirs) && texts == old(texts)
    {
      files := files + [path];
    }

    /** `File.Exists` for the text files. */
    predicate FileExists(path: string)
      reads this
    {
      path in texts
    }

    /** `File.Create`: an empty file, replacing any file of that name. */
    method CreateFile(path: string)
      modifies this
      ensures texts == old(texts)[path := []]
      ensures dirs == old(dirs) && files == old(files)
    {
      texts := texts[path := []];
    }

    /** `StreamWriter.WriteLine` on a writer opened in append mode, which
        creates the file when it is missing. */
    method AppendLine(path: string, line: string)
      modifies this
      ensures texts == AppendLines(old(texts), path, [line])
      ensures dirs == old(dirs) && files == old(files)
    {
      if path !in texts {
        texts := texts[path := []];
      }
      texts := texts[path := texts[path] + [line]];
    }
  }
}
