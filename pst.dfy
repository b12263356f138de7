/** The archive as both extractors see it through the MailBee library: a
    collection of folders, each with items, and the item loop both variants
    share — write every `IPM.Note` item as `<folder>/<PstID>.eml` until an item
    raises: reading the class of any item, or materialising and saving a note. */
module Pst {
  import opened Text

  /** The .NET exception types the extractors tell apart. */
  datatype FaultKind = ArgumentOutOfRange | IndexOutOfRange | OtherError

  /** An exception raised by the library: its type, its `Message` and its `HResult`. */
  datatype Fault = Fault(kind: FaultKind, message: string, hresult: int)

  /** An archive item: its `PstID`; the exception (if any) that reading its
      `MessageClass` field raises, and the class read otherwise; and the
      exception (if any) that materialising it as a mail message and saving it
      raises. */
  datatype Item = Item(pstId: int, readFault: Option<Fault>, messageClass: string, fault: Option<Fault>)

  /** An archive folder: its `PstID`, `Name`, `SafeShortName` and items. */
  datatype Folder = Folder(pstId: int, name: string, safeShortName: string, items: seq<Item>)

  /** Opening a PST file and reading its root folder collection: the folders,
      in the order the library enumerates them, or the exception it throws. */
  datatype Archive = Opened(folders: seq<Folder>) | Unreadable(fault: Fault)

  /** The message class of an ordinary e-mail message, the only class extracted. */
  const NoteClass := "IPM.Note"

  predicate IsNote(it: Item) {
    it.readFault.None? && it.messageClass == NoteClass
  }

  /** The exception an item raises when the item loop reaches it: reading the
      class can throw for any item, while materialising and saving happen only
      for a note. */
  function Raised(it: Item): Option<Fault> {
    if it.readFault.Some? then it.readFault
    else if IsNote(it) then it.fault
    else None
  }

  /** The file an item is written to: `<dir>/<PstID>.eml`. */
  function EmlPath(dir: string, it: Item): string {
    dir + "/" + IdText(it.pstId) + ".eml"
  }

  /** Within one directory, distinct item identifiers give distinct file names. */
  lemma {:induction false} EmlPathInjective(dir: string, a: Item, b: Item)
    requires EmlPath(dir, a) == EmlPath(dir, b)
    ensures a.pstId == b.pstId
  {
    var ta, tb := IdText(a.pstId), IdText(b.pstId);
    var p := dir + "/";
    assert EmlPath(dir, a) == p + (ta + ".eml") && EmlPath(dir, b) == p + (tb + ".eml");
    assert ta + ".eml" == EmlPath(dir, a)[|p|..] == tb + ".eml";
    assert |ta| == |tb|;
    assert ta == (ta + ".eml")[..|ta|] == (tb + ".eml")[..|tb|] == tb;
    IdTextInjective(a.pstId, b.pstId);
  }

  /** What the item loop of one folder did: the files it wrote, in order, and
      the exception that ended it early, if any. */
  datatype ItemRun = ItemRun(written: seq<string>, fault: Option<Fault>)

  /** The item loop over `items` writing into `dir`: items whose class is not
      `IPM.Note` are passed over; a note is written unless it raises, and the
      first item that raises ends the loop. */
  function NoteRun(dir: string, items: seq<Item>): ItemRun {
    if items == [] then ItemRun([], None)
    else NoteStep(dir, NoteRun(dir, items[..|items| - 1]), items[|items| - 1])
  }

  /** One turn of the item loop. */
  function NoteStep(dir: string, prev: ItemRun, it: Item): ItemRun {
    if prev.fault.Some? then prev
    else if Raised(it).Some? then ItemRun(prev.written, Raised(it))
    else if IsNote(it) then ItemRun(prev.written + [EmlPath(dir, it)], None)
    else prev
  }

  /** The item loop after one more item. */
  lemma NoteRunNext(dir: string, items: seq<Item>, i: nat)
    requires i < |items|
    ensures NoteRun(dir, items[..i + 1]) == NoteStep(dir, NoteRun(dir, items[..i]), items[i])
  {
    assert items[..i + 1][..i] == items[..i];
  }

  /** The notes among `items`, in order. */
  function Notes(items: seq<Item>): (r: seq<Item>)
    ensures |r| <= |items|
    ensures forall it :: it in r <==> it in items && IsNote(it)
  {
    if items == [] then []
    else
      var prev := Notes(items[..|items| - 1]);
      var it := items[|items| - 1];
      assert items == items[..|items| - 1] + [it];
      if IsNote(it) then prev + [it] else prev
  }

  function EmlPaths(dir: string, items: seq<Item>): (r: seq<string>)
    ensures |r| == |items|
  {
    seq(|items|, i requires 0 <= i < |items| => EmlPath(dir, items[i]))
  }

  /** Once an item has raised, later items change nothing. */
  lemma {:induction false} NoteRunStops(dir: string, items: seq<Item>, i: nat)
    requires i <= |items|
    requires NoteRun(dir, items[..i]).fault.Some?
    ensures NoteRun(dir, items) == NoteRun(dir, items[..i])
  {
    if i < |items| {
      assert items[..|items| - 1][..i] == items[..i];
      NoteRunStops(dir, items[..|items| - 1], i);
    } else {
      assert items[..i] == items;
    }
  }

  /** A loop that raised nothing wrote exactly the notes, each once, in order;
      so it wrote at most as many files as the folder has items. */
  lemma {:induction false} NoteRunComplete(dir: string, items: seq<Item>)
    requires NoteRun(dir, items).fault.None?
    ensures NoteRun(dir, items).written == EmlPaths(dir, Notes(items))
    ensures |NoteRun(dir, items).written| <= |items|
  {
    if items != [] {
      var init, it := items[..|items| - 1], items[|items| - 1];
      var prev := NoteRun(dir, init);
      assert prev.fault.None? && Raised(it).None?;
      NoteRunComplete(dir, init);
      if IsNote(it) {
        assert EmlPaths(dir, Notes(init) + [it]) == EmlPaths(dir, Notes(init)) + [EmlPath(dir, it)];
      }
    }
  }

  /** A loop that raised `e` stopped at an item `items[k]` raising `e`, having
      written exactly the notes before it; the items after `k` were not reached. */
  lemma {:induction false} NoteRunFault(dir: string, items: seq<Item>)
    requires NoteRun(dir, items).fault.Some?
    ensures exists k :: (0 <= k < |items| && Raised(items[k]) == NoteRun(dir, items).fault
                         && NoteRun(dir, items[..k]).fault.None?
                         && NoteRun(dir, items).written == EmlPaths(dir, Notes(items[..k])))
  {
    var init := items[..|items| - 1];
    var prev := NoteRun(dir, init);
    if prev.fault.Some? {
      NoteRunFault(dir, init);
      var k :| 0 <= k < |init| && Raised(init[k]) == prev.fault
        && NoteRun(dir, init[..k]).fault.None?
        && prev.written == EmlPaths(dir, Notes(init[..k]));
      assert init[..k] == items[..k];
    } else {
      var k := |items| - 1;
      assert items[..k] == init;
      NoteRunComplete(dir, init);
    }
  }

  /** Every file the loop wrote belongs to a note that did not raise. */
  lemma {:induction false} NoteRunWritesNotes(dir: string, items: seq<Item>, p: string)
    requires p in NoteRun(dir, items).written
    ensures exists it :: it in items && IsNote(it) && Raised(it).None? && p == EmlPath(dir, it)
  {
    var init := items[..|items| - 1];
    var it := items[|items| - 1];
    if p in NoteRun(dir, init).written {
      NoteRunWritesNotes(dir, init, p);
      var w :| w in init && IsNote(w) && Raised(w).None? && p == EmlPath(dir, w);
      assert w in items;
    } else {
      assert p == EmlPath(dir, it);
    }
  }

  /** When the items of a folder have distinct identifiers, no file is written twice. */
  lemma {:induction false} NoteRunDistinct(dir: string, items: seq<Item>)
    requires forall i, j :: 0 <= i < j < |items| ==> items[i].pstId != items[j].pstId
    ensures forall i, j :: 0 <= i < j < |NoteRun(dir, items).written| ==>
      NoteRun(dir, items).written[i] != NoteRun(dir, items).written[j]
  {
    if items != [] {
      var init := items[..|items| - 1];
      var it := items[|items| - 1];
      var prev := NoteRun(dir, init);
      NoteRunDistinct(dir, init);
      if prev.fault.None? && IsNote(it) && Raised(it).None? {
        forall i | 0 <= i < |prev.written|
          ensures prev.written[i] != EmlPath(dir, it)
        {
          if prev.written[i] == EmlPath(dir, it) {
            NoteRunWritesNotes(dir, init, prev.written[i]);
            var u :| u in init && IsNote(u) && Raised(u).None? && prev.written[i] == EmlPath(dir, u);
            EmlPathInjective(dir, u, it);
          }
        }
      }
    }
  }
}
