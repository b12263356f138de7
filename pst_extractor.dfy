/** The Python wrapper's handling of the backend's standard output: characters
    are gathered into lines, and each line is logged at the level its prefix
    names ("ERROR: ...", "WARNING: ...") or at "info" otherwise. */
module Wrapper {
  import opened Text

  /** The levels the wrapper accepts as a line prefix. */
  const ValidLevels: seq<string> := ["debug", "info", "warning", "error", "critical"]

  /** One logged line: the level it is logged at and the message text. */
  datatype LogRecord = LogRecord(level: string, message: string)

  /** `line.split(":", 1)` unpacked into a prefix and a rest: the text before
      the first colon and the text after it. Without a colon the unpacking
      raises, which is `None` here. */
  function SplitLevel(line: string): (r: Option<(string, string)>)
    ensures r.None? <==> ':' !in line
    ensures r.Some? ==> ':' !in r.value.0 && line == r.value.0 + ":" + r.value.1
  {
    match FirstIndexOf(line, ':')
    case None => None
    case Some(k) =>
      assert line == line[..k] + ":" + line[k + 1..];
      Some((line[..k], line[k + 1..]))
  }

  /** `_log_subprocess_line`: the level and message a line is logged with. */
  function ClassifyLine(line: string): (r: LogRecord)
    ensures r.level in ValidLevels
    ensures r.level != "info" ==> ':' in line
  {
    match SplitLevel(line)
    case Some((prefix, rest)) =>
      var level := Lower(Strip(prefix));
      if level in ValidLevels then LogRecord(level, Strip(rest)) else LogRecord("info", Strip(line))
    case None => LogRecord("info", Strip(line))
  }

  /** A line whose text before its first colon names a level, once stripped and
      lower-cased, is logged at that level with the stripped text after that
      colon; later colons stay in the message. */
  lemma {:induction false} ClassifyNamedLevel(prefix: string, rest: string)
    requires ':' !in prefix
    requires Lower(Strip(prefix)) in ValidLevels
    ensures ClassifyLine(prefix + ":" + rest) == LogRecord(Lower(Strip(prefix)), Strip(rest))
  {
    SplitAtFirstColon(prefix, rest);
  }

  /** A line whose text before its first colon is not a level is logged at
      "info" with the whole line stripped, not just the text after the colon. */
  lemma {:induction false} ClassifyOtherPrefix(prefix: string, rest: string)
    requires ':' !in prefix
    requires Lower(Strip(prefix)) !in ValidLevels
    ensures ClassifyLine(prefix + ":" + rest) == LogRecord("info", Strip(prefix + ":" + rest))
  {
    SplitAtFirstColon(prefix, rest);
  }

  /** A line without a colon is logged at "info" with the whole line stripped. */
  lemma ClassifyNoColon(line: string)
    requires ':' !in line
    ensures ClassifyLine(line) == LogRecord("info", Strip(line))
  {
  }

  lemma {:induction false} SplitAtFirstColon(prefix: string, rest: string)
    requires ':' !in prefix
    ensures SplitLevel(prefix + ":" + rest) == Some((prefix, rest))
  {
    FirstIndexOfAfter(prefix, ':', rest);
    var line := prefix + ":" + rest;
    assert line[..|prefix|] == prefix && line[|prefix| + 1..] == rest;
  }

  /** Whitespace in front of a string does not survive `strip()`. */
  lemma {:induction false} StripAfterSpace(c: char, m: string)
    requires IsPySpace(c)
    ensures Strip([c] + m) == Strip(m)
  {
    var s := [c] + m;
    assert s[1..] == m;
    assert LeadingSpaces(s) == 1 + LeadingSpaces(m);
    assert s[LeadingSpaces(s)..] == m[LeadingSpaces(m)..];
  }

  /** A string with no whitespace at either end is left alone by `strip()`. */
  lemma StripUnpadded(s: string)
    requires s != [] ==> !IsPySpace(s[0]) && !IsPySpace(s[|s| - 1])
    ensures Strip(s) == s
  {
    assert LeadingSpaces(s) == 0;
    assert s[0..] == s;
  }

  /** Every error the backend reports, `ERROR: ` followed by a message, is
      logged at "error" with the message stripped. */
  lemma {:induction false} BackendErrorLogged(message: string)
    ensures ClassifyLine("ERROR: " + message) == LogRecord("error", Strip(message))
  {
    StripUnpadded("ERROR");
    assert Lower("ERROR") == "error";
    assert "ERROR: " + message == "ERROR" + ":" + ([' '] + message);
    ClassifyNamedLevel("ERROR", [' '] + message);
    StripAfterSpace(' ', message);
  }

  /** Only the first colon splits: after a level prefix, later colons stay in
      the message (so "ERROR: a: b" is an error with message "a: b"). */
  lemma {:induction false} LaterColonsKept(prefix: string, a: string, b: string)
    requires ':' !in prefix
    requires Lower(Strip(prefix)) in ValidLevels
    ensures ClassifyLine(prefix + ":" + a + ":" + b) == LogRecord(Lower(Strip(prefix)), Strip(a + ":" + b))
  {
    assert prefix + ":" + a + ":" + b == prefix + ":" + (a + ":" + b);
    ClassifyNamedLevel(prefix, a + ":" + b);
  }

  lemma {:induction false} LeadingSpacesAfter(pre: string, t: string)
    requires forall i :: 0 <= i < |pre| ==> IsPySpace(pre[i])
    ensures LeadingSpaces(pre + t) == |pre| + LeadingSpaces(t)
  {
    if pre != [] {
      assert (pre + t)[1..] == pre[1..] + t;
      LeadingSpacesAfter(pre[1..], t);
    } else {
      assert pre + t == t;
    }
  }

  lemma {:induction false} TrailingStartBefore(t: string, post: string)
    requires forall i :: 0 <= i < |post| ==> IsPySpace(post[i])
    ensures TrailingStart(t + post) == TrailingStart(t)
  {
    if post != [] {
      assert (t + post)[..|t + post| - 1] == t + post[..|post| - 1];
      TrailingStartBefore(t, post[..|post| - 1]);
    } else {
      assert t + post == t;
    }
  }

  /** `strip()` removes exactly the whitespace around a word. */
  lemma {:induction false} StripPadded(pre: string, word: string, post: string)
    requires forall i :: 0 <= i < |pre| ==> IsPySpace(pre[i])
    requires forall i :: 0 <= i < |post| ==> IsPySpace(post[i])
    requires word != [] && !IsPySpace(word[0]) && !IsPySpace(word[|word| - 1])
    ensures Strip(pre + word + post) == word
  {
    var s := pre + word + post;
    assert s == pre + (word + post);
    LeadingSpacesAfter(pre, word + post);
    assert LeadingSpaces(word + post) == 0;
    assert s[|pre|..] == word + post;
    TrailingStartBefore(word, post);
    assert TrailingStart(word) == |word|;
    assert (word + post)[..|word|] == word;
  }

  /** The level prefix is matched ignoring case and the whitespace around it
      (so " Warning :x" is a warning with message "x"). */
  lemma {:induction false} LevelIgnoresCaseAndSpace(pre: string, word: string, post: string, rest: string)
    requires forall i :: 0 <= i < |pre| ==> IsPySpace(pre[i])
    requires forall i :: 0 <= i < |post| ==> IsPySpace(post[i])
    requires word != [] && !IsPySpace(word[0]) && !IsPySpace(word[|word| - 1])
    requires ':' !in pre + word + post
    requires Lower(word) in ValidLevels
    ensures ClassifyLine(pre + word + post + ":" + rest) == LogRecord(Lower(word), Strip(rest))
  {
    StripPadded(pre, word, post);
    ClassifyNamedLevel(pre + word + post, rest);
  }

  /** A report the backend writes as `ERROR: <message>` and a line feed, with
      no line feed inside the message, reaches the log as exactly one record,
      at "error", carrying the message stripped. */
  lemma {:induction false} BackendErrorReport(message: string)
    requires NoLineFeed(message)
    ensures Classified(Assemble("ERROR: " + message + "\n").lines) == [LogRecord("error", Strip(message))]
  {
    var line := "ERROR: " + message;
    assert NoLineFeed(line) by {
      assert forall i :: 0 <= i < |line| ==> line[i] == (if i < 7 then "ERROR: "[i] else message[i - 7]);
    }
    assert Terminated([line]) == line + "\n" + Terminated([]);
    assert line + "\n" == Terminated([line]) + [];
    AssembleIsTheCut(line + "\n", [line], []);
    BackendErrorLogged(message);
  }

  // ---------------------------------------------------------------------------
  // Line assembly

  /** The state of the line buffer after reading `output`: the lines already
      handed to the logger, in order, and the characters of the unfinished
      line still in `line_parts`. */
  datatype Assembly = Assembly(lines: seq<string>, pending: string)

  function Assemble(output: string): Assembly {
    if output == [] then Assembly([], [])
    else
      var prev := Assemble(output[..|output| - 1]);
      var c := output[|output| - 1];
      if c != '\n' then Assembly(prev.lines, prev.pending + [c])
      else Assembly(prev.lines + [prev.pending], [])
  }

  /** The lines, each followed by a line feed, one after the other. */
  function Terminated(lines: seq<string>): string {
    if lines == [] then [] else lines[0] + "\n" + Terminated(lines[1..])
  }

  predicate NoLineFeed(s: string) {
    '\n' !in s
  }

  predicate AllWithoutLineFeed(lines: seq<string>) {
    forall i :: 0 <= i < |lines| ==> NoLineFeed(lines[i])
  }

  lemma {:induction false} TerminatedSnoc(lines: seq<string>, last: string)
    ensures Terminated(lines + [last]) == Terminated(lines) + last + "\n"
  {
    if lines != [] {
      assert (lines + [last])[1..] == lines[1..] + [last];
      TerminatedSnoc(lines[1..], last);
    } else {
      assert [] + [last] == [last];
      assert Terminated([last]) == last + "\n" + Terminated([]);
    }
  }

  /** Reading `output` hands the logger lines free of line feeds and leaves a
      line-feed-free remainder; the lines, each with its line feed restored,
      followed by the remainder, are exactly `output`. */
  lemma {:induction false} AssembleSplitsOutput(output: string)
    ensures AllWithoutLineFeed(Assemble(output).lines) && NoLineFeed(Assemble(output).pending)
    ensures Terminated(Assemble(output).lines) + Assemble(output).pending == output
  {
    if output != [] {
      var init := output[..|output| - 1];
      var c := output[|output| - 1];
      var prev := Assemble(init);
      AssembleSplitsOutput(init);
      assert output == init + [c];
      if c == '\n' {
        TerminatedSnoc(prev.lines, prev.pending);
      }
    }
  }

  lemma TerminatedCons(lines: seq<string>, rest: string)
    requires lines != []
    ensures Terminated(lines) + rest == lines[0] + ['\n'] + (Terminated(lines[1..]) + rest)
  {
  }

  lemma TerminatedHasLineFeed(lines: seq<string>, rest: string)
    requires lines != []
    ensures !NoLineFeed(Terminated(lines) + rest)
  {
    TerminatedCons(lines, rest);
    assert (Terminated(lines) + rest)[|lines[0]|] == '\n';
  }

  /** There is only one way to cut a text into line-feed-free lines, each
      ended by a line feed, and a line-feed-free remainder. */
  lemma {:induction false} TerminatedUnique(a: seq<string>, p: string, b: seq<string>, q: string)
    requires AllWithoutLineFeed(a) && NoLineFeed(p)
    requires AllWithoutLineFeed(b) && NoLineFeed(q)
    requires Terminated(a) + p == Terminated(b) + q
    ensures a == b && p == q
  {
    if a == [] && b == [] {
      assert p == Terminated(a) + p == Terminated(b) + q == q;
    } else if a == [] {
      TerminatedHasLineFeed(b, q);
      assert false;
    } else if b == [] {
      TerminatedHasLineFeed(a, p);
      assert false;
    } else {
      var s := Terminated(a) + p;
      var ra, rb := Terminated(a[1..]) + p, Terminated(b[1..]) + q;
      TerminatedCons(a, p);
      TerminatedCons(b, q);
      FirstIndexOfAfter(a[0], '\n', ra);
      FirstIndexOfAfter(b[0], '\n', rb);
      assert a[0] == s[..|a[0]|] == b[0];
      assert ra == s[|a[0]| + 1..] == rb;
      TerminatedUnique(a[1..], p, b[1..], q);
      assert a == [a[0]] + a[1..] && b == [b[0]] + b[1..];
    }
  }

  /** Any cut of the output into complete lines and a remainder is the one the
      buffer produces: the lines logged are exactly the line-feed-terminated
      lines of the output, and the characters after the last line feed are
      never logged. */
  lemma {:induction false} AssembleIsTheCut(output: string, lines: seq<string>, rest: string)
    requires AllWithoutLineFeed(lines) && NoLineFeed(rest)
    requires output == Terminated(lines) + rest
    ensures Assemble(output) == Assembly(lines, rest)
  {
    AssembleSplitsOutput(output);
    TerminatedUnique(Assemble(output).lines, Assemble(output).pending, lines, rest);
  }

  /** Output without a line feed logs nothing. */
  lemma NothingLoggedWithoutLineFeed(output: string)
    requires NoLineFeed(output)
    ensures Assemble(output).lines == []
  {
    AssembleIsTheCut(output, [], output);
  }

  /** The log records for the lines, in order. */
  function Classified(lines: seq<string>): (r: seq<LogRecord>)
    ensures |r| == |lines|
  {
    seq(|lines|, i requires 0 <= i < |lines| => ClassifyLine(lines[i]))
  }

  /** The `line_parts` loop of `_run_extractor` over the characters the
      backend wrote: each character other than a line feed is appended to the
      buffer; a line feed logs the buffer as one line and clears it. Returns
      the records logged and what is left in the buffer when the loop ends. */
  method LogBackendOutput(output: string) returns (records: seq<LogRecord>, lineParts: string)
    ensures records == Classified(Assemble(output).lines)
    ensures lineParts == Assemble(output).pending
  {
    records, lineParts := [], [];
    var i := 0;
    while i < |output|
      invariant 0 <= i <= |output|
      invariant records == Classified(Assemble(output[..i]).lines)
      invariant lineParts == Assemble(output[..i]).pending
    {
      var stdOut := output[i];
      assert output[..i + 1][..i] == output[..i];
      if stdOut != '\n' {
        lineParts := lineParts + [stdOut];
      } else {
        var line := lineParts;
        lineParts := [];
        records := records + [ClassifyLine(line)];
      }
      i := i + 1;
    }
    assert output[..|output|] == output;
  }
}
