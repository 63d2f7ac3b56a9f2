/** `parse_log_file` over the lines it has already read. Reading the file is
    not modelled: the input is the sequence of lines, or None when opening or
    reading raised. */
module FileParser {
  import opened Optional
  import opened Text
  import opened Classifier

  /** `e` is the entry for a non-blank line of `lines`: that line, stripped
      and classified under its 1-based position. */
  predicate EntryFor(lines: seq<string>, e: LogEntry) {
    && 1 <= e.lineNum <= |lines|
    && !AllSpace(lines[e.lineNum - 1])
    && e == ParseLogLine(Strip(lines[e.lineNum - 1]), e.lineNum)
  }

  predicate Increasing(r: seq<LogEntry>) {
    forall k, l :: 0 <= k < l < |r| ==> r[k].lineNum < r[l].lineNum
  }

  /** Some entry of `r` carries line number `num`. */
  predicate Numbered(r: seq<LogEntry>, num: int) {
    exists k :: 0 <= k < |r| && r[k].lineNum == num
  }

  /** `r` is the entry list the loop builds from `lines`: every entry comes
      from a non-blank line, the line numbers strictly increase, and no
      non-blank line is missed. */
  predicate ParsedFrom(lines: seq<string>, r: seq<LogEntry>) {
    && |r| <= |lines|
    && (forall k :: 0 <= k < |r| ==> EntryFor(lines, r[k]))
    && Increasing(r)
    && (forall i :: 0 <= i < |lines| && !AllSpace(lines[i]) ==> Numbered(r, i + 1))
  }

  /** The `for line_num, line in enumerate(lines, start=1)` loop: strip each
      line, skip it when empty, otherwise append its entry. The check
      `if entry:` always passes, since the classifier returns a non-empty
      dictionary. */
  function ParseLines(lines: seq<string>): (r: seq<LogEntry>)
    ensures ParsedFrom(lines, r)
    decreases |lines|
  {
    if |lines| == 0 then []
    else
      var n := |lines|;
      var prev := ParseLines(lines[..n - 1]);
      var line := Strip(lines[n - 1]);
      var r := if line == [] then prev else prev + [ParseLogLine(line, n)];
      ExtendParsed(lines, prev, r);
      r
  }

  /** One step of the loop keeps `ParsedFrom`. */
  lemma ExtendParsed(lines: seq<string>, prev: seq<LogEntry>, r: seq<LogEntry>)
    requires |lines| > 0 && ParsedFrom(lines[..|lines| - 1], prev)
    requires var line := Strip(lines[|lines| - 1]);
      r == if line == [] then prev else prev + [ParseLogLine(line, |lines|)]
    ensures ParsedFrom(lines, r)
  {
    ExtendEntries(lines, prev, r);
    ExtendIncreasing(lines, prev, r);
    ExtendNumbered(lines, prev, r);
  }

  lemma ExtendEntries(lines: seq<string>, prev: seq<LogEntry>, r: seq<LogEntry>)
    requires |lines| > 0 && forall k :: 0 <= k < |prev| ==> EntryFor(lines[..|lines| - 1], prev[k])
    requires var line := Strip(lines[|lines| - 1]);
      r == if line == [] then prev else prev + [ParseLogLine(line, |lines|)]
    ensures forall k :: 0 <= k < |r| ==> EntryFor(lines, r[k])
  {
    var n := |lines|;
    var front := lines[..n - 1];
    forall k | 0 <= k < |r|
      ensures EntryFor(lines, r[k])
    {
      if k < |prev| {
        assert EntryFor(front, prev[k]);
        assert front[prev[k].lineNum - 1] == lines[prev[k].lineNum - 1];
        assert r[k] == prev[k];
      }
    }
  }

  lemma ExtendIncreasing(lines: seq<string>, prev: seq<LogEntry>, r: seq<LogEntry>)
    requires |lines| > 0 && Increasing(prev)
    requires forall k :: 0 <= k < |prev| ==> prev[k].lineNum < |lines|
    requires var line := Strip(lines[|lines| - 1]);
      r == if line == [] then prev else prev + [ParseLogLine(line, |lines|)]
    ensures Increasing(r)
  {
  }

  lemma ExtendNumbered(lines: seq<string>, prev: seq<LogEntry>, r: seq<LogEntry>)
    requires |lines| > 0
    requires var front := lines[..|lines| - 1];
      forall i :: 0 <= i < |front| && !AllSpace(front[i]) ==> Numbered(prev, i + 1)
    requires var line := Strip(lines[|lines| - 1]);
      r == if line == [] then prev else prev + [ParseLogLine(line, |lines|)]
    ensures forall i :: 0 <= i < |lines| && !AllSpace(lines[i]) ==> Numbered(r, i + 1)
  {
    var n := |lines|;
    var front := lines[..n - 1];
    forall i | 0 <= i < n && !AllSpace(lines[i])
      ensures Numbered(r, i + 1)
    {
      if i < n - 1 {
        assert front[i] == lines[i];
        var k :| 0 <= k < |prev| && prev[k].lineNum == i + 1;
        assert r[k] == prev[k];
      } else {
        assert r[|r| - 1].lineNum == n;
      }
    }
  }

  /** `parse_log_file`: any failure while reading yields the empty list. */
  function ParseLogFile(read: Option<seq<string>>): (r: seq<LogEntry>)
    ensures read.None? ==> r == []
    ensures read.Some? ==> ParsedFrom(read.value, r)
  {
    match read
    case None => []
    case Some(lines) => ParseLines(lines)
  }

  /** Number of lines that are not blank once stripped. */
  function CountNonBlank(lines: seq<string>): nat {
    if |lines| == 0 then 0
    else (if AllSpace(lines[0]) then 0 else 1) + CountNonBlank(lines[1..])
  }

  lemma {:induction false} CountNonBlankSnoc(lines: seq<string>, x: string)
    ensures CountNonBlank(lines + [x]) == CountNonBlank(lines) + (if AllSpace(x) then 0 else 1)
    decreases |lines|
  {
    if |lines| > 0 {
      assert (lines + [x])[1..] == lines[1..] + [x];
      CountNonBlankSnoc(lines[1..], x);
    } else {
      assert (lines + [x])[1..] == [];
    }
  }

  /** Each non-blank line yields exactly one entry. */
  lemma {:induction false} ParsedCount(lines: seq<string>)
    ensures |ParseLines(lines)| == CountNonBlank(lines)
    decreases |lines|
  {
    if |lines| > 0 {
      var n := |lines|;
      ParsedCount(lines[..n - 1]);
      ParsedLengthStep(lines);
      CountNonBlankStep(lines);
    }
  }

  lemma CountNonBlankStep(lines: seq<string>)
    requires |lines| > 0
    ensures CountNonBlank(lines) == CountNonBlank(lines[..|lines| - 1]) + (if AllSpace(lines[|lines| - 1]) then 0 else 1)
  {
    var n := |lines|;
    assert lines == lines[..n - 1] + [lines[n - 1]];
    CountNonBlankSnoc(lines[..n - 1], lines[n - 1]);
  }

  /** The last line adds one entry unless it is blank. */
  lemma ParsedLengthStep(lines: seq<string>)
    requires |lines| > 0
    ensures |ParseLines(lines)| == |ParseLines(lines[..|lines| - 1])| + (if AllSpace(lines[|lines| - 1]) then 0 else 1)
  {
  }

  /** Entries numbered 1, 2, 3, ... in order. */
  predicate Dense(r: seq<LogEntry>) {
    forall k :: 0 <= k < |r| ==> r[k].lineNum == k + 1
  }

  /** Without blank lines every line yields an entry and the entries are
      numbered 1, 2, 3, ... in order. */
  lemma {:induction false} DenseWithoutBlankLines(lines: seq<string>)
    requires forall i :: 0 <= i < |lines| ==> !AllSpace(lines[i])
    ensures |ParseLines(lines)| == |lines| && Dense(ParseLines(lines))
    decreases |lines|
  {
    if |lines| > 0 {
      var n := |lines|;
      var front := lines[..n - 1];
      assert forall i :: 0 <= i < n - 1 ==> front[i] == lines[i];
      DenseWithoutBlankLines(front);
      var prev := ParseLines(front);
      assert Strip(lines[n - 1]) != [];
      var e := ParseLogLine(Strip(lines[n - 1]), n);
      assert ParseLines(lines) == prev + [e];
      DenseSnoc(prev, e);
    }
  }

  lemma DenseSnoc(prev: seq<LogEntry>, e: LogEntry)
    requires Dense(prev) && e.lineNum == |prev| + 1
    ensures Dense(prev + [e])
  {
    var r := prev + [e];
    forall k | 0 <= k < |r|
      ensures r[k].lineNum == k + 1
    {
      if k < |prev| {
        assert r[k] == prev[k];
      }
    }
  }
}
