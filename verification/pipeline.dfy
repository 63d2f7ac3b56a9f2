/** What the summary of a parsed file says about the file's lines: the
    `parse_log_file` then `get_log_summary` sequence of the upload handler. */
module Pipeline {
  import opened Optional
  import opened Text
  import opened Timestamp
  import opened Classifier
  import opened FileParser
  import opened Summary
  import opened LevelToken
  import opened ClassifierLemmas

  /** A file that cannot be read summarises as nothing. */
  lemma UnreadableSummary()
    ensures GetLogSummary(ParseLogFile(None)) == LogSummary(0, map[], false)
  {
  }

  /** The total is the number of lines that are not blank once stripped. */
  lemma TotalCountsNonBlankLines(lines: seq<string>)
    ensures GetLogSummary(ParseLogFile(Some(lines))).totalLines == CountNonBlank(lines)
  {
    ParsedCount(lines);
  }

  /** The entry built for the `i`-th (0-based) non-blank line. */
  lemma EntryOfLine(lines: seq<string>, r: seq<LogEntry>, i: int) returns (k: int)
    requires ParsedFrom(lines, r)
    requires 0 <= i < |lines| && !AllSpace(lines[i])
    ensures 0 <= k < |r| && r[k] == ParseLogLine(Strip(lines[i]), i + 1)
  {
    k := NumberedEntry(lines, r, i);
    EntryLine(lines, r[k], i);
  }

  lemma NumberedEntry(lines: seq<string>, r: seq<LogEntry>, i: int) returns (k: int)
    requires ParsedFrom(lines, r)
    requires 0 <= i < |lines| && !AllSpace(lines[i])
    ensures 0 <= k < |r| && EntryFor(lines, r[k]) && r[k].lineNum == i + 1
  {
    assert Numbered(r, i + 1);
    k :| 0 <= k < |r| && r[k].lineNum == i + 1;
  }

  lemma EntryLine(lines: seq<string>, e: LogEntry, i: int)
    requires EntryFor(lines, e) && e.lineNum == i + 1
    ensures e == ParseLogLine(Strip(lines[i]), i + 1)
  {
  }

  /** The line an entry was built from. */
  lemma LineOfEntry(lines: seq<string>, r: seq<LogEntry>, k: int) returns (i: int)
    requires ParsedFrom(lines, r)
    requires 0 <= k < |r|
    ensures 0 <= i < |lines| && !AllSpace(lines[i]) && r[k] == ParseLogLine(Strip(lines[i]), i + 1)
  {
    assert EntryFor(lines, r[k]);
    i := r[k].lineNum - 1;
  }

  /** The timestamp flag is set exactly when some non-blank line, once
      stripped, opens with a timestamp. */
  lemma TimestampFlagOfFile(lines: seq<string>)
    ensures GetLogSummary(ParseLogFile(Some(lines))).hasTimestamps <==>
      exists i :: 0 <= i < |lines| && !AllSpace(lines[i]) && HasTimestampPrefix(Strip(lines[i]))
  {
    TimestampFlagOfParsed(lines, ParseLines(lines));
  }

  lemma TimestampFlagOfParsed(lines: seq<string>, r: seq<LogEntry>)
    requires ParsedFrom(lines, r)
    ensures (exists k :: 0 <= k < |r| && HasTimestamp(r[k])) <==>
      exists i :: 0 <= i < |lines| && !AllSpace(lines[i]) && HasTimestampPrefix(Strip(lines[i]))
  {
    if exists k :: 0 <= k < |r| && HasTimestamp(r[k]) {
      var k :| 0 <= k < |r| && HasTimestamp(r[k]);
      StampedEntryLine(lines, r, k);
    }
    if exists i :: 0 <= i < |lines| && !AllSpace(lines[i]) && HasTimestampPrefix(Strip(lines[i])) {
      var i :| 0 <= i < |lines| && !AllSpace(lines[i]) && HasTimestampPrefix(Strip(lines[i]));
      StampedLineEntry(lines, r, i);
    }
  }

  lemma StampedEntryLine(lines: seq<string>, r: seq<LogEntry>, k: int)
    requires ParsedFrom(lines, r) && 0 <= k < |r| && HasTimestamp(r[k])
    ensures exists i :: 0 <= i < |lines| && !AllSpace(lines[i]) && HasTimestampPrefix(Strip(lines[i]))
  {
    var i := LineOfEntry(lines, r, k);
    assert !AllSpace(lines[i]) && HasTimestampPrefix(Strip(lines[i]));
  }

  lemma StampedLineEntry(lines: seq<string>, r: seq<LogEntry>, i: int)
    requires ParsedFrom(lines, r)
    requires 0 <= i < |lines| && !AllSpace(lines[i]) && HasTimestampPrefix(Strip(lines[i]))
    ensures exists k :: 0 <= k < |r| && HasTimestamp(r[k])
  {
    var k := EntryOfLine(lines, r, i);
    assert HasTimestamp(r[k]);
  }

  /** Every level key of a file summary is None, for the unleveled entries,
      or an upper-cased word; a word outside the vocabulary (such as
      UNKNOWN) is a key only as the level of a line that opens with a
      timestamp. */
  lemma LevelKeysOfFile(lines: seq<string>)
    ensures forall key :: key in GetLogSummary(ParseLogFile(Some(lines))).levels ==>
      key.None? || IsLevelWord(key.value)
    ensures forall key :: key in GetLogSummary(ParseLogFile(Some(lines))).levels && key.Some? && key.value !in Vocabulary ==>
      exists i ::
        && 0 <= i < |lines| && !AllSpace(lines[i]) && HasTimestampPrefix(Strip(lines[i]))
        && ParseLogLine(Strip(lines[i]), i + 1).level == key
  {
    var r := ParseLines(lines);
    forall key | key in GetLogSummary(r).levels
      ensures key.None? || IsLevelWord(key.value)
      ensures key.Some? && key.value !in Vocabulary ==>
        exists i ::
          && 0 <= i < |lines| && !AllSpace(lines[i]) && HasTimestampPrefix(Strip(lines[i]))
          && ParseLogLine(Strip(lines[i]), i + 1).level == key
    {
      var k :| 0 <= k < |r| && r[k].level == key;
      var i := LineOfEntry(lines, r, k);
    }
  }

  /** The key UNKNOWN in a file summary comes from a line that opens with a
      timestamp followed by the word `unknown`, in any letter case, possibly
      in brackets. */
  lemma UnknownKeyOfFile(lines: seq<string>)
    requires Some("UNKNOWN") in GetLogSummary(ParseLogFile(Some(lines))).levels
    ensures exists i ::
      && 0 <= i < |lines| && !AllSpace(lines[i]) && HasTimestampPrefix(Strip(lines[i]))
      && StartsLevelWord(Remainder(Strip(lines[i])))
      && Upper(MatchBracketed(Remainder(Strip(lines[i]))).value.word) == "UNKNOWN"
  {
    UnknownOutsideVocabulary("UNKNOWN");
    LevelKeysOfFile(lines);
    var i :|
      && 0 <= i < |lines| && !AllSpace(lines[i]) && HasTimestampPrefix(Strip(lines[i]))
      && ParseLogLine(Strip(lines[i]), i + 1).level == Some("UNKNOWN");
    OutsideVocabularyLevel(Strip(lines[i]), i + 1, "UNKNOWN");
  }

  /** Each non-blank line is counted once, under its own level key. */
  lemma LineCountedUnderItsLevel(lines: seq<string>, i: int)
    requires 0 <= i < |lines| && !AllSpace(lines[i])
    ensures var key := ParseLogLine(Strip(lines[i]), i + 1).level;
      var levels := GetLogSummary(ParseLogFile(Some(lines))).levels;
      key in levels && levels[key] >= 1
  {
    var r := ParseLines(lines);
    var k := EntryOfLine(lines, r, i);
    assert LevelsOf(r)[k] == r[k].level;
  }
}
