/** `parse_log_line`: one text line to one structured entry, first match
    wins. A leading timestamp is tried first; after it any word is taken as
    the level. Without a timestamp only a vocabulary level followed by a
    colon is taken. Otherwise the line is kept whole as the message. */
module Classifier {
  import opened Optional
  import opened Text
  import opened Timestamp
  import opened LevelToken

  /** The dictionary `parse_log_line` returns. */
  datatype LogEntry = LogEntry(lineNum: int, raw: string, timestamp: Option<string>, level: Option<string>, message: string)

  /** The levels accepted when no timestamp precedes them. */
  const Vocabulary: set<string> := {"INFO", "ERROR", "WARN", "WARNING", "DEBUG", "TRACE", "FATAL"}

  /** The line opens with a maximal word run, straight followed by a colon,
      that upper-cases to a vocabulary level. */
  predicate HasVocabularyLevel(line: string) {
    StartsColonWord(line) && Upper(line[..WordLen(line)]) in Vocabulary
  }

  /** A level as the parser writes it: a non-empty upper-cased word. */
  predicate IsLevelWord(l: string) {
    |l| > 0 && AllWord(l) && forall i :: 0 <= i < |l| ==> !IsLower(l[i])
  }

  /** What is left of the line once its timestamp is cut off, stripped. */
  function Remainder(line: string): (rem: string)
    requires HasTimestampPrefix(line)
    ensures rem == [] || (!IsSpace(rem[0]) && !IsSpace(rem[|rem| - 1]))
  {
    Strip(line[|TimestampText(line)|..])
  }

  function ParseLogLine(line: string, lineNum: int): (e: LogEntry)
    ensures e.lineNum == lineNum && e.raw == line
    ensures e.timestamp.Some? <==> HasTimestampPrefix(line)
    ensures e.timestamp.Some? ==> IsTimestampOf(e.timestamp.value, line)
    ensures e.level.Some? ==> IsLevelWord(e.level.value)
    ensures e.timestamp.None? && e.level.Some? ==> e.level.value in Vocabulary
    ensures e.timestamp.None? && e.level.None? <==> !HasTimestampPrefix(line) && !HasVocabularyLevel(line)
    ensures e.timestamp.None? && e.level.None? ==> e.message == line
  {
    if MatchTimestamp(line).Some? then ParseStamped(line, lineNum) else ParseUnstamped(line, lineNum)
  }

  /** The timestamp branch: the level is the word (after an optional `[`)
      that opens the stripped remainder, upper-cased and not checked against
      the vocabulary, and the message is what follows the consumed level
      prefix. A remainder that opens with neither a word nor `[` and a word
      (an empty one included) leaves the level unset and is the message as
      it stands. */
  function ParseStamped(line: string, lineNum: int): (e: LogEntry)
    requires HasTimestampPrefix(line)
    ensures e.lineNum == lineNum && e.raw == line
    ensures e.timestamp == Some(TimestampText(line))
    ensures e.level.Some? <==> StartsLevelWord(Remainder(line))
    ensures e.level.Some? ==> IsLevelWord(e.level.value)
    ensures e.level.None? ==> e.message == Remainder(line)
    ensures e.level.Some? ==>
      var t := MatchBracketed(Remainder(line)).value;
      e.level == Some(Upper(t.word)) && Remainder(line) == Spelled(t) + e.message
  {
    var rem := Strip(line[MatchTimestamp(line).value..]);
    RemainderAfterMatch(line);
    var token := MatchBracketed(rem);
    if token.Some? then
      var t := token.value;
      UpperKeepsWord(t.word);
      SplitAtMatch(rem, t);
      LogEntry(lineNum, line, Some(TimestampText(line)), Some(Upper(t.word)), Strip(rem[Width(t)..]))
    else
      LogEntry(lineNum, line, Some(TimestampText(line)), None, rem)
  }

  /** The branch without a timestamp: a level is set exactly when the line
      opens with a vocabulary word and a colon, compared case-insensitively,
      and the message is then the text after the colon, stripped; otherwise
      the entry keeps the line as its message. */
  function ParseUnstamped(line: string, lineNum: int): (e: LogEntry)
    ensures e.lineNum == lineNum && e.raw == line && e.timestamp == None
    ensures e.level.Some? <==> HasVocabularyLevel(line)
    ensures e.level.Some? ==>
      && e.level.value == Upper(line[..WordLen(line)])
      && e.level.value in Vocabulary && IsLevelWord(e.level.value)
      && e.message == Strip(line[WordLen(line) + 1..])
    ensures e.level.None? ==> e.message == line
  {
    var token := MatchColon(line);
    if token.Some? && Upper(token.value.word) in Vocabulary then
      var t := token.value;
      UpperKeepsWord(t.word);
      AfterColon(line, t);
      LogEntry(lineNum, line, None, Some(Upper(t.word)), Strip(line[Width(t)..]))
    else
      LogEntry(lineNum, line, None, None, line)
  }

  /** The whitespace `\s*` consumed after the colon does not change the
      stripped message. */
  lemma AfterColon(line: string, t: Token)
    requires MatchColon(line) == Some(t)
    ensures Strip(line[Width(t)..]) == Strip(line[WordLen(line) + 1..])
  {
    var n := WordLen(line);
    var after := line[n + 1..];
    assert ColonMatch(line[n..], true, t.pad);
    assert line[n..][1..] == after;
    assert after[..|t.pad|] == t.pad;
    assert after[|t.pad|..] == line[Width(t)..];
    StripSkipsLeadingSpace(after, |t.pad|);
  }

  /** The remainder the source strips after `match.end()` is the same
      whether or not the match swallowed one trailing whitespace character. */
  lemma RemainderAfterMatch(line: string)
    requires HasTimestampPrefix(line)
    ensures Strip(line[MatchTimestamp(line).value..]) == Remainder(line)
  {
    var n := MatchTimestamp(line).value;
    var ts := TimestampText(line);
    if n != |ts| {
      assert line[19..][..1] == [line[19]];
      assert line[19..][1..] == line[20..];
      StripSkipsLeadingSpace(line[19..], 1);
    }
  }
}
