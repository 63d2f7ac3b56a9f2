/** Families of lines and what `parse_log_line` makes of them, stated for
    every word, timestamp and message of the family. */
module ClassifierLemmas {
  import opened Optional
  import opened Text
  import opened Timestamp
  import opened LevelToken
  import opened Classifier

  /** On a line that is already stripped, as `parse_log_file` passes them,
      the message is the end of the line: what is left once the timestamp
      and the level prefix are cut off. */
  lemma MessageIsSuffix(line: string, n: int)
    requires Strip(line) == line
    ensures IsSuffix(ParseLogLine(line, n).message, line)
  {
    if HasTimestampPrefix(line) {
      StampedMessageIsSuffix(line, n);
    } else if HasVocabularyLevel(line) {
      var rest := line[WordLen(line) + 1..];
      assert rest == [] || rest[|rest| - 1] == line[|line| - 1];
      StripKeepsEnd(rest);
      SuffixOfSuffix(Strip(rest), rest, line);
    } else {
      assert line[0..] == line;
    }
  }

  lemma StampedMessageIsSuffix(line: string, n: int)
    requires HasTimestampPrefix(line)
    requires line == [] || !IsSpace(line[|line| - 1])
    ensures IsSuffix(ParseStamped(line, n).message, line)
  {
    var rest := line[|TimestampText(line)|..];
    assert rest == [] || rest[|rest| - 1] == line[|line| - 1];
    StripKeepsEnd(rest);
    SuffixOfSuffix(Remainder(line), rest, line);
    var e := ParseStamped(line, n);
    if e.level.Some? {
      var t := MatchBracketed(Remainder(line)).value;
      assert Remainder(line) == Spelled(t) + e.message;
      SuffixOfSuffix(e.message, Remainder(line), line);
    }
  }

  /** A line without a timestamp whose opening word run is empty, is not
      followed straight by a colon, or is not a vocabulary word, is kept
      whole with no level. */
  lemma UnleveledLine(line: string, k: nat, n: int)
    requires |line| > 0 && !IsDigit(line[0])
    requires k <= |line| && AllWord(line[..k]) && (k == |line| || !IsWordChar(line[k]))
    requires k == 0 || k == |line| || line[k] != ':' || Upper(line[..k]) !in Vocabulary
    ensures ParseLogLine(line, n) == LogEntry(n, line, None, None, line)
  {
    assert |line| >= 19 ==> line[..19][0] == line[0];
    WordLenIs(line, k);
  }

  /** A level outside the vocabulary comes only from a line with a
      timestamp, and is the upper-cased word that opens the remainder after
      it. */
  lemma OutsideVocabularyLevel(line: string, n: int, w: string)
    requires ParseLogLine(line, n).level == Some(w) && w !in Vocabulary
    ensures HasTimestampPrefix(line) && StartsLevelWord(Remainder(line))
    ensures Upper(MatchBracketed(Remainder(line)).value.word) == w
  {
    var e := ParseStamped(line, n);
  }

  /** The level UNKNOWN is the word `unknown`, in any letter case, read
      after a timestamp. */
  lemma UnknownLevel(line: string, n: int)
    requires ParseLogLine(line, n).level == Some("UNKNOWN")
    ensures HasTimestampPrefix(line) && StartsLevelWord(Remainder(line))
    ensures var word := MatchBracketed(Remainder(line)).value.word;
      |word| == 7 && forall i :: 0 <= i < 7 ==> SameIgnoringCase(word[i], "unknown"[i])
  {
    UnknownOutsideVocabulary("UNKNOWN");
    OutsideVocabularyLevel(line, n, "UNKNOWN");
    SpellsUnknown(MatchBracketed(Remainder(line)).value.word);
  }

  lemma UnknownOutsideVocabulary(w: string)
    requires w == "UNKNOWN"
    ensures w !in Vocabulary
  {
    assert w[0] == 'U';
  }

  /** The words that upper-case to UNKNOWN are `unknown` in any case. */
  lemma SpellsUnknown(word: string)
    requires Upper(word) == "UNKNOWN"
    ensures |word| == 7 && forall i :: 0 <= i < 7 ==> SameIgnoringCase(word[i], "unknown"[i])
  {
    var u := "unknown";
    assert Upper(u) == "UNKNOWN";
    UpperEqualIgnoringCase(word, u);
  }

  /** `LEVEL: message` with a vocabulary level, in any letter case, and no
      timestamp gives that level upper-cased and exactly the message. */
  lemma VocabularyLine(word: string, pad: string, msg: string, n: int)
    requires |word| > 0 && AllWord(word) && !IsDigit(word[0]) && Upper(word) in Vocabulary
    requires AllSpace(pad)
    requires msg == [] || (!IsSpace(msg[0]) && !IsSpace(msg[|msg| - 1]))
    ensures var line := word + ":" + pad + msg;
      ParseLogLine(line, n) == LogEntry(n, line, None, Some(Upper(word)), msg)
  {
    var line := word + ":" + pad + msg;
    ColonLineShape(word, pad, msg);
    UnstampedLevelEntry(line, n, word, msg);
  }

  /** The entry of an unstamped line, given where its word and message are. */
  lemma UnstampedLevelEntry(line: string, n: int, word: string, msg: string)
    requires !HasTimestampPrefix(line) && StartsColonWord(line)
    requires WordLen(line) == |word| && line[..|word|] == word && Upper(word) in Vocabulary
    requires Strip(line[|word| + 1..]) == msg
    ensures ParseLogLine(line, n) == LogEntry(n, line, None, Some(Upper(word)), msg)
  {
    assert HasVocabularyLevel(line);
  }

  lemma ColonLineShape(word: string, pad: string, msg: string)
    requires |word| > 0 && AllWord(word) && !IsDigit(word[0])
    requires AllSpace(pad)
    requires msg == [] || (!IsSpace(msg[0]) && !IsSpace(msg[|msg| - 1]))
    ensures var line := word + ":" + pad + msg;
      && !HasTimestampPrefix(line)
      && WordLen(line) == |word| && line[..|word|] == word && StartsColonWord(line)
      && Strip(line[|word| + 1..]) == msg
  {
    var line := word + ":" + pad + msg;
    assert |line| >= 19 ==> line[..19][0] == word[0];
    assert line[..|word|] == word;
    assert line[|word|] == ':';
    WordLenIs(line, |word|);
    assert line[|word| + 1..] == pad + msg;
    assert (pad + msg)[..|pad|] == pad;
    assert (pad + msg)[|pad|..] == msg;
    StripSkipsLeadingSpace(pad + msg, |pad|);
    StripKeepsTrimmed(msg);
  }

  /** `<timestamp> [WORD] message` gives the timestamp, any word upper-cased
      as the level, and exactly the message. */
  lemma StampedBracketLine(ts: string, word: string, msg: string, n: int)
    requires IsTimestampOf(ts, ts)
    requires |word| > 0 && AllWord(word)
    requires msg != [] && !IsSpace(msg[0]) && !IsSpace(msg[|msg| - 1])
    ensures var line := ts + " [" + word + "] " + msg;
      ParseLogLine(line, n) == LogEntry(n, line, Some(ts), Some(Upper(word)), msg)
  {
    var rem := "[" + word + "] " + msg;
    var line := ts + " " + rem;
    assert line == ts + " [" + word + "] " + msg;
    assert rem[|rem| - 1] == msg[|msg| - 1];
    StampedRemainder(ts, rem);
    BracketTokenShape(word, msg);
    var t := Token(true, word, true, false, " ");
    BracketSpelled(word, msg);
    var e := ParseStamped(line, n);
    assert e.timestamp == Some(ts);
    assert e.level == Some(Upper(word));
    CancelPrefix(Spelled(t), e.message, msg);
  }

  lemma BracketTokenShape(word: string, msg: string)
    requires |word| > 0 && AllWord(word)
    requires msg != [] && !IsSpace(msg[0])
    ensures MatchBracketed("[" + word + "] " + msg) == Some(Token(true, word, true, false, " "))
  {
    BracketedWord(word, msg);
    CloseSpaceShape(msg);
  }

  lemma BracketedWord(word: string, msg: string)
    requires |word| > 0 && AllWord(word)
    ensures var s := "[" + word + "] " + msg;
      && s[0] == '[' && WordLen(s[1..]) == |word|
      && s[1..1 + |word|] == word && s[1 + |word|..] == "] " + msg
  {
    var s := "[" + word + "] " + msg;
    var r := s[1..];
    assert r == word + "] " + msg;
    assert r[..|word|] == word;
    assert r[|word|] == ']';
    WordLenIs(r, |word|);
  }

  lemma CloseSpaceShape(msg: string)
    requires msg != [] && !IsSpace(msg[0])
    ensures MatchClosePad("] " + msg) == (true, false, " ")
  {
    var after := "] " + msg;
    assert after[1..] == " " + msg;
    assert (" " + msg)[..1] == " ";
    assert (" " + msg)[1] == msg[0];
    SpaceLenIs(" " + msg, 1);
  }

  lemma BracketSpelled(word: string, msg: string)
    ensures "[" + word + "] " + msg == Spelled(Token(true, word, true, false, " ")) + msg
  {
    assert TailSpelled(true, false, " ") == "] ";
  }

  /** A timestamp followed by whitespace is recognised and read back whole. */
  lemma StampedPrefix(ts: string, rest: string)
    requires IsTimestampOf(ts, ts)
    requires |rest| > 0 && IsSpace(rest[0])
    ensures HasTimestampPrefix(ts + rest) && TimestampText(ts + rest) == ts
  {
    var line := ts + rest;
    assert line[..|ts|] == ts;
    assert line[..19] == ts[..19];
    assert line[19] == (if |ts| == 19 then rest[0] else ts[19]);
  }

  lemma StampedRemainder(ts: string, rem: string)
    requires IsTimestampOf(ts, ts)
    requires rem != [] && !IsSpace(rem[0]) && !IsSpace(rem[|rem| - 1])
    ensures HasTimestampPrefix(ts + " " + rem) && TimestampText(ts + " " + rem) == ts
    ensures Remainder(ts + " " + rem) == rem
  {
    var rest := " " + rem;
    assert ts + " " + rem == ts + rest;
    StampedPrefix(ts, rest);
    CutAfterPrefix(ts, rest);
    StripOneSpace(rem);
  }

  lemma CutAfterPrefix(ts: string, rest: string)
    ensures (ts + rest)[|ts|..] == rest
  {
  }

  lemma StripOneSpace(rem: string)
    requires rem != [] && !IsSpace(rem[0]) && !IsSpace(rem[|rem| - 1])
    ensures Strip(" " + rem) == rem
  {
    var s := " " + rem;
    assert s[..1] == " " && s[|rem| + 1..] == [];
    assert s[1..|rem| + 1] == rem;
    StripCharacterized(s, 1, |rem| + 1);
  }

  lemma CancelPrefix(a: string, x: string, y: string)
    requires a + x == a + y
    ensures x == y
  {
    assert x == (a + x)[|a|..];
  }
}
