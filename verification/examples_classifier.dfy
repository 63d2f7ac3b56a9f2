/** Concrete lines and the entries `parse_log_line` makes of them. Each
    example instantiates a lemma about a whole family of lines; its helper
    reads off the few character facts that family lemma needs. */
module ClassifierExamples {
  import opened Optional
  import opened Text
  import opened Timestamp
  import opened Classifier
  import opened ClassifierLemmas

  lemma DateShape(t: string)
    requires |t| == 19
    requires IsDigit(t[0]) && IsDigit(t[1]) && IsDigit(t[2]) && IsDigit(t[3]) && t[4] == '-'
    requires IsDigit(t[5]) && IsDigit(t[6]) && t[7] == '-' && IsDigit(t[8]) && IsDigit(t[9])
    requires t[10] == 'T' || IsSpace(t[10])
    requires IsDigit(t[11]) && IsDigit(t[12]) && t[13] == ':' && IsDigit(t[14]) && IsDigit(t[15])
    requires t[16] == ':' && IsDigit(t[17]) && IsDigit(t[18])
    ensures IsDateTimeShape(t)
  {
    forall i | 0 <= i < 19 && i != 4 && i != 7 && i != 10 && i != 13 && i != 16
      ensures IsDigit(t[i])
    {
      assert i in {0, 1, 2, 3, 5, 6, 8, 9, 11, 12, 14, 15, 17, 18};
    }
  }

  /** A zoned ISO timestamp, a bracketed level and a message. */
  lemma StampedBracketedExample()
    ensures var line := "2024-01-01T10:00:00Z [ERROR] disk full";
      ParseLogLine(line, 1) == LogEntry(1, line, Some("2024-01-01T10:00:00Z"), Some("ERROR"), "disk full")
  {
    var ts, w, msg := "2024-01-01T10:00:00Z", "ERROR", "disk full";
    StampedBracketedPieces(ts, w, msg);
    var line := ts + " [" + w + "] " + msg;
    assert line == "2024-01-01T10:00:00Z [ERROR] disk full";
    StampedBracketLine(ts, w, msg, 1);
  }

  lemma StampedBracketedPieces(ts: string, w: string, msg: string)
    requires ts == "2024-01-01T10:00:00Z" && w == "ERROR" && msg == "disk full"
    ensures IsTimestampOf(ts, ts) && |w| > 0 && AllWord(w) && Upper(w) == w
    ensures msg != [] && !IsSpace(msg[0]) && !IsSpace(msg[|msg| - 1])
  {
    var date := "2024-01-01T10:00:00";
    DateShape(date);
    assert ts[..19] == date;
  }

  /** After a timestamp any word is a level: `unknown` becomes the level
      UNKNOWN, the only way that key reaches a summary. */
  lemma StampedUnknownExample()
    ensures var line := "2024-01-01 10:00:00 [unknown] gone";
      ParseLogLine(line, 9) == LogEntry(9, line, Some("2024-01-01 10:00:00"), Some("UNKNOWN"), "gone")
  {
    var ts, w, msg := "2024-01-01 10:00:00", "unknown", "gone";
    StampedUnknownPieces(ts, w, msg);
    var line := ts + " [" + w + "] " + msg;
    assert line == "2024-01-01 10:00:00 [unknown] gone";
    StampedBracketLine(ts, w, msg, 9);
  }

  lemma StampedUnknownPieces(ts: string, w: string, msg: string)
    requires ts == "2024-01-01 10:00:00" && w == "unknown" && msg == "gone"
    ensures IsTimestampOf(ts, ts) && |w| > 0 && AllWord(w) && Upper(w) == "UNKNOWN"
    ensures msg != [] && !IsSpace(msg[0]) && !IsSpace(msg[|msg| - 1])
  {
    DateShape(ts);
    assert ts[..19] == ts;
  }

  /** A vocabulary level with a colon and no timestamp. */
  lemma ColonLevelExample()
    ensures var line := "WARNING: retrying connection";
      ParseLogLine(line, 2) == LogEntry(2, line, None, Some("WARNING"), "retrying connection")
  {
    var w, msg := "WARNING", "retrying connection";
    ColonLevelPieces(w, msg);
    VocabularyLine(w, " ", msg, 2);
  }

  lemma ColonLevelPieces(w: string, msg: string)
    requires w == "WARNING" && msg == "retrying connection"
    ensures |w| > 0 && AllWord(w) && !IsDigit(w[0]) && Upper(w) == w && w in Vocabulary
    ensures !IsSpace(msg[0]) && !IsSpace(msg[|msg| - 1])
    ensures w + ":" + " " + msg == "WARNING: retrying connection"
  {
  }

  /** The vocabulary check ignores case: `error` is read as ERROR. */
  lemma LowerCaseExample()
    ensures ParseLogLine("error: x", 4) == LogEntry(4, "error: x", None, Some("ERROR"), "x")
  {
    var w, msg := "error", "x";
    LowerCasePieces(w, msg);
    VocabularyLine(w, " ", msg, 4);
  }

  lemma LowerCasePieces(w: string, msg: string)
    requires w == "error" && msg == "x"
    ensures |w| > 0 && AllWord(w) && !IsDigit(w[0]) && Upper(w) == "ERROR" && Upper(w) in Vocabulary
    ensures !IsSpace(msg[0]) && !IsSpace(msg[|msg| - 1])
    ensures w + ":" + " " + msg == "error: x"
  {
  }

  /** Plain text is kept whole. */
  lemma PlainExample()
    ensures ParseLogLine("just some text", 3) == LogEntry(3, "just some text", None, None, "just some text")
  {
    var line := "just some text";
    PlainPieces(line);
    UnleveledLine(line, 4, 3);
  }

  lemma PlainPieces(line: string)
    requires line == "just some text"
    ensures !IsDigit(line[0]) && AllWord(line[..4]) && !IsWordChar(line[4]) && line[4] != ':'
  {
    assert line[..4] == "just";
  }

  /** Without a timestamp the colon is required. */
  lemma NoColonExample()
    ensures ParseLogLine("ERROR but no colon", 5) == LogEntry(5, "ERROR but no colon", None, None, "ERROR but no colon")
  {
    var line := "ERROR but no colon";
    NoColonPieces(line);
    UnleveledLine(line, 5, 5);
  }

  lemma NoColonPieces(line: string)
    requires line == "ERROR but no colon"
    ensures !IsDigit(line[0]) && AllWord(line[..5]) && !IsWordChar(line[5]) && line[5] != ':'
  {
    assert line[..5] == "ERROR";
  }

  /** The colon must follow the word directly. */
  lemma SpacedColonExample()
    ensures ParseLogLine("ERROR : x", 6) == LogEntry(6, "ERROR : x", None, None, "ERROR : x")
  {
    var line := "ERROR : x";
    SpacedColonPieces(line);
    UnleveledLine(line, 5, 6);
  }

  lemma SpacedColonPieces(line: string)
    requires line == "ERROR : x"
    ensures !IsDigit(line[0]) && AllWord(line[..5]) && !IsWordChar(line[5]) && line[5] != ':'
  {
    assert line[..5] == "ERROR";
  }

  /** A word outside the vocabulary is not a level without a timestamp. */
  lemma OutsideVocabularyExample()
    ensures ParseLogLine("Note: hi", 7) == LogEntry(7, "Note: hi", None, None, "Note: hi")
  {
    var line := "Note: hi";
    OutsideVocabularyPieces(line);
    UnleveledLine(line, 4, 7);
  }

  lemma OutsideVocabularyPieces(line: string)
    requires line == "Note: hi"
    ensures !IsDigit(line[0]) && AllWord(line[..4]) && !IsWordChar(line[4]) && Upper(line[..4]) !in Vocabulary
  {
    assert line[..4] == "Note";
    assert Upper(line[..4])[0] == 'N';
    assert "NOTE"[0] == 'N';
  }

  /** Recognition is lexical: an impossible date and time is accepted, and
      the empty remainder leaves an empty message. */
  lemma ImpossibleDateExample()
    ensures ParseLogLine("2024-99-99T99:99:99", 8) == LogEntry(8, "2024-99-99T99:99:99", Some("2024-99-99T99:99:99"), None, "")
  {
    var line := "2024-99-99T99:99:99";
    ImpossibleDatePieces(line);
  }

  lemma ImpossibleDatePieces(line: string)
    requires line == "2024-99-99T99:99:99"
    ensures ParseLogLine(line, 8) == LogEntry(8, line, Some(line), None, "")
  {
    assert line[..19] == line;
    DateShape(line);
    assert line[19..] == [];
  }
}
