/** The leading-timestamp recogniser of `parse_log_line`, the regex
    `^(\d{4}-\d{2}-\d{2}[T\s]\d{2}:\d{2}:\d{2}[Z\s]?)`, as a deterministic
    matcher over characters. */
module Timestamp {
  import opened Optional
  import opened Text

  /** One single-character position of the regex. */
  datatype Atom = Digit | Exactly(c: char) | DateTimeSep

  predicate Accepts(a: Atom, c: char) {
    match a
    case Digit => IsDigit(c)
    case Exactly(x) => c == x
    case DateTimeSep => c == 'T' || IsSpace(c)
  }

  /** `\d{4}-\d{2}-\d{2}[T\s]\d{2}:\d{2}:\d{2}`, one atom per character. */
  const DateTime: seq<Atom> :=
    [Digit, Digit, Digit, Digit, Exactly('-'), Digit, Digit, Exactly('-'), Digit, Digit,
     DateTimeSep,
     Digit, Digit, Exactly(':'), Digit, Digit, Exactly(':'), Digit, Digit]

  /** The optional trailing `[Z\s]`; the regex is case-sensitive, so only an
      upper-case `Z` counts. */
  predicate IsZoneMark(c: char) {
    c == 'Z' || IsSpace(c)
  }

  /** Reference reading of the date-time part, position by position:
      `YYYY-MM-DD`, a `T` or whitespace, `HH:MM:SS`. Purely lexical: no
      calendar or clock range is checked. */
  predicate IsDateTimeShape(t: string) {
    && |t| == 19
    && (forall i :: 0 <= i < 19 && i != 4 && i != 7 && i != 10 && i != 13 && i != 16 ==> IsDigit(t[i]))
    && t[4] == '-' && t[7] == '-'
    && (t[10] == 'T' || IsSpace(t[10]))
    && t[13] == ':' && t[16] == ':'
  }

  predicate HasTimestampPrefix(line: string) {
    |line| >= 19 && IsDateTimeShape(line[..19])
  }

  /** `t` is a timestamp read off the front of `line`: its first 19
      characters, or those and a closing `Z`. */
  predicate IsTimestampOf(t: string, line: string) {
    && (|t| == 19 || (|t| == 20 && t[19] == 'Z'))
    && |t| <= |line| && line[..|t|] == t
    && IsDateTimeShape(t[..19])
  }

  /** Matches the atoms of `p` against the first characters of `s`. */
  function MatchAtoms(p: seq<Atom>, s: string): (ok: bool)
    ensures ok <==> |p| <= |s| && forall i :: 0 <= i < |p| ==> Accepts(p[i], s[i])
  {
    if |p| == 0 then true
    else |s| > 0 && Accepts(p[0], s[0]) && MatchAtoms(p[1..], s[1..])
  }

  /** Where the timestamp match ends (`match.end()`), or None when the line
      does not start with a timestamp. The optional `[Z\s]` is greedy. */
  function MatchTimestamp(line: string): (r: Option<nat>)
    ensures r.Some? <==> HasTimestampPrefix(line)
    ensures r.Some? ==> r.value == 19 || r.value == 20
    ensures r.Some? ==> (r.value == 20 <==> |line| > 19 && IsZoneMark(line[19]))
  {
    DateTimeAtoms(line);
    if MatchAtoms(DateTime, line) then
      Some(if |line| > 19 && IsZoneMark(line[19]) then 20 else 19)
    else None
  }

  /** The atom list and the positional reading describe the same strings. */
  lemma DateTimeAtoms(line: string)
    ensures MatchAtoms(DateTime, line) <==> HasTimestampPrefix(line)
  {
    if |line| >= 19 {
      var t := line[..19];
      assert forall i :: 0 <= i < 19 ==> t[i] == line[i];
      assert DateTime[0] == Digit && DateTime[1] == Digit && DateTime[2] == Digit && DateTime[3] == Digit;
      assert DateTime[4] == Exactly('-') && DateTime[7] == Exactly('-') && DateTime[10] == DateTimeSep;
      assert DateTime[13] == Exactly(':') && DateTime[16] == Exactly(':');
      assert forall i :: 0 <= i < 19 && i != 4 && i != 7 && i != 10 && i != 13 && i != 16 ==> DateTime[i] == Digit;
    }
  }

  /** `match.group(1).strip()`: the matched prefix without its trailing
      whitespace. It is the first 19 characters, or 20 when a `Z` follows. */
  function TimestampText(line: string): (t: string)
    requires HasTimestampPrefix(line)
    ensures IsTimestampOf(t, line)
    ensures |line| > 19 && line[19] == 'Z' ==> t == line[..20]
    ensures !(|line| > 19 && line[19] == 'Z') ==> t == line[..19]
  {
    var n := MatchTimestamp(line).value;
    GroupStrips(line, n);
    Strip(line[..n])
  }

  lemma GroupStrips(line: string, n: nat)
    requires HasTimestampPrefix(line)
    requires n == 19 || (n == 20 && |line| > 19 && IsZoneMark(line[19]))
    ensures n == 20 && line[19] == 'Z' ==> Strip(line[..n]) == line[..20]
    ensures !(n == 20 && line[19] == 'Z') ==> Strip(line[..n]) == line[..19]
  {
    var group := line[..n];
    assert group[0] == line[..19][0];
    assert group[18] == line[..19][18];
    if n == 20 && line[19] == 'Z' {
      StripKeepsTrimmed(group);
    } else if n == 20 {
      assert group[..19] == line[..19];
      assert group[19..] == [line[19]];
      StripCharacterized(group, 0, 19);
    } else {
      StripKeepsTrimmed(group);
    }
  }
}
