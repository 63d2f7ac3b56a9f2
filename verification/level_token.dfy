/** The two level-token regexes of `parse_log_line` as deterministic
    matchers: `^\[?(\w+)\]?:?\s*` after a timestamp and `^(\w+):\s*` without
    one. Every quantifier after the greedy `\w+` is optional, so the greedy
    first attempt always succeeds and backtracking never changes the match. */
module LevelToken {
  import opened Optional
  import opened Text

  /** A matched level prefix, piece by piece: an optional `[`, the word
      (group 1), an optional `]`, an optional `:` and the whitespace run. */
  datatype Token = Token(open: bool, word: string, close: bool, colon: bool, pad: string)

  /** The characters the match consumed, in order. */
  function Spelled(t: Token): string {
    (if t.open then "[" else "") + (t.word + TailSpelled(t.close, t.colon, t.pad))
  }

  /** The characters consumed after the word. */
  function TailSpelled(close: bool, colon: bool, pad: string): string {
    (if close then "]" else "") + ((if colon then ":" else "") + pad)
  }

  /** Number of characters the match consumed. */
  function Width(t: Token): (n: nat)
    ensures n == |Spelled(t)|
  {
    (if t.open then 1 else 0) + |t.word| + (if t.close then 1 else 0) + (if t.colon then 1 else 0) + |t.pad|
  }

  /** `pad` is the greedy `\s*` at the start of `r`. */
  predicate PadMatch(r: string, pad: string) {
    |pad| <= |r| && r[..|pad|] == pad && AllSpace(pad) && (|pad| == |r| || !IsSpace(r[|pad|]))
  }

  /** `:?\s*` at the start of `r`: the colon is taken whenever it is there. */
  predicate ColonMatch(r: string, colon: bool, pad: string) {
    if colon then |r| > 0 && r[0] == ':' && PadMatch(r[1..], pad)
    else (r == [] || r[0] != ':') && PadMatch(r, pad)
  }

  /** `\]?:?\s*` at the start of `r`: the bracket is taken whenever it is
      there. */
  predicate CloseMatch(r: string, close: bool, colon: bool, pad: string) {
    if close then |r| > 0 && r[0] == ']' && ColonMatch(r[1..], colon, pad)
    else (r == [] || r[0] != ']') && ColonMatch(r, colon, pad)
  }

  /** `t` is what greedy regex matching reads at the start of `s`: an
      optional `[` that is taken whenever it is there, a non-empty maximal
      run of word characters, then the optional pieces, each taken whenever
      it is there. */
  predicate GreedyMatch(s: string, t: Token) {
    var a := if t.open then 1 else 0;
    && t.open == (|s| > 0 && s[0] == '[')
    && a + |t.word| <= |s|
    && s[a..a + |t.word|] == t.word && |t.word| > 0 && AllWord(t.word)
    && (a + |t.word| == |s| || !IsWordChar(s[a + |t.word|]))
    && CloseMatch(s[a + |t.word|..], t.close, t.colon, t.pad)
  }

  /** Greedy `\s*`. */
  function MatchPad(r: string): (pad: string)
    ensures PadMatch(r, pad)
  {
    r[..SpaceLen(r)]
  }

  /** Greedy `:?\s*`; returns whether the colon was taken and the pad. */
  function MatchColonPad(r: string): (m: (bool, string))
    ensures ColonMatch(r, m.0, m.1)
  {
    if |r| > 0 && r[0] == ':' then (true, MatchPad(r[1..])) else (false, MatchPad(r))
  }

  /** Greedy `\]?:?\s*`. */
  function MatchClosePad(r: string): (m: (bool, bool, string))
    ensures CloseMatch(r, m.0, m.1, m.2)
  {
    if |r| > 0 && r[0] == ']' then
      var (colon, pad) := MatchColonPad(r[1..]);
      (true, colon, pad)
    else
      var (colon, pad) := MatchColonPad(r);
      (false, colon, pad)
  }

  lemma ColonPrefix(r: string, colon: bool, pad: string)
    requires ColonMatch(r, colon, pad)
    ensures var sp := (if colon then ":" else "") + pad; |sp| <= |r| && r[..|sp|] == sp
  {
    if colon {
      assert r[..1 + |pad|] == r[..1] + r[1..][..|pad|];
    }
  }

  lemma ClosePrefix(r: string, close: bool, colon: bool, pad: string)
    requires CloseMatch(r, close, colon, pad)
    ensures var sp := TailSpelled(close, colon, pad); |sp| <= |r| && r[..|sp|] == sp
  {
    if close {
      ColonPrefix(r[1..], colon, pad);
      var sp := (if colon then ":" else "") + pad;
      assert r[..1 + |sp|] == r[..1] + r[1..][..|sp|];
    } else {
      ColonPrefix(r, colon, pad);
    }
  }

  /** A greedy match consumes exactly its spelled-out prefix of `s`. */
  lemma SpelledIsPrefix(s: string, t: Token)
    requires GreedyMatch(s, t)
    ensures Width(t) <= |s| && s[..Width(t)] == Spelled(t)
  {
    var a := if t.open then 1 else 0;
    var w := a + |t.word|;
    ClosePrefix(s[w..], t.close, t.colon, t.pad);
    var head := if t.open then "[" else "";
    var tail := TailSpelled(t.close, t.colon, t.pad);
    assert |head| == a && s[..a] == head;
    assert s[w..][..|tail|] == tail;
    Concat3(s, head, t.word, tail);
  }

  lemma Concat3(s: string, x: string, y: string, z: string)
    requires |x| + |y| + |z| <= |s|
    requires s[..|x|] == x && s[|x|..|x| + |y|] == y && s[|x| + |y|..][..|z|] == z
    ensures s[..|x| + |y| + |z|] == x + (y + z)
  {
    assert s[|x| + |y|..][..|z|] == s[|x| + |y|..|x| + |y| + |z|];
    assert s[..|x| + |y| + |z|] == s[..|x|] + s[|x|..|x| + |y|] + s[|x| + |y|..|x| + |y| + |z|];
  }

  /** Greedy matching leaves no choice: at most one token matches a text,
      so the matchers' contracts pin their results down. */
  lemma GreedyUnique(s: string, t1: Token, t2: Token)
    requires GreedyMatch(s, t1) && GreedyMatch(s, t2)
    ensures t1 == t2
  {
    var a := if t1.open then 1 else 0;
    assert s[a..][..|t1.word|] == t1.word && s[a..][..|t2.word|] == t2.word;
    assert a + |t1.word| == |s| || s[a..][|t1.word|] == s[a + |t1.word|];
    assert a + |t2.word| == |s| || s[a..][|t2.word|] == s[a + |t2.word|];
    WordLenIs(s[a..], |t1.word|);
    WordLenIs(s[a..], |t2.word|);
    CloseUnique(s[a + |t1.word|..], t1.close, t1.colon, t1.pad, t2.close, t2.colon, t2.pad);
  }

  lemma CloseUnique(r: string, close1: bool, colon1: bool, pad1: string, close2: bool, colon2: bool, pad2: string)
    requires CloseMatch(r, close1, colon1, pad1) && CloseMatch(r, close2, colon2, pad2)
    ensures close1 == close2 && colon1 == colon2 && pad1 == pad2
  {
    var c := if close1 then r[1..] else r;
    ColonUnique(c, colon1, pad1, colon2, pad2);
  }

  lemma ColonUnique(r: string, colon1: bool, pad1: string, colon2: bool, pad2: string)
    requires ColonMatch(r, colon1, pad1) && ColonMatch(r, colon2, pad2)
    ensures colon1 == colon2 && pad1 == pad2
  {
    var c := if colon1 then r[1..] else r;
    PadUnique(c, pad1, pad2);
  }

  lemma PadUnique(r: string, pad1: string, pad2: string)
    requires PadMatch(r, pad1) && PadMatch(r, pad2)
    ensures pad1 == pad2
  {
    SpaceLenIs(r, |pad1|);
    SpaceLenIs(r, |pad2|);
  }

  /** The pattern `^\[?(\w+)` can start here: a word character, or `[`
      followed by one. */
  predicate StartsLevelWord(s: string) {
    (|s| > 0 && IsWordChar(s[0])) || (|s| > 1 && s[0] == '[' && IsWordChar(s[1]))
  }

  /** `re.match(r'^\[?(\w+)\]?:?\s*', s)`. A leading `[` not followed by a
      word character makes the match fail: giving the `[` back leaves `\w+`
      facing the `[` itself. */
  function MatchBracketed(s: string): (r: Option<Token>)
    ensures r.Some? <==> StartsLevelWord(s)
    ensures r.Some? ==> GreedyMatch(s, r.value)
  {
    var open := |s| > 0 && s[0] == '[';
    var a := if open then 1 else 0;
    var n := WordLen(s[a..]);
    if n == 0 then None
    else
      assert s[a..a + n] == s[a..][..n];
      assert a + n == |s| || s[a + n] == s[a..][n];
      var (close, colon, pad) := MatchClosePad(s[a + n..]);
      Some(Token(open, s[a..a + n], close, colon, pad))
  }

  /** Any greedy match of `s` is the one `MatchBracketed` returns. */
  lemma MatchBracketedComplete(s: string, t: Token)
    requires GreedyMatch(s, t)
    ensures MatchBracketed(s) == Some(t)
  {
    var a := if t.open then 1 else 0;
    assert s[a..a + |t.word|][0] == s[a];
    assert StartsLevelWord(s);
    GreedyUnique(s, MatchBracketed(s).value, t);
  }

  /** The pattern `^(\w+):` can match: a maximal word run straight followed
      by a colon. */
  predicate StartsColonWord(s: string) {
    var n := WordLen(s);
    0 < n < |s| && s[n] == ':'
  }

  /** `re.match(r'^(\w+):\s*', s)`. */
  function MatchColon(s: string): (r: Option<Token>)
    ensures r.Some? <==> StartsColonWord(s)
    ensures r.Some? ==> GreedyMatch(s, r.value) && !r.value.open && !r.value.close && r.value.colon
    ensures r.Some? ==> r.value.word == s[..WordLen(s)]
  {
    var n := WordLen(s);
    if n == 0 || n == |s| || s[n] != ':' then None
    else
      assert s[0..n] == s[..n];
      assert s[n..][1..] == s[n + 1..];
      Some(Token(false, s[..n], false, true, MatchPad(s[n + 1..])))
  }

  /** After a greedy match the input is the consumed prefix followed by the
      rest; when the input carries no trailing whitespace, stripping that
      rest (as the source does for the message) changes nothing. */
  lemma SplitAtMatch(s: string, t: Token)
    requires GreedyMatch(s, t)
    requires s == [] || !IsSpace(s[|s| - 1])
    ensures Width(t) <= |s| && s == Spelled(t) + s[Width(t)..]
    ensures Strip(s[Width(t)..]) == s[Width(t)..]
  {
    SpelledIsPrefix(s, t);
    assert s == s[..Width(t)] + s[Width(t)..];
    var rest := s[Width(t)..];
    if rest != [] {
      assert rest[0] == s[Width(t)];
      assert rest[|rest| - 1] == s[|s| - 1];
    }
    StripKeepsTrimmed(rest);
  }
}
