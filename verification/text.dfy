/** The optional-value wrapper used for Python's `None`. */
module Optional {

  datatype Option<+T> = None | Some(value: T)
}

/** Character classes and string helpers behind the log parser's regular
    expressions: Python's `\s`, `\d`, `\w`, `str.strip()` and `str.upper()`,
    restricted to ASCII characters. */
module Text {

  /** Python's `str.isspace()`, which is also what the regex class `\s`
      accepts, on ASCII: space, TAB, LF, VT, FF, CR and the separators
      U+001C..U+001F. */
  predicate IsSpace(c: char) {
    c == ' ' || ('\t' <= c <= '\r') || ('\U{1C}' <= c <= '\U{1F}')
  }

  /** Regex `\d` on ASCII. */
  predicate IsDigit(c: char) {
    '0' <= c <= '9'
  }

  predicate IsLower(c: char) {
    'a' <= c <= 'z'
  }

  predicate IsLetter(c: char) {
    IsLower(c) || 'A' <= c <= 'Z'
  }

  /** Regex `\w` on ASCII: a letter, a digit or an underscore. */
  predicate IsWordChar(c: char) {
    IsLetter(c) || IsDigit(c) || c == '_'
  }

  predicate AllSpace(s: string) {
    forall i :: 0 <= i < |s| ==> IsSpace(s[i])
  }

  predicate AllWord(s: string) {
    forall i :: 0 <= i < |s| ==> IsWordChar(s[i])
  }

  predicate IsSuffix(a: string, b: string) {
    |a| <= |b| && b[|b| - |a|..] == a
  }

  /** Length of the longest run of word characters at the start of `s`
      (the greedy `\w+` / `\w*`). */
  function WordLen(s: string): (n: nat)
    ensures n <= |s| && AllWord(s[..n])
    ensures n == |s| || !IsWordChar(s[n])
  {
    if |s| > 0 && IsWordChar(s[0]) then
      1 + WordLen(s[1..])
    else 0
  }

  /** The maximal word run is the only run of word characters that is not
      followed by another word character. */
  lemma WordLenIs(s: string, n: nat)
    requires n <= |s| && AllWord(s[..n]) && (n == |s| || !IsWordChar(s[n]))
    ensures WordLen(s) == n
  {
    WordPrefixIndices(s, n);
    WordPrefixIndices(s, WordLen(s));
  }

  lemma WordPrefixIndices(s: string, k: nat)
    requires k <= |s| && AllWord(s[..k])
    ensures forall i :: 0 <= i < k ==> IsWordChar(s[i])
  {
    assert forall i :: 0 <= i < k ==> s[..k][i] == s[i];
  }

  /** Length of the longest run of whitespace at the start of `s` (`\s*`). */
  function SpaceLen(s: string): (n: nat)
    ensures n <= |s| && AllSpace(s[..n])
    ensures n == |s| || !IsSpace(s[n])
  {
    if |s| > 0 && IsSpace(s[0]) then
      1 + SpaceLen(s[1..])
    else 0
  }

  lemma SpaceLenIs(s: string, n: nat)
    requires n <= |s| && AllSpace(s[..n]) && (n == |s| || !IsSpace(s[n]))
    ensures SpaceLen(s) == n
  {
    SpacePrefixIndices(s, n);
    SpacePrefixIndices(s, SpaceLen(s));
  }

  /** Length of `s` once its trailing whitespace is cut off. */
  function TrimEnd(s: string): (n: nat)
    ensures n <= |s| && AllSpace(s[n..])
    ensures n == 0 || !IsSpace(s[n - 1])
  {
    if |s| > 0 && IsSpace(s[|s| - 1]) then
      TrimEnd(s[..|s| - 1])
    else |s|
  }

  /** Python's `str.strip()`: the slice of `s` left once a whitespace-only
      prefix and a whitespace-only suffix are removed, beginning and ending
      with a non-whitespace character. */
  function Strip(s: string): (r: string)
    ensures SpaceLen(s) + |r| <= |s|
    ensures r == s[SpaceLen(s)..SpaceLen(s) + |r|]
    ensures AllSpace(s[..SpaceLen(s)]) && AllSpace(s[SpaceLen(s) + |r|..])
    ensures r == [] || (!IsSpace(r[0]) && !IsSpace(r[|r| - 1]))
    ensures r == [] <==> AllSpace(s)
  {
    var a := SpaceLen(s);
    var t := s[a..];
    var r := t[..TrimEnd(t)];
    assert s[a + |r|..] == t[TrimEnd(t)..];
    SpacePrefixIndices(s, a);
    SpaceSuffixIndices(s, a + |r|);
    r
  }

  /** Strip's result is pinned down by its two cut points: any split of `s`
      into whitespace, a core that starts and ends with non-whitespace, and
      whitespace, strips to that core. */
  lemma StripCharacterized(s: string, lo: nat, hi: nat)
    requires lo <= hi <= |s|
    requires AllSpace(s[..lo]) && AllSpace(s[hi..])
    requires lo == hi || (!IsSpace(s[lo]) && !IsSpace(s[hi - 1]))
    ensures Strip(s) == s[lo..hi]
  {
    var r := Strip(s);
    var a := SpaceLen(s);
    var e := a + |r|;
    SpacePrefixIndices(s, lo);
    SpaceSuffixIndices(s, hi);
    SpacePrefixIndices(s, a);
    SpaceSuffixIndices(s, e);
    if lo == hi {
      assert AllSpace(s);
    } else {
      assert !AllSpace(s);
      assert a == lo;
      assert r[|r| - 1] == s[e - 1];
      assert e == hi;
    }
  }

  lemma SpacePrefixIndices(s: string, k: nat)
    requires k <= |s| && AllSpace(s[..k])
    ensures forall i :: 0 <= i < k ==> IsSpace(s[i])
  {
    assert forall i :: 0 <= i < k ==> s[..k][i] == s[i];
  }

  lemma SpaceSuffixIndices(s: string, k: nat)
    requires k <= |s| && AllSpace(s[k..])
    ensures forall i :: k <= i < |s| ==> IsSpace(s[i])
  {
    assert forall i :: k <= i < |s| ==> s[k..][i - k] == s[i];
  }

  lemma StripIdempotent(s: string)
    ensures Strip(Strip(s)) == Strip(s)
  {
    var r := Strip(s);
    assert r[..0] == [] && r[|r|..] == [];
    StripCharacterized(r, 0, |r|);
  }

  /** Whitespace in front of a string does not change what it strips to. */
  lemma StripSkipsLeadingSpace(s: string, k: nat)
    requires k <= |s| && AllSpace(s[..k])
    ensures Strip(s[k..]) == Strip(s)
  {
    if Strip(s) == [] {
      AllSpaceTail(s, k);
    } else {
      NonBlankTail(s, k);
    }
  }

  lemma AllSpaceTail(s: string, k: nat)
    requires k <= |s| && AllSpace(s)
    ensures Strip(s[k..]) == []
  {
    var t := s[k..];
    assert forall i :: 0 <= i < |t| ==> t[i] == s[k + i];
    assert AllSpace(t);
  }

  lemma NonBlankTail(s: string, k: nat)
    requires k <= |s| && AllSpace(s[..k]) && Strip(s) != []
    ensures Strip(s[k..]) == Strip(s)
  {
    var r := Strip(s);
    var a := SpaceLen(s);
    var t := s[k..];
    SpacePrefixIndices(s, k);
    assert r[0] == s[a];
    assert k <= a;
    assert t[..a - k] == s[k..a];
    assert forall i :: 0 <= i < a - k ==> s[k..a][i] == s[..a][k + i];
    assert t[a + |r| - k..] == s[a + |r|..];
    assert t[a - k..a + |r| - k] == r;
    StripCharacterized(t, a - k, a + |r| - k);
  }

  /** A string that already begins and ends with non-whitespace is its own
      strip. */
  lemma StripKeepsTrimmed(s: string)
    requires s == [] || (!IsSpace(s[0]) && !IsSpace(s[|s| - 1]))
    ensures Strip(s) == s
  {
    assert s[..0] == [] && s[|s|..] == [] && s[0..|s|] == s;
    StripCharacterized(s, 0, |s|);
  }

  /** Without trailing whitespace, stripping only cuts a whitespace
      prefix: the result is a suffix. */
  lemma StripKeepsEnd(s: string)
    requires s == [] || !IsSpace(s[|s| - 1])
    ensures IsSuffix(Strip(s), s)
  {
    var a := SpaceLen(s);
    assert s[|s|..] == [];
    StripCharacterized(s, a, |s|);
  }

  lemma SuffixOfSuffix(a: string, b: string, c: string)
    requires IsSuffix(a, b) && IsSuffix(b, c)
    ensures IsSuffix(a, c)
  {
    assert c[|c| - |a|..] == c[|c| - |b|..][|b| - |a|..];
  }

  /** Python's `str.upper()` on ASCII: lower-case letters become upper-case,
      every other character is kept. */
  function Upper(s: string): (r: string)
    ensures |r| == |s|
    ensures forall i :: 0 <= i < |s| ==> !IsLower(r[i])
    ensures forall i :: 0 <= i < |s| && !IsLower(s[i]) ==> r[i] == s[i]
    ensures forall i :: 0 <= i < |s| && IsLower(s[i]) ==> r[i] as int == s[i] as int - 32
  {
    seq(|s|, i requires 0 <= i < |s| => if IsLower(s[i]) then (s[i] as int - 32) as char else s[i])
  }

  /** Upper-casing a run of word characters keeps it a run of word
      characters of the same length. */
  lemma UpperKeepsWord(s: string)
    requires AllWord(s)
    ensures AllWord(Upper(s)) && |Upper(s)| == |s|
  {
  }

  lemma UpperIdempotent(s: string)
    ensures Upper(Upper(s)) == Upper(s)
  {
  }

  /** `c` and `d` are the same character up to ASCII letter case. */
  predicate SameIgnoringCase(c: char, d: char) {
    c == d || (IsLower(c) && d as int == c as int - 32) || (IsLower(d) && c as int == d as int - 32)
  }

  /** Comparing upper-cased strings is comparing the strings up to letter
      case, which is how the vocabulary test ignores case. */
  lemma UpperEqualIgnoringCase(a: string, b: string)
    ensures Upper(a) == Upper(b) <==> |a| == |b| && forall i :: 0 <= i < |a| ==> SameIgnoringCase(a[i], b[i])
  {
    if |a| == |b| && forall i :: 0 <= i < |a| ==> SameIgnoringCase(a[i], b[i]) {
      assert forall i :: 0 <= i < |a| ==> Upper(a)[i] == Upper(b)[i];
    }
    if Upper(a) == Upper(b) {
      assert forall i :: 0 <= i < |a| ==> Upper(a)[i] == Upper(b)[i];
    }
  }
}
