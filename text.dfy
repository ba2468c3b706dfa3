/**
 * The string operations of Python's `str` that the bot's decisions rely on:
 * `in` (substring), `strip`, `replace(p, '')`, `lower` and `str(int)`.
 */
module Text {

  predicate IsAsciiDigit(c: char) { '0' <= c <= '9' }

  predicate IsAsciiLetter(c: char) { 'a' <= c <= 'z' || 'A' <= c <= 'Z' }

  /** `any(ch.isdigit() for ch in s)`, restricted to ASCII digits. */
  predicate HasDigit(s: string) {
    exists i :: 0 <= i < |s| && IsAsciiDigit(s[i])
  }

  /** Every character of `s` is in `cs`. */
  predicate AllIn(s: string, cs: set<char>) {
    forall i :: 0 <= i < |s| ==> s[i] in cs
  }

  /** `sub` occurs in `s` starting at index `i`. */
  predicate OccursAt(sub: string, s: string, i: int) {
    0 <= i <= |s| - |sub| && s[i..i + |sub|] == sub
  }

  /** Python's `sub in s`, scanning the start positions left to right. */
  function IsSubstring(sub: string, s: string): bool
    decreases |s|
  {
    if |sub| > |s| then false
    else if sub == s[..|sub|] then true
    else IsSubstring(sub, s[1..])
  }

  /** `sub in s` holds exactly when some slice of `s` equals `sub`. */
  lemma {:induction false} IsSubstringOccurs(sub: string, s: string)
    ensures IsSubstring(sub, s) <==> exists i :: OccursAt(sub, s, i)
    decreases |s|
  {
    if |sub| > |s| {
    } else if sub == s[..|sub|] {
      assert OccursAt(sub, s, 0);
    } else {
      IsSubstringOccurs(sub, s[1..]);
      if IsSubstring(sub, s) {
        var i :| OccursAt(sub, s[1..], i);
        assert s[i + 1..i + 1 + |sub|] == s[1..][i..i + |sub|];
        assert OccursAt(sub, s, i + 1);
      }
      if i :| OccursAt(sub, s, i) {
        assert i != 0;
        assert s[1..][i - 1..i - 1 + |sub|] == s[i..i + |sub|];
        assert OccursAt(sub, s[1..], i - 1);
      }
    }
  }

  /** Python's whitespace for `str.strip()` with no argument (`str.isspace()`). */
  const Whitespace: set<char> :=
    {'\U{9}', '\U{A}', '\U{B}', '\U{C}', '\U{D}', '\U{1C}', '\U{1D}', '\U{1E}',
     '\U{1F}', '\U{20}', '\U{85}', '\U{A0}', '\U{1680}', '\U{2000}', '\U{2001}', '\U{2002}',
     '\U{2003}', '\U{2004}', '\U{2005}', '\U{2006}', '\U{2007}', '\U{2008}', '\U{2009}', '\U{200A}',
     '\U{2028}', '\U{2029}', '\U{202F}', '\U{205F}', '\U{3000}'}

  /** `s.lstrip(cs)`: drops the longest prefix made of characters of `cs`. */
  function StripLeft(s: string, cs: set<char>): string
    decreases |s|
  {
    if |s| > 0 && s[0] in cs then StripLeft(s[1..], cs) else s
  }

  /** `s.rstrip(cs)`: drops the longest suffix made of characters of `cs`. */
  function StripRight(s: string, cs: set<char>): string
    decreases |s|
  {
    if |s| > 0 && s[|s| - 1] in cs then StripRight(s[..|s| - 1], cs) else s
  }

  /** `s.strip(cs)`: what is left after dropping `cs` characters at both ends. */
  function Strip(s: string, cs: set<char>): string {
    StripRight(StripLeft(s, cs), cs)
  }

  /** `s.strip()` with Python's default whitespace set. */
  function StripSpace(s: string): string { Strip(s, Whitespace) }

  /** `lstrip` removes a prefix of `cs` characters and stops at the first other character. */
  lemma {:induction false} StripLeftSuffix(s: string, cs: set<char>)
    ensures |StripLeft(s, cs)| <= |s| && StripLeft(s, cs) == s[|s| - |StripLeft(s, cs)|..]
    ensures AllIn(s[..|s| - |StripLeft(s, cs)|], cs)
    ensures StripLeft(s, cs) == [] || StripLeft(s, cs)[0] !in cs
    decreases |s|
  {
    if |s| > 0 && s[0] in cs {
      StripLeftSuffix(s[1..], cs);
      var r := StripLeft(s, cs);
      assert s[..|s| - |r|] == [s[0]] + s[1..][..|s| - 1 - |r|];
    }
  }

  /** `rstrip` removes a suffix of `cs` characters and stops at the last other character. */
  lemma {:induction false} StripRightPrefix(s: string, cs: set<char>)
    ensures |StripRight(s, cs)| <= |s| && StripRight(s, cs) == s[..|StripRight(s, cs)|]
    ensures AllIn(s[|StripRight(s, cs)|..], cs)
    ensures StripRight(s, cs) == [] || StripRight(s, cs)[|StripRight(s, cs)| - 1] !in cs
    decreases |s|
  {
    if |s| > 0 && s[|s| - 1] in cs {
      StripRightPrefix(s[..|s| - 1], cs);
      var r := StripRight(s, cs);
      assert s[|r|..] == s[..|s| - 1][|r|..] + [s[|s| - 1]];
    }
  }

  /**
   * The strip of `s` is a slice of it with only `cs` characters on either
   * side, and it neither begins nor ends with a `cs` character.
   */
  lemma StripSlice(s: string, cs: set<char>)
    ensures exists i :: 0 <= i <= |s| - |Strip(s, cs)| && Strip(s, cs) == s[i..i + |Strip(s, cs)|]
                        && AllIn(s[..i], cs) && AllIn(s[i + |Strip(s, cs)|..], cs)
    ensures Strip(s, cs) == [] || (Strip(s, cs)[0] !in cs && Strip(s, cs)[|Strip(s, cs)| - 1] !in cs)
  {
    var l := StripLeft(s, cs);
    StripLeftSuffix(s, cs);
    StripRightPrefix(l, cs);
    var r := StripRight(l, cs);
    var i := |s| - |l|;
    assert r == s[i..i + |r|];
    assert s[i + |r|..] == l[|r|..];
  }

  /** Stripping twice is stripping once. */
  lemma {:induction false} StripIdempotent(s: string, cs: set<char>)
    ensures Strip(Strip(s, cs), cs) == Strip(s, cs)
  {
    StripSlice(s, cs);
    StripUnchanged(Strip(s, cs), cs);
  }

  /** A string that neither begins nor ends with a `cs` character is its own strip. */
  lemma StripUnchanged(r: string, cs: set<char>)
    requires r == [] || (r[0] !in cs && r[|r| - 1] !in cs)
    ensures Strip(r, cs) == r
  {
    assert StripLeft(r, cs) == r;
    assert StripRight(r, cs) == r;
  }

  /** Python's `s.replace(p, '')`: deletes the non-overlapping occurrences of `p` found left to right. */
  function RemoveAll(s: string, p: string): (r: string)
    requires |p| > 0
    ensures |r| <= |s|
    ensures p[0] !in s ==> r == s
    decreases |s|
  {
    if |s| < |p| then s
    else if s[..|p|] == p then RemoveAll(s[|p|..], p)
    else
      var rest := RemoveAll(s[1..], p);
      assert p[0] !in s ==> p[0] !in s[1..];
      [s[0]] + rest
  }

  /** An occurrence of `p` at the very front is deleted and scanning goes on after it. */
  lemma RemoveAllPrefix(p: string, s: string)
    requires |p| > 0
    ensures RemoveAll(p + s, p) == RemoveAll(s, p)
  {
    assert (p + s)[..|p|] == p;
    assert (p + s)[|p|..] == s;
  }

  /** ASCII case folding for `str.lower()`. */
  function LowerChar(c: char): (d: char)
    ensures 'A' <= c <= 'Z' ==> 'a' <= d <= 'z'
    ensures !('A' <= c <= 'Z') ==> d == c
  {
    if 'A' <= c <= 'Z' then (c as int + 32) as char else c
  }

  function Lower(s: string): (r: string)
    ensures |r| == |s| && forall i :: 0 <= i < |s| ==> r[i] == LowerChar(s[i])
  {
    seq(|s|, i requires 0 <= i < |s| => LowerChar(s[i]))
  }

  /** The digit character of `d`. */
  function DigitChar(d: nat): (c: char)
    requires d < 10
    ensures IsAsciiDigit(c)
  {
    ('0' as int + d) as char
  }

  /** Python's `str(n)` for a non-negative integer. */
  function NatText(n: nat): (s: string)
    ensures |s| > 0 && forall i :: 0 <= i < |s| ==> IsAsciiDigit(s[i])
    ensures n > 0 ==> s[0] != '0'
  {
    if n < 10 then [DigitChar(n)] else NatText(n / 10) + [DigitChar(n % 10)]
  }

  /** Python's `str(n)` for any integer (a `-` sign for negatives). */
  function IntText(n: int): string {
    if n < 0 then "-" + NatText(-n) else NatText(n)
  }

  /** The value of a run of decimal digits (Python's `int(s)` on such a run). */
  function DigitsValue(s: string): int
    requires forall i :: 0 <= i < |s| ==> IsAsciiDigit(s[i])
  {
    if |s| == 0 then 0
    else DigitsValue(s[..|s| - 1]) * 10 + (s[|s| - 1] as int - '0' as int)
  }

  /** Reading back the decimal text of `n` gives `n` again. */
  lemma {:induction false} NatTextRoundTrip(n: nat)
    ensures DigitsValue(NatText(n)) == n
  {
    if n >= 10 {
      NatTextRoundTrip(n / 10);
      var s := NatText(n);
      assert s[..|s| - 1] == NatText(n / 10);
    }
  }

  /** Different numbers have different decimal texts. */
  lemma NatTextInjective(m: nat, n: nat)
    requires NatText(m) == NatText(n)
    ensures m == n
  {
    NatTextRoundTrip(m);
    NatTextRoundTrip(n);
  }
}
