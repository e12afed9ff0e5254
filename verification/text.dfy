/** The few Python string operations the backend relies on: `isspace`,
    `strip`/`lstrip`/`rstrip`, `startswith`, `join` and integer formatting. */
module Text {

  /** Python's `str.isspace` for one character. */
  predicate IsSpace(c: char) {
    || ('\U{9}' <= c <= '\U{D}')
    || ('\U{1C}' <= c <= '\U{20}')
    || c == '\U{85}' || c == '\U{A0}' || c == '\U{1680}'
    || ('\U{2000}' <= c <= '\U{200A}')
    || c == '\U{2028}' || c == '\U{2029}' || c == '\U{202F}' || c == '\U{205F}' || c == '\U{3000}'
  }

  /** `s.rstrip()`: s without its trailing whitespace. */
  function RStrip(s: string): (r: string)
    ensures |r| <= |s| && r == s[..|r|]
    ensures |r| == 0 || !IsSpace(r[|r| - 1])
  {
    if |s| > 0 && IsSpace(s[|s| - 1]) then RStrip(s[..|s| - 1]) else s
  }

  /** `rstrip` removes whitespace and nothing else. */
  lemma {:induction false} RStripRemovesOnlySpace(s: string)
    ensures forall i :: |RStrip(s)| <= i < |s| ==> IsSpace(s[i])
    decreases |s|
  {
    if |s| > 0 && IsSpace(s[|s| - 1]) {
      RStripRemovesOnlySpace(s[..|s| - 1]);
    }
  }

  /** `s.lstrip()`: s without its leading whitespace. */
  function LStrip(s: string): (r: string)
    ensures |r| <= |s| && r == s[|s| - |r|..]
    ensures |r| == 0 || !IsSpace(r[0])
  {
    if |s| > 0 && IsSpace(s[0]) then LStrip(s[1..]) else s
  }

  /** `lstrip` removes whitespace and nothing else. */
  lemma {:induction false} LStripRemovesOnlySpace(s: string)
    ensures forall i :: 0 <= i < |s| - |LStrip(s)| ==> IsSpace(s[i])
    decreases |s|
  {
    if |s| > 0 && IsSpace(s[0]) {
      LStripRemovesOnlySpace(s[1..]);
      assert forall i :: 0 <= i < |s[1..]| ==> s[1..][i] == s[i + 1];
    }
  }

  /** r occurs in s at offset lo and everything around it is whitespace. */
  predicate SpaceAround(s: string, r: string, lo: int) {
    && 0 <= lo <= |s| - |r| && r == s[lo..lo + |r|]
    && (forall i :: 0 <= i < lo ==> IsSpace(s[i]))
    && (forall i :: lo + |r| <= i < |s| ==> IsSpace(s[i]))
  }

  /** `s.strip()`: s without its leading and trailing whitespace. */
  function Strip(s: string): (r: string)
    ensures |r| <= |s|
    ensures |r| == 0 || (!IsSpace(r[0]) && !IsSpace(r[|r| - 1]))
  {
    LStrip(RStrip(s))
  }

  /** `strip` cuts whitespace, and only whitespace, from both ends: the
      result is a slice of s with nothing but whitespace around it. */
  lemma StripIsTrimmed(s: string)
    ensures exists lo :: SpaceAround(s, Strip(s), lo)
  {
    var t := RStrip(s);
    var r := LStrip(t);
    RStripRemovesOnlySpace(s);
    LStripRemovesOnlySpace(t);
    var lo := |t| - |r|;
    assert t == s[..|t|];
    assert r == t[lo..];
    assert t[lo..] == s[lo..lo + |r|];
    assert forall i :: 0 <= i < lo ==> IsSpace(t[i]);
    assert SpaceAround(s, r, lo);
    assert r == Strip(s);
  }

  /** Stripping after `rstrip` is stripping: the backend's `rstrip` of each
      line changes nothing the parser sees. */
  lemma StripAfterRStrip(s: string)
    ensures Strip(RStrip(s)) == Strip(s)
  {
    assert RStrip(RStrip(s)) == RStrip(s);
  }

  /** `s.lstrip(ch)` for a one-character argument. */
  function LStripChar(s: string, ch: char): (r: string)
    ensures |r| <= |s| && r == s[|s| - |r|..]
    ensures |r| == 0 || r[0] != ch
  {
    if |s| > 0 && s[0] == ch then LStripChar(s[1..], ch) else s
  }

  /** `lstrip(ch)` removes copies of ch and nothing else. */
  lemma {:induction false} LStripCharRemovesOnlyCh(s: string, ch: char)
    ensures forall i :: 0 <= i < |s| - |LStripChar(s, ch)| ==> s[i] == ch
    decreases |s|
  {
    if |s| > 0 && s[0] == ch {
      LStripCharRemovesOnlyCh(s[1..], ch);
      assert forall i :: 0 <= i < |s[1..]| ==> s[1..][i] == s[i + 1];
    }
  }

  predicate StartsWith(s: string, ch: char) {
    |s| > 0 && s[0] == ch
  }

  /** `sep.join(parts)`. */
  function Join(parts: seq<string>, sep: string): (r: string)
    ensures |parts| == 1 ==> r == parts[0]
  {
    if |parts| == 0 then ""
    else if |parts| == 1 then parts[0]
    else parts[0] + sep + Join(parts[1..], sep)
  }

  predicate IsDigit(c: char) {
    '0' <= c <= '9'
  }

  function DigitChar(d: nat): (c: char)
    requires d < 10
    ensures IsDigit(c)
  {
    "0123456789"[d]
  }

  /** Decimal rendering of a natural number, as `str(n)`. */
  function NatToString(n: nat): (s: string)
    ensures |s| > 0
    ensures forall i :: 0 <= i < |s| ==> IsDigit(s[i])
  {
    if n < 10 then [DigitChar(n)] else NatToString(n / 10) + [DigitChar(n % 10)]
  }

  /** Decimal rendering of an integer, as `f"{i}"`. */
  function IntToString(i: int): (s: string)
    ensures |s| > 0
  {
    if i < 0 then "-" + NatToString(-i) else NatToString(i)
  }
}
