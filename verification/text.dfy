/** The Python string operations the handlers rely on: `str.strip()`,
    blank tests (`not s or not s.strip()`), `str.lower()` and substring search. */
module Text {

  /** `str.isspace()` for one character: the characters `str.strip()` removes. */
  predicate IsSpace(c: char) {
    || c == ' '
    || '\t' <= c <= '\r'
    || '\U{1C}' <= c <= '\U{1F}'
    || c == '\U{85}' || c == '\U{A0}' || c == '\U{1680}'
    || '\U{2000}' <= c <= '\U{200A}'
    || c == '\U{2028}' || c == '\U{2029}' || c == '\U{202F}' || c == '\U{205F}' || c == '\U{3000}'
  }

  predicate AllSpace(s: string) {
    forall i :: 0 <= i < |s| ==> IsSpace(s[i])
  }

  /** `str.lstrip()`: drops the longest all-whitespace prefix. */
  function StripLeft(s: string): (r: string)
    ensures |r| <= |s|
    ensures r == [] || !IsSpace(r[0])
  {
    if |s| > 0 && IsSpace(s[0]) then StripLeft(s[1..]) else s
  }

  /** What `lstrip` drops is whitespace, and what it keeps is a suffix. */
  lemma {:induction false} StripLeftShape(s: string)
    ensures StripLeft(s) == s[|s| - |StripLeft(s)|..]
    ensures AllSpace(s[..|s| - |StripLeft(s)|])
    decreases |s|
  {
    if |s| > 0 && IsSpace(s[0]) {
      StripLeftShape(s[1..]);
      var n := |s| - |StripLeft(s)|;
      assert s[1..][n - 1..] == s[n..];
      forall i | 0 <= i < n
        ensures IsSpace(s[..n][i])
      {
        if i > 0 {
          assert s[..n][i] == s[1..][..n - 1][i - 1];
        }
      }
    }
  }

  /** `str.rstrip()`: drops the longest all-whitespace suffix. */
  function StripRight(s: string): (r: string)
    ensures |r| <= |s|
    ensures r == [] || !IsSpace(r[|r| - 1])
  {
    if |s| > 0 && IsSpace(s[|s| - 1]) then StripRight(s[..|s| - 1]) else s
  }

  /** What `rstrip` drops is whitespace, and what it keeps is a prefix. */
  lemma {:induction false} StripRightShape(s: string)
    ensures StripRight(s) == s[..|StripRight(s)|]
    ensures AllSpace(s[|StripRight(s)|..])
    decreases |s|
  {
    if |s| > 0 && IsSpace(s[|s| - 1]) {
      var t := s[..|s| - 1];
      StripRightShape(t);
      var n := |StripRight(s)|;
      assert t[..n] == s[..n];
      forall i | 0 <= i < |s| - n
        ensures IsSpace(s[n..][i])
      {
        if i < |s| - 1 - n {
          assert s[n..][i] == t[n..][i];
        }
      }
    }
  }

  /** `str.strip()`: the contiguous middle of `s` between whitespace runs. */
  function Strip(s: string): (r: string)
    ensures |r| <= |s|
    ensures r == [] || (!IsSpace(r[0]) && !IsSpace(r[|r| - 1]))
    ensures exists i :: 0 <= i <= |s| - |r| && r == s[i..i + |r|] && AllSpace(s[..i]) && AllSpace(s[i + |r|..])
  {
    var l := StripLeft(s);
    StripLeftShape(s);
    StripRightShape(l);
    var i := |s| - |l|;
    var r := StripRight(l);
    assert r == s[i..i + |r|];
    assert s[i + |r|..] == l[|r|..];
    r
  }

  /** A string with no whitespace at either end is left as it is. */
  lemma StripUnpadded(s: string)
    requires s == [] || (!IsSpace(s[0]) && !IsSpace(s[|s| - 1]))
    ensures Strip(s) == s
  {
  }

  /** A leading whitespace character does not survive stripping. */
  lemma StripLeadingSpace(s: string)
    requires |s| > 0 && IsSpace(s[0])
    ensures Strip(s) == Strip(s[1..])
  {
  }

  /** `not s or not s.strip()`. */
  predicate IsBlank(s: string) {
    Strip(s) == []
  }

  /** A string with no surrounding whitespace is its own stripped form, so the
      stripped form of any string is a fixed point. */
  lemma {:induction false} StripIdempotent(s: string)
    ensures Strip(Strip(s)) == Strip(s)
  {
    var r := Strip(s);
    if r != [] {
      assert StripLeft(r) == r;
      assert StripRight(r) == r;
    }
  }

  /** A string is blank exactly when every character of it is whitespace. */
  lemma {:induction false} BlankIffAllSpace(s: string)
    ensures IsBlank(s) <==> AllSpace(s)
  {
    var l := StripLeft(s);
    StripLeftShape(s);
    StripRightShape(l);
    assert s == s[..|s| - |l|] + l;
    if l != [] {
      assert !AllSpace(s) by {
        assert s[|s| - |l|] == l[0];
      }
    }
  }

  /** ASCII case folding of one character. */
  function LowerChar(c: char): char {
    if 'A' <= c <= 'Z' then (c as int + 32) as char else c
  }

  /** `str.lower()`, restricted to ASCII letters. */
  function Lower(s: string): (r: string)
    ensures |r| == |s|
    ensures forall i :: 0 <= i < |s| ==> r[i] == LowerChar(s[i])
  {
    if s == [] then [] else [LowerChar(s[0])] + Lower(s[1..])
  }

  /** Python `sub in s` / DynamoDB `contains` on a string attribute. */
  predicate Contains(s: string, sub: string)
    decreases |s|
  {
    sub <= s || (|s| > 0 && Contains(s[1..], sub))
  }
}
