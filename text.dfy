/**
 * The string operations the agent's handler relies on: substring search
 * (Python's `in` on strings), `str.strip()` and an ASCII-only `str.lower()`.
 */
module Text {

  // ---------------------------------------------------------------------
  // Substring search
  // ---------------------------------------------------------------------

  /** `sub in s`: `sub` starts at some position of `s`. */
  predicate Contains(s: string, sub: string)
    decreases |s|
  {
    sub <= s || (s != [] && Contains(s[1..], sub))
  }

  /** Reference definition of substring search: some suffix of `s` starts with `sub`. */
  ghost predicate Occurs(s: string, sub: string) {
    exists i :: 0 <= i <= |s| && sub <= s[i..]
  }

  /** The recursive search finds exactly the occurrences of the reference definition. */
  lemma {:induction false} ContainsIffOccurs(s: string, sub: string)
    ensures Contains(s, sub) <==> Occurs(s, sub)
    decreases |s|
  {
    if sub <= s {
      assert s[0..] == s;
    } else if s == [] {
      assert !Occurs(s, sub) by {
        forall i | 0 <= i <= |s| ensures !(sub <= s[i..]) {
          assert s[i..] == s;
        }
      }
    } else {
      ContainsIffOccurs(s[1..], sub);
      if Occurs(s[1..], sub) {
        var i :| 0 <= i <= |s[1..]| && sub <= s[1..][i..];
        assert s[1..][i..] == s[i + 1..];
      }
      if Occurs(s, sub) {
        var i :| 0 <= i <= |s| && sub <= s[i..];
        assert i != 0 by { assert s[0..] == s; }
        assert s[1..][i - 1..] == s[i..];
      }
    }
  }

  /** A keyword whose first character never appears in `s` does not occur in `s`. */
  lemma {:induction false} MissingFirstChar(s: string, sub: string)
    requires sub != [] && forall i :: 0 <= i < |s| ==> s[i] != sub[0]
    ensures !Contains(s, sub)
    decreases |s|
  {
    if s != [] {
      assert s[0] != sub[0];
      MissingFirstChar(s[1..], sub);
    }
  }

  /** A keyword longer than `s` does not occur in `s`. */
  lemma {:induction false} LongerAbsent(s: string, sub: string)
    requires |s| < |sub|
    ensures !Contains(s, sub)
    decreases |s|
  {
    if s != [] {
      LongerAbsent(s[1..], sub);
    }
  }

  /** Whatever contains `a + b` also contains `b`. */
  lemma ContainsSuffixOf(s: string, a: string, b: string)
    requires Contains(s, a + b)
    ensures Contains(s, b)
  {
    ContainsIffOccurs(s, a + b);
    var i :| 0 <= i <= |s| && a + b <= s[i..];
    assert b <= s[i + |a|..] by {
      assert s[i + |a|..][..|b|] == (a + b)[|a|..];
    }
    ContainsIffOccurs(s, b);
  }

  // ---------------------------------------------------------------------
  // Case and whitespace
  // ---------------------------------------------------------------------

  /**
   * The characters Python's `str.strip()` removes when called without
   * arguments (those `str.isspace()` accepts).
   */
  predicate IsSpace(c: char) {
    ('\t' <= c <= '\r') || ('\U{1C}' <= c <= '\U{1F}') || c == ' '
    || c == '\U{85}' || c == '\U{A0}' || c == '\U{1680}'
    || ('\U{2000}' <= c <= '\U{200A}') || c == '\U{2028}' || c == '\U{2029}'
    || c == '\U{202F}' || c == '\U{205F}' || c == '\U{3000}'
  }

  predicate IsAsciiUpper(c: char) {
    'A' <= c <= 'Z'
  }

  /** `str.lower()` on one character, restricted to the ASCII letters. */
  function LowerChar(c: char): char {
    if IsAsciiUpper(c) then (c as int + 32) as char else c
  }

  /** `str.lower()`, restricted to the ASCII letters; the length never changes. */
  function Lower(s: string): string {
    seq(|s|, i requires 0 <= i < |s| => LowerChar(s[i]))
  }

  /** A text without ASCII capitals is its own lowercase. */
  lemma LowerUnchanged(s: string)
    requires forall i :: 0 <= i < |s| ==> !IsAsciiUpper(s[i])
    ensures Lower(s) == s
  {
  }

  /** Two characters that lower to the same character are both whitespace or both not. */
  lemma SameLowerSameSpace(c: char, d: char)
    requires LowerChar(c) == LowerChar(d)
    ensures IsSpace(c) == IsSpace(d)
  {
  }

  // ---------------------------------------------------------------------
  // Trimming
  // ---------------------------------------------------------------------

  /** `str.lstrip()`: the longest suffix of `s` that does not start with whitespace. */
  function TrimStart(s: string): (r: string)
    ensures |r| <= |s| && r == s[|s| - |r|..]
    ensures forall i :: 0 <= i < |s| - |r| ==> IsSpace(s[i])
    ensures r == [] || !IsSpace(r[0])
  {
    if s != [] && IsSpace(s[0]) then TrimStart(s[1..]) else s
  }

  /** `str.rstrip()`: the longest prefix of `s` that does not end with whitespace. */
  function TrimEnd(s: string): (r: string)
    ensures |r| <= |s| && r == s[..|r|]
    ensures forall i :: |r| <= i < |s| ==> IsSpace(s[i])
    ensures r == [] || !IsSpace(r[|r| - 1])
  {
    if s != [] && IsSpace(s[|s| - 1]) then TrimEnd(s[..|s| - 1]) else s
  }

  /**
   * `str.strip()`: a piece of `s` that neither starts nor ends with
   * whitespace, empty exactly when `s` is all whitespace.
   */
  function Trim(s: string): (r: string)
    ensures Contains(s, r)
    ensures r == [] || (!IsSpace(r[0]) && !IsSpace(r[|r| - 1]))
    ensures r == [] <==> forall i :: 0 <= i < |s| ==> IsSpace(s[i])
  {
    var t := TrimStart(s);
    var r := TrimEnd(t);
    assert r <= s[|s| - |t|..];
    ContainsIffOccurs(s, r);
    assert t != [] ==> !IsSpace(s[|s| - |t|]);
    r
  }

  /**
   * `str.strip()` removes whitespace only at the two ends: after the first
   * `k` characters, all whitespace, the result is what `s` continues with,
   * and everything after the result is whitespace too.
   */
  lemma TrimExact(s: string)
    ensures var k := |s| - |TrimStart(s)|;
            var r := Trim(s);
            k + |r| <= |s| && r <= s[k..]
            && (forall i :: 0 <= i < k ==> IsSpace(s[i]))
            && (forall i :: k + |r| <= i < |s| ==> IsSpace(s[i]))
  {
    MiddlePiece(s, TrimStart(s), Trim(s));
  }

  /** A prefix `r` of a suffix `t` of `s`, with whitespace cut away on both sides, is a middle piece of `s`. */
  lemma MiddlePiece(s: string, t: string, r: string)
    requires |t| <= |s| && t == s[|s| - |t|..]
    requires |r| <= |t| && r == t[..|r|]
    requires forall i :: 0 <= i < |s| - |t| ==> IsSpace(s[i])
    requires forall i :: |r| <= i < |t| ==> IsSpace(t[i])
    ensures var k := |s| - |t|;
            k + |r| <= |s| && r <= s[k..]
            && (forall i :: 0 <= i < k ==> IsSpace(s[i]))
            && (forall i :: k + |r| <= i < |s| ==> IsSpace(s[i]))
  {
    var k := |s| - |t|;
    forall i | k + |r| <= i < |s|
      ensures IsSpace(s[i])
    {
      assert s[i] == t[i - k];
    }
  }

  /** A text that neither starts nor ends with whitespace is left as it is by `strip()`. */
  lemma TrimUnchanged(s: string)
    requires s != [] && !IsSpace(s[0]) && !IsSpace(s[|s| - 1])
    ensures Trim(s) == s
  {
    assert TrimStart(s) == s;
    assert TrimEnd(s) == s;
  }

  /** Trimming from the left sees the same whitespace in strings equal up to ASCII case. */
  lemma {:induction false} TrimStartKeepsCaseEquivalence(a: string, b: string)
    requires Lower(a) == Lower(b)
    ensures Lower(TrimStart(a)) == Lower(TrimStart(b))
    decreases |a|
  {
    assert |a| == |Lower(a)| == |b|;
    if a != [] {
      assert LowerChar(a[0]) == Lower(a)[0] == LowerChar(b[0]);
      SameLowerSameSpace(a[0], b[0]);
      if IsSpace(a[0]) {
        assert Lower(a[1..]) == Lower(a)[1..] == Lower(b)[1..] == Lower(b[1..]);
        TrimStartKeepsCaseEquivalence(a[1..], b[1..]);
      }
    }
  }

  /** Trimming from the right sees the same whitespace in strings equal up to ASCII case. */
  lemma {:induction false} TrimEndKeepsCaseEquivalence(a: string, b: string)
    requires Lower(a) == Lower(b)
    ensures Lower(TrimEnd(a)) == Lower(TrimEnd(b))
    decreases |a|
  {
    assert |a| == |Lower(a)| == |b|;
    if a != [] {
      var n := |a| - 1;
      assert LowerChar(a[n]) == Lower(a)[n] == LowerChar(b[n]);
      SameLowerSameSpace(a[n], b[n]);
      if IsSpace(a[n]) {
        assert Lower(a[..n]) == Lower(a)[..n] == Lower(b)[..n] == Lower(b[..n]);
        TrimEndKeepsCaseEquivalence(a[..n], b[..n]);
      }
    }
  }

  /** Strings equal up to ASCII case stay so after `strip()`. */
  lemma TrimKeepsCaseEquivalence(a: string, b: string)
    requires Lower(a) == Lower(b)
    ensures Lower(Trim(a)) == Lower(Trim(b))
  {
    TrimStartKeepsCaseEquivalence(a, b);
    var ta, tb := TrimStart(a), TrimStart(b);
    TrimEndKeepsCaseEquivalence(ta, tb);
  }
}
