/**
  String primitives used by the keyword matchers and the input guards:
  lower-casing, substring containment (`String.prototype.includes`) and
  whitespace trimming (`String.prototype.trim`).
 */
module Text {

  /** Lower-cases one character. Only the ASCII letters A-Z are mapped. */
  function LowerChar(c: char): (r: char)
    ensures 'A' <= c <= 'Z' ==> r as int == c as int + 32
    ensures !('A' <= c <= 'Z') ==> r == c
    ensures !('A' <= r <= 'Z')
  {
    if 'A' <= c <= 'Z' then (c as int + 32) as char else c
  }

  /** Lower-cases a string character by character. */
  function Lower(s: string): (r: string)
    ensures |r| == |s|
    ensures forall i :: 0 <= i < |s| ==> r[i] == LowerChar(s[i])
  {
    seq(|s|, i requires 0 <= i < |s| => LowerChar(s[i]))
  }

  /** A string with no upper-case ASCII letter. */
  predicate IsLowerCase(s: string)
  {
    forall i :: 0 <= i < |s| ==> !('A' <= s[i] <= 'Z')
  }

  lemma LowerIsLowerCase(s: string)
    ensures IsLowerCase(Lower(s))
  {
  }

  /** Lower-casing a lower-case string changes nothing. */
  lemma LowerOfLowerCase(s: string)
    requires IsLowerCase(s)
    ensures Lower(s) == s
  {
  }

  /** Lower-casing is idempotent. */
  lemma LowerIdempotent(s: string)
    ensures Lower(Lower(s)) == Lower(s)
  {
    LowerIsLowerCase(s);
    LowerOfLowerCase(Lower(s));
  }

  /** `k` occurs in `s` starting at position `i`. */
  predicate OccursAt(s: string, k: string, i: int)
  {
    0 <= i && i + |k| <= |s| && s[i..i + |k|] == k
  }

  /**
    Substring containment, scanning start positions from the left the way
    `s.includes(k)` does. The empty keyword occurs in every string.
   */
  function Contains(s: string, k: string): (r: bool)
    ensures r <==> exists i :: OccursAt(s, k, i)
    decreases |s|
  {
    if |k| > |s| then
      assert forall i :: !OccursAt(s, k, i);
      false
    else if k <= s then
      assert OccursAt(s, k, 0);
      true
    else
      var rest := Contains(s[1..], k);
      assert forall i :: OccursAt(s[1..], k, i) <==> OccursAt(s, k, i + 1);
      assert !OccursAt(s, k, 0);
      assert forall i :: OccursAt(s, k, i) && i > 0 ==> OccursAt(s[1..], k, i - 1);
      rest
  }

  /** Some keyword of `keys` occurs in `s`. */
  function ContainsAny(s: string, keys: seq<string>): (r: bool)
    ensures r <==> exists j :: 0 <= j < |keys| && Contains(s, keys[j])
  {
    if |keys| == 0 then false
    else Contains(s, keys[0]) || ContainsAny(s, keys[1..])
  }

  /** A keyword with a character that never appears in `s` cannot occur in `s`. */
  lemma AbsentCharNotContained(s: string, k: string, j: int)
    requires 0 <= j < |k| && k[j] !in s
    ensures !Contains(s, k)
  {
    forall i | 0 <= i <= |s| - |k|
      ensures !OccursAt(s, k, i)
    {
      assert s[i..i + |k|][j] == s[i + j];
    }
  }

  /** Containment is transitive: whatever occurs in `k` occurs wherever `k` does. */
  lemma ContainsTransitive(s: string, k: string, sub: string)
    requires Contains(s, k) && Contains(k, sub)
    ensures Contains(s, sub)
  {
    var i :| OccursAt(s, k, i);
    var j :| OccursAt(k, sub, j);
    assert s[i..i + |k|] == k;
    forall m | 0 <= m < |sub|
      ensures s[i + j..i + j + |sub|][m] == sub[m]
    {
      assert s[i + j + m] == s[i..i + |k|][j + m];
      assert k[j..j + |sub|][m] == k[j + m];
    }
    assert OccursAt(s, sub, i + j);
  }

  /**
    The characters `String.prototype.trim` removes: the ECMAScript
    WhiteSpace and LineTerminator code points.
   */
  predicate IsWhitespace(c: char)
  {
    var n := c as int;
    || n == 0x09 || n == 0x0A || n == 0x0B || n == 0x0C || n == 0x0D || n == 0x20
    || n == 0xA0 || n == 0x1680 || (0x2000 <= n <= 0x200A)
    || n == 0x2028 || n == 0x2029 || n == 0x202F || n == 0x205F
    || n == 0x3000 || n == 0xFEFF
  }

  /** Every character of `s` is whitespace (the empty string included). */
  predicate IsBlank(s: string)
  {
    forall i :: 0 <= i < |s| ==> IsWhitespace(s[i])
  }

  /** Drops leading whitespace. */
  function TrimStart(s: string): (r: string)
    ensures |r| <= |s| && r == s[|s| - |r|..]
    ensures IsBlank(s[..|s| - |r|])
    ensures r == [] || !IsWhitespace(r[0])
  {
    if |s| > 0 && IsWhitespace(s[0]) then
      var r := TrimStart(s[1..]);
      assert s[..|s| - |r|] == [s[0]] + s[1..][..|s| - 1 - |r|];
      r
    else
      s
  }

  /** Drops trailing whitespace. */
  function TrimEnd(s: string): (r: string)
    ensures |r| <= |s| && r == s[..|r|]
    ensures IsBlank(s[|r|..])
    ensures r == [] || !IsWhitespace(r[|r| - 1])
  {
    if |s| > 0 && IsWhitespace(s[|s| - 1]) then
      var init := s[..|s| - 1];
      var r := TrimEnd(init);
      assert s[|r|..] == init[|r|..] + [s[|s| - 1]];
      r
    else
      s
  }

  /**
    `s.trim()`: drops only whitespace, at both ends, leaving a piece of `s`
    that neither starts nor ends with whitespace.
   */
  function Trim(s: string): (r: string)
    ensures |r| <= |s|
    ensures exists i :: OccursAt(s, r, i) && IsBlank(s[..i]) && IsBlank(s[i + |r|..])
    ensures r == [] || (!IsWhitespace(r[0]) && !IsWhitespace(r[|r| - 1]))
  {
    var t := TrimStart(s);
    var r := TrimEnd(t);
    PrefixOfSuffixOccurs(s, t, r);
    assert s[|s| - |t| + |r|..] == t[|r|..];
    r
  }

  /** `" a ".trim()` is `"a"`. */
  lemma TrimExample()
    ensures Trim(" a ") == "a"
  {
    assert IsWhitespace(' ') && !IsWhitespace('a');
    assert " a "[1..] == "a ";
    assert TrimStart(" a ") == "a ";
    assert "a "[..1] == "a";
    assert TrimEnd("a ") == "a";
  }

  /** A prefix `r` of a suffix `t` of `s` occurs in `s` where `t` starts, and shares `t`'s first character. */
  lemma PrefixOfSuffixOccurs(s: string, t: string, r: string)
    requires |t| <= |s| && t == s[|s| - |t|..]
    requires |r| <= |t| && r == t[..|r|]
    ensures OccursAt(s, r, |s| - |t|)
    ensures r != [] ==> r[0] == t[0]
  {
    var i := |s| - |t|;
    forall k | 0 <= k < |r|
      ensures s[i..i + |r|][k] == r[k]
    {
      assert r[k] == t[k] == s[i + k];
    }
  }

  /** `s.trim()` is empty exactly when `s` consists of whitespace only. */
  lemma TrimEmptyIffBlank(s: string)
    ensures Trim(s) == [] <==> IsBlank(s)
  {
    var t := TrimStart(s);
    if Trim(s) == [] {
      assert IsBlank(t[0..]);
      assert s[..|s| - |t|] == s;
    }
  }
}
