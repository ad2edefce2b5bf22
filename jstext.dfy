/**
 * The three string operations the quiz relies on: `String.prototype.trim`,
 * `toLowerCase` and `includes`.
 */
module JsText {

  /** The characters `trim` removes: ECMAScript's WhiteSpace (tab, vertical tab, form
      feed, the byte order mark and every space separator) and LineTerminator. */
  predicate IsWhiteSpace(c: char) {
    var k := c as int;
    || k == 0x09 || k == 0x0B || k == 0x0C || k == 0x20 || k == 0xA0 || k == 0xFEFF
    || k == 0x1680 || (0x2000 <= k <= 0x200A) || k == 0x202F || k == 0x205F || k == 0x3000
    || k == 0x0A || k == 0x0D || k == 0x2028 || k == 0x2029
  }

  predicate AllWhiteSpace(s: string) {
    forall i :: 0 <= i < |s| ==> IsWhiteSpace(s[i])
  }

  /** The number of white-space characters `s` starts with. */
  function LeadingSpace(s: string): (k: nat)
    ensures k <= |s| && AllWhiteSpace(s[..k])
    ensures k < |s| ==> !IsWhiteSpace(s[k])
  {
    if s == [] || !IsWhiteSpace(s[0]) then 0
    else
      var k := 1 + LeadingSpace(s[1..]);
      assert s[..k] == [s[0]] + s[1..][..k - 1];
      k
  }

  /** The number of white-space characters `s` ends with. */
  function TrailingSpace(s: string): (k: nat)
    ensures k <= |s| && AllWhiteSpace(s[|s| - k..])
    ensures k < |s| ==> !IsWhiteSpace(s[|s| - 1 - k])
  {
    if s == [] || !IsWhiteSpace(s[|s| - 1]) then 0
    else
      var init := s[..|s| - 1];
      var k := 1 + TrailingSpace(init);
      assert s[|s| - k..] == init[|init| - (k - 1)..] + [s[|s| - 1]];
      k
  }

  /** `s.trim()`: the part of `s` between its leading and its trailing white space. */
  function Trim(s: string): (r: string)
    ensures |r| > 0 ==> !IsWhiteSpace(r[0]) && !IsWhiteSpace(r[|r| - 1])
    ensures exists i, j :: 0 <= i <= j <= |s| && r == s[i..j]
                           && AllWhiteSpace(s[..i]) && AllWhiteSpace(s[j..])
  {
    var i := LeadingSpace(s);
    if i == |s| then
      assert s[..i] == s && s[i..i] == [] && s[i..] == [];
      []
    else
      var j := |s| - TrailingSpace(s);
      assert forall m :: j <= m < |s| ==> IsWhiteSpace(s[m]) by {
        forall m | j <= m < |s| ensures IsWhiteSpace(s[m]) { assert s[j..][m - j] == s[m]; }
      }
      s[i..j]
  }

  /** The leading white space of `s` is exactly the white-space prefix `s[..i]` that is
      followed by a character that is not white space (or by nothing). */
  lemma {:induction false} LeadingSpaceIs(s: string, i: nat)
    requires i <= |s| && AllWhiteSpace(s[..i])
    requires i < |s| ==> !IsWhiteSpace(s[i])
    ensures LeadingSpace(s) == i
  {
    var k := LeadingSpace(s);
    forall m | 0 <= m < i ensures IsWhiteSpace(s[m]) { assert s[..i][m] == s[m]; }
    forall m | 0 <= m < k ensures IsWhiteSpace(s[m]) { assert s[..k][m] == s[m]; }
  }

  /** Likewise for the trailing white space and a white-space suffix `s[j..]`. */
  lemma {:induction false} TrailingSpaceIs(s: string, j: nat)
    requires j <= |s| && AllWhiteSpace(s[j..])
    requires 0 < j ==> !IsWhiteSpace(s[j - 1])
    ensures TrailingSpace(s) == |s| - j
  {
    var k := TrailingSpace(s);
    forall m | j <= m < |s| ensures IsWhiteSpace(s[m]) { assert s[j..][m - j] == s[m]; }
    forall m | |s| - k <= m < |s| ensures IsWhiteSpace(s[m]) { assert s[|s| - k..][m - (|s| - k)] == s[m]; }
  }

  /** The trimmed text is determined by the text alone: any way of cutting `s` into
      white space, a core that neither starts nor ends with white space, and white space
      yields that core as `Trim(s)`. */
  lemma {:induction false} TrimUnique(s: string, i: nat, j: nat)
    requires i <= j <= |s|
    requires AllWhiteSpace(s[..i]) && AllWhiteSpace(s[j..])
    requires i < j ==> !IsWhiteSpace(s[i]) && !IsWhiteSpace(s[j - 1])
    ensures Trim(s) == s[i..j]
  {
    if i < j {
      LeadingSpaceIs(s, i);
      TrailingSpaceIs(s, j);
    } else {
      forall m | 0 <= m < |s| ensures IsWhiteSpace(s[m]) {
        if m < i { assert s[..i][m] == s[m]; } else { assert s[j..][m - j] == s[m]; }
      }
      assert s[..|s|] == s;
      LeadingSpaceIs(s, |s|);
    }
  }

  /** Trimming white space around an already trimmed text gives that text back. */
  lemma TrimPadded(pre: string, core: string, post: string)
    requires AllWhiteSpace(pre) && AllWhiteSpace(post)
    requires |core| > 0 ==> !IsWhiteSpace(core[0]) && !IsWhiteSpace(core[|core| - 1])
    ensures Trim(pre + core + post) == core
  {
    var s := pre + core + post;
    assert s[..|pre|] == pre;
    assert s[|pre| + |core|..] == post;
    assert s[|pre|..|pre| + |core|] == core;
    TrimUnique(s, |pre|, |pre| + |core|);
  }

  /** `toLowerCase` on one character, for the ASCII letters A-Z. */
  function LowerChar(c: char): (d: char)
    ensures !('A' <= d <= 'Z')
    ensures !('A' <= c <= 'Z') ==> d == c
    ensures 'A' <= c <= 'Z' ==> d as int - c as int == 'a' as int - 'A' as int
  {
    if 'A' <= c <= 'Z' then (c as int - 'A' as int + 'a' as int) as char else c
  }

  /** `s.toLowerCase()`, character by character. */
  function ToLower(s: string): (r: string)
    ensures |r| == |s|
    ensures forall i :: 0 <= i < |s| ==> r[i] == LowerChar(s[i])
  {
    if s == [] then [] else [LowerChar(s[0])] + ToLower(s[1..])
  }

  /** Lower-casing twice is lower-casing once. */
  lemma ToLowerIdempotent(s: string)
    ensures ToLower(ToLower(s)) == ToLower(s)
  {
  }

  /** Lower-casing distributes over concatenation. */
  lemma {:induction false} ToLowerAppend(a: string, b: string)
    ensures ToLower(a + b) == ToLower(a) + ToLower(b)
  {
    if a != [] {
      assert (a + b)[1..] == a[1..] + b;
      ToLowerAppend(a[1..], b);
    } else {
      assert a + b == b;
    }
  }

  /** Lower-casing a text built from three pieces lower-cases each piece. */
  lemma ToLowerConcat(a: string, b: string, c: string)
    ensures ToLower(a + b + c) == ToLower(a) + ToLower(b) + ToLower(c)
  {
    ToLowerAppend(a + b, c);
    ToLowerAppend(a, b);
  }

  predicate OccursAt(s: string, t: string, i: nat) {
    i + |t| <= |s| && s[i..i + |t|] == t
  }

  /** `s.includes(t)`: whether `t` occurs in `s` as a contiguous piece. */
  function Includes(s: string, t: string): (r: bool)
    ensures r <==> exists i: nat :: OccursAt(s, t, i)
    decreases |s|
  {
    if |t| > |s| then
      assert forall i: nat :: !OccursAt(s, t, i);
      false
    else if s[..|t|] == t then
      assert OccursAt(s, t, 0);
      true
    else
      var rest := Includes(s[1..], t);
      assert rest ==> exists i: nat :: OccursAt(s, t, i) by {
        if rest {
          var i: nat :| OccursAt(s[1..], t, i);
          assert s[1..][i..i + |t|] == s[i + 1..i + 1 + |t|];
          assert OccursAt(s, t, i + 1);
        }
      }
      assert (exists i: nat :: OccursAt(s, t, i)) ==> rest by {
        if exists i: nat :: OccursAt(s, t, i) {
          var i: nat :| OccursAt(s, t, i);
          assert i != 0;
          assert s[1..][i - 1..i - 1 + |t|] == s[i..i + |t|];
          assert OccursAt(s[1..], t, i - 1);
        }
      }
      rest
  }

  /** A text that holds `t` somewhere holds it whatever surrounds it. */
  lemma IncludesInContext(pre: string, t: string, post: string)
    ensures Includes(pre + t + post, t)
  {
    var s := pre + t + post;
    assert s[|pre|..|pre| + |t|] == t;
    assert OccursAt(s, t, |pre|);
  }
}
