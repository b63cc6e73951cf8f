/** Python string operations the supervisor relies on: the `in` substring test
    and `str.strip()` with no argument. */
module Text {

  /** Whitespace as Python's `str.isspace` defines it; these are the characters
      that `str.strip()` removes from both ends. */
  predicate IsSpace(c: char) {
    || ('\t' <= c <= '\r')
    || ('\U{1c}' <= c <= '\U{1f}')
    || c == ' ' || c == '\U{85}' || c == '\U{a0}' || c == '\U{1680}'
    || ('\U{2000}' <= c <= '\U{200a}')
    || c == '\U{2028}' || c == '\U{2029}' || c == '\U{202f}' || c == '\U{205f}'
    || c == '\U{3000}'
  }

  predicate AllSpace(s: string) {
    forall k :: 0 <= k < |s| ==> IsSpace(s[k])
  }

  /** A string none of whose characters is whitespace, such as a device prefix. */
  predicate Solid(p: string) {
    forall k :: 0 <= k < |p| ==> !IsSpace(p[k])
  }

  /** `p` occurs in `s` starting at index `k`. */
  predicate OccursAt(s: string, p: string, k: int) {
    0 <= k && k + |p| <= |s| && s[k..k + |p|] == p
  }

  /** Python's `p in s`: a case-sensitive substring test, scanning from the left. */
  function Contains(s: string, p: string): (r: bool)
    ensures r <==> exists k :: OccursAt(s, p, k)
    decreases |s|
  {
    if |p| > |s| then
      false
    else if s[..|p|] == p then
      assert OccursAt(s, p, 0);
      true
    else
      var r := Contains(s[1..], p);
      assert r ==> exists k :: OccursAt(s, p, k) by {
        if r {
          var k :| OccursAt(s[1..], p, k);
          assert s[1..][k..k + |p|] == s[k + 1..k + 1 + |p|];
          assert OccursAt(s, p, k + 1);
        }
      }
      assert (exists k :: OccursAt(s, p, k)) ==> r by {
        if k :| OccursAt(s, p, k) {
          assert k != 0;
          assert s[1..][k - 1..k - 1 + |p|] == s[k..k + |p|];
          assert OccursAt(s[1..], p, k - 1);
        }
      }
      r
  }

  /** Leading whitespace removed (`str.lstrip()`). */
  function StripStart(s: string): (r: string)
    ensures |r| <= |s| && r == s[|s| - |r|..]
    ensures AllSpace(s[..|s| - |r|])
    ensures r != [] ==> !IsSpace(r[0])
  {
    if s != [] && IsSpace(s[0]) then
      var r := StripStart(s[1..]);
      assert s[..|s| - |r|] == [s[0]] + s[1..][..|s| - 1 - |r|];
      r
    else
      s
  }

  /** Trailing whitespace removed (`str.rstrip()`). */
  function StripEnd(s: string): (r: string)
    ensures |r| <= |s| && r == s[..|r|]
    ensures AllSpace(s[|r|..])
    ensures r != [] ==> !IsSpace(r[|r| - 1])
  {
    if s != [] && IsSpace(s[|s| - 1]) then
      var r := StripEnd(s[..|s| - 1]);
      assert s[|r|..] == s[..|s| - 1][|r|..] + [s[|s| - 1]];
      r
    else
      s
  }

  /** Python's `s.strip()`. */
  function Strip(s: string): (r: string)
    ensures r != [] ==> !IsSpace(r[0]) && !IsSpace(r[|r| - 1])
  {
    StripEnd(StripStart(s))
  }

  /** `Strip(s)` is the slice of `s` that is left once whitespace is cut from
      both ends: everything removed is whitespace. */
  lemma StripIsTrimmedSlice(s: string) returns (i: nat)
    ensures i + |Strip(s)| <= |s| && Strip(s) == s[i..i + |Strip(s)|]
    ensures AllSpace(s[..i]) && AllSpace(s[i + |Strip(s)|..])
  {
    var t := StripStart(s);
    var r := StripEnd(t);
    assert Strip(s) == r;
    i := |s| - |t|;
    TrimmedSuffix(s, i, r);
  }

  /** A prefix `r` of the suffix `s[i..]`, followed there only by whitespace,
      is the slice of `s` at `i`, and whitespace follows it in `s` too. */
  lemma TrimmedSuffix(s: string, i: nat, r: string)
    requires i <= |s| && |r| <= |s| - i
    requires r == s[i..][..|r|] && AllSpace(s[i..][|r|..])
    ensures r == s[i..i + |r|] && AllSpace(s[i + |r|..])
  {
    assert s[i..][|r|..] == s[i + |r|..];
  }

  /** An occurrence of a solid string cannot reach into whitespace that
      precedes index `i` or follows index `j`. */
  lemma SolidOccurrenceBetween(s: string, p: string, k: int, i: nat, j: nat)
    requires p != [] && Solid(p) && OccursAt(s, p, k)
    requires i <= j <= |s| && AllSpace(s[..i]) && AllSpace(s[j..])
    ensures i <= k && k + |p| <= j
  {
    assert s[k] == s[k..k + |p|][0] == p[0];
    assert s[k + |p| - 1] == s[k..k + |p|][|p| - 1] == p[|p| - 1];
  }

  /** An occurrence inside a slice of `s` is an occurrence in that slice. */
  lemma OccurrenceInSlice(s: string, p: string, k: int, i: nat, j: nat)
    requires OccursAt(s, p, k) && i <= k && k + |p| <= j <= |s|
    ensures OccursAt(s[i..j], p, k - i)
  {
    forall m | k - i <= m < k - i + |p| ensures s[i..j][m] == s[i + m] { }
    assert s[i..j][k - i..k - i + |p|] == s[k..k + |p|];
  }

  /** An occurrence of a prefix free of whitespace survives stripping: whitespace
      cut from the ends cannot overlap it. */
  lemma StripKeepsSolidOccurrence(s: string, p: string)
    requires p != [] && Solid(p)
    requires Contains(s, p)
    ensures Contains(Strip(s), p)
  {
    var k :| OccursAt(s, p, k);
    var i := StripIsTrimmedSlice(s);
    var j := i + |Strip(s)|;
    SolidOccurrenceBetween(s, p, k, i, j);
    OccurrenceInSlice(s, p, k, i, j);
  }
}
