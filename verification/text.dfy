/** String operations the two services rely on: Python's case-sensitive
    substring test `pat in s`, `s.strip('\n')`, and the code-point order
    on strings. Strings are sequences of characters; there is no case
    folding or normalisation anywhere. */
module Text {

  /** `pat` occurs in `s` at index `i`. */
  predicate OccursAt(s: string, pat: string, i: nat)
  {
    i + |pat| <= |s| && s[i..i + |pat|] == pat
  }

  /** Python's `pat in s` for two strings, searched left to right. */
  function Contains(s: string, pat: string): bool
    decreases |s|
  {
    if |pat| > |s| then false
    else if s[..|pat|] == pat then true
    else Contains(s[1..], pat)
  }

  /** The search finds `pat` exactly when it occurs somewhere in `s`. */
  lemma {:induction false} ContainsIffOccurs(s: string, pat: string)
    ensures Contains(s, pat) <==> exists i: nat :: OccursAt(s, pat, i)
    decreases |s|
  {
    if |pat| > |s| {
    } else if s[..|pat|] == pat {
      assert OccursAt(s, pat, 0);
    } else {
      ContainsIffOccurs(s[1..], pat);
      if Contains(s[1..], pat) {
        var i: nat :| OccursAt(s[1..], pat, i);
        assert s[i + 1..i + 1 + |pat|] == s[1..][i..i + |pat|];
        assert OccursAt(s, pat, i + 1);
      }
      if i: nat :| OccursAt(s, pat, i) {
        assert i != 0;
        assert s[1..][i - 1..i - 1 + |pat|] == s[i..i + |pat|];
        assert OccursAt(s[1..], pat, i - 1);
      }
    }
  }

  /** A pattern with a character that `s` lacks does not occur in `s`. */
  lemma MissingCharNotContained(s: string, pat: string, k: nat)
    requires k < |pat| && pat[k] !in s
    ensures !Contains(s, pat)
  {
    ContainsIffOccurs(s, pat);
    forall i: nat | i + |pat| <= |s|
      ensures !OccursAt(s, pat, i)
    {
      assert s[i..i + |pat|][k] == s[i + k];
    }
  }

  /** `r` is what is left of `s` once the first `i` characters and every
      character after `i + |r|` are removed, and all removed characters
      are newlines. */
  predicate StrippedAt(s: string, r: string, i: nat)
  {
    && i + |r| <= |s|
    && r == s[i..i + |r|]
    && (forall k :: 0 <= k < i ==> s[k] == '\n')
    && (forall k :: i + |r| <= k < |s| ==> s[k] == '\n')
  }

  /** Python's `s.lstrip('\n')`. */
  function TrimLeadingNewlines(s: string): (r: string)
    ensures |r| <= |s|
    ensures StrippedAt(s, r, |s| - |r|)
    ensures r == [] || r[0] != '\n'
  {
    if |s| > 0 && s[0] == '\n' then TrimLeadingNewlines(s[1..]) else s
  }

  /** Python's `s.rstrip('\n')`. */
  function TrimTrailingNewlines(s: string): (r: string)
    ensures StrippedAt(s, r, 0)
    ensures r == [] || r[|r| - 1] != '\n'
    ensures s != [] && s[0] != '\n' ==> r != [] && r[0] == s[0]
  {
    if |s| > 0 && s[|s| - 1] == '\n' then TrimTrailingNewlines(s[..|s| - 1]) else s
  }

  /** Cutting newlines from an infix that was itself cut from `s` by
      newlines only is cutting newlines from `s`. */
  lemma StrippedCompose(s: string, t: string, r: string, i: nat)
    requires StrippedAt(s, t, i) && StrippedAt(t, r, 0)
    ensures StrippedAt(s, r, i)
  {
    assert s[i..i + |r|] == t[..|r|];
    forall k | i + |r| <= k < |s|
      ensures s[k] == '\n'
    {
      if k < i + |t| {
        assert s[k] == t[k - i];
      }
    }
  }

  /** Python's `s.strip('\n')`: removes newlines, and only newlines, from
      both ends. */
  function StripNewlines(s: string): (r: string)
    ensures exists i: nat :: StrippedAt(s, r, i)
    ensures r == [] || (r[0] != '\n' && r[|r| - 1] != '\n')
  {
    var t := TrimLeadingNewlines(s);
    var r := TrimTrailingNewlines(t);
    StrippedCompose(s, t, r, |s| - |t|);
    r
  }

  /** A strip result is unique: any infix obtained by cutting only newlines
      and neither starting nor ending with one is the strip of `s`. */
  lemma {:induction false} StripUnique(s: string, r: string, i: nat)
    requires StrippedAt(s, r, i)
    requires r == [] || (r[0] != '\n' && r[|r| - 1] != '\n')
    ensures StripNewlines(s) == r
  {
    var q := StripNewlines(s);
    var j: nat :| StrippedAt(s, q, j);
    if r == [] {
      assert forall k :: 0 <= k < |s| ==> s[k] == '\n';
    } else {
      assert s[i] != '\n' && s[i + |r| - 1] != '\n';
      assert q != [] ==> s[j] != '\n' && s[j + |q| - 1] != '\n';
      assert i == j && |q| == |r|;
    }
  }

  /** A string that starts with something other than a newline and ends
      in a single newline loses exactly that newline. */
  lemma StripSingleFinalNewline(s: string)
    requires |s| >= 2 && s[0] != '\n' && s[|s| - 1] == '\n' && s[|s| - 2] != '\n'
    ensures StripNewlines(s) == s[..|s| - 1]
  {
    var r := s[..|s| - 1];
    assert StrippedAt(s, r, 0);
    StripUnique(s, r, 0);
  }

  /** The last two characters of `a + b` are those of `b`. */
  lemma LastTwo(a: string, b: string)
    requires |b| >= 2
    ensures var s := a + b; s[|s| - 1] == b[|b| - 1] && s[|s| - 2] == b[|b| - 2]
  {
  }

  /** Strict lexicographic order on code points, as Python compares `str`. */
  predicate LexLess(a: string, b: string)
  {
    if |a| == 0 then |b| > 0
    else |b| > 0 && (a[0] < b[0] || (a[0] == b[0] && LexLess(a[1..], b[1..])))
  }

  /** A shared prefix does not affect the order of two strings. */
  lemma {:induction false} LexLessCommonPrefix(p: string, a: string, b: string)
    ensures LexLess(p + a, p + b) <==> LexLess(a, b)
  {
    if |p| > 0 {
      assert (p + a)[1..] == p[1..] + a;
      assert (p + b)[1..] == p[1..] + b;
      LexLessCommonPrefix(p[1..], a, b);
    } else {
      assert p + a == a && p + b == b;
    }
  }
}
