/** Substring search on strings, as Python's `in` operator does it. */
module Text {

  /** Python's `t in s` on strings: `t` occurs in `s` at some offset. */
  predicate Contains(s: string, t: string)
    decreases |s|
  {
    if |s| < |t| then false
    else s[..|t|] == t || Contains(s[1..], t)
  }

  /** A string contains every substring found at some offset of it. */
  lemma {:induction false} ContainsFrom(s: string, t: string, o: nat)
    requires o + |t| <= |s| && s[o..o + |t|] == t
    ensures Contains(s, t)
    decreases o
  {
    if o > 0 {
      assert s[1..][o - 1..o - 1 + |t|] == t;
      ContainsFrom(s[1..], t, o - 1);
    }
  }

  /** `t in p + t + r` */
  lemma ContainsInfix(p: string, t: string, r: string)
    ensures Contains(p + t + r, t)
  {
    assert (p + t + r)[|p|..|p| + |t|] == t;
    ContainsFrom(p + t + r, t, |p|);
  }

  /**
   * A string whose first `n` characters do not include the first character
   * of `t`, and whose rest is shorter than `t`, does not contain `t`.
   */
  lemma {:induction false} NotContainsBefore(s: string, t: string, n: nat)
    requires t != [] && n <= |s| && t[0] !in s[..n] && |s| - n < |t|
    ensures !Contains(s, t)
    decreases |s|
  {
    if |s| >= |t| {
      assert s[0] in s[..n];
      assert s[..|t|][0] == s[0];
      assert forall c :: c in s[1..][..n - 1] ==> c in s[..n];
      NotContainsBefore(s[1..], t, n - 1);
    }
  }
}
