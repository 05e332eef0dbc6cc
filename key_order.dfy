/**
 * The order Python's `sorted` puts strings in: lexicographic by code
 * point, a proper prefix before its extensions. `Sort` is an independent
 * reference definition of `sorted(keys)` (an insertion sort); the lemmas
 * show it returns an ascending permutation of its input.
 */
module KeyOrder {

  /** Python's `a <= b` on str. */
  predicate StrLe(a: string, b: string) {
    if a == [] then true
    else if b == [] then false
    else if a[0] != b[0] then a[0] < b[0]
    else StrLe(a[1..], b[1..])
  }

  lemma {:induction false} StrLeTotal(a: string, b: string)
    ensures StrLe(a, b) || StrLe(b, a)
  {
    if a != [] && b != [] && a[0] == b[0] {
      StrLeTotal(a[1..], b[1..]);
    }
  }

  lemma {:induction false} StrLeTrans(a: string, b: string, c: string)
    requires StrLe(a, b) && StrLe(b, c)
    ensures StrLe(a, c)
  {
    if a != [] && b != [] && c != [] && a[0] == b[0] == c[0] {
      StrLeTrans(a[1..], b[1..], c[1..]);
    }
  }

  predicate Ascending(s: seq<string>) {
    forall i, j :: 0 <= i < j < |s| ==> StrLe(s[i], s[j])
  }

  lemma ConsAscending(a: string, t: seq<string>)
    requires Ascending(t)
    requires forall j :: 0 <= j < |t| ==> StrLe(a, t[j])
    ensures Ascending([a] + t)
  {
    var s := [a] + t;
    forall i, j | 0 <= i < j < |s| ensures StrLe(s[i], s[j]) {
      if i == 0 { assert s[j] == t[j - 1]; } else { assert s[i] == t[i - 1] && s[j] == t[j - 1]; }
    }
  }

  /** Puts `x` in front of the first element it does not exceed. */
  function Insert(x: string, s: seq<string>): (r: seq<string>)
    ensures multiset(r) == multiset(s) + multiset{x}
  {
    if s == [] then [x]
    else if StrLe(x, s[0]) then [x] + s
    else
      assert s == [s[0]] + s[1..];
      [s[0]] + Insert(x, s[1..])
  }

  /** Inserting into an ascending list keeps it ascending. */
  lemma {:induction false} InsertAscending(x: string, s: seq<string>)
    requires Ascending(s)
    ensures Ascending(Insert(x, s))
  {
    if s == [] {
    } else if StrLe(x, s[0]) {
      forall j | 0 <= j < |s| ensures StrLe(x, s[j]) {
        if j > 0 { StrLeTrans(x, s[0], s[j]); }
      }
      ConsAscending(x, s);
    } else {
      var t := Insert(x, s[1..]);
      InsertAscending(x, s[1..]);
      StrLeTotal(x, s[0]);
      forall j | 0 <= j < |t| ensures StrLe(s[0], t[j]) {
        assert t[j] in multiset(t);
        assert t[j] == x || t[j] in multiset(s[1..]);
      }
      ConsAscending(s[0], t);
    }
  }

  /** `sorted(keys)` */
  function Sort(s: seq<string>): (r: seq<string>)
    ensures multiset(r) == multiset(s)
    ensures Ascending(r)
  {
    if s == [] then []
    else
      assert s == [s[0]] + s[1..];
      InsertAscending(s[0], Sort(s[1..]));
      Insert(s[0], Sort(s[1..]))
  }

  /**
   * `list.remove(x)`: drops the first occurrence of `x`. Python raises
   * ValueError when `x` is absent; the only caller tests `x in s` first, so
   * that case never arises, and here it returns `s` unchanged to keep the
   * function total.
   */
  function RemoveFirst(s: seq<string>, x: string): (r: seq<string>)
    ensures x in s ==> multiset(r) == multiset(s) - multiset{x}
    ensures x !in s ==> r == s
  {
    if s == [] then []
    else if s[0] == x then
      assert s == [s[0]] + s[1..];
      s[1..]
    else
      assert s == [s[0]] + s[1..];
      [s[0]] + RemoveFirst(s[1..], x)
  }

  /** Removing an element keeps a list ascending. */
  lemma {:induction false} RemoveFirstAscending(s: seq<string>, x: string)
    requires Ascending(s)
    ensures Ascending(RemoveFirst(s, x))
  {
    if s != [] && s[0] != x {
      var t := RemoveFirst(s[1..], x);
      RemoveFirstAscending(s[1..], x);
      forall j | 0 <= j < |t| ensures StrLe(s[0], t[j]) {
        assert t[j] in multiset(t);
        assert t[j] in multiset(s[1..]);
      }
      ConsAscending(s[0], t);
    }
  }

  /** An already ascending list is its own sorted order. */
  lemma {:induction false} SortAscending(s: seq<string>)
    requires Ascending(s)
    ensures Sort(s) == s
  {
    if s != [] {
      SortAscending(s[1..]);
    }
  }
}
