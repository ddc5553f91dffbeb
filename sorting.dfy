/**
 * LINQ's `OrderBy` on ordinal keys, as a stable insertion sort over
 * sequences of codes compared lexicographically.
 */
module Sorting {

  /** Lexicographic order on code sequences, a proper prefix first, as `string.CompareOrdinal` orders texts. */
  predicate LexLe(a: seq<int>, b: seq<int>)
    decreases |a|
  {
    |a| == 0 || (|b| > 0 && (a[0] < b[0] || (a[0] == b[0] && LexLe(a[1..], b[1..]))))
  }

  lemma {:induction false} LexTotal(a: seq<int>, b: seq<int>)
    ensures LexLe(a, b) || LexLe(b, a)
    decreases |a|
  {
    if |a| > 0 && |b| > 0 && a[0] == b[0] {
      LexTotal(a[1..], b[1..]);
    }
  }

  lemma {:induction false} LexTransitive(a: seq<int>, b: seq<int>, c: seq<int>)
    requires LexLe(a, b) && LexLe(b, c)
    ensures LexLe(a, c)
    decreases |a|
  {
    if |a| > 0 && a[0] == b[0] && b[0] == c[0] {
      LexTransitive(a[1..], b[1..], c[1..]);
    }
  }

  lemma {:induction false} LexAntisymmetric(a: seq<int>, b: seq<int>)
    requires LexLe(a, b) && LexLe(b, a)
    ensures a == b
    decreases |a|
  {
    if |a| > 0 {
      LexAntisymmetric(a[1..], b[1..]);
      assert a == [a[0]] + a[1..] && b == [b[0]] + b[1..];
    }
  }

  /** A key that starts with a number compares by that number first. */
  lemma LexCons(x: int, a: seq<int>, y: int, b: seq<int>)
    ensures LexLe([x] + a, [y] + b) <==> x < y || (x == y && LexLe(a, b))
  {
    assert ([x] + a)[1..] == a && ([y] + b)[1..] == b;
  }

  /**
   * The UTF-16 code units of one character, as .NET stores it: the character
   * itself below U+10000, otherwise a high and a low surrogate (section 2.1 of
   * RFC 2781).
   */
  function Utf16(c: char): (u: seq<int>)
    ensures |u| == 1 <==> c as int < 0x1_0000
    ensures |u| == 1 || |u| == 2
    ensures forall k :: 0 <= k < |u| ==> 0 <= u[k] < 0x1_0000
    ensures 0xD800 <= u[0] < 0xDC00 <==> |u| == 2
    ensures |u| == 2 ==> 0xDC00 <= u[1] < 0xE000
  {
    var n := c as int;
    if n < 0x1_0000 then [n]
    else [0xD800 + (n - 0x1_0000) / 0x400, 0xDC00 + (n - 0x1_0000) % 0x400]
  }

  /** Characters with the same code units are the same character. */
  lemma Utf16Injective(c: char, d: char)
    requires Utf16(c) == Utf16(d)
    ensures c == d
  {
    var n, m := c as int, d as int;
    if n >= 0x1_0000 {
      assert n - 0x1_0000 == (n - 0x1_0000) / 0x400 * 0x400 + (n - 0x1_0000) % 0x400;
      assert m - 0x1_0000 == (m - 0x1_0000) / 0x400 * 0x400 + (m - 0x1_0000) % 0x400;
    }
  }

  /** The UTF-16 code units of a text, which .NET's ordinal comparison compares one by one. */
  function Codes(s: string): (r: seq<int>)
    ensures |r| >= |s|
    ensures (forall i :: 0 <= i < |s| ==> s[i] as int < 0x1_0000) ==>
              |r| == |s| && forall i :: 0 <= i < |s| ==> r[i] == s[i] as int
    decreases |s|
  {
    if |s| == 0 then [] else Utf16(s[0]) + Codes(s[1..])
  }

  /** Texts with the same code units are the same text: the encoding loses nothing. */
  lemma {:induction false} CodesInjective(a: string, b: string)
    requires Codes(a) == Codes(b)
    ensures a == b
    decreases |a|
  {
    if |a| > 0 && |b| > 0 {
      var ua, ub := Utf16(a[0]), Utf16(b[0]);
      assert Codes(a)[0] == ua[0] && Codes(b)[0] == ub[0];
      assert |ua| == |ub|;
      assert ua == Codes(a)[..|ua|] && ub == Codes(b)[..|ub|];
      Utf16Injective(a[0], b[0]);
      assert Codes(a[1..]) == Codes(a)[|ua|..] && Codes(b[1..]) == Codes(b)[|ub|..];
      CodesInjective(a[1..], b[1..]);
      assert a == [a[0]] + a[1..] && b == [b[0]] + b[1..];
    }
  }

  /**
   * Ordinal order is code-unit order, not code-point order: a text starting with a
   * character beyond U+FFFF sorts before one starting with a character from U+E000
   * to U+FFFF, because its high surrogate is smaller.
   */
  lemma SurrogatesSortLow(c: char, x: string, d: char, y: string)
    requires c as int >= 0x1_0000 && 0xE000 <= d as int < 0x1_0000
    ensures LexLe(Codes([c] + x), Codes([d] + y)) && !LexLe(Codes([d] + y), Codes([c] + x))
  {
    assert ([c] + x)[0] == c && ([c] + x)[1..] == x;
    assert ([d] + y)[0] == d && ([d] + y)[1..] == y;
    assert Codes([c] + x) == Utf16(c) + Codes(x);
    assert Codes([d] + y) == Utf16(d) + Codes(y);
  }

  predicate SortedBy<T>(s: seq<T>, key: T -> seq<int>)
  {
    forall i, j :: 0 <= i < j < |s| ==> LexLe(key(s[i]), key(s[j]))
  }

  /** Places `x` after every element whose key is at most its own. */
  function InsertBy<T>(x: T, s: seq<T>, key: T -> seq<int>): seq<T>
    decreases |s|
  {
    if |s| == 0 then [x]
    else if LexLe(key(s[|s| - 1]), key(x)) then s + [x]
    else InsertBy(x, s[..|s| - 1], key) + [s[|s| - 1]]
  }

  /** `OrderBy(key)`: a stable insertion sort. */
  function SortBy<T>(s: seq<T>, key: T -> seq<int>): seq<T>
    decreases |s|
  {
    if |s| == 0 then [] else InsertBy(s[|s| - 1], SortBy(s[..|s| - 1], key), key)
  }

  lemma {:induction false} InsertByPermutes<T>(x: T, s: seq<T>, key: T -> seq<int>)
    ensures multiset(InsertBy(x, s, key)) == multiset(s) + multiset{x}
    decreases |s|
  {
    if |s| > 0 && !LexLe(key(s[|s| - 1]), key(x)) {
      InsertByPermutes(x, s[..|s| - 1], key);
      assert s == s[..|s| - 1] + [s[|s| - 1]];
    }
  }

  lemma {:induction false} InsertBySorted<T>(x: T, s: seq<T>, key: T -> seq<int>)
    requires SortedBy(s, key)
    ensures SortedBy(InsertBy(x, s, key), key)
    decreases |s|
  {
    var n := |s|;
    if n == 0 {
    } else if LexLe(key(s[n - 1]), key(x)) {
      AppendAfterLast(s, x, key);
    } else {
      var prefix := s[..n - 1];
      InsertBySorted(x, prefix, key);
      InsertByPermutes(x, prefix, key);
      LexTotal(key(s[n - 1]), key(x));
      AppendAfterMembers(InsertBy(x, prefix, key), prefix, x, s[n - 1], key);
    }
  }

  /** An item no smaller than the last of a sorted sequence can be appended to it. */
  lemma AppendAfterLast<T>(s: seq<T>, x: T, key: T -> seq<int>)
    requires SortedBy(s, key) && |s| > 0 && LexLe(key(s[|s| - 1]), key(x))
    ensures SortedBy(s + [x], key)
  {
    var n := |s|;
    forall i | 0 <= i < n
      ensures LexLe(key(s[i]), key(x))
    {
      if i < n - 1 {
        LexTransitive(key(s[i]), key(s[n - 1]), key(x));
      }
    }
    AppendLargest(s, x, key);
  }

  /**
   * An item no smaller than `x` and than every element of `prefix` can be
   * appended to a sorted arrangement of `prefix` with `x`.
   */
  lemma AppendAfterMembers<T>(inserted: seq<T>, prefix: seq<T>, x: T, last: T, key: T -> seq<int>)
    requires SortedBy(inserted, key)
    requires multiset(inserted) == multiset(prefix) + multiset{x}
    requires forall m :: 0 <= m < |prefix| ==> LexLe(key(prefix[m]), key(last))
    requires LexLe(key(x), key(last))
    ensures SortedBy(inserted + [last], key)
  {
    forall i | 0 <= i < |inserted|
      ensures LexLe(key(inserted[i]), key(last))
    {
      var y := inserted[i];
      assert y in multiset(inserted);
      if y != x {
        assert y in multiset(prefix);
        var m :| 0 <= m < |prefix| && prefix[m] == y;
      }
    }
    AppendLargest(inserted, last, key);
  }

  /** A sorted sequence stays sorted when an item no smaller than all of it is appended. */
  lemma AppendLargest<T>(s: seq<T>, last: T, key: T -> seq<int>)
    requires SortedBy(s, key)
    requires forall i :: 0 <= i < |s| ==> LexLe(key(s[i]), key(last))
    ensures SortedBy(s + [last], key)
  {
    var r := s + [last];
    forall i, j | 0 <= i < j < |r|
      ensures LexLe(key(r[i]), key(r[j]))
    {
      if j < |s| {
        assert r[i] == s[i] && r[j] == s[j];
      } else {
        assert r[i] == s[i] && r[j] == last;
      }
    }
  }


  /** The sorted sequence is ordered by the key and holds exactly the input's elements. */
  lemma {:induction false} SortBySorts<T>(s: seq<T>, key: T -> seq<int>)
    ensures SortedBy(SortBy(s, key), key)
    ensures multiset(SortBy(s, key)) == multiset(s)
    decreases |s|
  {
    if |s| > 0 {
      var n := |s|;
      SortBySorts(s[..n - 1], key);
      InsertBySorted(s[n - 1], SortBy(s[..n - 1], key), key);
      InsertByPermutes(s[n - 1], SortBy(s[..n - 1], key), key);
      assert s == s[..n - 1] + [s[n - 1]];
    }
  }

  // Stability: items with equal keys keep their relative order.

  lemma {:induction false} LexReflexive(a: seq<int>)
    ensures LexLe(a, a)
    decreases |a|
  {
    if |a| > 0 {
      LexReflexive(a[1..]);
    }
  }

  /** The items whose key is `k`, in their order. */
  function WithKey<T>(s: seq<T>, key: T -> seq<int>, k: seq<int>): seq<T>
    decreases |s|
  {
    if |s| == 0 then []
    else WithKey(s[..|s| - 1], key, k) + (if key(s[|s| - 1]) == k then [s[|s| - 1]] else [])
  }

  lemma WithKeySnoc<T>(s: seq<T>, x: T, key: T -> seq<int>, k: seq<int>)
    ensures WithKey(s + [x], key, k) == WithKey(s, key, k) + (if key(x) == k then [x] else [])
  {
    assert (s + [x])[..|s|] == s;
  }

  /** Inserting `x` puts it after every item of its own key. */
  lemma {:induction false} InsertByStable<T>(x: T, s: seq<T>, key: T -> seq<int>, k: seq<int>)
    ensures WithKey(InsertBy(x, s, key), key, k) == WithKey(s, key, k) + (if key(x) == k then [x] else [])
    decreases |s|
  {
    var n := |s|;
    if n == 0 {
      WithKeySnoc([], x, key, k);
      assert [] + [x] == [x];
    } else if LexLe(key(s[n - 1]), key(x)) {
      WithKeySnoc(s, x, key, k);
    } else {
      var prefix := s[..n - 1];
      var last := s[n - 1];
      InsertByStable(x, prefix, key, k);
      LexReflexive(key(x));
      assert key(last) != key(x);
      WithKeySnoc(InsertBy(x, prefix, key), last, key, k);
    }
  }

  /** `OrderBy` is stable: the items of each key come out in their input order. */
  lemma {:induction false} SortByStable<T>(s: seq<T>, key: T -> seq<int>, k: seq<int>)
    ensures WithKey(SortBy(s, key), key, k) == WithKey(s, key, k)
    decreases |s|
  {
    if |s| > 0 {
      var n := |s|;
      SortByStable(s[..n - 1], key, k);
      InsertByStable(s[n - 1], SortBy(s[..n - 1], key), key, k);
    }
  }
}
