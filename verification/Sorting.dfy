/** The stable sort of the standard library, and the orders the source sorts by.  Every comparison in
    the modelled code is lexicographic over at most two numbers followed by at most two strings. */
module Sorting {

  predicate StrLeq(a: string, b: string)
    decreases |a|
  {
    a == "" || (b != "" && (a[0] < b[0] || (a[0] == b[0] && StrLeq(a[1..], b[1..]))))
  }

  lemma {:induction false} StrTotal(a: string, b: string)
    ensures StrLeq(a, b) || StrLeq(b, a)
    decreases |a|
  {
    if a != "" && b != "" { StrTotal(a[1..], b[1..]); }
  }

  lemma {:induction false} StrAntisymmetric(a: string, b: string)
    requires StrLeq(a, b) && StrLeq(b, a)
    ensures a == b
    decreases |a|
  {
    if a != "" {
      StrAntisymmetric(a[1..], b[1..]);
      assert a == [a[0]] + a[1..] && b == [b[0]] + b[1..];
    }
  }

  lemma {:induction false} StrTransitive(a: string, b: string, c: string)
    requires StrLeq(a, b) && StrLeq(b, c)
    ensures StrLeq(a, c)
    decreases |a|
  {
    if a != "" && a[0] == b[0] && b[0] == c[0] { StrTransitive(a[1..], b[1..], c[1..]); }
  }

  /** The first difference decides: one string ends there, or has the smaller character there. */
  predicate DiffersAt(a: string, b: string, n: nat) {
    && n <= |a| && n <= |b| && a[..n] == b[..n]
    && (n == |a| || (n < |b| && a[n] < b[n]))
  }

  /** The order of strings is the lexicographic order. */
  lemma {:induction false} StrLeqIsLexicographic(a: string, b: string)
    ensures StrLeq(a, b) <==> exists n: nat :: DiffersAt(a, b, n)
    decreases |a|
  {
    if a == "" {
      assert DiffersAt(a, b, 0);
    } else if b == "" {
      assert !exists n: nat :: DiffersAt(a, b, n);
    } else {
      StrLeqIsLexicographic(a[1..], b[1..]);
      if a[0] < b[0] { assert DiffersAt(a, b, 0); }
      if StrLeq(a, b) && a[0] == b[0] {
        var n: nat :| DiffersAt(a[1..], b[1..], n);
        assert a[..n + 1] == [a[0]] + a[1..][..n] && b[..n + 1] == [b[0]] + b[1..][..n];
        assert DiffersAt(a, b, n + 1);
      }
      forall n: nat | DiffersAt(a, b, n) ensures StrLeq(a, b) {
        if n > 0 {
          assert a[..n][0] == b[..n][0];
          assert a[1..][..n - 1] == a[..n][1..] && b[1..][..n - 1] == b[..n][1..];
          assert DiffersAt(a[1..], b[1..], n - 1);
        }
      }
    }
  }

  /** The string comes strictly first. */
  predicate Precedes(a: string, b: string) { a != b && StrLeq(a, b) }

  datatype Key = Key(first: int, second: int, third: string, fourth: string)

  predicate KeyLeq(a: Key, b: Key) {
    || a.first < b.first
    || (a.first == b.first
        && (|| a.second < b.second
            || (a.second == b.second
                && (if a.third == b.third then StrLeq(a.fourth, b.fourth) else StrLeq(a.third, b.third)))))
  }

  predicate KeyLess(a: Key, b: Key) { KeyLeq(a, b) && a != b }

  /** A key is smaller when its first different field is. */
  lemma KeyLessReads(a: Key, b: Key)
    ensures a.first < b.first ==> KeyLess(a, b)
    ensures a.first == b.first && a.second < b.second ==> KeyLess(a, b)
    ensures a.first == b.first && a.second == b.second && Precedes(a.third, b.third) ==> KeyLess(a, b)
    ensures a.first == b.first && a.second == b.second && a.third == b.third && Precedes(a.fourth, b.fourth) ==> KeyLess(a, b)
    ensures KeyLess(a, b) ==>
              || a.first < b.first
              || (a.first == b.first && a.second < b.second)
              || (a.first == b.first && a.second == b.second && Precedes(a.third, b.third))
              || (a.first == b.first && a.second == b.second && a.third == b.third && Precedes(a.fourth, b.fourth))
  {
  }

  lemma KeyTotal(a: Key, b: Key)
    ensures KeyLeq(a, b) || KeyLeq(b, a)
  {
    StrTotal(a.third, b.third);
    StrTotal(a.fourth, b.fourth);
  }

  lemma KeyAntisymmetric(a: Key, b: Key)
    requires KeyLeq(a, b) && KeyLeq(b, a)
    ensures a == b
  {
    if a.third == b.third { StrAntisymmetric(a.fourth, b.fourth); } else { StrAntisymmetric(a.third, b.third); }
  }

  lemma KeyTransitive(a: Key, b: Key, c: Key)
    requires KeyLeq(a, b) && KeyLeq(b, c)
    ensures KeyLeq(a, c)
  {
    if a.first == b.first == c.first && a.second == b.second == c.second {
      if a.third == b.third && b.third == c.third {
        StrTransitive(a.fourth, b.fourth, c.fourth);
      } else if a.third != b.third && b.third != c.third {
        StrTransitive(a.third, b.third, c.third);
        if a.third == c.third { StrAntisymmetric(a.third, b.third); }
      }
    }
  }

  // ----- the stable sort -----

  /** Puts `x` behind everything that is not greater. */
  function Insert<T>(t: seq<T>, x: T, key: T -> Key): seq<T>
    decreases |t|
  {
    if t == [] || KeyLeq(key(t[|t| - 1]), key(x)) then t + [x]
    else Insert(t[..|t| - 1], x, key) + [t[|t| - 1]]
  }

  function SortBy<T>(s: seq<T>, key: T -> Key): seq<T>
    decreases |s|
  {
    if s == [] then [] else Insert(SortBy(s[..|s| - 1], key), s[|s| - 1], key)
  }

  predicate Sorted<T>(s: seq<T>, key: T -> Key) {
    forall i, j :: 0 <= i <= j < |s| ==> KeyLeq(key(s[i]), key(s[j]))
  }

  function Filter<T>(s: seq<T>, p: T -> bool): seq<T>
    decreases |s|
  {
    if s == [] then []
    else
      var rest, last := Filter(s[..|s| - 1], p), s[|s| - 1];
      if p(last) then rest + [last] else rest
  }

  /** The elements with one given key. */
  function WithKey<T>(key: T -> Key, k: Key): T -> bool { x => key(x) == k }

  lemma SplitLast<T>(s: seq<T>)
    requires s != []
    ensures s == s[..|s| - 1] + [s[|s| - 1]]
  {
  }

  lemma {:induction false} InsertContents<T>(t: seq<T>, x: T, key: T -> Key)
    ensures multiset(Insert(t, x, key)) == multiset(t) + multiset{x}
    decreases |t|
  {
    if t != [] {
      SplitLast(t);
      InsertContents(t[..|t| - 1], x, key);
    }
  }

  lemma {:induction false} SortContents<T>(s: seq<T>, key: T -> Key)
    ensures multiset(SortBy(s, key)) == multiset(s) && |SortBy(s, key)| == |s|
    decreases |s|
  {
    if s != [] {
      SplitLast(s);
      SortContents(s[..|s| - 1], key);
      InsertContents(SortBy(s[..|s| - 1], key), s[|s| - 1], key);
    }
    assert |multiset(SortBy(s, key))| == |SortBy(s, key)| && |multiset(s)| == |s|;
  }

  lemma SameElements<T>(s: seq<T>, t: seq<T>, x: T)
    requires multiset(s) == multiset(t)
    ensures x in s <==> x in t
  {
    assert x in s <==> x in multiset(s);
    assert x in t <==> x in multiset(t);
  }

  lemma SortMembers<T>(s: seq<T>, key: T -> Key, x: T)
    ensures x in SortBy(s, key) <==> x in s
  {
    SortContents(s, key);
    SameElements(SortBy(s, key), s, x);
  }

  predicate NoRepeats<T(==)>(s: seq<T>) {
    forall i, j :: 0 <= i < j < |s| ==> s[i] != s[j]
  }

  lemma Repeated<T>(s: seq<T>, t: seq<T>, i: nat, j: nat)
    requires multiset(s) == multiset(t) && i < j < |t| && t[i] == t[j]
    ensures !NoRepeats(s)
  {
    SameElements(s, t, t[i]);
    var a :| 0 <= a < |s| && s[a] == t[i];
    assert t == t[..j] + [t[j]] + t[j + 1..];
    assert t[i] in multiset(t[..j]);
    assert multiset(t)[t[i]] >= 2;
    assert s == s[..a] + [s[a]] + s[a + 1..];
    assert multiset(s)[s[a]] == multiset(s[..a])[s[a]] + 1 + multiset(s[a + 1..])[s[a]];
    assert s[a] in s[..a] || s[a] in s[a + 1..];
  }

  lemma SortDistinct<T>(s: seq<T>, key: T -> Key)
    requires NoRepeats(s)
    ensures NoRepeats(SortBy(s, key))
  {
    var t := SortBy(s, key);
    SortContents(s, key);
    forall i, j | 0 <= i < j < |t| ensures t[i] != t[j] {
      if t[i] == t[j] { Repeated(s, t, i, j); }
    }
  }

  lemma InsertMembers<T>(t: seq<T>, x: T, key: T -> Key, y: T)
    ensures y in Insert(t, x, key) <==> y in t || y == x
  {
    InsertContents(t, x, key);
    assert multiset(t + [x]) == multiset(t) + multiset{x};
    SameElements(Insert(t, x, key), t + [x], y);
  }

  /** Everything in front of a sorted sequence's last element is below it. */
  lemma SortedSnoc<T>(s: seq<T>, x: T, key: T -> Key)
    requires Sorted(s, key) && forall y :: y in s ==> KeyLeq(key(y), key(x))
    ensures Sorted(s + [x], key)
  {
    KeyTotal(key(x), key(x));
  }

  lemma {:induction false} InsertSorted<T>(t: seq<T>, x: T, key: T -> Key)
    requires Sorted(t, key)
    ensures Sorted(Insert(t, x, key), key)
    decreases |t|
  {
    if t == [] {
      KeyTotal(key(x), key(x));
    } else {
      var init, last := t[..|t| - 1], t[|t| - 1];
      if KeyLeq(key(last), key(x)) {
        forall y | y in t ensures KeyLeq(key(y), key(x)) { KeyTransitive(key(y), key(last), key(x)); }
        SortedSnoc(t, x, key);
      } else {
        InsertSorted(init, x, key);
        KeyTotal(key(last), key(x));
        forall y | y in Insert(init, x, key) ensures KeyLeq(key(y), key(last)) { InsertMembers(init, x, key, y); }
        SortedSnoc(Insert(init, x, key), last, key);
      }
    }
  }

  lemma {:induction false} SortSorted<T>(s: seq<T>, key: T -> Key)
    ensures Sorted(SortBy(s, key), key)
    decreases |s|
  {
    if s != [] {
      SortSorted(s[..|s| - 1], key);
      InsertSorted(SortBy(s[..|s| - 1], key), s[|s| - 1], key);
    }
  }

  lemma {:induction false} FilterMembers<T>(s: seq<T>, p: T -> bool, x: T)
    ensures x in Filter(s, p) <==> x in s && p(x)
    decreases |s|
  {
    if s != [] {
      SplitLast(s);
      FilterMembers(s[..|s| - 1], p, x);
    }
  }

  lemma FilterSnoc<T>(s: seq<T>, x: T, p: T -> bool)
    ensures Filter(s + [x], p) == if p(x) then Filter(s, p) + [x] else Filter(s, p)
  {
    assert (s + [x])[..|s|] == s;
  }

  lemma InsertAtEnd<T>(t: seq<T>, x: T, key: T -> Key)
    requires forall y :: y in t ==> KeyLeq(key(y), key(x))
    ensures Insert(t, x, key) == t + [x]
  {
  }

  lemma {:induction false} InsertFilter<T>(t: seq<T>, x: T, key: T -> Key, p: T -> bool)
    requires Sorted(t, key)
    ensures Filter(Insert(t, x, key), p) == if p(x) then Insert(Filter(t, p), x, key) else Filter(t, p)
    decreases |t|
  {
    if t == [] {
      FilterSnoc(t, x, p);
    } else {
      var init, last := t[..|t| - 1], t[|t| - 1];
      if KeyLeq(key(last), key(x)) {
        FilterSnoc(t, x, p);
        forall y | y in Filter(t, p) ensures KeyLeq(key(y), key(x)) {
          FilterMembers(t, p, y);
          KeyTransitive(key(y), key(last), key(x));
        }
        InsertAtEnd(Filter(t, p), x, key);
      } else {
        InsertFilter(init, x, key, p);
        FilterSnoc(Insert(init, x, key), last, p);
        if p(last) {
          assert (Filter(init, p) + [last])[..|Filter(init, p)|] == Filter(init, p);
        }
      }
    }
  }

  /** Sorting commutes with dropping elements. */
  lemma {:induction false} SortFilter<T>(s: seq<T>, key: T -> Key, p: T -> bool)
    ensures Filter(SortBy(s, key), p) == SortBy(Filter(s, p), key)
    decreases |s|
  {
    if s != [] {
      var init, last := s[..|s| - 1], s[|s| - 1];
      SortFilter(init, key, p);
      SortSorted(init, key);
      InsertFilter(SortBy(init, key), last, key, p);
      if p(last) {
        assert (Filter(init, p) + [last])[..|Filter(init, p)|] == Filter(init, p);
      }
    }
  }

  lemma {:induction false} SortOfOneKey<T>(s: seq<T>, key: T -> Key, k: Key)
    requires forall x :: x in s ==> key(x) == k
    ensures SortBy(s, key) == s
    decreases |s|
  {
    if s != [] {
      var init, last := s[..|s| - 1], s[|s| - 1];
      SortOfOneKey(init, key, k);
      KeyTotal(k, k);
      InsertAtEnd(init, last, key);
    }
  }

  /** Stability: elements with equal keys keep their order. */
  lemma SortStable<T>(s: seq<T>, key: T -> Key, k: Key)
    ensures Filter(SortBy(s, key), WithKey(key, k)) == Filter(s, WithKey(key, k))
  {
    var p := WithKey(key, k);
    SortFilter(s, key, p);
    forall x | x in Filter(s, p) ensures key(x) == k { FilterMembers(s, p, x); }
    SortOfOneKey(Filter(s, p), key, k);
  }

  lemma FilterLast<T>(t: seq<T>, u: seq<T>, key: T -> Key)
    requires t != [] && Sorted(t, key) && Sorted(u, key)
    requires forall k :: Filter(t, WithKey(key, k)) == Filter(u, WithKey(key, k))
    ensures u != [] && key(u[|u| - 1]) == key(t[|t| - 1]) && u[|u| - 1] == t[|t| - 1]
  {
    var a := t[|t| - 1];
    FilterMembers(t, WithKey(key, key(a)), a);
    FilterMembers(u, WithKey(key, key(a)), a);
    var b := u[|u| - 1];
    FilterMembers(u, WithKey(key, key(b)), b);
    FilterMembers(t, WithKey(key, key(b)), b);
    KeyAntisymmetric(key(a), key(b));
    assert Filter(t, WithKey(key, key(a)))[|Filter(t, WithKey(key, key(a)))| - 1] == a;
    assert Filter(u, WithKey(key, key(a)))[|Filter(u, WithKey(key, key(a)))| - 1] == b;
  }

  /** A sorted sequence in which every class of equal keys reads the same is the same sequence: there is
      only one stable sort, whatever algorithm computes it. */
  lemma {:induction false} StableSortUnique<T>(t: seq<T>, u: seq<T>, key: T -> Key)
    requires Sorted(t, key) && Sorted(u, key)
    requires forall k :: Filter(t, WithKey(key, k)) == Filter(u, WithKey(key, k))
    ensures t == u
    decreases |t|
  {
    if t == [] && u == [] {
    } else if t == [] {
      FilterLast(u, t, key);
    } else {
      FilterLast(t, u, key);
      var t', u' := t[..|t| - 1], u[..|u| - 1];
      forall k ensures Filter(t', WithKey(key, k)) == Filter(u', WithKey(key, k)) {
        assert Filter(t, WithKey(key, k)) == Filter(u, WithKey(key, k));
        var a, b := Filter(t', WithKey(key, k)), Filter(u', WithKey(key, k));
        if key(t[|t| - 1]) == k { assert a == (a + [t[|t| - 1]])[..|a|] && b == (b + [t[|t| - 1]])[..|b|]; }
      }
      StableSortUnique(t', u', key);
    }
  }

  /** Two keys that order every earlier element and every later one alike sort alike. */
  lemma {:induction false} SortAgrees<T>(s: seq<T>, key: T -> Key, key': T -> Key)
    requires forall i, j :: 0 <= i < j < |s| ==> (KeyLeq(key(s[i]), key(s[j])) <==> KeyLeq(key'(s[i]), key'(s[j])))
    ensures SortBy(s, key) == SortBy(s, key')
    decreases |s|
  {
    if s != [] {
      var init, last := s[..|s| - 1], s[|s| - 1];
      SortAgrees(init, key, key');
      var t := SortBy(init, key);
      forall y | y in t ensures KeyLeq(key(y), key(last)) <==> KeyLeq(key'(y), key'(last)) {
        SortMembers(init, key, y);
        var i :| 0 <= i < |init| && init[i] == y;
      }
      InsertAgrees(t, last, key, key');
    }
  }

  lemma {:induction false} InsertAgrees<T>(t: seq<T>, x: T, key: T -> Key, key': T -> Key)
    requires forall y :: y in t ==> (KeyLeq(key(y), key(x)) <==> KeyLeq(key'(y), key'(x)))
    ensures Insert(t, x, key) == Insert(t, x, key')
    decreases |t|
  {
    if t != [] { InsertAgrees(t[..|t| - 1], x, key, key'); }
  }
}
