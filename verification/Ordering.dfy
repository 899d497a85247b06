// A stable sort over integer pair keys: the order that Python's `sorted`
// and Go's `sort.Slice` calls of the masking code rely on.
module Ordering {
  import opened Bags

  predicate Le(a: (int, int), b: (int, int)) {
    a.0 < b.0 || (a.0 == b.0 && a.1 <= b.1)
  }

  ghost predicate Sorted<T>(key: T -> (int, int), s: seq<T>) {
    forall i, j :: 0 <= i < j < |s| ==> Le(key(s[i]), key(s[j]))
  }

  ghost predicate DistinctKeys<T>(key: T -> (int, int), s: seq<T>) {
    forall i, j :: 0 <= i < j < |s| ==> key(s[i]) != key(s[j])
  }

  /** Puts `x` after every element whose key does not exceed its own. */
  function Insert<T>(key: T -> (int, int), x: T, s: seq<T>): (r: seq<T>)
    ensures multiset(r) == multiset(s) + multiset{x}
  {
    if s == [] then [x]
    else if Le(key(s[0]), key(x)) then
      assert s == [s[0]] + s[1..];
      [s[0]] + Insert(key, x, s[1..])
    else [x] + s
  }

  lemma {:induction false} InsertSorts<T>(key: T -> (int, int), x: T, s: seq<T>)
    requires Sorted(key, s)
    ensures Sorted(key, Insert(key, x, s))
  {
    if s != [] && Le(key(s[0]), key(x)) {
      InsertSorts(key, x, s[1..]);
      var rest := Insert(key, x, s[1..]);
      forall i | 0 <= i < |rest|
        ensures Le(key(s[0]), key(rest[i]))
      {
        assert rest[i] in multiset(s[1..]) + multiset{x};
        assert rest[i] in s[1..] || rest[i] == x;
      }
    }
  }

  function Sort<T>(key: T -> (int, int), s: seq<T>): (r: seq<T>)
    ensures Sorted(key, r)
    ensures multiset(r) == multiset(s)
  {
    if s == [] then []
    else
      var n := |s| - 1;
      assert s == s[..n] + [s[n]];
      InsertSorts(key, s[n], Sort(key, s[..n]));
      Insert(key, s[n], Sort(key, s[..n]))
  }

  lemma LastAgrees<T>(key: T -> (int, int), s: seq<T>, t: seq<T>)
    requires Sorted(key, s) && Sorted(key, t) && DistinctKeys(key, s)
    requires s != [] && |s| == |t|
    requires s[|s| - 1] in t && t[|t| - 1] in s
    ensures s[|s| - 1] == t[|t| - 1]
  {
    var k :| 0 <= k < |s| && s[k] == t[|t| - 1];
    var m :| 0 <= m < |t| && t[m] == s[|s| - 1];
  }

  /** Two sorted arrangements of the same elements agree when no key repeats. */
  lemma {:induction false} SortedUnique<T>(key: T -> (int, int), s: seq<T>, t: seq<T>)
    requires Sorted(key, s) && Sorted(key, t)
    requires multiset(s) == multiset(t)
    requires DistinctKeys(key, s)
    ensures s == t
  {
    assert |s| == |t| && (s != [] ==> s[|s| - 1] in t && t[|t| - 1] in s) by {
      SameMembers(s, t);
    }
    if s != [] {
      var n := |s| - 1;
      LastAgrees(key, s, t);
      var s', t' := s[..n], t[..n];
      DropLast(s);
      DropLast(t);
      Cancel(multiset(s'), multiset(t'), s[n]);
      SortedUnique(key, s', t');
      assert s == s' + [s[n]] && t == t' + [t[n]];
    }
  }

  lemma {:induction false} InsertLast<T>(key: T -> (int, int), x: T, s: seq<T>)
    requires forall y :: y in s ==> Le(key(y), key(x))
    ensures Insert(key, x, s) == s + [x]
  {
    if s != [] {
      InsertLast(key, x, s[1..]);
    }
  }

  /** Sorting what is sorted already changes nothing: the sort is stable. */
  lemma {:induction false} SortSorted<T>(key: T -> (int, int), s: seq<T>)
    requires Sorted(key, s)
    ensures Sort(key, s) == s
  {
    if s != [] {
      var n := |s| - 1;
      SortSorted(key, s[..n]);
      InsertLast(key, s[n], s[..n]);
    }
  }

  lemma DistinctAfterSort<T>(key: T -> (int, int), a: seq<T>, s: seq<T>)
    requires multiset(a) == multiset(s) && DistinctKeys(key, a)
    ensures DistinctKeys(key, s)
  {
    SameMembers(a, s);
    forall i, j | 0 <= i < j < |s|
      ensures key(s[i]) != key(s[j])
    {
      assert s[i] in a && s[j] in a;
      var p :| 0 <= p < |a| && a[p] == s[i];
      var q :| 0 <= q < |a| && a[q] == s[j];
      if p == q {
        var q' := TwicePresent(s, i, j, a, p);
        assert false;
      }
    }
  }
}
