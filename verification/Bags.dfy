// Multiset and set facts the solver should not have to rediscover inside larger proofs.
module Bags {

  lemma AppendOne<T>(s: seq<T>, x: T)
    ensures multiset(s + [x]) == multiset(s) + multiset{x}
  {
  }

  lemma DropLast<T>(s: seq<T>)
    requires s != []
    ensures multiset(s) == multiset(s[..|s| - 1]) + multiset{s[|s| - 1]}
  {
    assert s == s[..|s| - 1] + [s[|s| - 1]];
  }

  lemma RemoveAt<T>(s: seq<T>, k: nat)
    requires k < |s|
    ensures multiset(s) == multiset(s[..k] + s[k + 1..]) + multiset{s[k]}
  {
    assert s == s[..k] + [s[k]] + s[k + 1..];
  }

  lemma Cancel<T>(a: multiset<T>, b: multiset<T>, x: T)
    requires a + multiset{x} == b + multiset{x}
    ensures a == b
  {
    forall y
      ensures a[y] == b[y]
    {
      assert (a + multiset{x})[y] == (b + multiset{x})[y];
    }
  }

  lemma CancelAtMost<T>(a: multiset<T>, b: multiset<T>, x: T)
    requires a + multiset{x} <= b + multiset{x}
    ensures a <= b
  {
    forall y
      ensures a[y] <= b[y]
    {
      assert (a + multiset{x})[y] <= (b + multiset{x})[y];
    }
  }

  lemma WithoutOne<T>(a: multiset<T>, b: multiset<T>, x: T)
    requires a <= b + multiset{x} && x !in a
    ensures a <= b
  {
    forall y
      ensures a[y] <= b[y]
    {
      assert a[y] <= (b + multiset{x})[y];
    }
  }

  lemma OneMore<T>(a: multiset<T>, b: multiset<T>, c: multiset<T>, x: T)
    requires a <= b <= c && b[x] < c[x]
    ensures a + multiset{x} <= c
  {
    forall y
      ensures (a + multiset{x})[y] <= c[y]
    {
      assert a[y] <= b[y] <= c[y];
    }
  }

  lemma SubBagMembers<T>(a: seq<T>, b: seq<T>)
    requires multiset(a) <= multiset(b)
    ensures forall x :: x in a ==> x in b
  {
    forall x | x in a
      ensures x in b
    {
      assert x in multiset(a);
      assert x in multiset(b);
    }
  }

  lemma SameMembers<T>(s: seq<T>, t: seq<T>)
    requires multiset(s) == multiset(t)
    ensures |s| == |t|
    ensures forall x :: x in s <==> x in t
  {
    assert |multiset(s)| == |multiset(t)|;
    SubBagMembers(s, t);
    SubBagMembers(t, s);
  }

  lemma SubsetSize<T>(a: set<T>, b: set<T>)
    requires a <= b
    ensures |a| <= |b|
  {
    assert |b| == |a| + |b - a|;
  }

  /** An element at two places of one arrangement is at two places of any other. */
  lemma TwicePresent<T>(s: seq<T>, i: nat, j: nat, t: seq<T>, p: nat) returns (q: nat)
    requires multiset(s) == multiset(t)
    requires i < j < |s| && s[i] == s[j] && p < |t| && t[p] == s[i]
    ensures q < |t| && q != p && t[q] == t[p]
  {
    RemoveAt(s, j);
    RemoveAt(t, p);
    var s', t' := s[..j] + s[j + 1..], t[..p] + t[p + 1..];
    Cancel(multiset(s'), multiset(t'), t[p]);
    assert s'[i] == s[i];
    SameMembers(s', t');
    assert s[i] in t';
    var k :| 0 <= k < |t'| && t'[k] == s[i];
    q := if k < p then k else k + 1;
  }

  // ----- relations that hold between any two places of a sequence

  ghost predicate Pairwise<T>(rel: (T, T) -> bool, s: seq<T>) {
    forall i, j :: 0 <= i < |s| && 0 <= j < |s| && i != j ==> rel(s[i], s[j])
  }

  lemma PairwisePermute<T>(rel: (T, T) -> bool, a: seq<T>, b: seq<T>)
    requires multiset(a) == multiset(b) && Pairwise(rel, a)
    ensures Pairwise(rel, b)
  {
    SameMembers(a, b);
    forall i, j | 0 <= i < |b| && 0 <= j < |b| && i != j
      ensures rel(b[i], b[j])
    {
      assert b[i] in a && b[j] in a;
      var p :| 0 <= p < |a| && a[p] == b[i];
      var q :| 0 <= q < |a| && a[q] == b[j];
      if p == q {
        q := TwicePresent(b, if i < j then i else j, if i < j then j else i, a, p);
      }
    }
  }

  // ----- parts of a sequence, given by positions

  ghost predicate Increasing(idx: seq<nat>, bound: nat) {
    && (forall k :: 0 <= k < |idx| ==> idx[k] < bound)
    && (forall i, j :: 0 <= i < j < |idx| ==> idx[i] < idx[j])
  }

  function Gather<T>(s: seq<T>, idx: seq<nat>): (r: seq<T>)
    requires forall k :: 0 <= k < |idx| ==> idx[k] < |s|
    ensures |r| == |idx|
    ensures forall k :: 0 <= k < |idx| ==> r[k] == s[idx[k]]
  {
    seq(|idx|, k requires 0 <= k < |idx| => s[idx[k]])
  }

  lemma GatherAppend<T>(s: seq<T>, idx: seq<nat>, k: nat)
    requires forall i :: 0 <= i < |idx| ==> idx[i] < |s|
    requires k < |s|
    ensures Gather(s, idx + [k]) == Gather(s, idx) + [s[k]]
  {
  }

  lemma GatherPrefix<T>(s: seq<T>, idx: seq<nat>, n: nat)
    requires n <= |s|
    requires forall i :: 0 <= i < |idx| ==> idx[i] < n
    ensures Gather(s[..n], idx) == Gather(s, idx)
  {
  }

  /** What is gathered from increasing positions is a part of the sequence. */
  lemma {:induction false} GatherIsPart<T>(s: seq<T>, idx: seq<nat>)
    requires Increasing(idx, |s|)
    ensures multiset(Gather(s, idx)) <= multiset(s)
  {
    if idx != [] {
      var m, k := |idx| - 1, idx[|idx| - 1];
      GatherPrefix(s, idx[..m], k);
      GatherIsPart(s[..k], idx[..m]);
      GatherAppend(s, idx[..m], k);
      assert idx == idx[..m] + [k];
      AppendOne(Gather(s, idx[..m]), s[k]);
      AppendOne(s[..k], s[k]);
      PrefixIsPart(s, k + 1);
      assert s[..k + 1] == s[..k] + [s[k]];
    }
  }

  lemma PrefixIsPart<T>(s: seq<T>, n: nat)
    requires n <= |s|
    ensures multiset(s[..n]) <= multiset(s)
  {
    assert s == s[..n] + s[n..];
  }

  /** Every part of a sequence is, up to order, gathered from increasing positions. */
  lemma {:induction false} PartIsGathered<T>(part: seq<T>, s: seq<T>) returns (idx: seq<nat>)
    requires multiset(part) <= multiset(s)
    ensures Increasing(idx, |s|) && multiset(Gather(s, idx)) == multiset(part)
    decreases |s|
  {
    if s == [] {
      idx := [];
      assert |multiset(part)| == |part|;
    } else {
      var n := |s| - 1;
      DropLast(s);
      if s[n] in part {
        var k :| 0 <= k < |part| && part[k] == s[n];
        var rest := part[..k] + part[k + 1..];
        RemoveAt(part, k);
        CancelAtMost(multiset(rest), multiset(s[..n]), s[n]);
        var front := PartIsGathered(rest, s[..n]);
        GatherPrefix(s, front, n);
        GatherAppend(s, front, n);
        AppendOne(Gather(s, front), s[n]);
        idx := front + [n];
      } else {
        WithoutOne(multiset(part), multiset(s[..n]), s[n]);
        idx := PartIsGathered(part, s[..n]);
        GatherPrefix(s, idx, n);
      }
    }
  }
}
