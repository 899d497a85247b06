// What several modules do with strings.
module Strings {

  predicate IsDigit(c: char) { '0' <= c <= '9' }

  /** `"".join(parts)`. */
  function Concat(parts: seq<string>): string {
    if parts == [] then "" else Concat(parts[..|parts| - 1]) + parts[|parts| - 1]
  }

  lemma ConcatAppend(parts: seq<string>, s: string)
    ensures Concat(parts + [s]) == Concat(parts) + s
  {
    assert (parts + [s])[..|parts|] == parts;
  }

  lemma {:induction false} ConcatPrefix(parts: seq<string>, i: nat)
    requires i <= |parts|
    ensures Concat(parts[..i]) <= Concat(parts)
    decreases |parts| - i
  {
    if i < |parts| {
      ConcatPrefix(parts, i + 1);
      assert parts[..i + 1][..i] == parts[..i];
    } else {
      assert parts[..i] == parts;
    }
  }

  // ----- joining with a separator

  /** `sep.join(parts)`. */
  function Join(parts: seq<string>, sep: string): string {
    if parts == [] then ""
    else if |parts| == 1 then parts[0]
    else Join(parts[..|parts| - 1], sep) + sep + parts[|parts| - 1]
  }

  /** Where part `k` starts when a separator of `gap` characters follows each part. */
  function Offset(parts: seq<string>, gap: nat, k: nat): nat
    requires k <= |parts|
  {
    if k == 0 then 0 else Offset(parts, gap, k - 1) + |parts[k - 1]| + gap
  }

  /** `text` is the parts in order, each at its offset, exactly the separator between
      neighbours, and nothing else. */
  ghost predicate Laid(text: string, parts: seq<string>, sep: string) {
    && |text| == (if parts == [] then 0 else Offset(parts, |sep|, |parts|) - |sep|)
    && (forall k :: 0 <= k < |parts| ==> PartAt(text, parts, sep, k))
    && (forall k :: 0 <= k < |parts| - 1 ==> GapAt(text, parts, sep, k))
  }

  ghost predicate PartAt(text: string, parts: seq<string>, sep: string, k: nat)
    requires k < |parts|
  {
    var at := Offset(parts, |sep|, k);
    at + |parts[k]| <= |text| && text[at..at + |parts[k]|] == parts[k]
  }

  ghost predicate GapAt(text: string, parts: seq<string>, sep: string, k: nat)
    requires k < |parts|
  {
    var at := Offset(parts, |sep|, k) + |parts[k]|;
    at + |sep| <= |text| && text[at..at + |sep|] == sep
  }

  lemma {:induction false} OffsetFront(parts: seq<string>, gap: nat, n: nat, k: nat)
    requires k <= n <= |parts|
    ensures Offset(parts[..n], gap, k) == Offset(parts, gap, k)
  {
    if k > 0 {
      OffsetFront(parts, gap, n, k - 1);
    }
  }

  lemma SliceOfFront(a: string, b: string, i: nat, j: nat)
    requires i <= j <= |a|
    ensures (a + b)[i..j] == a[i..j]
  {
  }

  lemma SliceOfBack(a: string, b: string)
    ensures (a + b)[|a|..|a| + |b|] == b
  {
  }

  lemma LaidOnce(text: string, parts: seq<string>, sep: string, part: string)
    requires Laid(text, parts, sep) && parts != []
    ensures Laid(text + sep + part, parts + [part], sep)
  {
    hide Offset;
    var n, all, whole := |parts|, parts + [part], text + sep + part;
    assert all[..n] == parts;
    OffsetSteps(all, |sep|, n + 1);
    OffsetFront(all, |sep|, n, n);
    forall k | 0 <= k < |all|
      ensures PartAt(whole, all, sep, k)
    {
      OffsetFront(all, |sep|, n, k);
      if k < n {
        assert PartAt(text, parts, sep, k);
        SliceOfFront(text, sep + part, Offset(all, |sep|, k), Offset(all, |sep|, k) + |all[k]|);
        assert whole == text + (sep + part);
      } else {
        SliceOfBack(text + sep, part);
      }
    }
    forall k | 0 <= k < |all| - 1
      ensures GapAt(whole, all, sep, k)
    {
      OffsetFront(all, |sep|, n, k);
      OffsetFront(all, |sep|, n, k + 1);
      OffsetSteps(all, |sep|, k + 1);
      if k < n - 1 {
        assert GapAt(text, parts, sep, k);
        SliceOfFront(text, sep + part, Offset(all, |sep|, k) + |all[k]|, Offset(all, |sep|, k) + |all[k]| + |sep|);
        assert whole == text + (sep + part);
      } else {
        SliceOfFront(text + sep, part, |text|, |text| + |sep|);
        SliceOfBack(text, sep);
      }
    }
  }

  lemma OffsetSteps(parts: seq<string>, gap: nat, k: nat)
    requires 0 < k <= |parts|
    ensures Offset(parts, gap, k) == Offset(parts, gap, k - 1) + |parts[k - 1]| + gap
    ensures k < |parts| ==> Offset(parts, gap, k + 1) == Offset(parts, gap, k) + |parts[k]| + gap
  {
  }

  /** Joining lays the parts out and nothing else. */
  lemma {:induction false} JoinLays(parts: seq<string>, sep: string)
    ensures Laid(Join(parts, sep), parts, sep)
  {
    if |parts| > 1 {
      var front, part := parts[..|parts| - 1], parts[|parts| - 1];
      JoinLays(front, sep);
      LaidOnce(Join(front, sep), front, sep, part);
      assert front + [part] == parts;
    } else if |parts| == 1 {
      assert Offset(parts, |sep|, 0) == 0 && Offset(parts, |sep|, 1) == |parts[0]| + |sep|;
      assert PartAt(parts[0], parts, sep, 0);
    }
  }

  /** So every part stands in the text. */
  lemma LaidHolds(text: string, parts: seq<string>, sep: string, k: nat)
    requires Laid(text, parts, sep) && k < |parts|
    ensures exists i :: 0 <= i <= |text| && parts[k] <= text[i..]
  {
    assert PartAt(text, parts, sep, k);
    var at := Offset(parts, |sep|, k);
    assert text[at..][..|parts[k]|] == text[at..at + |parts[k]|];
    assert parts[k] <= text[at..];
  }

  lemma {:induction false} JoinFirst(first: string, rest: seq<string>, sep: string)
    requires rest != []
    ensures Join([first] + rest, sep) == first + sep + Join(rest, sep)
  {
    var all, n := [first] + rest, |rest|;
    assert all[..n] == [first] + rest[..n - 1] && all[n] == rest[n - 1];
    if n == 1 {
      assert all[..1] == [first];
    } else {
      JoinFirst(first, rest[..n - 1], sep);
      var front := Join(rest[..n - 1], sep);
      assert first + sep + front + sep + rest[n - 1] == first + sep + (front + sep + rest[n - 1]);
    }
  }

  lemma JoinLonger(c: char, first: string, rest: seq<string>, sep: string)
    ensures Join([[c] + first] + rest, sep) == [c] + Join([first] + rest, sep)
  {
    if rest == [] {
      assert [[c] + first] + rest == [[c] + first] && [first] + rest == [first];
    } else {
      JoinFirst([c] + first, rest, sep);
      JoinFirst(first, rest, sep);
      assert [c] + first + sep + Join(rest, sep) == [c] + (first + sep + Join(rest, sep));
    }
  }
}
