// The API's side of masking (rubezh-api/internal/chat/pseudonym.go): rebuilding
// the pseudonym map from the original text, and substitution in both directions.
module PseudonymMap {
  import opened Entities
  import opened Ordering
  import opened Bags
  import opened Replacer
  import opened Pseudonymizer

  datatype MapError = OutOfBounds | Overlaps | HashMismatch

  datatype BuildResult = Built(toRaw: map<string, string>) | Rejected(error: MapError)

  predicate InBounds(text: string, e: Entity) { 0 <= e.start < e.end <= |text| }

  predicate HashMatches(text: string, e: Entity, hash: string -> string)
    requires InBounds(text, e)
  {
    hash(text[e.start..e.end]) == e.rawHash
  }

  predicate Apart(a: Entity, b: Entity) { a.end <= b.start || b.end <= a.start }

  /** When a list of entities fits a text: every span lies inside it and hashes to
      its recorded value, and no two spans overlap. */
  ghost predicate Fits(text: string, entities: seq<Entity>, hash: string -> string) {
    && (forall e :: e in entities ==> InBounds(text, e) && HashMatches(text, e, hash))
    && Pairwise(Apart, entities)
  }

  /** `e` is the right-most entity of its pseudonym. */
  ghost predicate IsRightmost(entities: seq<Entity>, e: Entity) {
    e in entities && forall f :: f in entities && f.pseudonym == e.pseudonym ==> f.start <= e.start
  }

  ghost predicate Stands(text: string, entities: seq<Entity>, p: string, raw: string) {
    exists e :: IsRightmost(entities, e) && e.pseudonym == p && InBounds(text, e) && raw == text[e.start..e.end]
  }

  /** Each pseudonym stands for the slice of its right-most entity. */
  ghost predicate RightmostRaw(text: string, entities: seq<Entity>, m: map<string, string>) {
    && (forall e :: e in entities ==> e.pseudonym in m)
    && (forall p :: p in m ==> Stands(text, entities, p, m[p]))
  }

  ghost predicate Passed(text: string, sorted: seq<Entity>, hash: string -> string, n: nat, prevEnd: int)
    requires n <= |sorted|
  {
    && (forall k :: 0 <= k < n ==> InBounds(text, sorted[k]) && HashMatches(text, sorted[k], hash))
    && (forall j, k :: 0 <= j < k < n ==> sorted[j].end <= sorted[k].start)
    && prevEnd == if n == 0 then 0 else sorted[n - 1].end
  }

  lemma StandsStill(text: string, front: seq<Entity>, e: Entity, p: string, raw: string)
    requires Stands(text, front, p, raw) && e.pseudonym != p
    ensures Stands(text, front + [e], p, raw)
  {
    var f :| IsRightmost(front, f) && f.pseudonym == p && InBounds(text, f) && raw == text[f.start..f.end];
    assert IsRightmost(front + [e], f);
  }

  lemma RightmostStep(text: string, front: seq<Entity>, e: Entity, m: map<string, string>)
    requires InBounds(text, e) && RightmostRaw(text, front, m)
    requires forall f :: f in front ==> f.start <= e.start
    ensures RightmostRaw(text, front + [e], m[e.pseudonym := text[e.start..e.end]])
  {
    var m' := m[e.pseudonym := text[e.start..e.end]];
    forall p | p in m'
      ensures Stands(text, front + [e], p, m'[p])
    {
      if p == e.pseudonym {
        assert IsRightmost(front + [e], e);
      } else {
        StandsStill(text, front, e, p, m[p]);
      }
    }
  }

  lemma RightmostPermute(text: string, a: seq<Entity>, b: seq<Entity>, m: map<string, string>)
    requires multiset(a) == multiset(b) && RightmostRaw(text, a, m)
    ensures RightmostRaw(text, b, m)
  {
    SameMembers(a, b);
    forall p | p in m
      ensures Stands(text, b, p, m[p])
    {
      var e :| IsRightmost(a, e) && e.pseudonym == p && InBounds(text, e) && m[p] == text[e.start..e.end];
      assert IsRightmost(b, e);
    }
  }

  function ByStart(e: Entity): (int, int) { (e.start, 0) }

  lemma PassedFits(text: string, entities: seq<Entity>, sorted: seq<Entity>, hash: string -> string, prevEnd: int)
    requires multiset(entities) == multiset(sorted) && Passed(text, sorted, hash, |sorted|, prevEnd)
    ensures Fits(text, entities, hash)
  {
    SameMembers(entities, sorted);
    assert Pairwise(Apart, sorted);
    PairwisePermute(Apart, sorted, entities);
  }

  lemma ApartInOrder(sorted: seq<Entity>, n: nat)
    requires Pairwise(Apart, sorted) && Sorted(ByStart, sorted)
    requires 0 < n < |sorted| && sorted[n].start < sorted[n].end
    ensures sorted[n - 1].end <= sorted[n].start
  {
    assert Le(ByStart(sorted[n - 1]), ByStart(sorted[n]));
    assert Apart(sorted[n - 1], sorted[n]);
  }

  lemma OverlapFound(text: string, entities: seq<Entity>, sorted: seq<Entity>, hash: string -> string, n: nat,
                     prevEnd: int)
    requires multiset(entities) == multiset(sorted) && Sorted(ByStart, sorted)
    requires n < |sorted| && Passed(text, sorted, hash, n, prevEnd)
    requires 0 <= sorted[n].start < prevEnd && sorted[n].start < sorted[n].end
    ensures !Pairwise(Apart, entities) && !Fits(text, entities, hash)
  {
    if Pairwise(Apart, entities) {
      PairwisePermute(Apart, entities, sorted);
      ApartInOrder(sorted, n);
    }
  }

  lemma Misfit(text: string, entities: seq<Entity>, hash: string -> string, e: Entity)
    requires e in entities && !(InBounds(text, e) && HashMatches(text, e, hash))
    ensures !Fits(text, entities, hash)
  {
  }

  lemma NothingPassed(text: string, sorted: seq<Entity>, hash: string -> string)
    ensures Passed(text, sorted, hash, 0, 0) && RightmostRaw(text, sorted[..0], map[])
  {
  }

  lemma PassedOne(text: string, sorted: seq<Entity>, hash: string -> string, n: nat, prevEnd: int)
    requires n < |sorted| && Passed(text, sorted, hash, n, prevEnd)
    requires InBounds(text, sorted[n]) && HashMatches(text, sorted[n], hash) && prevEnd <= sorted[n].start
    ensures Passed(text, sorted, hash, n + 1, sorted[n].end)
    ensures forall f :: f in sorted[..n] ==> f.start <= sorted[n].start
    ensures sorted[..n + 1] == sorted[..n] + [sorted[n]]
  {
    forall k | 0 <= k < n
      ensures sorted[k].end <= sorted[n].start
    {
      assert k < n - 1 ==> sorted[k].end <= sorted[n - 1].start;
    }
  }

  method BuildPseudonymMap(text: string, entities: seq<Entity>, hash: string -> string) returns (r: BuildResult)
    ensures r.Built? <==> Fits(text, entities, hash)
    ensures r.Built? ==> RightmostRaw(text, entities, r.toRaw)
    ensures r == Rejected(OutOfBounds) ==> exists e :: e in entities && !InBounds(text, e)
    ensures r == Rejected(HashMismatch) ==>
              exists e :: e in entities && InBounds(text, e) && !HashMatches(text, e, hash)
    ensures r == Rejected(Overlaps) ==> !Pairwise(Apart, entities)
  {
    hide RightmostRaw, Passed, Fits, Pairwise, Sort;
    var sorted := Sort(ByStart, entities);
    SameMembers(entities, sorted);
    var toRaw: map<string, string> := map[];
    var prevEnd := 0;
    NothingPassed(text, sorted, hash);
    for n := 0 to |sorted|
      invariant Passed(text, sorted, hash, n, prevEnd)
      invariant RightmostRaw(text, sorted[..n], toRaw)
    {
      var e := sorted[n];
      assert e in entities;
      if e.start < 0 || e.end <= e.start || e.end > |text| {
        Misfit(text, entities, hash, e);
        return Rejected(OutOfBounds);
      }
      if e.start < prevEnd {
        OverlapFound(text, entities, sorted, hash, n, prevEnd);
        return Rejected(Overlaps);
      }
      if hash(text[e.start..e.end]) != e.rawHash {
        Misfit(text, entities, hash, e);
        return Rejected(HashMismatch);
      }
      PassedOne(text, sorted, hash, n, prevEnd);
      RightmostStep(text, sorted[..n], e, toRaw);
      toRaw := toRaw[e.pseudonym := text[e.start..e.end]];
      prevEnd := e.end;
    }
    assert sorted[..|sorted|] == sorted;
    PassedFits(text, entities, sorted, hash, prevEnd);
    RightmostPermute(text, sorted, entities, toRaw);
    return Built(toRaw);
  }

  // ----- substitution

  /** The length of a character in UTF-8, the unit of Go's `len`. */
  function Utf8Length(c: char): nat {
    var n := c as int;
    if n < 0x80 then 1 else if n < 0x800 then 2 else if n < 0x1_0000 then 3 else 4
  }

  function ByteLength(s: string): nat {
    if s == "" then 0 else ByteLength(s[..|s| - 1]) + Utf8Length(s[|s| - 1])
  }

  /** The ranges of the code points by length (section 3 of RFC 3629). */
  lemma Utf8Ranges(s: string, c: char)
    ensures Utf8Length(c) == 1 <==> 0 <= c as int <= 0x7F
    ensures Utf8Length(c) == 2 <==> 0x80 <= c as int <= 0x7FF
    ensures Utf8Length(c) == 3 <==> 0x800 <= c as int <= 0xFFFF
    ensures Utf8Length(c) == 4 <==> 0x1_0000 <= c as int
    ensures ByteLength("") == 0 && ByteLength(s + [c]) == ByteLength(s) + Utf8Length(c)
  {
    assert (s + [c])[..|s|] == s;
  }

  lemma {:induction false} PrefixIsShorter(a: string, b: string)
    requires a < b
    ensures ByteLength(a) < ByteLength(b)
  {
    var n := |b| - 1;
    if a != b[..n] {
      PrefixIsShorter(a, b[..n]);
    }
  }

  /** The dictionary read backwards: each raw value has one of its pseudonyms. */
  ghost predicate Inverts(back: map<string, string>, toRaw: map<string, string>) {
    && (forall p :: p in toRaw ==> toRaw[p] in back)
    && (forall raw :: raw in back ==> back[raw] in toRaw && toRaw[back[raw]] == raw)
  }

  method Swap(pairs: seq<(string, string)>) returns (swapped: seq<(string, string)>)
    ensures |swapped| == |pairs|
    ensures forall i :: 0 <= i < |pairs| ==> swapped[i] == (pairs[i].1, pairs[i].0)
  {
    swapped := seq(|pairs|, i requires 0 <= i < |pairs| => (pairs[i].1, pairs[i].0));
  }

  function LongestKeyFirst(p: (string, string)): (int, int) {
    var size: int := ByteLength(p.0);
    (-size, 0)
  }

  method SortLongestFirst(pairs: seq<(string, string)>) returns (sorted: seq<(string, string)>)
    ensures multiset(sorted) == multiset(pairs) && LongerFirst(sorted)
  {
    sorted := Sort(LongestKeyFirst, pairs);
    forall i, j | 0 <= i < j < |sorted|
      ensures !(sorted[i].0 < sorted[j].0)
    {
      assert Le(LongestKeyFirst(sorted[i]), LongestKeyFirst(sorted[j]));
      if sorted[i].0 < sorted[j].0 {
        PrefixIsShorter(sorted[i].0, sorted[j].0);
      }
    }
  }

  lemma FirstWinsInverts(pairs: seq<(string, string)>, toRaw: map<string, string>)
    requires forall i :: 0 <= i < |pairs| ==> pairs[i].1 in toRaw && pairs[i].0 == toRaw[pairs[i].1]
    requires forall p :: p in toRaw ==> (toRaw[p], p) in pairs
    ensures Inverts(FirstWins(pairs), toRaw)
  {
    var back := FirstWins(pairs);
    forall p | p in toRaw
      ensures toRaw[p] in back
    {
      var k :| 0 <= k < |pairs| && pairs[k] == (toRaw[p], p);
      FirstWinsHas(pairs, k);
    }
    forall raw | raw in back
      ensures back[raw] in toRaw && toRaw[back[raw]] == raw
    {
      var k := FirstWinsKey(pairs, raw);
    }
  }

  method ReplaceRaw(toRaw: map<string, string>, text: string) returns (out: string, ghost back: map<string, string>)
    ensures Inverts(back, toRaw) && out == Substitute(back, text)
  {
    var pairs := PairsOf(toRaw);
    var swapped := Swap(pairs);
    var sorted := SortLongestFirst(swapped);
    SameMembers(swapped, sorted);
    forall i | 0 <= i < |sorted|
      ensures sorted[i].1 in toRaw && sorted[i].0 == toRaw[sorted[i].1]
    {
      assert sorted[i] in swapped;
      var j :| 0 <= j < |swapped| && swapped[j] == sorted[i];
    }
    forall p | p in toRaw
      ensures (toRaw[p], p) in sorted
    {
      var j :| 0 <= j < |pairs| && pairs[j] == (p, toRaw[p]);
      assert swapped[j] == (toRaw[p], p);
    }
    FirstWinsInverts(sorted, toRaw);
    back := FirstWins(sorted);
    ScanIsSubstitute(sorted, back, text);
    out := ScanPairs(sorted, text, false);
  }

  method ReplacePseudonyms(toRaw: map<string, string>, text: string) returns (out: string)
    ensures out == Substitute(toRaw, text)
  {
    var pairs := PairsOf(toRaw);
    var sorted := SortLongestFirst(pairs);
    SameMembers(pairs, sorted);
    forall i | 0 <= i < |sorted|
      ensures sorted[i].0 in toRaw && sorted[i].1 == toRaw[sorted[i].0]
    {
      assert sorted[i] in pairs;
    }
    FirstWinsSet(sorted, toRaw);
    ScanIsSubstitute(sorted, toRaw, text);
    out := ScanPairs(sorted, text, false);
  }

  /** `PseudonymMap.replace`. Unmasking is a function of the map alone. Masking is
      one as well, up to which pseudonym a repeated raw value is given. */
  method Replace(toRaw: map<string, string>, text: string, mask: bool)
    returns (out: string, ghost back: map<string, string>)
    ensures !mask ==> out == Substitute(toRaw, text)
    ensures mask ==> Inverts(back, toRaw) && out == Substitute(back, text)
  {
    back := map[];
    if |toRaw| == 0 {
      LiteralTokens({}, text);
      LiteralsRender(map[], text);
      assert toRaw == map[];
      return text, map[];
    }
    if mask {
      out, back := ReplaceRaw(toRaw, text);
    } else {
      out := ReplacePseudonyms(toRaw, text);
    }
  }

  /** With distinct raw values there is only one way back, so masking too does not
      depend on the order the map is iterated in. */
  lemma InverseUnique(a: map<string, string>, b: map<string, string>, toRaw: map<string, string>)
    requires Inverts(a, toRaw) && Inverts(b, toRaw)
    requires forall p, q :: p in toRaw && q in toRaw && toRaw[p] == toRaw[q] ==> p == q
    ensures a == b
  {
    assert forall raw :: raw in a ==> toRaw[a[raw]] == raw;
    assert forall raw :: raw in b ==> toRaw[b[raw]] == raw;
  }
}
