// Overlap resolution (rubezh-sanitizer/app/masking/overlap.py): weighted
// interval scheduling. `Chosen` is the recurrence; `ResolveOverlaps` is the
// table-filling loop with binary search. Weights are exact reals.
module Overlap {
  import opened Entities
  import opened Ordering
  import opened Bags

  function Priority(c: Category): real {
    match c
    case Secret => 3.0
    case Pii => 2.0
    case Commercial => 1.0
  }

  function Weight(m: Match): real {
    Priority(m.category) + 0.001 * m.confidence + 0.0001 * ((m.end - m.start) as real)
  }

  function TotalWeight(w: Match -> real, s: seq<Match>): real {
    if s == [] then 0.0 else TotalWeight(w, s[..|s| - 1]) + w(s[|s| - 1])
  }

  ghost predicate Spans(s: seq<Match>) {
    forall m :: m in s ==> m.start <= m.end
  }

  /** `r` counts the first `n` matches up to the last one that ends by `start`. */
  ghost predicate IsReach(ordered: seq<Match>, n: nat, start: int, r: nat)
    requires n <= |ordered|
  {
    && r <= n
    && (r > 0 ==> ordered[r - 1].end <= start)
    && (forall i :: r <= i < n ==> start < ordered[i].end)
  }

  lemma {:induction false} ReachExists(ordered: seq<Match>, n: nat, start: int)
    requires n <= |ordered|
    ensures exists r: nat :: IsReach(ordered, n, start, r)
  {
    if n == 0 || ordered[n - 1].end <= start {
      assert IsReach(ordered, n, start, n);
    } else {
      ReachExists(ordered, n - 1, start);
      var r: nat :| IsReach(ordered, n - 1, start, r);
      assert IsReach(ordered, n, start, r);
    }
  }

  ghost function Reach(ordered: seq<Match>, n: nat, start: int): (r: nat)
    requires n <= |ordered|
    ensures r <= n && IsReach(ordered, n, start, r)
  {
    ReachExists(ordered, n, start);
    var r: nat :| IsReach(ordered, n, start, r);
    r
  }

  /** One row of the two tables: a total weight and the positions that reach it. */
  datatype Plan = Plan(total: real, picks: seq<nat>)

  /** The best plan among the first `n` matches; a tie keeps the earlier plan. */
  ghost function Best(w: Match -> real, ordered: seq<Match>, n: nat): Plan
    requires n <= |ordered|
  {
    if n == 0 then Plan(0.0, [])
    else
      var base := Best(w, ordered, Reach(ordered, n - 1, ordered[n - 1].start));
      var take := w(ordered[n - 1]) + base.total;
      if take > Best(w, ordered, n - 1).total then Plan(take, base.picks + [n - 1])
      else Best(w, ordered, n - 1)
  }

  lemma {:induction false} PicksIncrease(w: Match -> real, ordered: seq<Match>, n: nat)
    requires n <= |ordered|
    ensures Increasing(Best(w, ordered, n).picks, n)
  {
    if n > 0 {
      PicksIncrease(w, ordered, Reach(ordered, n - 1, ordered[n - 1].start));
      PicksIncrease(w, ordered, n - 1);
    }
  }

  ghost function Chosen(w: Match -> real, ordered: seq<Match>): seq<Match> {
    PicksIncrease(w, ordered, |ordered|);
    Gather(ordered, Best(w, ordered, |ordered|).picks)
  }

  ghost function Resolve(matches: seq<Match>): seq<Match> {
    Chosen(Weight, Sort(EndKey, matches))
  }

  // ----- weights of sequences

  lemma TotalAppend(w: Match -> real, s: seq<Match>, m: Match)
    ensures TotalWeight(w, s + [m]) == TotalWeight(w, s) + w(m)
  {
    assert (s + [m])[..|s|] == s;
  }

  lemma {:induction false} TotalConcat(w: Match -> real, a: seq<Match>, b: seq<Match>)
    ensures TotalWeight(w, a + b) == TotalWeight(w, a) + TotalWeight(w, b)
  {
    if b == [] {
      assert a + b == a;
    } else {
      var n := |b| - 1;
      assert a + b == (a + b[..n]) + [b[n]];
      TotalAppend(w, a + b[..n], b[n]);
      TotalConcat(w, a, b[..n]);
    }
  }

  lemma TotalRemove(w: Match -> real, s: seq<Match>, k: nat)
    requires k < |s|
    ensures TotalWeight(w, s) == TotalWeight(w, s[..k] + s[k + 1..]) + w(s[k])
  {
    hide TotalWeight;
    assert s == (s[..k] + [s[k]]) + s[k + 1..];
    TotalConcat(w, s[..k] + [s[k]], s[k + 1..]);
    TotalAppend(w, s[..k], s[k]);
    TotalConcat(w, s[..k], s[k + 1..]);
  }

  lemma {:induction false} TotalPermute(w: Match -> real, a: seq<Match>, b: seq<Match>)
    requires multiset(a) == multiset(b)
    ensures TotalWeight(w, a) == TotalWeight(w, b)
    decreases |a|
  {
    SameMembers(a, b);
    if a != [] {
      var n := |a| - 1;
      assert a[n] in b;
      var k :| 0 <= k < |b| && b[k] == a[n];
      DropLast(a);
      RemoveAt(b, k);
      Cancel(multiset(a[..n]), multiset(b[..k] + b[k + 1..]), a[n]);
      TotalPermute(w, a[..n], b[..k] + b[k + 1..]);
      TotalRemove(w, b, k);
    }
  }

  lemma DisjointAt(s: seq<Match>, i: nat, j: nat)
    requires PairwiseDisjoint(s) && i < |s| && j < |s| && i != j
    ensures Disjoint(s[i], s[j])
  {
    assert Disjoint(s[if i < j then i else j], s[if i < j then j else i]);
  }

  lemma DisjointPermute(a: seq<Match>, b: seq<Match>)
    requires multiset(a) == multiset(b) && PairwiseDisjoint(a)
    ensures PairwiseDisjoint(b)
  {
    forall i, j | 0 <= i < |a| && 0 <= j < |a| && i != j
      ensures Disjoint(a[i], a[j])
    {
      DisjointAt(a, i, j);
    }
    PairwisePermute(Disjoint, a, b);
  }

  // ----- the plan: its total, its order, its optimality

  lemma NoWeight(w: Match -> real)
    ensures TotalWeight(w, []) == 0.0
  {
  }

  lemma {:induction false} TotalIsWeight(w: Match -> real, ordered: seq<Match>, n: nat)
    requires n <= |ordered|
    requires Increasing(Best(w, ordered, n).picks, n)
    ensures Best(w, ordered, n).total == TotalWeight(w, Gather(ordered, Best(w, ordered, n).picks))
  {
    hide IsReach, TotalWeight;
    NoWeight(w);
    if n > 0 {
      var prev := Reach(ordered, n - 1, ordered[n - 1].start);
      PicksIncrease(w, ordered, prev);
      PicksIncrease(w, ordered, n - 1);
      TotalIsWeight(w, ordered, prev);
      TotalIsWeight(w, ordered, n - 1);
      var picks := Best(w, ordered, prev).picks;
      GatherAppend(ordered, picks, n - 1);
      TotalAppend(w, Gather(ordered, picks), ordered[n - 1]);
    }
  }

  /** Sorted by end, every match the reach counts ends by `start`. */
  lemma ReachSplits(ordered: seq<Match>, n: nat, start: int, r: nat, i: nat)
    requires n <= |ordered| && Sorted(EndKey, ordered) && IsReach(ordered, n, start, r)
    requires i < n
    ensures i < r <==> ordered[i].end <= start
  {
    assert i < r - 1 ==> Le(EndKey(ordered[i]), EndKey(ordered[r - 1]));
  }

  /** Each match ends before the next one starts: disjoint and in text order. */
  ghost predicate Chain(ordered: seq<Match>, idx: seq<nat>)
    requires Increasing(idx, |ordered|)
  {
    forall i, j :: 0 <= i < j < |idx| ==> ordered[idx[i]].end <= ordered[idx[j]].start
  }

  lemma ChainAppend(ordered: seq<Match>, idx: seq<nat>, k: nat)
    requires Increasing(idx, k) && k < |ordered|
    requires Increasing(idx, |ordered|) && Chain(ordered, idx)
    requires forall i :: 0 <= i < |idx| ==> ordered[idx[i]].end <= ordered[k].start
    ensures Increasing(idx + [k], |ordered|) && Chain(ordered, idx + [k])
  {
  }

  lemma ReachedEndBefore(ordered: seq<Match>, n: nat, idx: seq<nat>)
    requires 0 < n <= |ordered| && Sorted(EndKey, ordered)
    requires Increasing(idx, Reach(ordered, n - 1, ordered[n - 1].start))
    ensures forall i :: 0 <= i < |idx| ==> ordered[idx[i]].end <= ordered[n - 1].start
  {
    forall i | 0 <= i < |idx|
      ensures ordered[idx[i]].end <= ordered[n - 1].start
    {
      ReachSplits(ordered, n - 1, ordered[n - 1].start, Reach(ordered, n - 1, ordered[n - 1].start), idx[i]);
    }
  }

  lemma {:induction false} PicksChain(w: Match -> real, ordered: seq<Match>, n: nat)
    requires n <= |ordered| && Sorted(EndKey, ordered)
    ensures Increasing(Best(w, ordered, n).picks, n) && Chain(ordered, Best(w, ordered, n).picks)
  {
    PicksIncrease(w, ordered, n);
    if n > 0 {
      var prev := Reach(ordered, n - 1, ordered[n - 1].start);
      PicksChain(w, ordered, prev);
      PicksChain(w, ordered, n - 1);
      var picks := Best(w, ordered, prev).picks;
      ReachedEndBefore(ordered, n, picks);
      ChainAppend(ordered, picks, n - 1);
    }
  }

  /** What is chosen together with the last match lies within its reach. */
  lemma OthersWithinReach(ordered: seq<Match>, n: nat, idx: seq<nat>)
    requires 0 < n <= |ordered| && Sorted(EndKey, ordered) && Spans(ordered)
    requires Increasing(idx, n) && PairwiseDisjoint(Gather(ordered, idx))
    requires idx != [] && idx[|idx| - 1] == n - 1
    ensures Increasing(idx[..|idx| - 1], Reach(ordered, n - 1, ordered[n - 1].start))
    ensures PairwiseDisjoint(Gather(ordered, idx[..|idx| - 1]))
    ensures Gather(ordered, idx) == Gather(ordered, idx[..|idx| - 1]) + [ordered[n - 1]]
  {
    var m, c := |idx| - 1, ordered[n - 1];
    var prev := Reach(ordered, n - 1, c.start);
    forall k | 0 <= k < m
      ensures idx[k] < prev
    {
      DisjointAt(Gather(ordered, idx), k, m);
      assert Le(EndKey(ordered[idx[k]]), EndKey(c));
      assert c in ordered && ordered[idx[k]] in ordered;
      ReachSplits(ordered, n - 1, c.start, prev, idx[k]);
    }
    assert Gather(ordered, idx[..m]) == Gather(ordered, idx)[..m];
  }

  /** No disjoint part of the first `n` matches weighs more than the plan. */
  lemma {:induction false} PlanIsOptimal(w: Match -> real, ordered: seq<Match>, n: nat, idx: seq<nat>)
    requires n <= |ordered| && Sorted(EndKey, ordered) && Spans(ordered)
    requires Increasing(idx, n) && PairwiseDisjoint(Gather(ordered, idx))
    ensures TotalWeight(w, Gather(ordered, idx)) <= Best(w, ordered, n).total
    decreases n
  {
    if n > 0 {
      var m := |idx| - 1;
      if m < 0 || idx[m] < n - 1 {
        PlanIsOptimal(w, ordered, n - 1, idx);
      } else {
        OthersWithinReach(ordered, n, idx);
        PlanIsOptimal(w, ordered, Reach(ordered, n - 1, ordered[n - 1].start), idx[..m]);
        TotalAppend(w, Gather(ordered, idx[..m]), ordered[n - 1]);
      }
    }
  }

  /** What the source promises: a part of the input, in text order, pairwise
      disjoint, and no other disjoint part weighs more. */
  ghost predicate BestCover(matches: seq<Match>, chosen: seq<Match>) {
    && multiset(chosen) <= multiset(matches)
    && Sorted(StartKey, chosen)
    && PairwiseDisjoint(chosen)
    && (forall other: seq<Match> :: IsCover(matches, other) ==>
          TotalWeight(Weight, other) <= TotalWeight(Weight, chosen))
  }

  ghost predicate IsCover(matches: seq<Match>, other: seq<Match>) {
    multiset(other) <= multiset(matches) && PairwiseDisjoint(other)
  }

  lemma ChosenIsSortedCover(w: Match -> real, ordered: seq<Match>)
    requires Sorted(EndKey, ordered) && Spans(ordered)
    ensures IsCover(ordered, Chosen(w, ordered)) && Sorted(StartKey, Chosen(w, ordered))
  {
    var picks := Best(w, ordered, |ordered|).picks;
    PicksIncrease(w, ordered, |ordered|);
    PicksChain(w, ordered, |ordered|);
    GatherIsPart(ordered, picks);
    assert forall i :: 0 <= i < |ordered| ==> ordered[i] in ordered;
  }

  lemma ChosenIsOptimal(w: Match -> real, ordered: seq<Match>, other: seq<Match>)
    requires Sorted(EndKey, ordered) && Spans(ordered) && IsCover(ordered, other)
    ensures TotalWeight(w, other) <= TotalWeight(w, Chosen(w, ordered))
  {
    var idx := PartIsGathered(other, ordered);
    DisjointPermute(other, Gather(ordered, idx));
    TotalPermute(w, other, Gather(ordered, idx));
    PlanIsOptimal(w, ordered, |ordered|, idx);
    PicksIncrease(w, ordered, |ordered|);
    TotalIsWeight(w, ordered, |ordered|);
  }

  lemma ResolveIsBestCover(matches: seq<Match>)
    requires Spans(matches)
    ensures BestCover(matches, Resolve(matches))
  {
    var ordered := Sort(EndKey, matches);
    SameMembers(ordered, matches);
    ChosenIsSortedCover(Weight, ordered);
    forall other | IsCover(matches, other)
      ensures TotalWeight(Weight, other) <= TotalWeight(Weight, Resolve(matches))
    {
      ChosenIsOptimal(Weight, ordered, other);
    }
  }

  // ----- the loop

  /** `bisect.bisect_right(ends, x, hi=hi)`. */
  method BisectRight(ends: seq<int>, x: int, hi: nat) returns (r: nat)
    requires hi <= |ends|
    requires forall i, j :: 0 <= i < j < hi ==> ends[i] <= ends[j]
    ensures r <= hi
    ensures forall i :: 0 <= i < r ==> ends[i] <= x
    ensures forall i :: r <= i < hi ==> x < ends[i]
  {
    r := 0;
    var top := hi;
    while r < top
      invariant r <= top <= hi
      invariant forall i :: 0 <= i < r ==> ends[i] <= x
      invariant forall i :: top <= i < hi ==> x < ends[i]
    {
      var mid := (r + top) / 2;
      if x < ends[mid] {
        top := mid;
      } else {
        r := mid + 1;
      }
    }
  }

  lemma ReachUnique(ordered: seq<Match>, n: nat, start: int, r: nat)
    requires n <= |ordered| && IsReach(ordered, n, start, r)
    ensures r == Reach(ordered, n, start)
  {
    var q := Reach(ordered, n, start);
    assert r > 0 ==> ordered[r - 1].end <= start;
    assert q > 0 ==> ordered[q - 1].end <= start;
  }

  /** The two tables filled up to row `i`. */
  ghost predicate Filled(ordered: seq<Match>, best: seq<real>, picked: seq<seq<nat>>, i: nat) {
    && |best| == |picked| == |ordered| + 1 && i <= |best|
    && (forall j :: 0 <= j < i ==> Plan(best[j], picked[j]) == Best(Weight, ordered, j))
  }

  /** A row of the recurrence, once the predecessor has been found. */
  lemma BestRow(w: Match -> real, ordered: seq<Match>, n: nat, prev: nat)
    requires 0 < n <= |ordered| && IsReach(ordered, n - 1, ordered[n - 1].start, prev)
    ensures var base := Best(w, ordered, prev);
            var take := w(ordered[n - 1]) + base.total;
            Best(w, ordered, n) ==
            if take > Best(w, ordered, n - 1).total then Plan(take, base.picks + [n - 1])
            else Best(w, ordered, n - 1)
  {
    ReachUnique(ordered, n - 1, ordered[n - 1].start, prev);
  }

  lemma NextRow(ordered: seq<Match>, best: seq<real>, picked: seq<seq<nat>>, i: nat, prev: nat)
    requires 0 < i <= |ordered| && Filled(ordered, best, picked, i)
    requires IsReach(ordered, i - 1, ordered[i - 1].start, prev)
    ensures var take := Weight(ordered[i - 1]) + best[prev];
            Best(Weight, ordered, i) ==
            if take > best[i - 1] then Plan(take, picked[prev] + [i - 1])
            else Plan(best[i - 1], picked[i - 1])
  {
    BestRow(Weight, ordered, i, prev);
    assert Plan(best[prev], picked[prev]) == Best(Weight, ordered, prev);
    assert Plan(best[i - 1], picked[i - 1]) == Best(Weight, ordered, i - 1);
  }

  lemma RowAdded(ordered: seq<Match>, best: seq<real>, picked: seq<seq<nat>>, i: nat)
    requires i < |best| && Filled(ordered, best, picked, i)
    requires Plan(best[i], picked[i]) == Best(Weight, ordered, i)
    ensures Filled(ordered, best, picked, i + 1)
  {
  }

  lemma EndsAscend(ordered: seq<Match>, ends: seq<int>)
    requires Sorted(EndKey, ordered) && |ends| == |ordered|
    requires forall k :: 0 <= k < |ends| ==> ends[k] == ordered[k].end
    ensures forall a, b :: 0 <= a < b < |ends| ==> ends[a] <= ends[b]
  {
    forall a, b | 0 <= a < b < |ends|
      ensures ends[a] <= ends[b]
    {
      assert Le(EndKey(ordered[a]), EndKey(ordered[b]));
    }
  }

  lemma BisectFindsReach(ordered: seq<Match>, ends: seq<int>, n: nat, start: int, r: nat)
    requires r <= n <= |ordered| == |ends|
    requires forall k :: 0 <= k < |ends| ==> ends[k] == ordered[k].end
    requires forall k :: 0 <= k < r ==> ends[k] <= start
    requires forall k :: r <= k < n ==> start < ends[k]
    ensures IsReach(ordered, n, start, r)
  {
    assert r > 0 ==> ends[r - 1] <= start;
  }

  method FillTables(ordered: seq<Match>) returns (picks: seq<nat>)
    requires Sorted(EndKey, ordered)
    ensures picks == Best(Weight, ordered, |ordered|).picks
  {
    var ends := seq(|ordered|, i requires 0 <= i < |ordered| => ordered[i].end);
    var count := |ordered|;
    var best := new real[count + 1](_ => 0.0);
    var picked := new seq<nat>[count + 1](_ => []);
    EndsAscend(ordered, ends);
    for i := 1 to count + 1
      invariant Filled(ordered, best[..], picked[..], i)
    {
      var candidate := ordered[i - 1];
      var prev := BisectRight(ends, candidate.start, i - 1);
      BisectFindsReach(ordered, ends, i - 1, candidate.start, prev);
      NextRow(ordered, best[..], picked[..], i, prev);
      var take := Weight(candidate) + best[prev];
      ghost var b0, p0 := best[..], picked[..];
      if take > best[i - 1] {
        best[i] := take;
        picked[i] := picked[prev] + [i - 1];
      } else {
        best[i] := best[i - 1];
        picked[i] := picked[i - 1];
      }
      assert best[..] == b0[i := best[i]] && picked[..] == p0[i := picked[i]];
      RowAdded(ordered, best[..], picked[..], i);
    }
    assert Plan(best[..][count], picked[..][count]) == Best(Weight, ordered, count);
    picks := picked[count];
  }

  method ResolveOverlaps(matches: seq<Match>) returns (chosen: seq<Match>)
    requires Spans(matches)
    ensures chosen == Resolve(matches)
    ensures BestCover(matches, chosen)
  {
    ResolveIsBestCover(matches);
    if |matches| == 0 {
      return [];
    }
    var ordered := Sort(EndKey, matches);
    var picks := FillTables(ordered);
    PicksIncrease(Weight, ordered, |ordered|);
    chosen := Gather(ordered, picks);
    SortSorted(StartKey, chosen);
    chosen := Sort(StartKey, chosen);
  }

  // ----- determinism and exchange

  /** The optimum does not depend on the order detectors report in; with no two
      equal spans neither does the choice itself. */
  lemma PermutationInvariant(a: seq<Match>, b: seq<Match>)
    requires Spans(a) && multiset(a) == multiset(b)
    ensures TotalWeight(Weight, Resolve(a)) == TotalWeight(Weight, Resolve(b))
    ensures DistinctKeys(EndKey, a) ==> Resolve(a) == Resolve(b)
  {
    SameMembers(a, b);
    ResolveIsBestCover(a);
    ResolveIsBestCover(b);
    if DistinctKeys(EndKey, a) {
      var s, t := Sort(EndKey, a), Sort(EndKey, b);
      DistinctAfterSort(EndKey, a, s);
      SortedUnique(EndKey, s, t);
    }
  }

  function Overlapping(s: seq<Match>, d: Match): seq<Match> {
    if s == [] then []
    else
      var front := Overlapping(s[..|s| - 1], d);
      if Disjoint(s[|s| - 1], d) then front else front + [s[|s| - 1]]
  }

  function Clear(s: seq<Match>, d: Match): seq<Match> {
    if s == [] then []
    else
      var front := Clear(s[..|s| - 1], d);
      if Disjoint(s[|s| - 1], d) then front + [s[|s| - 1]] else front
  }

  lemma {:induction false} SplitAround(w: Match -> real, s: seq<Match>, d: Match)
    ensures TotalWeight(w, s) == TotalWeight(w, Overlapping(s, d)) + TotalWeight(w, Clear(s, d))
  {
    if s != [] {
      var n := |s| - 1;
      SplitAround(w, s[..n], d);
      TotalAppend(w, Overlapping(s[..n], d), s[n]);
      TotalAppend(w, Clear(s[..n], d), s[n]);
    }
  }

  lemma {:induction false} ClearIsPart(s: seq<Match>, d: Match)
    ensures multiset(Clear(s, d)) <= multiset(s)
  {
    if s != [] {
      var n := |s| - 1;
      ClearIsPart(s[..n], d);
      DropLast(s);
      AppendOne(Clear(s[..n], d), s[n]);
    }
  }

  lemma {:induction false} ClearMembers(s: seq<Match>, d: Match, m: Match)
    requires m in Clear(s, d)
    ensures m in s && Disjoint(m, d)
  {
    var n := |s| - 1;
    if m in Clear(s[..n], d) {
      ClearMembers(s[..n], d, m);
    }
  }

  lemma DisjointAppend(s: seq<Match>, m: Match)
    requires PairwiseDisjoint(s)
    requires forall x :: x in s ==> Disjoint(x, m)
    ensures PairwiseDisjoint(s + [m])
  {
  }

  /** A part of a disjoint selection is disjoint. */
  lemma PartIsDisjoint(part: seq<Match>, s: seq<Match>)
    requires PairwiseDisjoint(s) && multiset(part) <= multiset(s)
    ensures PairwiseDisjoint(part)
  {
    var idx := PartIsGathered(part, s);
    var picked := Gather(s, idx);
    assert forall i, j :: 0 <= i < j < |picked| ==> Disjoint(s[idx[i]], s[idx[j]]);
    DisjointPermute(picked, part);
  }

  lemma SwapIsCover(matches: seq<Match>, r: seq<Match>, d: Match)
    requires IsCover(matches, r) && multiset(r)[d] < multiset(matches)[d]
    ensures IsCover(matches, Clear(r, d) + [d])
  {
    ClearIsPart(r, d);
    PartIsDisjoint(Clear(r, d), r);
    forall x | x in Clear(r, d)
      ensures Disjoint(x, d)
    {
      ClearMembers(r, d, x);
    }
    DisjointAppend(Clear(r, d), d);
    AppendOne(Clear(r, d), d);
    OneMore(multiset(Clear(r, d)), multiset(r), multiset(matches), d);
  }

  /** A candidate is dropped only for chosen neighbours that weigh at least as much. */
  lemma DroppedIsOutweighed(matches: seq<Match>, d: Match)
    requires Spans(matches)
    requires multiset(Resolve(matches))[d] < multiset(matches)[d]
    ensures Weight(d) <= TotalWeight(Weight, Overlapping(Resolve(matches), d))
  {
    hide Weight, Resolve, Overlapping, Clear, TotalWeight;
    var r := Resolve(matches);
    ResolveIsBestCover(matches);
    SwapIsCover(matches, r, d);
    SplitAround(Weight, r, d);
    TotalAppend(Weight, Clear(r, d), d);
    assert TotalWeight(Weight, Clear(r, d) + [d]) <= TotalWeight(Weight, r);
  }

  lemma {:induction false} OverlappingIsPart(s: seq<Match>, d: Match)
    ensures multiset(Overlapping(s, d)) <= multiset(s)
    ensures forall m :: m in Overlapping(s, d) ==> m in s && !Disjoint(m, d)
  {
    if s != [] {
      var n := |s| - 1;
      OverlappingIsPart(s[..n], d);
      DropLast(s);
      AppendOne(Overlapping(s[..n], d), s[n]);
    }
  }

  /** A candidate is chosen whenever no disjoint selection of the candidates it overlaps
      weighs as much as it does. */
  lemma KeptWhenHeavier(matches: seq<Match>, d: Match)
    requires Spans(matches) && d in matches
    requires forall part: seq<Match> ::
               IsCover(matches, part) && d !in part && (forall m :: m in part ==> !Disjoint(m, d)) ==>
               TotalWeight(Weight, part) < Weight(d)
    ensures d in Resolve(matches)
  {
    hide Weight, Resolve, Overlapping, TotalWeight;
    var r := Resolve(matches);
    if d !in r {
      ResolveIsBestCover(matches);
      OverlappingIsPart(r, d);
      PartIsDisjoint(Overlapping(r, d), r);
      assert IsCover(matches, Overlapping(r, d)) && d !in Overlapping(r, d);
      assert multiset(matches)[d] > 0 && multiset(r)[d] == 0;
      DroppedIsOutweighed(matches, d);
    }
  }

  // ----- one candidate against many

  /** `d` overlaps all the other candidates, which are disjoint among themselves. */
  ghost predicate Star(matches: seq<Match>, others: seq<Match>, d: Match) {
    && Spans(matches) && multiset(matches) == multiset(others) + multiset{d}
    && PairwiseDisjoint(others) && (forall o :: o in others ==> !Disjoint(o, d))
    && (forall m :: m in matches ==> m.confidence >= 0.0)
  }

  lemma {:induction false} PartWeighsLess(w: Match -> real, a: seq<Match>, b: seq<Match>)
    requires multiset(a) <= multiset(b) && forall m :: m in b ==> w(m) > 0.0
    ensures TotalWeight(w, a) <= TotalWeight(w, b)
    ensures TotalWeight(w, a) == TotalWeight(w, b) ==> multiset(a) == multiset(b)
    decreases |b|
  {
    if b == [] {
      assert |multiset(a)| == |a|;
    } else {
      var n := |b| - 1;
      DropLast(b);
      if b[n] in a {
        var k :| 0 <= k < |a| && a[k] == b[n];
        var rest := a[..k] + a[k + 1..];
        RemoveAt(a, k);
        TotalRemove(w, a, k);
        CancelAtMost(multiset(rest), multiset(b[..n]), b[n]);
        PartWeighsLess(w, rest, b[..n]);
      } else {
        WithoutOne(multiset(a), multiset(b[..n]), b[n]);
        PartWeighsLess(w, a, b[..n]);
      }
    }
  }

  /** What is selected beside `d` is one of the others, and disjoint from it. */
  lemma Beside(matches: seq<Match>, others: seq<Match>, d: Match, r: seq<Match>, k: nat, j: nat)
    requires multiset(matches) == multiset(others) + multiset{d} && IsCover(matches, r)
    requires k < |r| && j < |r| && j != k && r[k] == d
    ensures r[j] in others && Disjoint(r[j], d)
  {
    DisjointAt(r, j, k);
    RemoveAt(r, k);
    var rest := r[..k] + r[k + 1..];
    assert r[j] == rest[if j < k then j else j - 1];
    TwiceInBag(multiset(rest), multiset(r), multiset(others), d, r[j]);
  }

  /** A selection with the centre of a star in it has nothing else in it. */
  lemma CentreIsAlone(matches: seq<Match>, others: seq<Match>, d: Match, r: seq<Match>)
    requires Star(matches, others, d) && IsCover(matches, r) && d in r
    ensures r == [d]
  {
    var k :| 0 <= k < |r| && r[k] == d;
    if |r| > 1 {
      Beside(matches, others, d, r, k, if k == 0 then 1 else 0);
    }
  }

  lemma TwiceInBag(rest: multiset<Match>, r: multiset<Match>, others: multiset<Match>, d: Match, x: Match)
    requires r == rest + multiset{d} && r <= others + multiset{d} && x in rest
    ensures x in others
  {
    assert r[x] <= (others + multiset{d})[x];
  }

  lemma WeightPositive(m: Match)
    requires m.start <= m.end && m.confidence >= 0.0
    ensures Weight(m) > 0.0
  {
  }

  lemma OthersAreCover(matches: seq<Match>, others: seq<Match>, d: Match)
    requires Star(matches, others, d)
    ensures IsCover(matches, others) && IsCover(matches, [d])
    ensures forall o :: o in others ==> o in matches && Weight(o) > 0.0
  {
    hide Weight;
    assert multiset([d]) == multiset{d};
    SubBagMembers(others, matches);
    forall o | o in others
      ensures Weight(o) > 0.0
    {
      WeightPositive(o);
    }
  }

  /** One candidate against any number of disjoint ones it overlaps: the heavier side
      wins, whole. */
  lemma StarIsDecidedByWeight(matches: seq<Match>, others: seq<Match>, d: Match)
    requires Star(matches, others, d)
    ensures TotalWeight(Weight, others) < Weight(d) ==> Resolve(matches) == [d]
    ensures TotalWeight(Weight, others) > Weight(d) ==> multiset(Resolve(matches)) == multiset(others)
  {
    hide Weight, Resolve, TotalWeight;
    var r := Resolve(matches);
    ResolveIsBestCover(matches);
    OthersAreCover(matches, others, d);
    NoWeight(Weight);
    TotalAppend(Weight, [], d);
    assert [] + [d] == [d];
    if d in r {
      CentreIsAlone(matches, others, d, r);
    } else {
      WithoutOne(multiset(r), multiset(others), d);
      PartWeighsLess(Weight, r, others);
    }
  }

  // ----- how far the category priority dominates

  ghost predicate Plausible(m: Match, length: int) {
    0.0 <= m.confidence <= 1.0 && 1 <= m.end - m.start <= length
  }

  ghost predicate Fitting(m: Match, length: int) {
    Plausible(m, length) && |m.value| == m.end - m.start
  }

  /** Among matches whose values fill their spans. */
  ghost predicate PriorityDominates(length: int) {
    forall a: Match, b: Match ::
      Fitting(a, length) && Fitting(b, length) && Priority(a.category) > Priority(b.category) ==>
      Weight(a) > Weight(b)
  }

  /** The comment beside the weight bounds the bonus by 0.002. The exact range in
      which a higher category beats any single lower one is: spans of at most
      9990 code points. */
  lemma PriorityDominatesIff(length: int)
    ensures PriorityDominates(length) <==> length <= 9990
  {
    if length > 9990 {
      var a, b := LongSpanWins(length);
      assert !(Weight(a) > Weight(b));
    }
  }

  lemma LongSpanWins(length: int) returns (a: Match, b: Match)
    requires length > 9990
    ensures Fitting(a, length) && Fitting(b, length) && Priority(a.category) > Priority(b.category)
    ensures Weight(a) <= Weight(b)
  {
    a := Match(Email, Pii, 0, 1, "x", "regex", 0.0);
    b := Match(CommercialTerms, Commercial, 0, 9991, seq(9991, _ => 'x'), "regex", 1.0);
  }

  function PrioritySum(s: seq<Match>): real {
    if s == [] then 0.0 else PrioritySum(s[..|s| - 1]) + Priority(s[|s| - 1].category)
  }

  lemma {:induction false} BonusBounds(s: seq<Match>)
    requires forall m :: m in s ==> Plausible(m, 9990)
    ensures PrioritySum(s) <= TotalWeight(Weight, s) <= PrioritySum(s) + |s| as real
    ensures s != [] ==> PrioritySum(s) < TotalWeight(Weight, s)
  {
    if s != [] {
      var n := |s| - 1;
      assert s[n] in s;
      BonusBounds(s[..n]);
      assert Priority(s[n].category) < Weight(s[n]) <= Priority(s[n].category) + 1.0;
    }
  }

  /** Category priority against several, for the lengths for which it decides between
      two. A candidate survives all it overlaps if their priorities plus one for each come
      to no more than its own; it is displaced if their priorities reach its own plus one.
      So a secret survives one personal-data or commercial span, and two personal-data
      spans always displace it. */
  lemma PriorityAgainstMany(matches: seq<Match>, others: seq<Match>, d: Match)
    requires Star(matches, others, d) && forall m :: m in matches ==> Plausible(m, 9990)
    ensures PrioritySum(others) + |others| as real <= Priority(d.category) ==> Resolve(matches) == [d]
    ensures PrioritySum(others) >= Priority(d.category) + 1.0 ==> multiset(Resolve(matches)) == multiset(others)
  {
    hide Resolve, TotalWeight, PrioritySum;
    OthersAreCover(matches, others, d);
    BonusBounds(others);
    assert d in multiset(matches);
    assert Priority(d.category) < Weight(d) <= Priority(d.category) + 1.0;
    EmptyPriority();
    StarIsDecidedByWeight(matches, others, d);
  }

  lemma EmptyPriority()
    ensures PrioritySum([]) == 0.0 && forall c :: Priority(c) > 0.0
  {
  }

  const CROWDED := "7707083893sk4951234567"
  const TIN := Match(Inn, Pii, 0, 10, "7707083893", "regex", 1.0)
  const TEL := Match(Phone, Pii, 12, 22, "4951234567", "regex", 1.0)
  const KEY := Match(SecretApiKey, Secret, 8, 14, "93sk49", "regex", 1.0)

  lemma SampleStar()
    ensures Star([TIN, TEL, KEY], [TIN, TEL], KEY) && forall m :: m in [TIN, TEL, KEY] ==> Plausible(m, 9990)
    ensures PrioritySum([TIN, TEL]) == 4.0
  {
    AppendOne([TIN, TEL], KEY);
    assert [TIN, TEL] + [KEY] == [TIN, TEL, KEY];
    assert [TIN, TEL][..1] == [TIN] && PrioritySum([TIN]) == 2.0;
  }

  lemma SampleValues()
    ensures forall m :: m in [TIN, TEL, KEY] ==> m.value == CROWDED[m.start..m.end]
  {
    assert CROWDED[0..10] == TIN.value;
    assert CROWDED[12..22] == TEL.value;
    assert CROWDED[8..14] == KEY.value;
  }

  /** Two personal-data spans displace the one secret that overlaps them both. */
  lemma TwoLowerDisplaceOneHigher()
    ensures TIN.category == TEL.category == Pii && KEY.category == Secret
    ensures !Disjoint(TIN, KEY) && !Disjoint(TEL, KEY)
    ensures forall m :: m in [TIN, TEL, KEY] ==> m.value == CROWDED[m.start..m.end]
    ensures Resolve([TIN, TEL, KEY]) == [TIN, TEL]
  {
    hide Resolve, Star, PrioritySum, CROWDED;
    SampleValues();
    SampleStar();
    PriorityAgainstMany([TIN, TEL, KEY], [TIN, TEL], KEY);
    ResolveIsBestCover([TIN, TEL, KEY]);
    SortedUnique(StartKey, [TIN, TEL], Resolve([TIN, TEL, KEY]));
  }
}
