// Chunking of paragraphs for embeddings (rubezh-worker/app/chunking.py). Token
// counting and the sentence split are parameters.
module Chunking {
  import opened Replacer
  import opened Strings

  datatype Unit = Unit(text: string, count: nat)

  datatype Chunk = Chunk(text: string, tokenCount: nat)

  // ----- greedy gluing

  function Sum(units: seq<Unit>): nat {
    if units == [] then 0 else Sum(units[..|units| - 1]) + units[|units| - 1].count
  }

  function UnitTexts(units: seq<Unit>): (r: seq<string>)
    ensures |r| == |units| && forall k :: 0 <= k < |r| ==> r[k] == units[k].text
  {
    seq(|units|, k requires 0 <= k < |units| => units[k].text)
  }

  /** `"\n\n".join(current)`. */
  function JoinText(units: seq<Unit>): string { Join(UnitTexts(units), "\n\n") }

  /** Does a group with these tokens take one more unit? */
  predicate Takes(group: seq<Unit>, u: Unit, target: int, min: int) {
    Sum(group) + u.count <= target || Sum(group) < min
  }

  /** The groups, the last one still open: a group is closed by the first unit it
      does not take, which opens the next one. */
  function Groups(units: seq<Unit>, current: seq<Unit>, target: int, min: int): (r: seq<seq<Unit>>)
    ensures r != []
  {
    if units == [] then [current]
    else if Takes(current, units[0], target, min) then Groups(units[1..], current + [units[0]], target, min)
    else [current] + Groups(units[1..], [units[0]], target, min)
  }

  /** The open group becomes a chunk only when it is not too small. */
  function Kept(groups: seq<seq<Unit>>, min: int): seq<seq<Unit>>
    requires groups != []
  {
    var last := groups[|groups| - 1];
    if last != [] && Sum(last) >= min then groups else groups[..|groups| - 1]
  }

  function ToChunks(groups: seq<seq<Unit>>): (r: seq<Chunk>)
    ensures |r| == |groups|
    ensures forall i :: 0 <= i < |r| ==> r[i] == Chunk(JoinText(groups[i]), Sum(groups[i]))
  {
    seq(|groups|, i requires 0 <= i < |groups| => Chunk(JoinText(groups[i]), Sum(groups[i])))
  }

  function ChunksOf(units: seq<Unit>, target: int, min: int): seq<Chunk> {
    ToChunks(Kept(Groups(units, [], target, min), min))
  }

  lemma SumAppend(units: seq<Unit>, u: Unit)
    ensures Sum(units + [u]) == Sum(units) + u.count
  {
    assert (units + [u])[..|units|] == units;
  }

  lemma SumOne(u: Unit)
    ensures Sum([u]) == u.count
  {
    assert [u][..0] == [];
  }

  lemma NextUnit(units: seq<Unit>, i: nat, current: seq<Unit>, target: int, min: int)
    requires i < |units|
    ensures Groups(units[i..], current, target, min) ==
            if Takes(current, units[i], target, min) then Groups(units[i + 1..], current + [units[i]], target, min)
            else [current] + Groups(units[i + 1..], [units[i]], target, min)
  {
    assert units[i..][0] == units[i] && units[i..][1..] == units[i + 1..];
  }

  lemma OneMoreChunk(groups: seq<seq<Unit>>, g: seq<Unit>)
    ensures ToChunks(groups + [g]) == ToChunks(groups) + [Chunk(JoinText(g), Sum(g))]
  {
  }

  method ChunkUnits(units: seq<Unit>, target: int, min: int) returns (chunks: seq<Chunk>)
    ensures chunks == ChunksOf(units, target, min)
    ensures var groups := Kept(Groups(units, [], target, min), min);
            |chunks| == |groups| && forall i :: 0 <= i < |chunks| ==> MadeFrom(chunks[i], groups[i])
  {
    hide Groups, Sum, JoinText, ToChunks, MadeFrom, Occurs;
    chunks := [];
    var current: seq<Unit> := [];
    var currentTokens := 0;
    ghost var closed: seq<seq<Unit>> := [];
    assert units[0..] == units;
    Nothing(units, target, min);
    for i := 0 to |units|
      invariant closed + Groups(units[i..], current, target, min) == Groups(units, [], target, min)
      invariant chunks == ToChunks(closed)
      invariant currentTokens == Sum(current)
    {
      var u := units[i];
      NextUnit(units, i, current, target, min);
      SumAppend(current, u);
      if currentTokens + u.count <= target {
        current := current + [u];
        currentTokens := currentTokens + u.count;
        continue;
      }
      if currentTokens >= min {
        OneMoreChunk(closed, current);
        assert closed + ([current] + Groups(units[i + 1..], [u], target, min))
            == (closed + [current]) + Groups(units[i + 1..], [u], target, min);
        chunks := chunks + [Chunk(JoinText(current), currentTokens)];
        closed := closed + [current];
        current := [u];
        currentTokens := u.count;
        SumOne(u);
      } else {
        current := current + [u];
        currentTokens := currentTokens + u.count;
      }
    }
    LastGroup(units, current, target, min);
    OneMoreChunk(closed, current);
    ghost var all := closed + [current];
    assert all[..|all| - 1] == closed;
    if current != [] && currentTokens >= min {
      chunks := chunks + [Chunk(JoinText(current), currentTokens)];
    }
    ChunksMade(Kept(Groups(units, [], target, min), min));
  }

  lemma Nothing(units: seq<Unit>, target: int, min: int)
    ensures ToChunks([]) == [] && Sum([]) == 0
    ensures [] + Groups(units, [], target, min) == Groups(units, [], target, min)
  {
  }

  lemma LastGroup(units: seq<Unit>, current: seq<Unit>, target: int, min: int)
    ensures Groups(units[|units|..], current, target, min) == [current]
  {
  }

  // ----- what the groups are

  function Flatten(groups: seq<seq<Unit>>): seq<Unit> {
    if groups == [] then [] else groups[0] + Flatten(groups[1..])
  }

  lemma {:induction false} FlattenConcat(a: seq<seq<Unit>>, b: seq<seq<Unit>>)
    ensures Flatten(a + b) == Flatten(a) + Flatten(b)
  {
    if a == [] {
      assert a + b == b;
    } else {
      assert (a + b)[1..] == a[1..] + b;
      FlattenConcat(a[1..], b);
    }
  }

  lemma {:induction false} GroupsConserve(units: seq<Unit>, current: seq<Unit>, target: int, min: int)
    ensures Flatten(Groups(units, current, target, min)) == current + units
  {
    if units == [] {
      assert [current][1..] == [];
    } else if Takes(current, units[0], target, min) {
      GroupsConserve(units[1..], current + [units[0]], target, min);
      assert current + [units[0]] + units[1..] == current + units;
    } else {
      GroupsConserve(units[1..], [units[0]], target, min);
      assert ([current] + Groups(units[1..], [units[0]], target, min))[1..] ==
        Groups(units[1..], [units[0]], target, min);
      assert [units[0]] + units[1..] == units;
    }
  }

  /** Chunking loses no text but a tail below the minimum: the units behind the
      chunks, then that tail, are the input units in order. */
  lemma TextConserved(units: seq<Unit>, target: int, min: int) returns (tail: seq<Unit>)
    ensures Flatten(Kept(Groups(units, [], target, min), min)) + tail == units
    ensures tail == [] || Sum(tail) < min
  {
    var groups := Groups(units, [], target, min);
    GroupsConserve(units, [], target, min);
    assert [] + units == units;
    var n := |groups| - 1;
    if Kept(groups, min) == groups {
      tail := [];
    } else {
      tail := groups[n];
      FlattenConcat(groups[..n], [groups[n]]);
      assert groups == groups[..n] + [groups[n]] && [groups[n]][1..] == [];
    }
  }

  function Largest(units: seq<Unit>): nat {
    if units == [] then 0 else if units[0].count > Largest(units[1..]) then units[0].count else Largest(units[1..])
  }

  function Max(a: int, b: int): int { if a >= b then a else b }

  ghost predicate Sized(groups: seq<seq<Unit>>, min: int, bound: int) {
    && (forall i :: 0 <= i < |groups| ==> Sum(groups[i]) <= bound)
    && (forall i :: 0 <= i < |groups| - 1 ==> Sum(groups[i]) >= min)
  }

  lemma {:induction false} GroupsBounded(units: seq<Unit>, current: seq<Unit>, target: int, min: int, bound: int)
    requires target <= bound && Max(min - 1, 0) + Largest(units) <= bound && Sum(current) <= bound
    ensures Sized(Groups(units, current, target, min), min, bound)
  {
    if units != [] {
      SumAppend(current, units[0]);
      SumOne(units[0]);
      if Takes(current, units[0], target, min) {
        GroupsBounded(units[1..], current + [units[0]], target, min, bound);
      } else {
        GroupsBounded(units[1..], [units[0]], target, min, bound);
        SizedFirst(current, Groups(units[1..], [units[0]], target, min), min, bound);
      }
    }
  }

  lemma SizedFirst(g: seq<Unit>, rest: seq<seq<Unit>>, min: int, bound: int)
    requires min <= Sum(g) <= bound && Sized(rest, min, bound)
    ensures Sized([g] + rest, min, bound)
  {
    hide Sum;
    var r := [g] + rest;
    assert forall i :: 0 < i < |r| ==> r[i] == rest[i - 1];
  }

  /** Every chunk has at least `min` tokens and at most the larger of the target and
      one short of the minimum plus the largest unit. */
  lemma ChunkSizes(units: seq<Unit>, target: int, min: int)
    ensures forall c :: c in ChunksOf(units, target, min) ==>
              min <= c.tokenCount <= Max(target, Max(min - 1, 0) + Largest(units))
  {
    hide Groups, Largest, JoinText;
    assert Sum([]) == 0;
    GroupsBounded(units, [], target, min, Max(target, Max(min - 1, 0) + Largest(units)));
  }

  // ----- the groups are the greedy ones

  /** Each unit of a group but its opener was taken by the part before it. */
  ghost predicate Grown(group: seq<Unit>, target: int, min: int) {
    forall j :: 1 <= j < |group| ==> Takes(group[..j], group[j], target, min)
  }

  lemma GrownAppend(group: seq<Unit>, u: Unit, target: int, min: int)
    requires Grown(group, target, min) && (group != [] ==> Takes(group, u, target, min))
    ensures Grown(group + [u], target, min)
  {
    var g := group + [u];
    forall j | 1 <= j < |g|
      ensures Takes(g[..j], g[j], target, min)
    {
      assert g[..j] == group[..j];
      if j == |group| {
        assert group[..j] == group;
      }
    }
  }

  /** A group closes only before a unit that would overrun the target, and takes every
      unit until then. */
  lemma {:induction false} GroupsAreGreedy(units: seq<Unit>, current: seq<Unit>, target: int, min: int)
    requires Grown(current, target, min)
    ensures var r := Groups(units, current, target, min);
            && (forall i :: 0 <= i < |r| ==> Grown(r[i], target, min))
            && (forall i :: 0 < i < |r| ==> r[i] != [] && !Takes(r[i - 1], r[i][0], target, min))
            && (current != [] ==> r[0] != [] && r[0][0] == current[0])
  {
    if units != [] {
      if Takes(current, units[0], target, min) {
        GrownAppend(current, units[0], target, min);
        GroupsAreGreedy(units[1..], current + [units[0]], target, min);
      } else {
        GroupsAreGreedy(units[1..], [units[0]], target, min);
      }
    }
  }

  // ----- chunks over the maximum

  /** A chunk runs over a maximum that the target respects only by its last unit, added
      to (or standing alone instead of) a part still below the minimum. */
  lemma OverMaxCause(units: seq<Unit>, target: int, min: int, max: int, g: seq<Unit>)
    requires target <= max && 0 <= max && g in Kept(Groups(units, [], target, min), min) && Sum(g) > max
    ensures g != [] && Sum(g[..|g| - 1]) < Max(min, 1)
  {
    hide Groups, Takes;
    var groups := Groups(units, [], target, min);
    GroupsAreGreedy(units, [], target, min);
    assert g in groups && Grown(g, target, min);
    OverGroup(g, target, min, max);
  }

  lemma OverGroup(g: seq<Unit>, target: int, min: int, max: int)
    requires target <= max && 0 <= max && Grown(g, target, min) && Sum(g) > max
    ensures g != [] && Sum(g[..|g| - 1]) < Max(min, 1)
  {
    assert Sum([]) == 0;
    var n := |g| - 1;
    assert g[..n] + [g[n]] == g;
    SumAppend(g[..n], g[n]);
    if n > 0 {
      assert Takes(g[..n], g[n], target, min);
    } else {
      assert g[..0] == [];
    }
  }

  // ----- chunks without text

  /** The token counter counts nothing in an empty text. */
  predicate BlankIsFree(units: seq<Unit>) {
    forall k :: 0 <= k < |units| && units[k].text == "" ==> units[k].count == 0
  }

  predicate Textless(group: seq<Unit>) { JoinText(group) == "" }

  lemma TextlessIs(group: seq<Unit>)
    ensures Textless(group) <==> group == [] || (|group| == 1 && group[0].text == "")
  {
  }

  ghost predicate HasTextless(groups: seq<seq<Unit>>) {
    exists i :: 0 <= i < |groups| && Textless(groups[i])
  }

  lemma TextlessFirst(g: seq<Unit>, rest: seq<seq<Unit>>)
    ensures HasTextless([g] + rest) <==> Textless(g) || HasTextless(rest)
  {
    var r := [g] + rest;
    assert r[0] == g && forall i :: 0 < i < |r| ==> r[i] == rest[i - 1];
    if HasTextless(rest) {
      var i :| 0 <= i < |rest| && Textless(rest[i]);
      assert r[i + 1] == rest[i];
    }
  }

  predicate OverNext(units: seq<Unit>, k: int, target: int)
    requires -1 <= k < |units|
  {
    k + 1 == |units| || units[k + 1].count > target
  }

  /** Unit `k` has no text, and neither the unit before it nor the one after it can share
      a chunk with it; `first` says so of what stands before unit 0. */
  predicate Alone(first: bool, units: seq<Unit>, k: nat, target: int)
    requires k < |units|
  {
    units[k].text == "" && (if k == 0 then first else units[k - 1].count > target) && OverNext(units, k, target)
  }

  ghost predicate SomeAlone(first: bool, units: seq<Unit>, target: int) {
    exists k: nat :: k < |units| && Alone(first, units, k, target)
  }

  /** Looking for a lone unit from unit 1 on. */
  lemma AloneFromNext(first: bool, units: seq<Unit>, target: int)
    requires units != []
    ensures SomeAlone(first, units, target)
       <==> Alone(first, units, 0, target) || SomeAlone(units[0].count > target, units[1..], target)
  {
    var over, rest := units[0].count > target, units[1..];
    assert forall k: nat :: k < |rest| ==> Alone(over, rest, k, target) == Alone(first, units, k + 1, target);
    if SomeAlone(first, units, target) {
      var k: nat :| k < |units| && Alone(first, units, k, target);
      assert k > 0 ==> Alone(over, rest, k - 1, target);
    }
  }

  lemma {:induction false} TextlessGroups(units: seq<Unit>, current: seq<Unit>, target: int, min: int)
    requires min <= 0 && current != [] && BlankIsFree(units) && BlankIsFree(current)
    ensures HasTextless(Groups(units, current, target, min))
       <==> (Textless(current) && OverNext(units, -1, target)) || SomeAlone(Sum(current) > target, units, target)
  {
    TextlessIs(current);
    if units == [] {
      TextlessFirst(current, []);
      assert Groups([], current, target, min) == [current] + [];
    } else {
      var u := units[0];
      SumAppend(current, u);
      SumOne(current[0]);
      assert |current| == 1 ==> current == [current[0]];
      AloneFromNext(Sum(current) > target, units, target);
      if Takes(current, u, target, min) {
        TextlessIs(current + [u]);
        TextlessGroups(units[1..], current + [u], target, min);
      } else {
        SumOne(u);
        TextlessIs([u]);
        TextlessGroups(units[1..], [u], target, min);
        TextlessFirst(current, Groups(units[1..], [u], target, min));
      }
    }
  }

  lemma NothingDropped(units: seq<Unit>, target: int, min: int)
    requires min <= 0 && units != []
    ensures Kept(Groups(units, [], target, min), min) == Groups(units, [], target, min)
    ensures Groups(units, [], target, min) ==
            (if units[0].count > target then [[]] else []) + Groups(units[1..], [units[0]], target, min)
  {
    assert [] + [units[0]] == [units[0]] && Sum([]) == 0;
    assert [] + Groups(units[1..], [units[0]], target, min) == Groups(units[1..], [units[0]], target, min);
    GroupsAreGreedy(units[1..], [units[0]], target, min);
  }

  lemma FirstOver(over: bool, rest: seq<seq<Unit>>)
    ensures HasTextless((if over then [[]] else []) + rest) <==> over || HasTextless(rest)
  {
    TextlessFirst([], rest);
    TextlessIs([]);
    assert [] + rest == rest;
  }

  lemma TextlessIff(units: seq<Unit>, target: int, min: int)
    requires BlankIsFree(units) && min <= 0 && units != []
    ensures HasTextless(Kept(Groups(units, [], target, min), min))
       <==> units[0].count > target || SomeAlone(true, units, target)
  {
    hide Groups, Kept, Textless, JoinText;
    var u := units[0];
    NothingDropped(units, target, min);
    FirstOver(u.count > target, Groups(units[1..], [u], target, min));
    SumOne(u);
    TextlessIs([u]);
    TextlessGroups(units[1..], [u], target, min);
    AloneFromNext(true, units, target);
  }

  /** "Non-empty chunks" holds for a positive minimum. Otherwise a chunk without text is
      produced exactly when the first unit is over the target, or a unit without text
      stands where neither neighbour can join it. */
  lemma EmptyChunkIff(units: seq<Unit>, target: int, min: int)
    requires BlankIsFree(units)
    ensures (exists c :: c in ChunksOf(units, target, min) && c.text == "")
       <==> min <= 0 && units != [] && (units[0].count > target || SomeAlone(true, units, target))
  {
    hide SomeAlone;
    var kept := Kept(Groups(units, [], target, min), min);
    ChunksTextless(kept);
    if min > 0 {
      KeptHasText(units, target, min);
    } else if units != [] {
      TextlessIff(units, target, min);
    } else {
      NoUnits(target, min);
    }
  }

  lemma NoUnits(target: int, min: int)
    ensures Kept(Groups([], [], target, min), min) == []
  {
  }

  lemma ChunksTextless(groups: seq<seq<Unit>>)
    ensures (exists c :: c in ToChunks(groups) && c.text == "") <==> HasTextless(groups)
  {
    hide JoinText;
    var chunks := ToChunks(groups);
    if HasTextless(groups) {
      var i :| 0 <= i < |groups| && Textless(groups[i]);
      assert chunks[i] in chunks && chunks[i].text == "";
    }
    if c :| c in chunks && c.text == "" {
      var i :| 0 <= i < |chunks| && chunks[i] == c;
      assert Textless(groups[i]);
    }
  }

  lemma KeptHasText(units: seq<Unit>, target: int, min: int)
    requires BlankIsFree(units) && min > 0
    ensures !HasTextless(Kept(Groups(units, [], target, min), min))
  {
    var kept := Kept(Groups(units, [], target, min), min);
    var tail := TextConserved(units, target, min);
    GroupsBounded(units, [], target, min, Max(target, Max(min - 1, 0) + Largest(units)));
    forall i | 0 <= i < |kept|
      ensures !Textless(kept[i])
    {
      TextlessIs(kept[i]);
      if |kept[i]| == 1 {
        FlattenHas(kept, i);
        assert kept[i][0] in Flatten(kept) + tail;
        SumOne(kept[i][0]);
      }
    }
  }

  lemma {:induction false} FlattenHas(groups: seq<seq<Unit>>, i: nat)
    requires i < |groups|
    ensures forall u :: u in groups[i] ==> u in Flatten(groups)
  {
    if i > 0 {
      FlattenHas(groups[1..], i - 1);
    }
  }

  // ----- oversize paragraphs

  function Texts(units: seq<Unit>): string {
    if units == [] then "" else units[0].text + Texts(units[1..])
  }

  /** Cuts of `step` characters. */
  function Pieces(text: string, step: nat, tokens: string -> nat): seq<Unit>
    requires step > 0
  {
    if text == "" then []
    else
      var n := if |text| <= step then |text| else step;
      [Unit(text[..n], tokens(text[..n]))] + Pieces(text[n..], step, tokens)
  }

  /** The character cuts of an oversize sentence put it back together. */
  lemma {:induction false} PiecesConserve(text: string, step: nat, tokens: string -> nat)
    requires step > 0
    ensures Texts(Pieces(text, step, tokens)) == text
    ensures forall i :: 0 <= i < |Pieces(text, step, tokens)| ==> 0 < |Pieces(text, step, tokens)[i].text| <= step
    decreases |text|
  {
    if text != "" {
      var n := if |text| <= step then |text| else step;
      PiecesConserve(text[n..], step, tokens);
      assert Pieces(text, step, tokens)[1..] == Pieces(text[n..], step, tokens);
      assert text == text[..n] + text[n..];
    }
  }

  predicate Counted(units: seq<Unit>, tokens: string -> nat) {
    forall u :: u in units ==> u.count == tokens(u.text)
  }

  /** A sentence within the maximum, or a cut of at most four characters per token
      allowed from a sentence that is not. */
  ghost predicate FromSentences(u: Unit, sentences: seq<string>, max: nat, tokens: string -> nat) {
    || (u.text in sentences && u.count <= max)
    || (0 < |u.text| <= max * 4 && exists s :: s in sentences && tokens(s) > max && Occurs(u.text, s))
  }

  ghost predicate MadeOf(units: seq<Unit>, sentences: seq<string>, max: nat, tokens: string -> nat) {
    && Counted(units, tokens)
    && Texts(units) == Concat(sentences)
    && forall u :: u in units ==> FromSentences(u, sentences, max, tokens)
  }

  /** What becomes of one paragraph: itself if it is small enough, otherwise units that
      together are its sentences. */
  ghost predicate Explodes(units: seq<Unit>, para: string, max: nat, tokens: string -> nat,
                           split: string -> seq<string>)
  {
    if tokens(para) <= max then units == [Unit(para, tokens(para))] else MadeOf(units, split(para), max, tokens)
  }

  function SentenceUnits(sentence: string, max: nat, tokens: string -> nat): seq<Unit>
    requires max > 0
  {
    if tokens(sentence) > max then Pieces(sentence, max * 4, tokens) else [Unit(sentence, tokens(sentence))]
  }

  function AllSentences(sentences: seq<string>, max: nat, tokens: string -> nat): seq<Unit>
    requires max > 0
  {
    if sentences == [] then []
    else AllSentences(sentences[..|sentences| - 1], max, tokens) +
         SentenceUnits(sentences[|sentences| - 1], max, tokens)
  }

  function ParagraphUnits(para: string, max: nat, tokens: string -> nat, split: string -> seq<string>): seq<Unit>
    requires max > 0
  {
    if tokens(para) <= max then [Unit(para, tokens(para))] else AllSentences(split(para), max, tokens)
  }

  function Parts(paragraphs: seq<string>, max: nat, tokens: string -> nat,
                 split: string -> seq<string>): (r: seq<seq<Unit>>)
    requires max > 0
    ensures |r| == |paragraphs|
  {
    seq(|paragraphs|, i requires 0 <= i < |paragraphs| => ParagraphUnits(paragraphs[i], max, tokens, split))
  }

  function Exploded(paragraphs: seq<string>, max: nat, tokens: string -> nat, split: string -> seq<string>): seq<Unit>
    requires max > 0
  {
    Flatten(Parts(paragraphs, max, tokens, split))
  }

  lemma {:induction false} TextsConcat(a: seq<Unit>, b: seq<Unit>)
    ensures Texts(a + b) == Texts(a) + Texts(b)
  {
    if a == [] {
      assert a + b == b;
    } else {
      assert (a + b)[1..] == a[1..] + b;
      TextsConcat(a[1..], b);
    }
  }

  lemma {:induction false} PiecesAreParts(text: string, whole: string, step: nat, tokens: string -> nat)
    requires step > 0 && Occurs(text, whole)
    ensures Counted(Pieces(text, step, tokens), tokens)
    ensures forall u :: u in Pieces(text, step, tokens) ==> 0 < |u.text| <= step && Occurs(u.text, whole)
    decreases |text|
  {
    if text != "" {
      var n := if |text| <= step then |text| else step;
      var i :| 0 <= i <= |whole| && text <= whole[i..];
      assert whole[i..][..n] == text[..n] && whole[i + n..] == whole[i..][n..];
      assert text[..n] <= whole[i..] && text[n..] <= whole[i + n..];
      PiecesAreParts(text[n..], whole, step, tokens);
    }
  }

  lemma SentenceIs(sentences: seq<string>, s: string, max: nat, tokens: string -> nat)
    requires max > 0 && s in sentences
    ensures var us := SentenceUnits(s, max, tokens);
            && Counted(us, tokens) && Texts(us) == s
            && forall u :: u in us ==> FromSentences(u, sentences, max, tokens)
  {
    hide Pieces;
    if tokens(s) > max {
      assert s[0..] == s && Occurs(s, s);
      PiecesConserve(s, max * 4, tokens);
      PiecesAreParts(s, s, max * 4, tokens);
    } else {
      assert Texts([Unit(s, tokens(s))][1..]) == "";
    }
  }

  lemma MoreSentences(us: seq<Unit>, front: seq<string>, sentences: seq<string>, max: nat, tokens: string -> nat)
    requires MadeOf(us, front, max, tokens) && forall s :: s in front ==> s in sentences
    ensures forall u :: u in us ==> FromSentences(u, sentences, max, tokens)
  {
  }

  lemma {:induction false} AllSentencesAre(sentences: seq<string>, max: nat, tokens: string -> nat)
    requires max > 0
    ensures MadeOf(AllSentences(sentences, max, tokens), sentences, max, tokens)
  {
    if sentences != [] {
      var front, last := sentences[..|sentences| - 1], sentences[|sentences| - 1];
      AllSentencesAre(front, max, tokens);
      SentenceIs(sentences, last, max, tokens);
      hide SentenceUnits, FromSentences;
      MoreSentences(AllSentences(front, max, tokens), front, sentences, max, tokens);
      TextsConcat(AllSentences(front, max, tokens), SentenceUnits(last, max, tokens));
    }
  }

  lemma ParagraphExplodes(para: string, max: nat, tokens: string -> nat, split: string -> seq<string>)
    requires max > 0
    ensures Explodes(ParagraphUnits(para, max, tokens, split), para, max, tokens, split)
    ensures Counted(ParagraphUnits(para, max, tokens, split), tokens)
  {
    AllSentencesAre(split(para), max, tokens);
  }

  lemma NoParagraphs(max: nat, tokens: string -> nat, split: string -> seq<string>)
    requires max > 0
    ensures Exploded([], max, tokens, split) == []
  {
  }

  lemma NoSentences(max: nat, tokens: string -> nat)
    requires max > 0
    ensures AllSentences([], max, tokens) == []
  {
  }

  lemma OneMoreParagraph(front: seq<string>, para: string, max: nat, tokens: string -> nat,
                         split: string -> seq<string>)
    requires max > 0
    ensures Exploded(front + [para], max, tokens, split) ==
            Exploded(front, max, tokens, split) + ParagraphUnits(para, max, tokens, split)
  {
    hide ParagraphUnits;
    var us := ParagraphUnits(para, max, tokens, split);
    assert Parts(front + [para], max, tokens, split) == Parts(front, max, tokens, split) + [us];
    FlattenConcat(Parts(front, max, tokens, split), [us]);
    assert [us][1..] == [];
  }

  lemma OneMoreSentence(front: seq<string>, sent: string, max: nat, tokens: string -> nat)
    requires max > 0
    ensures AllSentences(front + [sent], max, tokens) ==
              AllSentences(front, max, tokens) + SentenceUnits(sent, max, tokens)
  {
    assert (front + [sent])[..|front|] == front;
  }

  method ExplodeOversize(paragraphs: seq<string>, max: nat, tokens: string -> nat, split: string -> seq<string>)
    returns (out: seq<Unit>, ghost parts: seq<seq<Unit>>)
    requires max > 0
    ensures out == Exploded(paragraphs, max, tokens, split) && out == Flatten(parts) && Counted(out, tokens)
    ensures |parts| == |paragraphs| && forall i :: 0 <= i < |parts| ==>
              Explodes(parts[i], paragraphs[i], max, tokens, split)
  {
    hide Exploded, AllSentences, Explodes;
    out := [];
    NoParagraphs(max, tokens, split);
    for i := 0 to |paragraphs|
      invariant out == Exploded(paragraphs[..i], max, tokens, split) && Counted(out, tokens)
    {
      var para := paragraphs[i];
      ParagraphExplodes(para, max, tokens, split);
      OneMoreParagraph(paragraphs[..i], para, max, tokens, split);
      assert paragraphs[..i + 1] == paragraphs[..i] + [para];
      if tokens(para) <= max {
        out := out + [Unit(para, tokens(para))];
        continue;
      }
      var more := ExplodeSentences(split(para), max, tokens);
      out := out + more;
    }
    assert paragraphs[..|paragraphs|] == paragraphs;
    parts := Parts(paragraphs, max, tokens, split);
    ExplodedIs(paragraphs, max, tokens, split);
  }

  lemma ExplodedIs(paragraphs: seq<string>, max: nat, tokens: string -> nat, split: string -> seq<string>)
    requires max > 0
    ensures var parts := Parts(paragraphs, max, tokens, split);
            && Exploded(paragraphs, max, tokens, split) == Flatten(parts)
            && forall i :: 0 <= i < |parts| ==> Explodes(parts[i], paragraphs[i], max, tokens, split)
  {
    hide ParagraphUnits, Explodes;
    forall i | 0 <= i < |paragraphs|
      ensures Explodes(Parts(paragraphs, max, tokens, split)[i], paragraphs[i], max, tokens, split)
    {
      ParagraphExplodes(paragraphs[i], max, tokens, split);
    }
  }

  method ExplodeSentences(sentences: seq<string>, max: nat, tokens: string -> nat) returns (out: seq<Unit>)
    requires max > 0
    ensures out == AllSentences(sentences, max, tokens) && MadeOf(out, sentences, max, tokens)
  {
    hide AllSentences, Pieces, MadeOf;
    out := [];
    NoSentences(max, tokens);
    for i := 0 to |sentences|
      invariant out == AllSentences(sentences[..i], max, tokens)
    {
      var sent := sentences[i];
      OneMoreSentence(sentences[..i], sent, max, tokens);
      assert sentences[..i + 1] == sentences[..i] + [sent];
      if tokens(sent) > max {
        var pieces := CutPieces(sent, max * 4, tokens);
        out := out + pieces;
      } else {
        out := out + [Unit(sent, tokens(sent))];
      }
    }
    assert sentences[..|sentences|] == sentences;
    AllSentencesAre(sentences, max, tokens);
  }

  lemma NoPieces(step: nat, tokens: string -> nat)
    requires step > 0
    ensures Pieces("", step, tokens) == []
  {
  }

  lemma FirstPiece(sent: string, start: nat, step: nat, tokens: string -> nat)
    requires step > 0 && start < |sent|
    ensures var end := if start + step <= |sent| then start + step else |sent|;
            Pieces(sent[start..], step, tokens) ==
            [Unit(sent[start..end], tokens(sent[start..end]))] + Pieces(sent[end..], step, tokens)
  {
    var end := if start + step <= |sent| then start + step else |sent|;
    assert sent[start..][..end - start] == sent[start..end] && sent[start..][end - start..] == sent[end..];
  }

  /** `for start in range(0, len(sent), step)`. */
  method CutPieces(sent: string, step: nat, tokens: string -> nat) returns (pieces: seq<Unit>)
    requires step > 0
    ensures pieces == Pieces(sent, step, tokens)
  {
    hide Pieces;
    pieces := [];
    var start := 0;
    assert sent[0..] == sent && sent[|sent|..] == "";
    NoPieces(step, tokens);
    while start < |sent|
      invariant pieces + Pieces(sent[if start <= |sent| then start else |sent|..], step, tokens) ==
                  Pieces(sent, step, tokens)
    {
      var end := if start + step <= |sent| then start + step else |sent|;
      FirstPiece(sent, start, step, tokens);
      pieces := pieces + [Unit(sent[start..end], tokens(sent[start..end]))];
      start := start + step;
    }
  }

  /** A document's chunks, end to end. `parts` are the units of each paragraph, `groups`
      the units of each chunk: they are the same units in the same order, but for a tail
      below the minimum; sizes, greediness and non-empty texts follow. */
  method ChunkParagraphs(paragraphs: seq<string>, target: int, max: nat, min: int,
                         tokens: string -> nat, split: string -> seq<string>)
    returns (chunks: seq<Chunk>, ghost parts: seq<seq<Unit>>, ghost groups: seq<seq<Unit>>, ghost tail: seq<Unit>)
    requires max > 0
    ensures chunks == ChunksOf(Exploded(paragraphs, max, tokens, split), target, min)
    ensures |parts| == |paragraphs| && forall i :: 0 <= i < |parts| ==>
              Explodes(parts[i], paragraphs[i], max, tokens, split)
    ensures Counted(Flatten(parts), tokens)
    ensures Flatten(groups) + tail == Flatten(parts) && (tail == [] || Sum(tail) < min)
    ensures |chunks| == |groups| && forall i :: 0 <= i < |chunks| ==> MadeFrom(chunks[i], groups[i])
    ensures forall i, u :: 0 <= i < |chunks| && u in groups[i] ==> Occurs(u.text, chunks[i].text)
    ensures forall c :: c in chunks ==> min <= c.tokenCount <= Max(target, Max(min - 1, 0) + Largest(Flatten(parts)))
    ensures Greedy(groups, target, min)
    ensures min > 0 && tokens("") == 0 ==> forall c :: c in chunks ==> c.text != ""
  {
    hide Explodes, Groups, Kept, Largest, JoinText, Counted, Greedy, Flatten, MadeFrom, Sum, Occurs;
    var units;
    units, parts := ExplodeOversize(paragraphs, max, tokens, split);
    chunks := ChunkUnits(units, target, min);
    groups := Kept(Groups(units, [], target, min), min);
    tail := TextConserved(units, target, min);
    ChunkSizes(units, target, min);
    ChunksMade(groups);
    KeptIsGreedy(units, target, min);
    if min > 0 && tokens("") == 0 {
      CountedIsFree(units, tokens);
      EmptyChunkIff(units, target, min);
    }
  }

  /** A chunk has its units' tokens and their texts, in order and whole, two newlines
      between neighbours and nothing else. */
  ghost predicate MadeFrom(c: Chunk, group: seq<Unit>) {
    c.tokenCount == Sum(group) && Laid(c.text, UnitTexts(group), "\n\n")
  }

  lemma ChunkMade(group: seq<Unit>)
    ensures MadeFrom(Chunk(JoinText(group), Sum(group)), group)
    ensures forall u :: u in group ==> Occurs(u.text, JoinText(group))
  {
    JoinLays(UnitTexts(group), "\n\n");
    forall u | u in group
      ensures Occurs(u.text, JoinText(group))
    {
      var k :| 0 <= k < |group| && group[k] == u;
      LaidHolds(JoinText(group), UnitTexts(group), "\n\n", k);
    }
  }

  lemma ChunksMade(groups: seq<seq<Unit>>)
    ensures var chunks := ToChunks(groups);
            forall i :: 0 <= i < |groups| ==> MadeFrom(chunks[i], groups[i])
    ensures var chunks := ToChunks(groups);
            forall i, u :: 0 <= i < |groups| && u in groups[i] ==> Occurs(u.text, chunks[i].text)
  {
    hide JoinText, MadeFrom, Sum;
    forall i | 0 <= i < |groups|
      ensures MadeFrom(ToChunks(groups)[i], groups[i])
      ensures forall u :: u in groups[i] ==> Occurs(u.text, ToChunks(groups)[i].text)
    {
      ChunkMade(groups[i]);
    }
  }

  /** No group takes a unit it must not, and none leaves out one it takes. */
  ghost predicate Greedy(groups: seq<seq<Unit>>, target: int, min: int) {
    && (forall i :: 0 <= i < |groups| ==> Grown(groups[i], target, min))
    && (forall i :: 0 < i < |groups| ==> groups[i] != [] && !Takes(groups[i - 1], groups[i][0], target, min))
  }

  lemma KeptIsGreedy(units: seq<Unit>, target: int, min: int)
    ensures Greedy(Kept(Groups(units, [], target, min), min), target, min)
  {
    GroupsAreGreedy(units, [], target, min);
  }

  lemma CountedIsFree(units: seq<Unit>, tokens: string -> nat)
    requires Counted(units, tokens) && tokens("") == 0
    ensures BlankIsFree(units)
  {
  }

  // ----- the promised maximum

  lemma {:induction false} OneGroup(units: seq<Unit>, current: seq<Unit>, target: int, min: int)
    requires units != [] && Sum(current + units[..|units| - 1]) < min
    ensures Groups(units, current, target, min) == [current + units]
  {
    var u, rest := units[0], units[1..];
    if rest == [] {
      assert current + units[..0] == current && current + [u] == current + units;
    } else {
      assert current + units[..|units| - 1] == (current + [u]) + rest[..|rest| - 1];
      assert current + units == (current + [u]) + rest;
      SumParts(current, units[..|units| - 1]);
      OneGroup(rest, current + [u], target, min);
    }
  }

  lemma {:induction false} SumParts(a: seq<Unit>, b: seq<Unit>)
    ensures Sum(a + b) == Sum(a) + Sum(b)
  {
    if b == [] {
      assert a + b == a;
    } else {
      var n := |b| - 1;
      SumParts(a, b[..n]);
      assert b == b[..n] + [b[n]];
      assert a + b == (a + b[..n]) + [b[n]];
      assert (a + b)[..|a + b| - 1] == a + b[..n];
      SumAppend(a + b[..n], b[n]);
    }
  }

  ghost predicate WithinMax(chunks: seq<Chunk>, max: int) {
    forall c :: c in chunks ==> c.tokenCount <= max
  }

  lemma WithinBound(units: seq<Unit>, target: int, min: int, max: int)
    requires target <= max && Max(min - 1, 0) + Largest(units) <= max
    ensures WithinMax(ChunksOf(units, target, min), max)
  {
    hide ChunksOf, Largest;
    ChunkSizes(units, target, min);
  }

  /** The promise: no document gets a chunk over the maximum. */
  ghost predicate KeepsMax(target: int, min: int, max: nat, tokens: string -> nat, split: string -> seq<string>)
    requires max > 0
  {
    forall paragraphs :: WithinMax(ChunksOf(Exploded(paragraphs, max, tokens, split), target, min), max)
  }

  predicate FitsCut(sentence: string, max: nat, tokens: string -> nat)
    requires max > 0
  {
    forall u :: u in SentenceUnits(sentence, max, tokens) ==> u.count <= max
  }

  /** The cuts of oversize sentences, four characters per token allowed, are small enough. */
  ghost predicate CutsFit(max: nat, tokens: string -> nat, split: string -> seq<string>)
    requires max > 0
  {
    forall para, s :: tokens(para) > max && s in split(para) ==> FitsCut(s, max, tokens)
  }

  lemma {:induction false} SentencesFit(sentences: seq<string>, max: nat, tokens: string -> nat)
    requires max > 0 && forall s :: s in sentences ==> FitsCut(s, max, tokens)
    ensures forall u :: u in AllSentences(sentences, max, tokens) ==> u.count <= max
  {
    hide SentenceUnits;
    if sentences != [] {
      SentencesFit(sentences[..|sentences| - 1], max, tokens);
      assert FitsCut(sentences[|sentences| - 1], max, tokens);
    }
  }

  lemma {:induction false} UnitsFit(paragraphs: seq<string>, max: nat, tokens: string -> nat,
                                    split: string -> seq<string>)
    requires max > 0 && CutsFit(max, tokens, split)
    ensures forall u :: u in Exploded(paragraphs, max, tokens, split) ==> u.count <= max
  {
    hide Exploded, AllSentences, FitsCut;
    if paragraphs == [] {
      NoParagraphs(max, tokens, split);
    } else {
      var front, para := paragraphs[..|paragraphs| - 1], paragraphs[|paragraphs| - 1];
      UnitsFit(front, max, tokens, split);
      OneMoreParagraph(front, para, max, tokens, split);
      assert front + [para] == paragraphs;
      if tokens(para) > max {
        SentencesFit(split(para), max, tokens);
      }
    }
  }

  lemma {:induction false} LargestFits(units: seq<Unit>, bound: nat)
    requires forall u :: u in units ==> u.count <= bound
    ensures Largest(units) <= bound
  {
    if units != [] {
      LargestFits(units[1..], bound);
    }
  }

  /** Small paragraphs are units as they are. */
  function AsUnits(paragraphs: seq<string>, tokens: string -> nat): seq<Unit> {
    seq(|paragraphs|, i requires 0 <= i < |paragraphs| => Unit(paragraphs[i], tokens(paragraphs[i])))
  }

  lemma {:induction false} SmallParagraphs(paragraphs: seq<string>, max: nat, tokens: string -> nat,
                                           split: string -> seq<string>)
    requires max > 0 && forall p :: p in paragraphs ==> tokens(p) <= max
    ensures Exploded(paragraphs, max, tokens, split) == AsUnits(paragraphs, tokens)
  {
    hide Exploded;
    if paragraphs == [] {
      NoParagraphs(max, tokens, split);
    } else {
      var front, para := paragraphs[..|paragraphs| - 1], paragraphs[|paragraphs| - 1];
      SmallParagraphs(front, max, tokens, split);
      OneMoreParagraph(front, para, max, tokens, split);
      assert front + [para] == paragraphs;
      assert AsUnits(paragraphs, tokens) == AsUnits(front, tokens) + [Unit(para, tokens(para))];
    }
  }

  lemma {:induction false} OnesSum(units: seq<Unit>)
    requires forall u :: u in units ==> u.count == 1
    ensures Sum(units) == |units|
  {
    if units != [] {
      OnesSum(units[..|units| - 1]);
    }
  }

  /** Paragraphs of a token each up to one short of the minimum, then one more. */
  function Padded(a: string, n: nat, b: string): seq<string> { seq(n, _ => a) + [b] }

  lemma OneChunk(units: seq<Unit>, target: int, min: int)
    requires units != [] && Sum(units[..|units| - 1]) < min <= Sum(units)
    ensures exists c :: c in ChunksOf(units, target, min) && c.tokenCount == Sum(units)
  {
    hide JoinText, Groups;
    assert [] + units[..|units| - 1] == units[..|units| - 1] && [] + units == units;
    OneGroup(units, [], target, min);
    var chunks := ChunksOf(units, target, min);
    assert chunks[0] in chunks && chunks[0].tokenCount == Sum(units);
  }

  /** They make one chunk. */
  lemma Overrun(target: int, min: int, max: nat, tokens: string -> nat, split: string -> seq<string>,
                a: string, b: string)
    requires min >= 1 && tokens(a) == 1 && 1 <= tokens(b) <= max
    ensures exists c :: c in ChunksOf(Exploded(Padded(a, min - 1, b), max, tokens, split), target, min)
                     && c.tokenCount == min - 1 + tokens(b)
  {
    hide ChunksOf, Exploded, Sum;
    var fill, u := seq(min - 1, _ => Unit(a, 1)), Unit(b, tokens(b));
    var units := AsUnits(Padded(a, min - 1, b), tokens);
    SmallParagraphs(Padded(a, min - 1, b), max, tokens, split);
    assert units == fill + [u] && units[..|units| - 1] == fill;
    OnesSum(fill);
    SumAppend(fill, u);
    OneChunk(units, target, min);
  }

  lemma {:induction false} SumHas(units: seq<Unit>, u: Unit)
    requires u in units
    ensures u.count <= Sum(units)
  {
    if u in units[..|units| - 1] {
      SumHas(units[..|units| - 1], u);
    }
  }

  lemma {:induction false} FlattenFinds(groups: seq<seq<Unit>>, u: Unit) returns (i: nat)
    requires u in Flatten(groups)
    ensures i < |groups| && u in groups[i]
  {
    if u in groups[0] {
      i := 0;
    } else {
      i := FlattenFinds(groups[1..], u);
      i := i + 1;
    }
  }

  /** With no minimum to speak of, a unit over the maximum is in a chunk over it. */
  lemma LargeUnitShows(units: seq<Unit>, target: int, min: int, max: nat, u: Unit)
    requires min <= 1 && u in units && u.count > max
    ensures !WithinMax(ChunksOf(units, target, min), max)
  {
    hide Groups, Kept, JoinText;
    var kept := Kept(Groups(units, [], target, min), min);
    var tail := TextConserved(units, target, min);
    if u in tail {
      SumHas(tail, u);
    } else {
      var i := FlattenFinds(kept, u);
      SumHas(kept[i], u);
      var chunks := ChunksOf(units, target, min);
      assert chunks[i] in chunks && chunks[i].tokenCount > max;
    }
  }

  lemma {:induction false} SentenceHas(sentences: seq<string>, s: string, max: nat, tokens: string -> nat)
    requires max > 0 && s in sentences
    ensures forall u :: u in SentenceUnits(s, max, tokens) ==> u in AllSentences(sentences, max, tokens)
  {
    hide SentenceUnits;
    if s in sentences[..|sentences| - 1] {
      SentenceHas(sentences[..|sentences| - 1], s, max, tokens);
    }
  }

  lemma LargeCutShows(target: int, min: int, max: nat, tokens: string -> nat, split: string -> seq<string>)
    requires max > 0 && min <= 1 && !CutsFit(max, tokens, split)
    ensures !KeepsMax(target, min, max, tokens, split)
  {
    hide Exploded, AllSentences, SentenceUnits, WithinMax, ChunksOf;
    var para, s :| tokens(para) > max && s in split(para) && !FitsCut(s, max, tokens);
    var u :| u in SentenceUnits(s, max, tokens) && u.count > max;
    SentenceHas(split(para), s, max, tokens);
    NoParagraphs(max, tokens, split);
    OneMoreParagraph([], para, max, tokens, split);
    assert [] + [para] == [para];
    LargeUnitShows(Exploded([para], max, tokens, split), target, min, max, u);
    assert !WithinMax(ChunksOf(Exploded([para], max, tokens, split), target, min), max);
  }

  /** The module promises a maximum of tokens per chunk. With a counter that has texts of
      one token and of the maximum, it keeps the promise for every document exactly when
      the minimum is at most one and no cut of an oversize sentence is over the maximum. */
  lemma MaxPromiseIff(target: int, min: int, max: nat, tokens: string -> nat, split: string -> seq<string>,
                      a: string, b: string)
    requires max > 0 && target <= max && tokens(a) == 1 && tokens(b) == max
    ensures KeepsMax(target, min, max, tokens, split) <==> min <= 1 && CutsFit(max, tokens, split)
  {
    hide Exploded, ChunksOf, CutsFit, Largest;
    if min > 1 {
      Overrun(target, min, max, tokens, split, a, b);
      var chunks := ChunksOf(Exploded(Padded(a, min - 1, b), max, tokens, split), target, min);
      assert !WithinMax(chunks, max);
    } else if CutsFit(max, tokens, split) {
      forall paragraphs
        ensures WithinMax(ChunksOf(Exploded(paragraphs, max, tokens, split), target, min), max)
      {
        UnitsFit(paragraphs, max, tokens, split);
        LargestFits(Exploded(paragraphs, max, tokens, split), max);
        WithinBound(Exploded(paragraphs, max, tokens, split), target, min, max);
      }
    } else {
      LargeCutShows(target, min, max, tokens, split);
    }
  }

  const DEFAULT_TARGET := 800
  const DEFAULT_MAX := 1024
  const DEFAULT_MIN := 50

  /** With the default values a document of 50 paragraphs gets a chunk of 1073 tokens. */
  lemma DefaultsOverrun(tokens: string -> nat, split: string -> seq<string>, a: string, b: string)
    requires tokens(a) == 1 && tokens(b) == DEFAULT_MAX
    ensures var units := Exploded(Padded(a, 49, b), DEFAULT_MAX, tokens, split);
            exists c :: c in ChunksOf(units, DEFAULT_TARGET, DEFAULT_MIN) && c.tokenCount == 1073
    ensures !KeepsMax(DEFAULT_TARGET, DEFAULT_MIN, DEFAULT_MAX, tokens, split)
  {
    hide Exploded, ChunksOf, CutsFit;
    Overrun(DEFAULT_TARGET, DEFAULT_MIN, DEFAULT_MAX, tokens, split, a, b);
    MaxPromiseIff(DEFAULT_TARGET, DEFAULT_MIN, DEFAULT_MAX, tokens, split, a, b);
  }
}
