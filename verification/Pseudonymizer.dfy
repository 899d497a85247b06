// The sanitizer's masking step (rubezh-sanitizer/app/masking/pseudonymizer.py):
// numbering of the values, the cursor splice, the stored mappings, and the
// Python restore. Hash and cipher are parameters.
module Pseudonymizer {
  import opened Entities
  import opened Ordering
  import opened Bags
  import opened Names
  import opened Replacer
  import opened Strings

  /** A public entity: everything about a match except its raw value. */
  datatype Entity = Entity(
    etype: EntityType, category: Category, start: int, end: int,
    pseudonym: string, rawHash: string, detector: string, confidence: real)

  datatype Mapping<C> = Mapping(pseudonym: string, etype: EntityType, rawHash: string, rawEncrypted: C)

  // ----- which pseudonym a match gets

  function KeyOf(m: Match): (EntityType, string) { (m.etype, m.value) }

  /** The distinct (type, value) pairs under one prefix among the first `n` matches. */
  function KeysUpTo(ordered: seq<Match>, n: nat, prefix: string): set<(EntityType, string)>
    requires n <= |ordered|
  {
    set i | 0 <= i < n && Prefix(ordered[i].etype) == prefix :: KeyOf(ordered[i])
  }

  ghost predicate IsFirst(ordered: seq<Match>, k: nat, r: nat)
    requires k < |ordered|
  {
    && r <= k && KeyOf(ordered[r]) == KeyOf(ordered[k])
    && forall i :: 0 <= i < r ==> KeyOf(ordered[i]) != KeyOf(ordered[k])
  }

  lemma {:induction false} FirstExists(ordered: seq<Match>, k: nat, n: nat)
    requires n <= k < |ordered| && forall i :: 0 <= i < n ==> KeyOf(ordered[i]) != KeyOf(ordered[k])
    ensures exists r: nat :: IsFirst(ordered, k, r)
    decreases k - n
  {
    if KeyOf(ordered[n]) == KeyOf(ordered[k]) {
      assert IsFirst(ordered, k, n);
    } else {
      FirstExists(ordered, k, n + 1);
    }
  }

  /** Where the (type, value) pair of match `k` appears first. */
  ghost function First(ordered: seq<Match>, k: nat): (r: nat)
    requires k < |ordered|
    ensures IsFirst(ordered, k, r)
  {
    FirstExists(ordered, k, 0);
    var r: nat :| IsFirst(ordered, k, r);
    r
  }

  /** Values are numbered per prefix in the order of their first appearance. */
  ghost function Name(ordered: seq<Match>, k: nat): string
    requires k < |ordered|
  {
    var t := ordered[k].etype;
    Format(t, |KeysUpTo(ordered, First(ordered, k) + 1, Prefix(t))|)
  }

  lemma FirstSame(ordered: seq<Match>, j: nat, k: nat)
    requires j < |ordered| && k < |ordered| && KeyOf(ordered[j]) == KeyOf(ordered[k])
    ensures First(ordered, j) == First(ordered, k)
  {
  }

  lemma KeysGrow(ordered: seq<Match>, n: nat, prefix: string)
    requires n < |ordered|
    ensures KeysUpTo(ordered, n + 1, prefix) ==
            KeysUpTo(ordered, n, prefix) +
            if Prefix(ordered[n].etype) == prefix then {KeyOf(ordered[n])} else {}
  {
  }

  lemma KeysMonotone(ordered: seq<Match>, a: nat, b: nat, prefix: string)
    requires a <= b <= |ordered|
    ensures KeysUpTo(ordered, a, prefix) <= KeysUpTo(ordered, b, prefix)
  {
  }

  lemma ProperSubsetSmaller<T>(a: set<T>, b: set<T>, x: T)
    requires a <= b && x in b && x !in a
    ensures |a| < |b|
  {
    assert |b| == |a| + |b - a|;
    assert x in b - a;
  }

  lemma CountRises(ordered: seq<Match>, a: nat, b: nat, p: string)
    requires a < b < |ordered| && Prefix(ordered[b].etype) == p
    requires forall i :: 0 <= i < b ==> KeyOf(ordered[i]) != KeyOf(ordered[b])
    ensures |KeysUpTo(ordered, a + 1, p)| < |KeysUpTo(ordered, b + 1, p)|
  {
    KeysMonotone(ordered, a + 1, b + 1, p);
    assert KeyOf(ordered[b]) in KeysUpTo(ordered, b + 1, p);
    assert KeyOf(ordered[b]) !in KeysUpTo(ordered, a + 1, p);
    ProperSubsetSmaller(KeysUpTo(ordered, a + 1, p), KeysUpTo(ordered, b + 1, p), KeyOf(ordered[b]));
  }

  lemma CountsDiffer(ordered: seq<Match>, a: nat, b: nat, p: string)
    requires a < |ordered| && b < |ordered| && IsFirst(ordered, a, a) && IsFirst(ordered, b, b)
    requires Prefix(ordered[a].etype) == p == Prefix(ordered[b].etype)
    requires |KeysUpTo(ordered, a + 1, p)| == |KeysUpTo(ordered, b + 1, p)|
    ensures a == b
  {
    if a < b {
      CountRises(ordered, a, b, p);
    } else if b < a {
      CountRises(ordered, b, a, p);
    }
  }

  /** One pseudonym per (type, value) pair: equal pairs share it, others never do. */
  lemma NamesInjective(ordered: seq<Match>, j: nat, k: nat)
    requires j < |ordered| && k < |ordered|
    ensures Name(ordered, j) == Name(ordered, k) <==> KeyOf(ordered[j]) == KeyOf(ordered[k])
  {
    hide Prefix, Format;
    var t, u := ordered[j].etype, ordered[k].etype;
    var a, b := First(ordered, j), First(ordered, k);
    if KeyOf(ordered[j]) == KeyOf(ordered[k]) {
      FirstSame(ordered, j, k);
    } else if Name(ordered, j) == Name(ordered, k) {
      FormatInjective(t, |KeysUpTo(ordered, a + 1, Prefix(t))|, u, |KeysUpTo(ordered, b + 1, Prefix(u))|);
      CountsDiffer(ordered, a, b, Prefix(t));
    }
  }

  // ----- the masked text

  /** The matches are real spans of the text, in text order, none overlapping. */
  ghost predicate Spanned(text: string, ordered: seq<Match>) {
    && (forall k :: 0 <= k < |ordered| ==> IsSpan(text, ordered[k]))
    && (forall j, k :: 0 <= j < k < |ordered| ==> ordered[j].end <= ordered[k].start)
  }

  ghost predicate IsSpan(text: string, m: Match) {
    0 <= m.start < m.end <= |text| && m.value == text[m.start..m.end]
  }

  /** What `pseudonymize` asks of its caller. */
  ghost predicate Maskable(text: string, matches: seq<Match>) {
    (forall m :: m in matches ==> IsSpan(text, m)) && PairwiseDisjoint(matches)
  }

  function Cursor(ordered: seq<Match>, k: nat): int
    requires k <= |ordered|
  {
    if k == 0 then 0 else ordered[k - 1].end
  }

  /** The free text between match `k - 1` and match `k`. */
  ghost function Gap(text: string, ordered: seq<Match>, k: nat): string
    requires Spanned(text, ordered) && k <= |ordered|
  {
    text[Cursor(ordered, k)..if k == |ordered| then |text| else ordered[k].start]
  }

  /** The text from match `k` on, with every span replaced by its name. */
  ghost function Masked(text: string, ordered: seq<Match>, k: nat): string
    requires Spanned(text, ordered) && k <= |ordered|
    decreases |ordered| - k
  {
    if k == |ordered| then Gap(text, ordered, k)
    else Gap(text, ordered, k) + (Name(ordered, k) + Masked(text, ordered, k + 1))
  }

  lemma MaskableSpanned(text: string, matches: seq<Match>)
    requires Maskable(text, matches)
    ensures Spanned(text, Sort(StartKey, matches))
  {
    var ordered := Sort(StartKey, matches);
    SameMembers(matches, ordered);
    assert forall k :: 0 <= k < |ordered| ==> ordered[k] in matches;
    SortedDisjoint(matches, ordered);
  }

  lemma SortedDisjoint(matches: seq<Match>, ordered: seq<Match>)
    requires multiset(matches) == multiset(ordered) && Sorted(StartKey, ordered) && PairwiseDisjoint(matches)
    requires forall k :: 0 <= k < |ordered| ==> ordered[k].start < ordered[k].end
    ensures forall j, k :: 0 <= j < k < |ordered| ==> ordered[j].end <= ordered[k].start
  {
    assert Pairwise(Disjoint, matches) by {
      forall i, j | 0 <= i < |matches| && 0 <= j < |matches| && i != j
        ensures Disjoint(matches[i], matches[j])
      {
        assert Disjoint(matches[if i < j then i else j], matches[if i < j then j else i]);
      }
    }
    PairwisePermute(Disjoint, matches, ordered);
    forall j, k | 0 <= j < k < |ordered|
      ensures ordered[j].end <= ordered[k].start
    {
      assert Le(StartKey(ordered[j]), StartKey(ordered[k]));
      assert Disjoint(ordered[j], ordered[k]);
    }
  }

  // ----- the loop

  function EntityFor(m: Match, pseudonym: string, hash: string -> string): Entity {
    Entity(m.etype, m.category, m.start, m.end, pseudonym, hash(m.value), m.detector, m.confidence)
  }

  ghost predicate EntitiesOf(ordered: seq<Match>, n: nat, hash: string -> string, entities: seq<Entity>)
    requires n <= |ordered|
  {
    |entities| == n && forall k :: 0 <= k < n ==> entities[k] == EntityFor(ordered[k], Name(ordered, k), hash)
  }

  /** `seen` lists the first appearances among the first `n` matches, in order, and
      the mappings are theirs, each decrypting to the raw value. */
  ghost predicate MappingsOf<C>(ordered: seq<Match>, n: nat, hash: string -> string, decrypt: C -> string,
                                mappings: seq<Mapping<C>>, seen: seq<nat>)
    requires n <= |ordered|
  {
    && Increasing(seen, n) && |mappings| == |seen|
    && (forall k :: 0 <= k < n ==> First(ordered, k) in seen)
    && (forall i :: 0 <= i < |seen| ==>
          var m := ordered[seen[i]];
          && First(ordered, seen[i]) == seen[i]
          && mappings[i].pseudonym == Name(ordered, seen[i])
          && mappings[i].etype == m.etype
          && mappings[i].rawHash == hash(m.value)
          && decrypt(mappings[i].rawEncrypted) == m.value)
  }

  ghost predicate Counted(ordered: seq<Match>, n: nat, counters: map<string, nat>)
    requires n <= |ordered|
  {
    forall p :: (if p in counters then counters[p] else 0) == |KeysUpTo(ordered, n, p)|
  }

  /** `naming` holds the names of exactly the pairs met so far. */
  ghost predicate Named(ordered: seq<Match>, n: nat, naming: map<(EntityType, string), string>)
    requires n <= |ordered|
  {
    && (forall k :: 0 <= k < n ==> KeyOf(ordered[k]) in naming && naming[KeyOf(ordered[k])] == Name(ordered, k))
    && (forall key :: key in naming ==> exists k :: 0 <= k < n && KeyOf(ordered[k]) == key)
  }

  lemma KnownPair(ordered: seq<Match>, n: nat, naming: map<(EntityType, string), string>)
    requires n < |ordered| && Named(ordered, n, naming) && KeyOf(ordered[n]) in naming
    ensures naming[KeyOf(ordered[n])] == Name(ordered, n) && First(ordered, n) < n
    ensures Named(ordered, n + 1, naming)
  {
    hide Prefix, Format, Name, KeysUpTo;
    var k :| 0 <= k < n && KeyOf(ordered[k]) == KeyOf(ordered[n]);
    NamesInjective(ordered, k, n);
  }

  lemma KnownPairCounts(ordered: seq<Match>, n: nat, counters: map<string, nat>)
    requires n < |ordered| && Counted(ordered, n, counters) && First(ordered, n) < n
    ensures Counted(ordered, n + 1, counters)
  {
    var k := First(ordered, n);
    forall p
      ensures KeysUpTo(ordered, n + 1, p) == KeysUpTo(ordered, n, p)
    {
      KeysGrow(ordered, n, p);
      assert Prefix(ordered[n].etype) == p ==> KeyOf(ordered[k]) in KeysUpTo(ordered, n, p);
    }
  }

  lemma NewPair(ordered: seq<Match>, n: nat, naming: map<(EntityType, string), string>)
    requires n < |ordered| && Named(ordered, n, naming) && KeyOf(ordered[n]) !in naming
    ensures First(ordered, n) == n
    ensures Named(ordered, n + 1, naming[KeyOf(ordered[n]) := Name(ordered, n)])
  {
    hide Prefix, Format, Name, KeysUpTo;
    assert forall i :: 0 <= i < n ==> KeyOf(ordered[i]) in naming;
    var naming' := naming[KeyOf(ordered[n]) := Name(ordered, n)];
    forall key | key in naming'
      ensures exists k :: 0 <= k < n + 1 && KeyOf(ordered[k]) == key
    {
      if key in naming {
        var k :| 0 <= k < n && KeyOf(ordered[k]) == key;
      } else {
        assert KeyOf(ordered[n]) == key;
      }
    }
  }

  lemma NewKey(ordered: seq<Match>, n: nat, p: string)
    requires n < |ordered| && First(ordered, n) == n
    ensures KeyOf(ordered[n]) !in KeysUpTo(ordered, n, p)
  {
    hide Prefix;
  }

  lemma NewPairCounts(ordered: seq<Match>, n: nat, counters: map<string, nat>)
    requires n < |ordered| && Counted(ordered, n, counters) && First(ordered, n) == n
    ensures var p := Prefix(ordered[n].etype);
            var c := (if p in counters then counters[p] else 0) + 1;
            Name(ordered, n) == Format(ordered[n].etype, c) && Counted(ordered, n + 1, counters[p := c])
  {
    hide Prefix, Format, KeysUpTo;
    var p := Prefix(ordered[n].etype);
    KeysGrow(ordered, n, p);
    NewKey(ordered, n, p);
    var counters' := counters[p := (if p in counters then counters[p] else 0) + 1];
    forall q
      ensures (if q in counters' then counters'[q] else 0) == |KeysUpTo(ordered, n + 1, q)|
    {
      KeysGrow(ordered, n, q);
    }
  }

  lemma ConcatTwo(parts: seq<string>, a: string, b: string, rest: string)
    ensures Concat(parts + [a] + [b]) + rest == Concat(parts) + (a + (b + rest))
  {
    ConcatAppend(parts, a);
    ConcatAppend(parts + [a], b);
  }

  lemma GapAt(text: string, ordered: seq<Match>, n: nat)
    requires Spanned(text, ordered) && n < |ordered|
    ensures 0 <= Cursor(ordered, n) <= ordered[n].start < ordered[n].end <= |text|
    ensures Gap(text, ordered, n) == text[Cursor(ordered, n)..ordered[n].start]
  {
    assert IsSpan(text, ordered[n]);
    assert n > 0 ==> IsSpan(text, ordered[n - 1]);
  }

  lemma LastGapAt(text: string, ordered: seq<Match>)
    requires Spanned(text, ordered)
    ensures 0 <= Cursor(ordered, |ordered|) <= |text|
    ensures Gap(text, ordered, |ordered|) == text[Cursor(ordered, |ordered|)..]
  {
    assert |ordered| > 0 ==> IsSpan(text, ordered[|ordered| - 1]);
  }

  lemma SpliceStep(text: string, ordered: seq<Match>, n: nat, parts: seq<string>)
    requires Spanned(text, ordered) && n < |ordered|
    ensures Concat(parts + [Gap(text, ordered, n)] + [Name(ordered, n)]) + Masked(text, ordered, n + 1)
         == Concat(parts) + Masked(text, ordered, n)
  {
    hide Name, Concat, Gap;
    ConcatTwo(parts, Gap(text, ordered, n), Name(ordered, n), Masked(text, ordered, n + 1));
  }

  lemma SpliceEnd(text: string, ordered: seq<Match>, parts: seq<string>)
    requires Spanned(text, ordered)
    ensures Concat(parts + [Gap(text, ordered, |ordered|)]) == Concat(parts) + Masked(text, ordered, |ordered|)
  {
    ConcatAppend(parts, Gap(text, ordered, |ordered|));
  }

  lemma EntityAdded(ordered: seq<Match>, n: nat, hash: string -> string, entities: seq<Entity>)
    requires n < |ordered| && EntitiesOf(ordered, n, hash, entities)
    ensures EntitiesOf(ordered, n + 1, hash, entities + [EntityFor(ordered[n], Name(ordered, n), hash)])
  {
    hide Name;
  }

  lemma MappingKept<C>(ordered: seq<Match>, n: nat, hash: string -> string, decrypt: C -> string,
                       mappings: seq<Mapping<C>>, seen: seq<nat>)
    requires n < |ordered| && MappingsOf(ordered, n, hash, decrypt, mappings, seen) && First(ordered, n) < n
    ensures MappingsOf(ordered, n + 1, hash, decrypt, mappings, seen)
  {
    hide Prefix, Format;
    FirstSame(ordered, First(ordered, n), n);
    assert First(ordered, First(ordered, n)) in seen;
  }

  lemma MappingAdded<C>(ordered: seq<Match>, n: nat, hash: string -> string, decrypt: C -> string,
                        mappings: seq<Mapping<C>>, seen: seq<nat>, mp: Mapping<C>)
    requires n < |ordered| && MappingsOf(ordered, n, hash, decrypt, mappings, seen) && First(ordered, n) == n
    requires mp.pseudonym == Name(ordered, n) && mp.etype == ordered[n].etype
    requires mp.rawHash == hash(ordered[n].value) && decrypt(mp.rawEncrypted) == ordered[n].value
    ensures MappingsOf(ordered, n + 1, hash, decrypt, mappings + [mp], seen + [n])
  {
    hide Prefix, Format;
    assert forall k :: 0 <= k < n ==> First(ordered, k) in seen;
    assert (seen + [n])[|seen|] == n;
  }

  /** The naming state of the loop: the counters, the names given, the mappings kept. */
  ghost predicate Naming<C>(ordered: seq<Match>, n: nat, hash: string -> string, decrypt: C -> string,
                            counters: map<string, nat>, naming: map<(EntityType, string), string>,
                            mappings: seq<Mapping<C>>, seen: seq<nat>)
    requires n <= |ordered|
  {
    Counted(ordered, n, counters) && Named(ordered, n, naming) && MappingsOf(ordered, n, hash, decrypt, mappings, seen)
  }

  lemma NothingYet<C>(text: string, ordered: seq<Match>, hash: string -> string, decrypt: C -> string)
    ensures Naming(ordered, 0, hash, decrypt, map[], map[], [], []) && EntitiesOf(ordered, 0, hash, [])
    ensures Concat([]) == ""
  {
  }

  /** The pseudonym of match `n`: the one its pair has already, or the next number. */
  method NameMatch<C>(ghost ordered: seq<Match>, ghost n: nat, m: Match, hash: string -> string,
                      encrypt: (string, nat) -> C, ghost decrypt: C -> string,
                      counters: map<string, nat>, naming: map<(EntityType, string), string>,
                      mappings: seq<Mapping<C>>, ghost seen: seq<nat>)
    returns (pseudonym: string, counters': map<string, nat>, naming': map<(EntityType, string), string>,
             mappings': seq<Mapping<C>>, ghost seen': seq<nat>)
    requires n < |ordered| && m == ordered[n]
    requires Naming(ordered, n, hash, decrypt, counters, naming, mappings, seen)
    requires forall v: string, nonce: nat :: decrypt(encrypt(v, nonce)) == v
    ensures pseudonym == Name(ordered, n)
    ensures Naming(ordered, n + 1, hash, decrypt, counters', naming', mappings', seen')
  {
    hide Prefix, Format, Name, KeysUpTo, MappingsOf, Counted, Named;
    counters', naming', mappings', seen' := counters, naming, mappings, seen;
    if KeyOf(m) in naming {
      KnownPair(ordered, n, naming);
      KnownPairCounts(ordered, n, counters);
      pseudonym := naming[KeyOf(m)];
      MappingKept(ordered, n, hash, decrypt, mappings, seen);
    } else {
      NewPair(ordered, n, naming);
      NewPairCounts(ordered, n, counters);
      var prefix := Prefix(m.etype);
      var number := (if prefix in counters then counters[prefix] else 0) + 1;
      counters' := counters[prefix := number];
      pseudonym := Format(m.etype, number);
      naming' := naming[KeyOf(m) := pseudonym];
      var mp := Mapping(pseudonym, m.etype, hash(m.value), encrypt(m.value, |mappings|));
      MappingAdded(ordered, n, hash, decrypt, mappings, seen, mp);
      mappings', seen' := mappings + [mp], seen + [n];
    }
  }

  method Pseudonymize<C>(text: string, matches: seq<Match>, hash: string -> string,
                         encrypt: (string, nat) -> C, ghost decrypt: C -> string)
    returns (sanitized: string, entities: seq<Entity>, mappings: seq<Mapping<C>>, ghost seen: seq<nat>)
    requires Maskable(text, matches)
    requires forall v: string, nonce: nat :: decrypt(encrypt(v, nonce)) == v
    ensures var ordered := Sort(StartKey, matches);
            && Spanned(text, ordered)
            && sanitized == Masked(text, ordered, 0)
            && EntitiesOf(ordered, |ordered|, hash, entities)
    ensures var ordered := Sort(StartKey, matches);
            MappingsOf(ordered, |ordered|, hash, decrypt, mappings, seen)
  {
    hide Prefix, Format, Name, KeysUpTo, MappingsOf, Counted, Named, EntitiesOf, Masked, Concat, Gap, Spanned, Sort;
    var ordered := Sort(StartKey, matches);
    MaskableSpanned(text, matches);
    var counters: map<string, nat> := map[];
    var naming: map<(EntityType, string), string> := map[];
    var parts: seq<string> := [];
    entities, mappings, seen := [], [], [];
    NothingYet(text, ordered, hash, decrypt);
    var cursor := 0;
    for n := 0 to |ordered|
      invariant cursor == Cursor(ordered, n)
      invariant Concat(parts) + Masked(text, ordered, n) == Masked(text, ordered, 0)
      invariant Naming(ordered, n, hash, decrypt, counters, naming, mappings, seen)
      invariant EntitiesOf(ordered, n, hash, entities)
    {
      var m := ordered[n];
      var pseudonym;
      pseudonym, counters, naming, mappings, seen :=
        NameMatch(ordered, n, m, hash, encrypt, decrypt, counters, naming, mappings, seen);
      GapAt(text, ordered, n);
      SpliceStep(text, ordered, n, parts);
      EntityAdded(ordered, n, hash, entities);
      parts := parts + [text[cursor..m.start]] + [pseudonym];
      cursor := m.end;
      entities := entities + [EntityFor(m, pseudonym, hash)];
    }
    LastGapAt(text, ordered);
    SpliceEnd(text, ordered, parts);
    sanitized := Concat(parts + [text[cursor..]]);
  }

  // ----- restore

  lemma {:induction false} FirstWinsSet(pairs: seq<(string, string)>, d: map<string, string>)
    requires forall i :: 0 <= i < |pairs| ==> pairs[i].0 in d && pairs[i].1 == d[pairs[i].0]
    requires forall key :: key in d ==> (key, d[key]) in pairs
    ensures FirstWins(pairs) == d
  {
    var f := FirstWins(pairs);
    forall key | key in f
      ensures key in d && f[key] == d[key]
    {
      var k := FirstWinsKey(pairs, key);
    }
    forall key | key in d
      ensures key in f
    {
      var k :| 0 <= k < |pairs| && pairs[k] == (key, d[key]);
      FirstWinsHas(pairs, k);
    }
  }

  /** Reads a dictionary out as pairs, in whatever order its keys come. */
  method PairsOf(d: map<string, string>) returns (pairs: seq<(string, string)>)
    ensures forall i :: 0 <= i < |pairs| ==> pairs[i].0 in d && pairs[i].1 == d[pairs[i].0]
    ensures forall key :: key in d ==> (key, d[key]) in pairs
  {
    pairs := [];
    var left := d.Keys;
    while left != {}
      invariant left <= d.Keys
      invariant forall i :: 0 <= i < |pairs| ==> pairs[i].0 in d && pairs[i].1 == d[pairs[i].0]
      invariant forall key :: key in d && key !in left ==> (key, d[key]) in pairs
      decreases |left|
    {
      var key :| key in left;
      left := left - {key};
      pairs := pairs + [(key, d[key])];
    }
  }

  /** The last mapping recorded for a pseudonym counts. */
  function RawByPseudonym<C>(mappings: seq<Mapping<C>>, decrypt: C -> string): map<string, string> {
    if mappings == [] then map[]
    else
      var last := mappings[|mappings| - 1];
      RawByPseudonym(mappings[..|mappings| - 1], decrypt)[last.pseudonym := decrypt(last.rawEncrypted)]
  }

  function MostCharactersFirst(p: (string, string)): (int, int) { (-|p.0|, 0) }

  method SortLongestFirst(pairs: seq<(string, string)>) returns (sorted: seq<(string, string)>)
    ensures multiset(sorted) == multiset(pairs) && LongerFirst(sorted)
  {
    sorted := Sort(MostCharactersFirst, pairs);
    assert forall i, j :: 0 <= i < j < |sorted| ==> Le(MostCharactersFirst(sorted[i]), MostCharactersFirst(sorted[j]));
  }

  /** The Python `restore`: alternatives sorted by length, longest first. */
  method Restore<C>(text: string, mappings: seq<Mapping<C>>, decrypt: C -> string) returns (out: string)
    ensures out == Substitute(RawByPseudonym(mappings, decrypt), text)
  {
    var d := RawByPseudonym(mappings, decrypt);
    if |mappings| == 0 {
      LiteralTokens(d.Keys, text);
      LiteralsRender(d, text);
      return text;
    }
    var pairs := PairsOf(d);
    var sorted := SortLongestFirst(pairs);
    SameMembers(pairs, sorted);
    forall i | 0 <= i < |sorted|
      ensures sorted[i].0 in d && sorted[i].1 == d[sorted[i].0]
    {
      assert sorted[i] in pairs;
    }
    FirstWinsSet(sorted, d);
    ScanIsSubstitute(sorted, d, text);
    out := ScanPairs(sorted, text, false);
  }
}
