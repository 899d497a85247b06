// What restoring makes of the sanitizer's masked text, in every case, and exactly
// when that is the text the sanitizer was given.
module RoundTrip {
  import opened Entities
  import opened Ordering
  import opened Bags
  import opened Names
  import opened Replacer
  import opened Strings
  import opened Pseudonymizer
  import opened PseudonymMap
  import opened Weave
  import Remask
  import Overlap

  /** `d` maps the issued pseudonyms, and nothing else, to their raw values. */
  ghost predicate Dictionary(d: map<string, string>, ordered: seq<Match>) {
    && (forall k :: 0 <= k < |ordered| ==> Name(ordered, k) in d && d[Name(ordered, k)] == ordered[k].value)
    && (forall key :: key in d ==> exists k :: 0 <= k < |ordered| && Name(ordered, k) == key)
  }

  /** No issued pseudonym occurs in the text outside the matches. */
  ghost predicate Clean(text: string, ordered: seq<Match>, keys: set<string>)
    requires Spanned(text, ordered)
  {
    forall k :: 0 <= k <= |ordered| ==> Untouched(keys, Gap(text, ordered, k))
  }

  ghost predicate FewPerPrefix(ordered: seq<Match>) {
    forall p :: |KeysUpTo(ordered, |ordered|, p)| < 1000
  }

  ghost predicate NoDigitFollows(text: string, ordered: seq<Match>)
    requires Spanned(text, ordered)
  {
    forall k :: 0 < k <= |ordered| && Gap(text, ordered, k) != "" ==> !IsDigit(Gap(text, ordered, k)[0])
  }

  // ----- the masked text as free text and pseudonyms

  /** Each match's pseudonym with the free text after it. */
  ghost function Links(text: string, ordered: seq<Match>): (links: seq<Link>)
    requires Spanned(text, ordered)
    ensures |links| == |ordered|
  {
    seq(|ordered|, k requires 0 <= k < |ordered| => Link(Name(ordered, k), Gap(text, ordered, k + 1)))
  }

  lemma KeyIsName(d: map<string, string>, ordered: seq<Match>, key: string) returns (t: EntityType, n: nat)
    requires Dictionary(d, ordered) && key in d
    ensures key == Format(t, n) && key != ""
    ensures FewPerPrefix(ordered) ==> n < 1000
  {
    var k :| 0 <= k < |ordered| && Name(ordered, k) == key;
    t := ordered[k].etype;
    n := |KeysUpTo(ordered, First(ordered, k) + 1, Prefix(t))|;
    KeysMonotone(ordered, First(ordered, k) + 1, |ordered|, Prefix(t));
    SubsetSize(KeysUpTo(ordered, First(ordered, k) + 1, Prefix(t)), KeysUpTo(ordered, |ordered|, Prefix(t)));
    FormatShaped(t, n);
  }

  lemma NamesArePseudonyms(text: string, ordered: seq<Match>, d: map<string, string>)
    requires Spanned(text, ordered) && Dictionary(d, ordered)
    ensures Pseudonyms(d.Keys) && "" !in d && Known(d.Keys, Links(text, ordered))
  {
    hide Name;
    forall key | key in d
      ensures IsPseudonym(key)
    {
      var t, n := KeyIsName(d, ordered, key);
    }
    NoEmptyPseudonym(d.Keys);
  }

  lemma {:induction false} MaskedIsWoven(text: string, ordered: seq<Match>, k: nat)
    requires Spanned(text, ordered) && k <= |ordered|
    ensures Masked(text, ordered, k) == Gap(text, ordered, k) + Strand(Links(text, ordered)[k..])
    decreases |ordered| - k
  {
    hide Name, Gap;
    if k < |ordered| {
      MaskedIsWoven(text, ordered, k + 1);
      assert Links(text, ordered)[k..][1..] == Links(text, ordered)[k + 1..];
    }
  }

  lemma GapThenRest(text: string, ordered: seq<Match>, k: nat)
    requires Spanned(text, ordered) && k < |ordered|
    ensures text[Cursor(ordered, k)..] ==
            Gap(text, ordered, k) + (ordered[k].value + text[Cursor(ordered, k + 1)..])
  {
    assert IsSpan(text, ordered[k]);
    assert k > 0 ==> IsSpan(text, ordered[k - 1]);
  }

  lemma CursorInText(text: string, ordered: seq<Match>, k: nat)
    requires Spanned(text, ordered) && k <= |ordered|
    ensures 0 <= Cursor(ordered, k) <= |text|
    ensures k == |ordered| ==> Gap(text, ordered, k) == text[Cursor(ordered, k)..]
  {
    assert k > 0 ==> IsSpan(text, ordered[k - 1]);
  }

  lemma {:induction false} TextIsOriginal(text: string, ordered: seq<Match>, d: map<string, string>, k: nat)
    requires Spanned(text, ordered) && Dictionary(d, ordered) && k <= |ordered|
    requires Known(d.Keys, Links(text, ordered)[k..])
    ensures 0 <= Cursor(ordered, k) <= |text|
    ensures text[Cursor(ordered, k)..] == Gap(text, ordered, k) + Original(d, Links(text, ordered)[k..])
    decreases |ordered| - k
  {
    hide Name, Gap, Spanned, Cursor;
    CursorInText(text, ordered, k);
    var links := Links(text, ordered)[k..];
    if k < |ordered| {
      assert links[1..] == Links(text, ordered)[k + 1..];
      CursorInText(text, ordered, k + 1);
      TextIsOriginal(text, ordered, d, k + 1);
      GapThenRest(text, ordered, k);
    }
  }

  ghost predicate BackTo(restored: string, text: string, ordered: seq<Match>, d: map<string, string>)
    requires Spanned(text, ordered)
  {
    var head, links := Gap(text, ordered, 0), Links(text, ordered);
    && Known(d.Keys, links)
    && restored == Substitute(d, head) + Restored(d, links)
    && (Intact(d, head, links) ==> restored == text)
    && (AllTelling(d, head, links) ==> (restored == text <==> Intact(d, head, links)))
  }

  /** The round trip, exactly. Restoring puts back, for each match, the value of the
      longest pseudonym that can be read there, and substitutes the free text by itself.
      The original comes back if every such value is the one that was meant and no issued
      pseudonym can be read in the rest of the free text; and, where a wrong reading
      shows, only then. */
  lemma RestoreIff(text: string, ordered: seq<Match>, d: map<string, string>)
    requires Spanned(text, ordered) && Dictionary(d, ordered)
    ensures BackTo(Substitute(d, Masked(text, ordered, 0)), text, ordered, d)
  {
    hide Name, Masked, Dictionary, Substitute, Gap, Intact, AllTelling, Restored, Original, Strand;
    var links := Links(text, ordered);
    NamesArePseudonyms(text, ordered, d);
    MaskedIsWoven(text, ordered, 0);
    assert links[0..] == links && text[0..] == text;
    TextIsOriginal(text, ordered, d, 0);
    WovenRestores(d, Gap(text, ordered, 0), links);
    OriginalIff(d, Gap(text, ordered, 0), links);
  }

  // ----- when no pseudonym can be read on

  ghost predicate Bounded(text: string, ordered: seq<Match>, keys: set<string>, k: nat)
    requires Spanned(text, ordered) && k < |ordered|
  {
    forall key :: key in keys && key <= Name(ordered, k) + Gap(text, ordered, k + 1) ==> |key| <= |Name(ordered, k)|
  }

  /** No key can be read on past the end of an inserted pseudonym. */
  ghost predicate Sealed(text: string, ordered: seq<Match>, keys: set<string>)
    requires Spanned(text, ordered)
  {
    forall k :: 0 <= k < |ordered| ==> Bounded(text, ordered, keys, k)
  }

  /** A pseudonym that also stands outside the matches stands for a value without
      underscores. */
  ghost predicate PlainOutside(text: string, ordered: seq<Match>, d: map<string, string>)
    requires Spanned(text, ordered)
  {
    forall j :: 0 <= j <= |ordered| ==> PlainIn(d, Gap(text, ordered, j))
  }

  lemma NothingTaken(text: string, ordered: seq<Match>, keys: set<string>, k: nat)
    requires Spanned(text, ordered) && k < |ordered| && Bounded(text, ordered, keys, k)
    requires Known(keys, Links(text, ordered))
    ensures Taken(keys, Links(text, ordered)[k]) == 0
  {
    hide Name, Gap;
    var l := Links(text, ordered)[k];
    var n := Taken(keys, l);
    assert l.name + l.gap[..n] <= l.name + l.gap;
  }

  /** Then the condition is that no issued pseudonym occurs outside the matches, and the
      proviso is that those which do stand for values without underscores. */
  lemma SealedIntact(text: string, ordered: seq<Match>, d: map<string, string>)
    requires Spanned(text, ordered) && Dictionary(d, ordered) && Sealed(text, ordered, d.Keys)
    ensures var head, links := Gap(text, ordered, 0), Links(text, ordered);
      && Known(d.Keys, links)
      && (Intact(d, head, links) <==> Clean(text, ordered, d.Keys))
      && (AllTelling(d, head, links) <==> PlainOutside(text, ordered, d))
  {
    hide Name, Gap, Clean, PlainOutside, Intact, AllTelling, Taken, Dictionary, Bounded;
    NamesArePseudonyms(text, ordered, d);
    forall k | 0 <= k < |ordered|
      ensures Taken(d.Keys, Links(text, ordered)[k]) == 0
    {
      NothingTaken(text, ordered, d.Keys, k);
    }
    UntakenIntact(d, Gap(text, ordered, 0), Links(text, ordered));
    GapsFromLinks(text, ordered, d);
  }

  lemma GapsFromLinks(text: string, ordered: seq<Match>, d: map<string, string>)
    requires Spanned(text, ordered)
    ensures var head, links := Gap(text, ordered, 0), Links(text, ordered);
      && (Clean(text, ordered, d.Keys) <==>
            Untouched(d.Keys, head) && forall k :: 0 <= k < |links| ==> Untouched(d.Keys, links[k].gap))
      && (PlainOutside(text, ordered, d) <==>
            PlainIn(d, head) && forall k :: 0 <= k < |links| ==> PlainIn(d, links[k].gap))
  {
    hide Name, Gap, Untouched, PlainIn;
    var links := Links(text, ordered);
    assert forall k :: 0 < k <= |ordered| ==> Gap(text, ordered, k) == links[k - 1].gap;
    assert forall k :: 0 <= k < |ordered| ==> links[k].gap == Gap(text, ordered, k + 1);
  }

  lemma SealedByLength(text: string, ordered: seq<Match>, d: map<string, string>)
    requires Spanned(text, ordered) && Dictionary(d, ordered) && FewPerPrefix(ordered)
    ensures Sealed(text, ordered, d.Keys)
  {
    hide Prefix, Pad3, Gap, Decimal;
    forall k, key | 0 <= k < |ordered| && key in d.Keys && key <= Name(ordered, k) + Gap(text, ordered, k + 1)
      ensures |key| <= |Name(ordered, k)|
    {
      var t, n := KeyIsName(d, ordered, key);
      var u := ordered[k].etype;
      var m := |KeysUpTo(ordered, First(ordered, k) + 1, Prefix(u))|;
      SamePrefixAtStart(t, n, u, m, Gap(text, ordered, k + 1));
      ShortPad(n);
    }
  }

  lemma NextCharacter(a: string, b: string, rest: string)
    requires a <= b + rest && |b| < |a|
    ensures rest != "" && rest[0] == a[|b|]
  {
    assert (b + rest)[|b|] == rest[0];
  }

  lemma SealedByText(text: string, ordered: seq<Match>, d: map<string, string>)
    requires Spanned(text, ordered) && Dictionary(d, ordered) && NoDigitFollows(text, ordered)
    ensures Sealed(text, ordered, d.Keys)
  {
    hide Prefix, Pad3, Gap, Decimal;
    forall k, key | 0 <= k < |ordered| && key in d.Keys && key <= Name(ordered, k) + Gap(text, ordered, k + 1)
      ensures |key| <= |Name(ordered, k)|
    {
      var t, n := KeyIsName(d, ordered, key);
      var u := ordered[k].etype;
      var m := |KeysUpTo(ordered, First(ordered, k) + 1, Prefix(u))|;
      var rest := Gap(text, ordered, k + 1);
      SamePrefixAtStart(t, n, u, m, rest);
      if |Pad3(m)| < |Pad3(n)| {
        NextCharacter(Pad3(n), Pad3(m), rest);
      }
    }
  }

  /** Two ways to see that no pseudonym can be read on: no prefix reaches a thousand
      numbers, or no digit follows a match directly. */
  lemma SealedWhen(text: string, ordered: seq<Match>, d: map<string, string>)
    requires Spanned(text, ordered) && Dictionary(d, ordered)
    requires FewPerPrefix(ordered) || NoDigitFollows(text, ordered)
    ensures Sealed(text, ordered, d.Keys)
  {
    hide Sealed, Dictionary;
    if FewPerPrefix(ordered) {
      SealedByLength(text, ordered, d);
    } else {
      SealedByText(text, ordered, d);
    }
  }

  lemma OccursCharacter(key: string, text: string, c: char)
    requires Occurs(key, text) && c in key
    ensures c in text
  {
    var j :| 0 <= j <= |text| && key <= text[j..];
    var b :| 0 <= b < |key| && key[b] == c;
    assert text[j..][b] == text[j + b];
  }

  /** In particular a text with no underscore outside its matches is safe. */
  lemma NoUnderscoreOutsideIsClean(text: string, ordered: seq<Match>, d: map<string, string>)
    requires Spanned(text, ordered) && Dictionary(d, ordered)
    requires forall k, i :: 0 <= k <= |ordered| && 0 <= i < |Gap(text, ordered, k)| ==> Gap(text, ordered, k)[i] != '_'
    ensures Clean(text, ordered, d.Keys)
  {
    hide Name, Prefix, Pad3;
    forall k, key | 0 <= k <= |ordered| && key in d.Keys
      ensures !Occurs(key, Gap(text, ordered, k))
    {
      var gap := Gap(text, ordered, k);
      var t, n := KeyIsName(d, ordered, key);
      FormatShaped(t, n);
      assert key[|Prefix(t)|] == '_';
      assert '_' !in gap;
      if Occurs(key, gap) {
        OccursCharacter(key, gap, '_');
      }
    }
  }

  const SAMPLE := "ФИО_001 Иван"
  const SAMPLE_MATCH := Match(Person, Pii, 8, 12, "Иван", "regex", 1.0)

  lemma SampleName(m: Match)
    requires m.etype == Person
    ensures Name([m], 0) == "ФИО_001"
    ensures FewPerPrefix([m])
  {
    var ordered := [m];
    forall p
      ensures KeysUpTo(ordered, 1, p) == if p == "ФИО" then {(Person, m.value)} else {}
    {
      KeysGrow(ordered, 0, p);
      assert KeysUpTo(ordered, 0, p) == {};
    }
    assert First(ordered, 0) == 0;
    assert Decimal(1) == "1" && Pad3(1) == "001";
  }

  lemma OneValue(ordered: seq<Match>, d: map<string, string>)
    requires Dictionary(d, ordered) && forall k :: 0 <= k < |ordered| ==> Underscores(ordered[k].value) == 0
    ensures forall key :: key in d ==> Underscores(d[key]) == 0
  {
    hide Name;
  }

  /** The condition is needed: this text mentions a pseudonym before masking issues
      the same one, and the round trip gives another text. */
  lemma LiteralPseudonymIsLost(d: map<string, string>)
    requires Dictionary(d, [SAMPLE_MATCH])
    ensures Spanned(SAMPLE, [SAMPLE_MATCH])
    ensures Substitute(d, Masked(SAMPLE, [SAMPLE_MATCH], 0)) != SAMPLE
  {
    hide Name, Masked, Substitute, FewPerPrefix;
    var ordered := [SAMPLE_MATCH];
    assert SAMPLE[8..12] == "Иван";
    SampleName(SAMPLE_MATCH);
    var gap := Gap(SAMPLE, ordered, 0);
    assert gap == SAMPLE[0..8] == "ФИО_001 " && gap[0..] == gap;
    assert "ФИО_001" <= gap[0..];
    assert Occurs("ФИО_001", gap);
    assert !Untouched(d.Keys, gap);
    NoUnderscores("Иван");
    SealedWhen(SAMPLE, ordered, d);
    OneValue(ordered, d);
    SealedIntact(SAMPLE, ordered, d);
    RestoreIff(SAMPLE, ordered, d);
  }

  lemma {:induction false} SameRenders(d: map<string, string>, ts: seq<Token>)
    requires KeysKnown(d, ts) && forall key :: key in d ==> d[key] == key
    ensures Render(d, ts) == Source(ts)
  {
    if ts != [] {
      SameRenders(d, ts[1..]);
    }
  }

  const ECHO := "ФИО_001 ФИО_001"
  const ECHO_MATCH := Match(Person, Pii, 8, 15, "ФИО_001", "regex", 1.0)

  /** So is the proviso of the other half: a value that reads like its own pseudonym
      comes back although the pseudonym occurs outside. */
  lemma EchoIsRestored(d: map<string, string>)
    requires Dictionary(d, [ECHO_MATCH])
    ensures Spanned(ECHO, [ECHO_MATCH]) && Sealed(ECHO, [ECHO_MATCH], d.Keys)
    ensures !Clean(ECHO, [ECHO_MATCH], d.Keys) && !PlainOutside(ECHO, [ECHO_MATCH], d)
    ensures Substitute(d, Masked(ECHO, [ECHO_MATCH], 0)) == ECHO
  {
    hide Name, Sealed, FewPerPrefix, Tokens, Underscores, Masked, Clean, PlainOutside;
    EchoSpanned();
    SampleName(ECHO_MATCH);
    SealedWhen(ECHO, [ECHO_MATCH], d);
    EchoGap(d);
    EchoMasked();
    TokensKnown(d, ECHO, false);
    TokensCover(d.Keys, ECHO, false);
    SameRenders(d, Tokens(d.Keys, ECHO, false));
  }

  lemma EchoSpanned()
    ensures Spanned(ECHO, [ECHO_MATCH])
  {
    assert ECHO[8..15] == "ФИО_001";
  }

  lemma EchoMasked()
    requires Spanned(ECHO, [ECHO_MATCH]) && Name([ECHO_MATCH], 0) == "ФИО_001"
    ensures Masked(ECHO, [ECHO_MATCH], 0) == ECHO
  {
    hide Name;
    assert Masked(ECHO, [ECHO_MATCH], 1) == "";
    assert Masked(ECHO, [ECHO_MATCH], 0) == "ФИО_001 " + ("ФИО_001" + "") == ECHO;
  }

  lemma EchoGap(d: map<string, string>)
    requires Dictionary(d, [ECHO_MATCH]) && Spanned(ECHO, [ECHO_MATCH]) && Name([ECHO_MATCH], 0) == "ФИО_001"
    ensures !Clean(ECHO, [ECHO_MATCH], d.Keys) && !PlainOutside(ECHO, [ECHO_MATCH], d)
  {
    hide Name, Underscores;
    var gap := Gap(ECHO, [ECHO_MATCH], 0);
    assert gap == ECHO[0..8] == "ФИО_001 " && gap[0..] == gap;
    assert "ФИО_001" <= gap[0..] && Occurs("ФИО_001", gap);
    assert !Untouched(d.Keys, gap);
    NamesArePseudonyms(ECHO, [ECHO_MATCH], d);
    PseudonymUnderscore(d.Keys);
    assert Underscores(d["ФИО_001"]) == 1;
    assert !PlainIn(d, gap);
  }

  // ----- both services agree on the dictionary

  lemma EntitiesFit(text: string, ordered: seq<Match>, hash: string -> string, entities: seq<Entity>)
    requires Spanned(text, ordered) && EntitiesOf(ordered, |ordered|, hash, entities)
    ensures Fits(text, entities, hash)
  {
    hide Name;
    forall e | e in entities
      ensures InBounds(text, e) && HashMatches(text, e, hash)
    {
      var k :| 0 <= k < |entities| && entities[k] == e;
      assert IsSpan(text, ordered[k]);
    }
    forall i, j | 0 <= i < |entities| && 0 <= j < |entities| && i != j
      ensures Apart(entities[i], entities[j])
    {
      assert ordered[if i < j then i else j].end <= ordered[if i < j then j else i].start;
    }
  }

  lemma RightmostIsDictionary(text: string, ordered: seq<Match>, hash: string -> string, entities: seq<Entity>,
                              m: map<string, string>)
    requires Spanned(text, ordered) && EntitiesOf(ordered, |ordered|, hash, entities)
    requires RightmostRaw(text, entities, m)
    ensures Dictionary(m, ordered)
  {
    hide Name;
    forall p | p in m
      ensures exists k :: 0 <= k < |ordered| && Name(ordered, k) == p && m[p] == ordered[k].value
    {
      var e :| IsRightmost(entities, e) && e.pseudonym == p && InBounds(text, e) && m[p] == text[e.start..e.end];
      var k :| 0 <= k < |entities| && entities[k] == e;
      assert IsSpan(text, ordered[k]);
    }
    forall k | 0 <= k < |ordered|
      ensures Name(ordered, k) in m && m[Name(ordered, k)] == ordered[k].value
    {
      assert entities[k] in entities && entities[k].pseudonym == Name(ordered, k);
      var j :| 0 <= j < |ordered| && Name(ordered, j) == Name(ordered, k) && m[Name(ordered, k)] == ordered[j].value;
      NamesInjective(ordered, j, k);
    }
  }

  lemma {:induction false} RawByPseudonymAt<C>(mappings: seq<Mapping<C>>, decrypt: C -> string)
    ensures forall i :: 0 <= i < |mappings| ==> mappings[i].pseudonym in RawByPseudonym(mappings, decrypt)
    ensures forall p :: p in RawByPseudonym(mappings, decrypt) ==>
              exists i :: 0 <= i < |mappings| && mappings[i].pseudonym == p
                       && RawByPseudonym(mappings, decrypt)[p] == decrypt(mappings[i].rawEncrypted)
  {
    if mappings != [] {
      RawByPseudonymAt(mappings[..|mappings| - 1], decrypt);
    }
  }

  lemma MappingsAreDictionary<C>(ordered: seq<Match>, hash: string -> string, decrypt: C -> string,
                                 mappings: seq<Mapping<C>>, seen: seq<nat>)
    requires MappingsOf(ordered, |ordered|, hash, decrypt, mappings, seen)
    ensures Dictionary(RawByPseudonym(mappings, decrypt), ordered)
  {
    hide Name, RawByPseudonym;
    var m := RawByPseudonym(mappings, decrypt);
    RawByPseudonymAt(mappings, decrypt);
    forall p | p in m
      ensures exists k :: 0 <= k < |ordered| && Name(ordered, k) == p && m[p] == ordered[k].value
    {
      var i :| 0 <= i < |mappings| && mappings[i].pseudonym == p && m[p] == decrypt(mappings[i].rawEncrypted);
      assert Name(ordered, seen[i]) == p;
    }
    forall k | 0 <= k < |ordered|
      ensures Name(ordered, k) in m && m[Name(ordered, k)] == ordered[k].value
    {
      var i :| 0 <= i < |seen| && seen[i] == First(ordered, k);
      NamesInjective(ordered, seen[i], k);
      assert mappings[i].pseudonym in m;
      var j :| 0 <= j < |ordered| && Name(ordered, j) == Name(ordered, k) && m[Name(ordered, k)] == ordered[j].value;
      NamesInjective(ordered, j, k);
    }
  }

  lemma DictionaryUnique(a: map<string, string>, b: map<string, string>, ordered: seq<Match>)
    requires Dictionary(a, ordered) && Dictionary(b, ordered)
    ensures a == b
  {
    hide Name;
  }

  // ----- an answer masked again with this map

  lemma FewMeansUntaken(ordered: seq<Match>, d: map<string, string>, l: Link)
    requires Dictionary(d, ordered) && FewPerPrefix(ordered) && Pseudonyms(d.Keys) && l.name in d
    ensures Taken(d.Keys, l) == 0
  {
    hide Name, Dictionary, FewPerPrefix, Taken, Read, Format, Pseudonyms, Prefix;
    TakenIsDigits(d.Keys, l);
    if Taken(d.Keys, l) > 0 {
      var t: EntityType, n: nat :| Read(d.Keys, l) == Format(t, n) && n >= 1000;
      var u, m := KeyIsName(d, ordered, Read(d.Keys, l));
      FormatInjective(t, n, u, m);
    }
  }

  lemma SpanHasText(text: string, ordered: seq<Match>, k: nat)
    requires Spanned(text, ordered) && k < |ordered|
    ensures ordered[k].value != ""
  {
    assert IsSpan(text, ordered[k]);
  }

  lemma RawValuesAreText(text: string, ordered: seq<Match>, d: map<string, string>, back: map<string, string>)
    requires Spanned(text, ordered) && Dictionary(d, ordered) && Inverts(back, d)
    ensures "" !in back
  {
    hide Name, Spanned;
    forall raw | raw in back
      ensures raw != ""
    {
      var k :| 0 <= k < |ordered| && Name(ordered, k) == back[raw];
      SpanHasText(text, ordered, k);
    }
  }

  /** With fewer than 1000 numbers per prefix: whatever a model answers, masking and then
      restoring it gives the answer back if no issued pseudonym stands outside its raw
      values; and, where those that do stand for values without underscores, only then. */
  lemma AnswerComesBack(text: string, ordered: seq<Match>, d: map<string, string>, back: map<string, string>,
                        answer: string)
    requires Spanned(text, ordered) && Dictionary(d, ordered) && FewPerPrefix(ordered) && Inverts(back, d)
    ensures "" !in back
    ensures var (head, links) := Remask.Parts(back, answer);
            var restored := Substitute(d, Substitute(back, answer));
            var free := Untouched(d.Keys, head) && forall k :: 0 <= k < |links| ==> Untouched(d.Keys, links[k].gap);
            && (free ==> restored == answer)
            && (PlainIn(d, head) && (forall k :: 0 <= k < |links| ==> PlainIn(d, links[k].gap)) ==>
                  (restored == answer <==> free))
  {
    hide Dictionary, FewPerPrefix, Inverts, Untouched, PlainIn, Substitute, Intact, AllTelling, Restored, Pseudonyms,
      Weave.Original, Strand, Taken, Name;
    NamesArePseudonyms(text, ordered, d);
    RawValuesAreText(text, ordered, d, back);
    Remask.RemaskThenRestore(d, back, answer);
    var (head, links) := Remask.Parts(back, answer);
    forall k | 0 <= k < |links|
      ensures Taken(d.Keys, links[k]) == 0
    {
      FewMeansUntaken(ordered, d, links[k]);
    }
    UntakenIntact(d, head, links);
  }

  // ----- end to end

  /** Resolve, mask in the sanitizer, rebuild the map in the API, restore in both. */
  method SanitizeThenRestore<C>(text: string, candidates: seq<Match>, hash: string -> string,
                                encrypt: (string, nat) -> C, decrypt: C -> string)
    returns (sanitized: string, built: BuildResult, byApi: string, bySanitizer: string)
    requires forall m :: m in candidates ==> IsSpan(text, m)
    requires forall v: string, nonce: nat :: decrypt(encrypt(v, nonce)) == v
    ensures built.Built? && byApi == bySanitizer
    ensures var ordered := Sort(StartKey, Overlap.Resolve(candidates));
      && Spanned(text, ordered) && sanitized == Masked(text, ordered, 0) && Dictionary(built.toRaw, ordered)
      && BackTo(byApi, text, ordered, built.toRaw)
      && (FewPerPrefix(ordered) || NoDigitFollows(text, ordered) ==> Sealed(text, ordered, built.toRaw.Keys))
      && (Sealed(text, ordered, built.toRaw.Keys) ==>
            && (Clean(text, ordered, built.toRaw.Keys) ==> byApi == text)
            && (PlainOutside(text, ordered, built.toRaw) ==>
                  (byApi == text <==> Clean(text, ordered, built.toRaw.Keys))))
  {
    hide Name, Masked, Dictionary, Substitute, Underscores, Gap, Clean, FewPerPrefix, NoDigitFollows, Sealed,
      PlainOutside;
    hide Links, Intact, AllTelling, Restored;
    var matches := Overlap.ResolveOverlaps(candidates);
    SubBagMembers(matches, candidates);
    var entities, mappings;
    ghost var seen;
    sanitized, entities, mappings, seen := Pseudonymize(text, matches, hash, encrypt, decrypt);
    ghost var ordered := Sort(StartKey, matches);
    EntitiesFit(text, ordered, hash, entities);
    built := BuildPseudonymMap(text, entities, hash);
    RightmostIsDictionary(text, ordered, hash, entities, built.toRaw);
    MappingsAreDictionary(ordered, hash, decrypt, mappings, seen);
    DictionaryUnique(built.toRaw, RawByPseudonym(mappings, decrypt), ordered);
    ghost var back;
    byApi, back := Replace(built.toRaw, sanitized, false);
    bySanitizer := Restore(sanitized, mappings, decrypt);
    if FewPerPrefix(ordered) || NoDigitFollows(text, ordered) {
      SealedWhen(text, ordered, built.toRaw);
    }
    RestoreIff(text, ordered, built.toRaw);
    if Sealed(text, ordered, built.toRaw.Keys) {
      SealedIntact(text, ordered, built.toRaw);
    }
  }
}
