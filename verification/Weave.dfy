// Free text with pseudonyms put between, and what a substitution pass makes of it.
// The sanitizer's masked text and an answer that the API masks again both have
// this form.
module Weave {
  import opened Entities
  import opened Names
  import opened Replacer

  /** A pseudonym and the free text after it. */
  datatype Link = Link(name: string, gap: string)

  function Strand(links: seq<Link>): string {
    if links == [] then "" else links[0].name + links[0].gap + Strand(links[1..])
  }

  predicate Known(keys: set<string>, links: seq<Link>) {
    forall k :: 0 <= k < |links| ==> links[k].name in keys
  }

  /** The same with the values in place of the pseudonyms. */
  function Original(d: map<string, string>, links: seq<Link>): string
    requires Known(d.Keys, links)
  {
    if links == [] then "" else d[links[0].name] + links[0].gap + Original(d, links[1..])
  }

  ghost predicate IsPseudonym(s: string) { exists t: EntityType, n: nat :: s == Format(t, n) }

  ghost predicate Pseudonyms(keys: set<string>) { forall key :: key in keys ==> IsPseudonym(key) }

  // ----- each stretch is scanned by itself

  lemma PseudonymWithinGap(key: string, gap: string, name: string, rest: string)
    requires IsPseudonym(key) && IsPseudonym(name)
    requires gap != "" && key <= gap + (name + rest)
    ensures |key| <= |gap|
  {
    hide Prefix, Pad3, Format;
    var t, n :| key == Format(t, n);
    var u, m :| name == Format(u, m);
    NoStraddle(t, n, u, m, gap, rest);
  }

  lemma SameLongest(keys: set<string>, gap: string, links: seq<Link>)
    requires Pseudonyms(keys) && Known(keys, links) && gap != ""
    ensures LongestKey(keys, gap + Strand(links), |gap + Strand(links)|) == LongestKey(keys, gap, |gap|)
  {
    hide IsPseudonym;
    var whole := gap + Strand(links);
    var n, m := LongestKey(keys, whole, |whole|), LongestKey(keys, gap, |gap|);
    if n >= 0 && links != [] {
      var rest := links[0].gap + Strand(links[1..]);
      assert whole == gap + (links[0].name + rest);
      PseudonymWithinGap(whole[..n], gap, links[0].name, rest);
    }
    assert n >= 0 ==> n <= |gap| && whole[..n] == gap[..n];
    assert m >= 0 ==> whole[..m] == gap[..m];
  }

  lemma NoEmptyPseudonym(keys: set<string>)
    requires Pseudonyms(keys)
    ensures "" !in keys
  {
    forall key | key in keys
      ensures key != ""
    {
      assert IsPseudonym(key);
      var t, n :| key == Format(t, n);
      FormatShaped(t, n);
    }
  }

  /** Free text is scanned the same whatever pseudonym comes after it. */
  lemma {:induction false} GapScansApart(keys: set<string>, gap: string, links: seq<Link>)
    requires Pseudonyms(keys) && Known(keys, links)
    ensures Tokens(keys, gap + Strand(links), false) ==
            Tokens(keys, gap, false) + Tokens(keys, Strand(links), false)
    decreases |gap|
  {
    hide Pseudonyms, Known, Strand, LongestKey;
    var rest := Strand(links);
    var whole := gap + rest;
    NoEmptyPseudonym(keys);
    if gap == "" {
      assert whole == rest;
    } else {
      SameLongest(keys, gap, links);
      var n := LongestKey(keys, gap, |gap|);
      assert gap[..0] == "";
      if n > 0 {
        assert whole[n..] == gap[n..] + rest && whole[..n] == gap[..n];
        GapScansApart(keys, gap[n..], links);
      } else {
        assert whole[1..] == gap[1..] + rest;
        GapScansApart(keys, gap[1..], links);
      }
    }
  }

  lemma SubstituteApart(d: map<string, string>, gap: string, links: seq<Link>)
    requires Pseudonyms(d.Keys) && Known(d.Keys, links)
    ensures Substitute(d, gap + Strand(links)) == Substitute(d, gap) + Substitute(d, Strand(links))
  {
    hide Pseudonyms, Known, Strand, Tokens;
    GapScansApart(d.Keys, gap, links);
    TokensKnown(d, gap, false);
    TokensKnown(d, Strand(links), false);
    RenderConcat(d, Tokens(d.Keys, gap, false), Tokens(d.Keys, Strand(links), false));
  }

  // ----- what is read at a pseudonym

  /** How much of the free text after it a longer pseudonym takes. */
  function Taken(keys: set<string>, l: Link): (n: nat)
    requires l.name in keys
    ensures n <= |l.gap| && l.name + l.gap[..n] in keys
    ensures forall m :: n < m <= |l.gap| ==> l.name + l.gap[..m] !in keys
  {
    var whole := l.name + l.gap;
    LongestExtends(keys, whole, l.name);
    var r := LongestKey(keys, whole, |whole|);
    assert forall m :: 0 <= m <= |l.gap| ==> whole[..|l.name| + m] == l.name + l.gap[..m];
    assert whole[..|l.name| + (r - |l.name|)] == whole[..r];
    r - |l.name|
  }

  /** The pseudonym as it is read: the longest one there. */
  function Read(keys: set<string>, l: Link): (name: string)
    requires l.name in keys
    ensures name in keys
  {
    l.name + l.gap[..Taken(keys, l)]
  }

  /** What is left of the free text. */
  function Left(keys: set<string>, l: Link): string
    requires l.name in keys
  {
    l.gap[Taken(keys, l)..]
  }

  function Restored(d: map<string, string>, links: seq<Link>): string
    requires Known(d.Keys, links)
  {
    if links == [] then ""
    else d[Read(d.Keys, links[0])] + Substitute(d, Left(d.Keys, links[0])) + Restored(d, links[1..])
  }

  lemma LinkRestores(d: map<string, string>, l: Link)
    requires "" !in d && l.name in d
    ensures Substitute(d, l.name + l.gap) == d[Read(d.Keys, l)] + Substitute(d, Left(d.Keys, l))
  {
    var whole, n := l.name + l.gap, Taken(d.Keys, l);
    var r := |l.name| + n;
    assert whole[..r] == Read(d.Keys, l) && whole[r..] == Left(d.Keys, l);
    LongestExtends(d.Keys, whole, Read(d.Keys, l));
    var m := LongestKey(d.Keys, whole, |whole|);
    assert whole[..m] == l.name + l.gap[..m - |l.name|];
    assert m == r;
    TokensKnown(d, Left(d.Keys, l), false);
    var ts := Tokens(d.Keys, Left(d.Keys, l), false);
    assert Tokens(d.Keys, whole, false) == [Hit(Read(d.Keys, l))] + ts;
    assert ([Hit(Read(d.Keys, l))] + ts)[1..] == ts;
  }

  lemma {:induction false} StrandRestores(d: map<string, string>, links: seq<Link>)
    requires Pseudonyms(d.Keys) && Known(d.Keys, links)
    ensures Substitute(d, Strand(links)) == Restored(d, links)
  {
    hide Pseudonyms, Substitute;
    if links == [] {
      NothingToSubstitute(d);
    } else {
      NoEmptyPseudonym(d.Keys);
      SubstituteApart(d, links[0].name + links[0].gap, links[1..]);
      LinkRestores(d, links[0]);
      StrandRestores(d, links[1..]);
    }
  }

  lemma NothingToSubstitute(d: map<string, string>)
    requires Pseudonyms(d.Keys)
    ensures Substitute(d, "") == ""
  {
    NoEmptyPseudonym(d.Keys);
    assert ""[..0] == "";
    assert Tokens(d.Keys, "", false) == [];
  }

  /** One substitution pass, in every case: the free text by itself, and for each
      pseudonym the value of the longest one that can be read there, which takes its
      digits from the free text that follows. */
  lemma WovenRestores(d: map<string, string>, head: string, links: seq<Link>)
    requires Pseudonyms(d.Keys) && Known(d.Keys, links)
    ensures Substitute(d, head + Strand(links)) == Substitute(d, head) + Restored(d, links)
  {
    hide Pseudonyms, Substitute, Restored, Strand;
    SubstituteApart(d, head, links);
    StrandRestores(d, links);
  }

  /** Only digits are taken, and only by a number of four digits or more. */
  lemma TakenIsDigits(keys: set<string>, l: Link)
    requires Pseudonyms(keys) && l.name in keys
    ensures Digits(l.gap[..Taken(keys, l)])
    ensures Taken(keys, l) > 0 ==> exists t: EntityType, n: nat :: Read(keys, l) == Format(t, n) && n >= 1000
  {
    hide Prefix, Pad3, Format;
    var name, read := l.name, Read(keys, l);
    assert IsPseudonym(name) && IsPseudonym(read);
    var u, m :| name == Format(u, m);
    var t, n :| read == Format(t, n);
    var tail := l.gap[..Taken(keys, l)];
    SamePrefixAtStart(t, n, u, m, tail);
    FormatShaped(t, n);
    FormatShaped(u, m);
    HeadExtends(name, |Prefix(u)|, read);
    HeadUnique(read, |Prefix(u)|, |Prefix(t)|);
    assert forall i :: 0 <= i < |tail| ==> tail[i] == read[|name| + i];
    if n < 1000 {
      ShortPad(n);
    }
  }

  lemma ShortPad(n: nat)
    requires n < 1000
    ensures |Pad3(n)| == 3
  {
    DecimalLength(n);
  }

  // ----- counting underscores

  function Underscores(s: string): nat {
    if s == "" then 0 else (if s[0] == '_' then 1 else 0) + Underscores(s[1..])
  }

  lemma {:induction false} UnderscoresConcat(a: string, b: string)
    ensures Underscores(a + b) == Underscores(a) + Underscores(b)
  {
    if a == "" {
      assert a + b == b;
    } else {
      assert (a + b)[1..] == a[1..] + b;
      UnderscoresConcat(a[1..], b);
    }
  }

  lemma {:induction false} NoUnderscores(s: string)
    requires forall i :: 0 <= i < |s| ==> s[i] != '_'
    ensures Underscores(s) == 0
  {
    if s != "" {
      NoUnderscores(s[1..]);
    }
  }

  lemma FormatUnderscore(t: EntityType, n: nat)
    ensures Underscores(Format(t, n)) == 1
  {
    hide Prefix, Pad3;
    PrefixFacts(t);
    NoUnderscores(Prefix(t));
    NoUnderscores(Pad3(n));
    UnderscoresConcat(Prefix(t) + "_", Pad3(n));
    UnderscoresConcat(Prefix(t), "_");
    assert Underscores("_") == 1 + Underscores("");
  }

  /** What stands for the pseudonyms in this text has no underscores. */
  ghost predicate PlainIn(d: map<string, string>, text: string) {
    forall key :: key in d && Occurs(key, text) ==> Underscores(d[key]) == 0
  }

  ghost predicate PlainHits(d: map<string, string>, ts: seq<Token>) {
    forall t :: t in ts && t.Hit? ==> t.key in d && Underscores(t.key) == 1 && Underscores(d[t.key]) == 0
  }

  lemma {:induction false} HitsEatUnderscores(d: map<string, string>, ts: seq<Token>)
    requires KeysKnown(d, ts) && PlainHits(d, ts)
    ensures Underscores(Render(d, ts)) + HitCount(ts) == Underscores(Source(ts))
  {
    if ts != [] {
      assert ts[0] in ts && forall t :: t in ts[1..] ==> t in ts;
      HitsEatUnderscores(d, ts[1..]);
      match ts[0]
      case Literal(c) =>
        UnderscoresConcat([c], Render(d, ts[1..]));
        UnderscoresConcat([c], Source(ts[1..]));
      case Hit(key) =>
        UnderscoresConcat(d[key], Render(d, ts[1..]));
        UnderscoresConcat(key, Source(ts[1..]));
    }
  }

  lemma PseudonymUnderscore(keys: set<string>)
    requires Pseudonyms(keys)
    ensures forall key :: key in keys ==> Underscores(key) == 1
  {
    hide Format, Underscores;
    forall key | key in keys
      ensures Underscores(key) == 1
    {
      assert IsPseudonym(key);
      var t, n :| key == Format(t, n);
      FormatUnderscore(t, n);
    }
  }

  /** A substituted text keeps its underscores iff nothing in it was replaced. */
  lemma GapUnderscores(d: map<string, string>, gap: string)
    requires Pseudonyms(d.Keys) && PlainIn(d, gap)
    ensures Underscores(Substitute(d, gap)) <= Underscores(gap)
    ensures Underscores(Substitute(d, gap)) == Underscores(gap) ==> Untouched(d.Keys, gap)
  {
    hide Tokens, Underscores, Untouched, Occurs, Pseudonyms;
    NoEmptyPseudonym(d.Keys);
    PseudonymUnderscore(d.Keys);
    TokensKnown(d, gap, false);
    TokensCover(d.Keys, gap, false);
    HitsOccur(d.Keys, gap);
    HitsEatUnderscores(d, Tokens(d.Keys, gap, false));
    ReplacesIffOccurs(d, gap);
  }

  // ----- when the pass gives the original back

  /** What stands in the original where the pseudonym is read. */
  function Meant(d: map<string, string>, l: Link): string
    requires l.name in d
  {
    d[l.name] + l.gap[..Taken(d.Keys, l)]
  }

  /** Reading on changes nothing, and nothing else is read in the free text. */
  ghost predicate Faithful(d: map<string, string>, l: Link)
    requires l.name in d
  {
    d[Read(d.Keys, l)] == Meant(d, l) && Untouched(d.Keys, Left(d.Keys, l))
  }

  ghost predicate Intact(d: map<string, string>, head: string, links: seq<Link>)
    requires Known(d.Keys, links)
  {
    Untouched(d.Keys, head) && forall k :: 0 <= k < |links| ==> Faithful(d, links[k])
  }

  /** A wrong reading of this link shows: a pseudonym read in the free text would lose
      an underscore, and the value read on differs from what was meant before either ends. */
  ghost predicate Telling(d: map<string, string>, l: Link)
    requires l.name in d
  {
    var read, meant := d[Read(d.Keys, l)], Meant(d, l);
    && PlainIn(d, Left(d.Keys, l))
    && (read == meant || (Underscores(read) == Underscores(meant) && !(read <= meant) && !(meant <= read)))
  }

  ghost predicate AllTelling(d: map<string, string>, head: string, links: seq<Link>)
    requires Known(d.Keys, links)
  {
    PlainIn(d, head) && forall k :: 0 <= k < |links| ==> Telling(d, links[k])
  }

  lemma UntakenLink(d: map<string, string>, l: Link)
    requires l.name in d && Taken(d.Keys, l) == 0
    ensures Faithful(d, l) <==> Untouched(d.Keys, l.gap)
    ensures Telling(d, l) <==> PlainIn(d, l.gap)
  {
    hide Taken, Untouched, PlainIn;
    assert l.gap[..0] == "" && l.gap[0..] == l.gap;
    assert l.name + "" == l.name && d[l.name] + "" == d[l.name];
  }

  /** Where nothing is read on, only the free text matters. */
  lemma UntakenIntact(d: map<string, string>, head: string, links: seq<Link>)
    requires Known(d.Keys, links) && forall k :: 0 <= k < |links| ==> Taken(d.Keys, links[k]) == 0
    ensures Intact(d, head, links) <==>
            Untouched(d.Keys, head) && forall k :: 0 <= k < |links| ==> Untouched(d.Keys, links[k].gap)
    ensures AllTelling(d, head, links) <==>
            PlainIn(d, head) && forall k :: 0 <= k < |links| ==> PlainIn(d, links[k].gap)
  {
    hide Taken, Untouched, PlainIn, Faithful, Telling;
    forall k | 0 <= k < |links|
      ensures Faithful(d, links[k]) <==> Untouched(d.Keys, links[k].gap)
      ensures Telling(d, links[k]) <==> PlainIn(d, links[k].gap)
    {
      UntakenLink(d, links[k]);
    }
  }

  lemma LinkOriginal(d: map<string, string>, links: seq<Link>)
    requires Known(d.Keys, links) && links != []
    ensures Original(d, links) == Meant(d, links[0]) + Left(d.Keys, links[0]) + Original(d, links[1..])
  {
    hide Taken;
    var l := links[0];
    assert l.gap == l.gap[..Taken(d.Keys, l)] + l.gap[Taken(d.Keys, l)..];
  }

  lemma {:induction false} IntactRestores(d: map<string, string>, links: seq<Link>)
    requires Pseudonyms(d.Keys) && Known(d.Keys, links)
    requires forall k :: 0 <= k < |links| ==> Faithful(d, links[k])
    ensures Restored(d, links) == Original(d, links)
  {
    hide Pseudonyms, Substitute, Untouched, Meant, Read, Left;
    if links != [] {
      assert Faithful(d, links[0]);
      NoEmptyPseudonym(d.Keys);
      ReplacesIffOccurs(d, Left(d.Keys, links[0]));
      LinkOriginal(d, links);
      IntactRestores(d, links[1..]);
    }
  }

  lemma {:induction false} StrandUnderscores(d: map<string, string>, links: seq<Link>)
    requires Pseudonyms(d.Keys) && Known(d.Keys, links)
    requires forall k :: 0 <= k < |links| ==> Telling(d, links[k])
    ensures Underscores(Restored(d, links)) <= Underscores(Original(d, links))
    ensures Underscores(Restored(d, links)) == Underscores(Original(d, links)) ==>
              forall k :: 0 <= k < |links| ==> Untouched(d.Keys, Left(d.Keys, links[k]))
  {
    hide Pseudonyms, Substitute, Untouched, Meant, Read, Left, Underscores, PlainIn;
    if links != [] {
      var read, left, meant := d[Read(d.Keys, links[0])], Left(d.Keys, links[0]), Meant(d, links[0]);
      assert Telling(d, links[0]);
      GapUnderscores(d, left);
      StrandUnderscores(d, links[1..]);
      LinkOriginal(d, links);
      UnderscoresConcat(read + Substitute(d, left), Restored(d, links[1..]));
      UnderscoresConcat(read, Substitute(d, left));
      UnderscoresConcat(meant + left, Original(d, links[1..]));
      UnderscoresConcat(meant, left);
    }
  }

  lemma SameBeginning(a: string, x: string, b: string, y: string)
    requires a + x == b + y
    ensures a <= b || b <= a
    ensures a == b ==> x == y
  {
    if |a| <= |b| {
      assert forall i :: 0 <= i < |a| ==> a[i] == (a + x)[i] == (b + y)[i] == b[i];
    } else {
      assert forall i :: 0 <= i < |b| ==> b[i] == (b + y)[i] == (a + x)[i] == a[i];
    }
    assert (a + x)[|a|..] == x && (b + y)[|b|..] == y;
  }

  /** The first value read wrongly shows in the text. */
  lemma {:induction false} SameMeansFaithful(d: map<string, string>, links: seq<Link>)
    requires Pseudonyms(d.Keys) && Known(d.Keys, links) && Restored(d, links) == Original(d, links)
    requires forall k :: 0 <= k < |links| ==> Telling(d, links[k]) && Untouched(d.Keys, Left(d.Keys, links[k]))
    ensures forall k :: 0 <= k < |links| ==> Faithful(d, links[k])
  {
    hide Pseudonyms, Substitute, Untouched, Meant, Read, Left, Underscores, PlainIn;
    if links != [] {
      var l := links[0];
      var read, left, meant := d[Read(d.Keys, l)], Left(d.Keys, l), Meant(d, l);
      assert Telling(d, l) && Untouched(d.Keys, left);
      NoEmptyPseudonym(d.Keys);
      ReplacesIffOccurs(d, left);
      LinkOriginal(d, links);
      var r, o := Restored(d, links[1..]), Original(d, links[1..]);
      assert read + (left + r) == read + left + r && meant + (left + o) == meant + left + o;
      SameBeginning(read, left + r, meant, left + o);
      SameBeginning(left, r, left, o);
      SameMeansFaithful(d, links[1..]);
      assert Faithful(d, l);
    }
  }

  /** Exactly when the pass gives the original back. */
  lemma OriginalIff(d: map<string, string>, head: string, links: seq<Link>)
    requires Pseudonyms(d.Keys) && Known(d.Keys, links)
    ensures Intact(d, head, links) ==> Substitute(d, head + Strand(links)) == head + Original(d, links)
    ensures AllTelling(d, head, links) ==>
              (Substitute(d, head + Strand(links)) == head + Original(d, links) <==> Intact(d, head, links))
  {
    hide Pseudonyms, Substitute, Untouched, Underscores, PlainIn, Faithful, Telling, Restored, Original, Strand;
    NoEmptyPseudonym(d.Keys);
    WovenRestores(d, head, links);
    ReplacesIffOccurs(d, head);
    if Intact(d, head, links) {
      IntactRestores(d, links);
    } else if AllTelling(d, head, links) && Substitute(d, head + Strand(links)) == head + Original(d, links) {
      GapUnderscores(d, head);
      StrandUnderscores(d, links);
      UnderscoresConcat(Substitute(d, head), Restored(d, links));
      UnderscoresConcat(head, Original(d, links));
      SameBeginning(head, Restored(d, links), head, Original(d, links));
      SameMeansFaithful(d, links);
      assert false;
    }
  }
}
