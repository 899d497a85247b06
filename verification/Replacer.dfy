// One-pass multi-key substitution: the behaviour of Go's `strings.NewReplacer`
// and of Python's `re.sub` over an alternation, as both services use them.
// `ScanPairs` follows the engines (first pair in order that matches here);
// `Tokens` is the reference reading (longest key that matches here).
module Replacer {

  datatype Token = Literal(c: char) | Hit(key: string)

  /** The length of the longest key among the prefixes of `text` up to `n`; -1 if none. */
  function LongestKey(keys: set<string>, text: string, n: nat): (r: int)
    requires n <= |text|
    ensures -1 <= r <= n
    ensures r >= 0 ==> text[..r] in keys
    ensures forall k :: 0 <= k <= n && r < k ==> text[..k] !in keys
  {
    if text[..n] in keys then n
    else if n == 0 then -1
    else LongestKey(keys, text, n - 1)
  }

  /** Cuts the text, left to right, into keys and single characters. After an empty
      key has matched, `bar` keeps it from matching again at the same place. */
  function Tokens(keys: set<string>, text: string, bar: bool): seq<Token>
    decreases |text|, if bar then 0 else 1
  {
    var n := LongestKey(keys, text, |text|);
    if n > 0 || (n == 0 && !bar) then [Hit(text[..n])] + Tokens(keys, text[n..], n == 0)
    else if text == "" then []
    else [Literal(text[0])] + Tokens(keys, text[1..], false)
  }

  predicate KeysKnown(d: map<string, string>, ts: seq<Token>) {
    forall k :: 0 <= k < |ts| && ts[k].Hit? ==> ts[k].key in d
  }

  function Piece(d: map<string, string>, t: Token): string
    requires t.Hit? ==> t.key in d
  {
    match t
    case Literal(c) => [c]
    case Hit(key) => d[key]
  }

  function Render(d: map<string, string>, ts: seq<Token>): string
    requires KeysKnown(d, ts)
  {
    if ts == [] then "" else Piece(d, ts[0]) + Render(d, ts[1..])
  }

  function Source(ts: seq<Token>): string {
    if ts == [] then ""
    else (match ts[0] case Literal(c) => [c] case Hit(key) => key) + Source(ts[1..])
  }

  lemma {:induction false} TokensKnown(d: map<string, string>, text: string, bar: bool)
    ensures KeysKnown(d, Tokens(d.Keys, text, bar))
    decreases |text|, if bar then 0 else 1
  {
    var n := LongestKey(d.Keys, text, |text|);
    if n > 0 || (n == 0 && !bar) {
      TokensKnown(d, text[n..], n == 0);
    } else if text != "" {
      TokensKnown(d, text[1..], false);
    }
  }

  /** Replaces every hit by its entry; nothing inserted is looked at again. */
  function Substitute(d: map<string, string>, text: string): string {
    TokensKnown(d, text, false);
    Render(d, Tokens(d.Keys, text, false))
  }

  lemma SourceFirst(t: Token, ts: seq<Token>)
    ensures Source([t] + ts) == (match t case Literal(c) => [c] case Hit(key) => key) + Source(ts)
  {
    assert ([t] + ts)[1..] == ts;
  }

  /** The tokens are the whole input, piece by piece. */
  lemma {:induction false} TokensCover(keys: set<string>, text: string, bar: bool)
    ensures Source(Tokens(keys, text, bar)) == text
    decreases |text|, if bar then 0 else 1
  {
    hide LongestKey, Source;
    var n := LongestKey(keys, text, |text|);
    if n > 0 || (n == 0 && !bar) {
      TokensCover(keys, text[n..], n == 0);
      SourceFirst(Hit(text[..n]), Tokens(keys, text[n..], n == 0));
      assert text == text[..n] + text[n..];
    } else if text != "" {
      TokensCover(keys, text[1..], false);
      SourceFirst(Literal(text[0]), Tokens(keys, text[1..], false));
      assert text == [text[0]] + text[1..];
    } else {
      NoTokens(keys, bar);
    }
  }

  lemma NoTokens(keys: set<string>, bar: bool)
    requires LongestKey(keys, "", 0) < 0 || bar
    ensures Source(Tokens(keys, "", bar)) == ""
  {
  }

  // ----- when anything is replaced at all

  ghost predicate Occurs(key: string, text: string) {
    exists i :: 0 <= i <= |text| && key <= text[i..]
  }

  ghost predicate Untouched(keys: set<string>, text: string) {
    forall key :: key in keys ==> !Occurs(key, text)
  }

  function Literals(text: string): seq<Token> {
    if text == "" then [] else [Literal(text[0])] + Literals(text[1..])
  }

  function HitCount(ts: seq<Token>): nat {
    if ts == [] then 0 else (if ts[0].Hit? then 1 else 0) + HitCount(ts[1..])
  }

  lemma PrefixIsSlice(key: string, text: string)
    requires key <= text
    ensures text[..|key|] == key
  {
  }

  lemma OccursLater(key: string, text: string, n: nat)
    requires n <= |text| && Occurs(key, text[n..])
    ensures Occurs(key, text)
  {
    var i :| 0 <= i <= |text[n..]| && key <= text[n..][i..];
    assert text[n..][i..] == text[n + i..];
  }

  lemma OccursInPart(key: string, text: string, a: nat, b: nat)
    requires a <= b <= |text| && Occurs(key, text[a..b])
    ensures Occurs(key, text)
  {
    var i :| 0 <= i <= b - a && key <= text[a..b][i..];
    assert text[a..b][i..] == text[a + i..b] && text[a + i..b] <= text[a + i..];
  }

  lemma PartUntouched(keys: set<string>, text: string, a: nat, b: nat)
    requires a <= b <= |text| && Untouched(keys, text)
    ensures Untouched(keys, text[a..b])
  {
    forall key | key in keys
      ensures !Occurs(key, text[a..b])
    {
      if Occurs(key, text[a..b]) {
        OccursInPart(key, text, a, b);
      }
    }
  }

  lemma LongestOccurs(keys: set<string>, text: string)
    ensures var n := LongestKey(keys, text, |text|);
            n >= 0 ==> text[..n] in keys && Occurs(text[..n], text)
  {
    var n := LongestKey(keys, text, |text|);
    if n >= 0 {
      assert text[..n] <= text[0..];
    }
  }

  lemma {:induction false} LiteralTokens(keys: set<string>, text: string)
    requires Untouched(keys, text)
    ensures Tokens(keys, text, false) == Literals(text)
    decreases |text|
  {
    LongestOccurs(keys, text);
    if text != "" {
      forall key | key in keys
        ensures !Occurs(key, text[1..])
      {
        if Occurs(key, text[1..]) {
          OccursLater(key, text, 1);
        }
      }
      LiteralTokens(keys, text[1..]);
    }
  }

  lemma {:induction false} LiteralsRender(d: map<string, string>, text: string)
    ensures KeysKnown(d, Literals(text)) && Render(d, Literals(text)) == text
    ensures HitCount(Literals(text)) == 0
  {
    if text != "" {
      LiteralsRender(d, text[1..]);
    }
  }

  /** With non-empty keys, a key that occurs anywhere forces some replacement. */
  lemma {:induction false} OccurrenceIsHit(keys: set<string>, key: string, text: string, i: nat)
    requires "" !in keys && key in keys && i <= |text| && key <= text[i..]
    ensures HitCount(Tokens(keys, text, false)) > 0
    decreases |text|
  {
    var n := LongestKey(keys, text, |text|);
    if n <= 0 {
      assert text[..0] == "" && text[0..] == text;
      if i == 0 {
        PrefixIsSlice(key, text);
        assert false;
      }
      assert text[i..] == text[1..][i - 1..];
      OccurrenceIsHit(keys, key, text[1..], i - 1);
    }
  }

  /** A replacement happens iff some search string occurs; otherwise the text is
      returned as it came. */
  lemma ReplacesIffOccurs(d: map<string, string>, text: string)
    requires "" !in d
    ensures HitCount(Tokens(d.Keys, text, false)) > 0 <==> !Untouched(d.Keys, text)
    ensures Untouched(d.Keys, text) ==> Substitute(d, text) == text
  {
    if Untouched(d.Keys, text) {
      LiteralTokens(d.Keys, text);
      LiteralsRender(d, text);
    } else {
      var key :| key in d.Keys && Occurs(key, text);
      var i :| 0 <= i <= |text| && key <= text[i..];
      OccurrenceIsHit(d.Keys, key, text, i);
    }
  }

  lemma {:induction false} RenderConcat(d: map<string, string>, a: seq<Token>, b: seq<Token>)
    requires KeysKnown(d, a) && KeysKnown(d, b)
    ensures KeysKnown(d, a + b) && Render(d, a + b) == Render(d, a) + Render(d, b)
  {
    if a == [] {
      assert a + b == b;
    } else {
      hide Piece;
      RenderConcat(d, a[1..], b);
      assert (a + b)[0] == a[0] && (a + b)[1..] == a[1..] + b;
      assert Render(d, a + b) == Piece(d, a[0]) + (Render(d, a[1..]) + Render(d, b));
    }
  }

  lemma {:induction false} HitsOccur(keys: set<string>, text: string)
    requires "" !in keys
    ensures forall t :: t in Tokens(keys, text, false) && t.Hit? ==> t.key in keys && Occurs(t.key, text)
    decreases |text|
  {
    LongestOccurs(keys, text);
    var n := LongestKey(keys, text, |text|);
    assert text[..0] == "";
    var rest := if n > 0 then text[n..] else if text == "" then "" else text[1..];
    if text != "" {
      HitsOccur(keys, rest);
      forall key | Occurs(key, rest)
        ensures Occurs(key, text)
      {
        OccursLater(key, text, if n > 0 then n else 1);
      }
    }
  }

  // ----- the engines

  function FirstHit(pairs: seq<(string, string)>, text: string, bar: bool): (k: nat)
    ensures k <= |pairs|
    ensures k < |pairs| ==> pairs[k].0 <= text && !(bar && pairs[k].0 == "")
    ensures forall j :: 0 <= j < k ==> !(pairs[j].0 <= text) || (bar && pairs[j].0 == "")
  {
    if pairs == [] || (pairs[0].0 <= text && !(bar && pairs[0].0 == "")) then 0
    else 1 + FirstHit(pairs[1..], text, bar)
  }

  function ScanPairs(pairs: seq<(string, string)>, text: string, bar: bool): string
    decreases |text|, if bar then 0 else 1
  {
    var k := FirstHit(pairs, text, bar);
    if k < |pairs| then pairs[k].1 + ScanPairs(pairs, text[|pairs[k].0|..], pairs[k].0 == "")
    else if text == "" then ""
    else [text[0]] + ScanPairs(pairs, text[1..], false)
  }

  /** No search string comes before a longer one that extends it. */
  ghost predicate LongerFirst(pairs: seq<(string, string)>) {
    forall i, j :: 0 <= i < j < |pairs| ==> !(pairs[i].0 < pairs[j].0)
  }

  /** What the pairs mean as a dictionary: the first pair for a key counts. */
  function FirstWins(pairs: seq<(string, string)>): map<string, string> {
    if pairs == [] then map[] else FirstWins(pairs[1..])[pairs[0].0 := pairs[0].1]
  }

  lemma {:induction false} FirstWinsKey(pairs: seq<(string, string)>, key: string) returns (k: nat)
    requires key in FirstWins(pairs)
    ensures k < |pairs| && pairs[k].0 == key && FirstWins(pairs)[key] == pairs[k].1
    ensures forall j :: 0 <= j < k ==> pairs[j].0 != key
  {
    if pairs[0].0 == key {
      k := 0;
    } else {
      k := FirstWinsKey(pairs[1..], key);
      k := k + 1;
    }
  }

  lemma {:induction false} FirstWinsHas(pairs: seq<(string, string)>, k: nat)
    requires k < |pairs|
    ensures pairs[k].0 in FirstWins(pairs)
  {
    if k > 0 {
      FirstWinsHas(pairs[1..], k - 1);
    }
  }

  lemma LongestExtends(keys: set<string>, text: string, key: string)
    requires key in keys && key <= text
    ensures |key| <= LongestKey(keys, text, |text|)
  {
    PrefixIsSlice(key, text);
  }

  lemma ShorterPrefix(a: string, b: string, text: string)
    requires a <= text && b <= text
    ensures |a| < |b| ==> a < b
  {
  }

  lemma FirstHitIsLongest(pairs: seq<(string, string)>, text: string, bar: bool)
    requires LongerFirst(pairs)
    ensures var k := FirstHit(pairs, text, bar);
            var n := LongestKey(FirstWins(pairs).Keys, text, |text|);
            && (k < |pairs| <==> n > 0 || (n == 0 && !bar))
            && (k < |pairs| ==>
                  n == |pairs[k].0| && text[..n] == pairs[k].0 && FirstWins(pairs)[text[..n]] == pairs[k].1)
  {
    var k := FirstHit(pairs, text, bar);
    var keys := FirstWins(pairs).Keys;
    var n := LongestKey(keys, text, |text|);
    if n > 0 || (n == 0 && !bar) {
      var j := FirstWinsKey(pairs, text[..n]);
      assert pairs[j].0 <= text;
      assert k <= j;
      FirstWinsHas(pairs, k);
      LongestExtends(keys, text, pairs[k].0);
      PrefixIsSlice(pairs[k].0, text);
      ShorterPrefix(pairs[k].0, pairs[j].0, text);
    } else if k < |pairs| {
      FirstWinsHas(pairs, k);
      LongestExtends(keys, text, pairs[k].0);
      assert false;
    }
  }

  /** Longest first is enough: the engines compute the reference substitution, so
      the order of the pairs does not show in the result. */
  lemma {:induction false} ScanIsRender(pairs: seq<(string, string)>, text: string, bar: bool)
    requires LongerFirst(pairs)
    ensures var d := FirstWins(pairs);
            && KeysKnown(d, Tokens(d.Keys, text, bar))
            && ScanPairs(pairs, text, bar) == Render(d, Tokens(d.Keys, text, bar))
    decreases |text|, if bar then 0 else 1
  {
    var d := FirstWins(pairs);
    TokensKnown(d, text, bar);
    FirstHitIsLongest(pairs, text, bar);
    var k := FirstHit(pairs, text, bar);
    if k < |pairs| {
      ScanIsRender(pairs, text[|pairs[k].0|..], pairs[k].0 == "");
    } else if text != "" {
      ScanIsRender(pairs, text[1..], false);
    }
  }

  lemma ScanIsSubstitute(pairs: seq<(string, string)>, d: map<string, string>, text: string)
    requires LongerFirst(pairs) && FirstWins(pairs) == d
    ensures ScanPairs(pairs, text, false) == Substitute(d, text)
  {
    ScanIsRender(pairs, text, false);
  }
}
