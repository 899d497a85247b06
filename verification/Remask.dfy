// Masking a text again in the API (rubezh-api/internal/chat/pseudonym.go): what
// restoring makes of the result, and which raw values may be left in it.
module Remask {
  import opened Replacer
  import opened PseudonymMap
  import opened Weave

  // ----- the result as free text and pseudonyms

  /** The free text before the first raw value, and each raw value's pseudonym with the
      free text after it. */
  function Stretches(back: map<string, string>, ts: seq<Token>): (string, seq<Link>)
    requires KeysKnown(back, ts)
  {
    if ts == [] then ("", [])
    else
      var (head, links) := Stretches(back, ts[1..]);
      match ts[0]
      case Literal(c) => ([c] + head, links)
      case Hit(key) => ("", [Link(back[key], head)] + links)
  }

  lemma {:induction false} StretchesRender(back: map<string, string>, ts: seq<Token>)
    requires KeysKnown(back, ts)
    ensures var (head, links) := Stretches(back, ts); Render(back, ts) == head + Strand(links)
  {
    if ts != [] {
      StretchesRender(back, ts[1..]);
      var (head, links) := Stretches(back, ts[1..]);
      match ts[0]
      case Literal(c) =>
        assert [c] + (head + Strand(links)) == [c] + head + Strand(links);
      case Hit(key) =>
        var l := Link(back[key], head);
        assert ([l] + links)[1..] == links;
        assert back[key] + (head + Strand(links)) == back[key] + head + Strand(links);
        assert "" + Strand([l] + links) == Strand([l] + links);
    }
  }

  ghost predicate Inserts(back: map<string, string>, name: string) {
    exists raw :: raw in back && back[raw] == name
  }

  lemma {:induction false} StretchesNames(back: map<string, string>, ts: seq<Token>)
    requires KeysKnown(back, ts)
    ensures var (_, links) := Stretches(back, ts); forall l :: l in links ==> Inserts(back, l.name)
  {
    if ts != [] {
      StretchesNames(back, ts[1..]);
      assert ts[0].Hit? ==> Inserts(back, back[ts[0].key]);
    }
  }

  lemma {:induction false} StretchesSource(toRaw: map<string, string>, back: map<string, string>, ts: seq<Token>)
    requires KeysKnown(back, ts) && Inverts(back, toRaw)
    ensures var (head, links) := Stretches(back, ts);
            Known(toRaw.Keys, links) && Source(ts) == head + Original(toRaw, links)
  {
    if ts != [] {
      hide Inverts;
      StretchesSource(toRaw, back, ts[1..]);
      var (head, links) := Stretches(back, ts[1..]);
      match ts[0]
      case Literal(c) =>
        assert [c] + (head + Original(toRaw, links)) == [c] + head + Original(toRaw, links);
      case Hit(key) =>
        assert back[key] in toRaw && toRaw[back[key]] == key by { KeyBack(toRaw, back, key); }
        var l := Link(back[key], head);
        assert ([l] + links)[1..] == links;
        assert Known(toRaw.Keys, [l] + links);
        assert key + (head + Original(toRaw, links)) == key + head + Original(toRaw, links);
        assert "" + Original(toRaw, [l] + links) == Original(toRaw, [l] + links);
    }
  }

  lemma KeyBack(toRaw: map<string, string>, back: map<string, string>, key: string)
    requires Inverts(back, toRaw) && key in back
    ensures back[key] in toRaw && toRaw[back[key]] == key
  {
  }

  function Parts(back: map<string, string>, text: string): (string, seq<Link>) {
    TokensKnown(back, text, false);
    Stretches(back, Tokens(back.Keys, text, false))
  }

  // ----- restoring what was masked

  /** `Restore` after `Remask`, exactly: each raw value comes back as the value of the
      longest pseudonym that can be read in its place, the free text is substituted by
      itself, and that is the text if (and, where a wrong reading shows, only if) the
      values are those that were meant and the rest of the free text has no pseudonym. */
  lemma RemaskThenRestore(toRaw: map<string, string>, back: map<string, string>, text: string)
    requires Inverts(back, toRaw) && Pseudonyms(toRaw.Keys)
    ensures var (head, links) := Parts(back, text);
            var restored := Substitute(toRaw, Substitute(back, text));
            && Known(toRaw.Keys, links)
            && Substitute(back, text) == head + Strand(links) && text == head + Original(toRaw, links)
            && restored == Substitute(toRaw, head) + Restored(toRaw, links)
            && (Intact(toRaw, head, links) ==> restored == text)
            && (AllTelling(toRaw, head, links) ==> (restored == text <==> Intact(toRaw, head, links)))
  {
    hide Inverts, Pseudonyms, Tokens, Intact, AllTelling, Restored, Original, Strand, Stretches;
    TokensKnown(back, text, false);
    var ts := Tokens(back.Keys, text, false);
    TokensCover(back.Keys, text, false);
    StretchesRender(back, ts);
    StretchesSource(toRaw, back, ts);
    var (head, links) := Parts(back, text);
    WovenRestores(toRaw, head, links);
    OriginalIff(toRaw, head, links);
  }

  // ----- raw values that are left

  lemma {:induction false} StretchesUntouched(back: map<string, string>, text: string)
    requires "" !in back
    ensures KeysKnown(back, Tokens(back.Keys, text, false))
    ensures var (head, links) := Stretches(back, Tokens(back.Keys, text, false));
      && head <= text && Untouched(back.Keys, head)
      && forall k :: 0 <= k < |links| ==> Untouched(back.Keys, links[k].gap)
    decreases |text|
  {
    hide Untouched;
    TokensKnown(back, text, false);
    var n := LongestKey(back.Keys, text, |text|);
    assert text[..0] == "";
    if text == "" {
      EmptyUntouched(back.Keys);
    } else if n > 0 {
      StretchesUntouched(back, text[n..]);
      EmptyUntouched(back.Keys);
    } else {
      StretchesUntouched(back, text[1..]);
      var (head, links) := Stretches(back, Tokens(back.Keys, text[1..], false));
      OneMoreLiteral(back.Keys, text, head);
    }
  }

  lemma EmptyUntouched(keys: set<string>)
    requires "" !in keys
    ensures Untouched(keys, "")
  {
    forall key | key in keys
      ensures !Occurs(key, "")
    {
      assert forall i :: 0 <= i <= |""| ==> ""[i..] == "";
    }
  }

  lemma FirstOrLater(key: string, c: char, head: string)
    requires Occurs(key, [c] + head)
    ensures key <= [c] + head || Occurs(key, head)
  {
    var whole := [c] + head;
    var i :| 0 <= i <= |whole| && key <= whole[i..];
    if i == 0 {
      assert whole[0..] == whole;
    } else {
      assert whole[i..] == head[i - 1..];
    }
  }

  lemma OneMoreLiteral(keys: set<string>, text: string, head: string)
    requires text != "" && LongestKey(keys, text, |text|) <= 0 && "" !in keys
    requires head <= text[1..] && Untouched(keys, head)
    ensures [text[0]] + head <= text && Untouched(keys, [text[0]] + head)
  {
    var whole := [text[0]] + head;
    forall key | key in keys
      ensures !Occurs(key, whole)
    {
      if Occurs(key, whole) {
        FirstOrLater(key, text[0], head);
        if key <= whole {
          LongestExtends(keys, text, key);
        }
      }
    }
  }

  /** Where the `k`-th pseudonym starts, after `at` characters. */
  function Place(at: nat, links: seq<Link>, k: nat): nat
    requires k < |links|
    decreases k
  {
    if k == 0 then at else Place(at + |links[0].name| + |links[0].gap|, links[1..], k - 1)
  }

  /** The stretch from `i` to `j` shares characters with an inserted pseudonym. */
  ghost predicate Meeting(at: nat, links: seq<Link>, i: int, j: int) {
    exists k :: 0 <= k < |links| && MeetingAt(at, links, k, i, j)
  }

  predicate MeetingAt(at: nat, links: seq<Link>, k: nat, i: int, j: int)
    requires k < |links|
  {
    Place(at, links, k) < j && i < Place(at, links, k) + |links[k].name|
  }

  lemma MeetingLater(at: nat, links: seq<Link>, i: int, j: int)
    requires links != [] && Meeting(at + |links[0].name| + |links[0].gap|, links[1..], i, j)
    ensures Meeting(at, links, i, j)
  {
    var after := at + |links[0].name| + |links[0].gap|;
    var k :| 0 <= k < |links[1..]| && MeetingAt(after, links[1..], k, i, j);
    assert Place(at, links, k + 1) == Place(after, links[1..], k);
    assert MeetingAt(at, links, k + 1, i, j);
  }

  lemma OccursBefore(key: string, head: string, rest: string, i: nat)
    requires i + |key| <= |head| && key <= (head + rest)[i..]
    ensures Occurs(key, head)
  {
    assert forall m :: 0 <= m < |key| ==> key[m] == (head + rest)[i..][m] == head[i..][m];
    assert key <= head[i..];
  }

  lemma {:induction false} LeftIsMeeting(key: string, at: nat, head: string, links: seq<Link>, i: nat)
    requires key != "" && i <= |head + Strand(links)| && key <= (head + Strand(links))[i..]
    requires !Occurs(key, head) && forall k :: 0 <= k < |links| ==> !Occurs(key, links[k].gap)
    ensures Meeting(at + |head|, links, at + i, at + i + |key|)
    decreases |links|
  {
    var whole, n := head + Strand(links), |head|;
    assert i + |key| <= |whole|;
    if i + |key| <= n {
      OccursBefore(key, head, Strand(links), i);
    } else if i < n + |links[0].name| {
      assert MeetingAt(at + n, links, 0, at + i, at + i + |key|);
    } else {
      var skip := n + |links[0].name|;
      var rest := links[0].gap + Strand(links[1..]);
      assert whole[skip..] == rest && whole[i..] == rest[i - skip..];
      LeftIsMeeting(key, at + skip, links[0].gap, links[1..], i - skip);
      MeetingLater(at + n, links, at + i, at + i + |key|);
    }
  }

  /** A raw value is left in the masked text exactly where it shares characters with an
      inserted pseudonym. */
  lemma LeftMeetsPseudonym(back: map<string, string>, text: string)
    requires "" !in back
    ensures var (head, links) := Parts(back, text);
      && Substitute(back, text) == head + Strand(links)
      && forall key, i :: key in back && 0 <= i <= |Substitute(back, text)| && key <= Substitute(back, text)[i..]
           ==> Meeting(|head|, links, i, i + |key|)
  {
    hide Tokens, Strand, Meeting, Stretches;
    TokensKnown(back, text, false);
    StretchesRender(back, Tokens(back.Keys, text, false));
    StretchesUntouched(back, text);
    var (head, links) := Parts(back, text);
    forall key, i | key in back && 0 <= i <= |head + Strand(links)| && key <= (head + Strand(links))[i..]
      ensures Meeting(|head|, links, i, i + |key|)
    {
      LeftIsMeeting(key, 0, head, links, i);
    }
  }

  // ----- when no raw value can be left

  /** Laid over `r` from position `o` on, `p` shares characters with it and agrees with
      it on them. */
  ghost predicate Agree(r: string, p: string, o: int) {
    -|p| < o < |r| && forall i :: 0 <= i < |r| && o <= i < o + |p| ==> r[i] == p[i - o]
  }

  /** No raw value can share characters with a pseudonym. */
  ghost predicate Clear(back: map<string, string>) {
    forall r, key, o :: r in back && key in back ==> !Agree(r, back[key], o)
  }

  lemma SliceLater(a: string, b: string, p: nat, n: nat)
    requires p + n <= |b|
    ensures (a + b)[|a| + p..|a| + p + n] == b[p..p + n]
  {
  }

  lemma StrandStarts(links: seq<Link>)
    requires links != []
    ensures Strand(links) == links[0].name + links[0].gap + Strand(links[1..])
  {
  }

  lemma {:induction false} NameStandsAt(at: nat, links: seq<Link>, k: nat)
    requires k < |links|
    ensures var p := Place(at, links, k) - at;
      && 0 <= p && p + |links[k].name| <= |Strand(links)|
      && Strand(links)[p..p + |links[k].name|] == links[k].name
    decreases k
  {
    hide Strand;
    StrandStarts(links);
    var first, rest := links[0].name + links[0].gap, Strand(links[1..]);
    if k == 0 {
      assert (first + rest)[..|links[0].name|] == links[0].name;
    } else {
      NameStandsAt(at + |first|, links[1..], k - 1);
      SliceLater(first, rest, Place(at, links, k) - at - |first|, |links[k].name|);
    }
  }

  lemma MeetingAgrees(key: string, head: string, links: seq<Link>, i: nat, k: nat)
    requires k < |links| && i <= |head + Strand(links)| && key <= (head + Strand(links))[i..]
    requires MeetingAt(|head|, links, k, i, i + |key|)
    ensures Agree(key, links[k].name, Place(|head|, links, k) - i)
  {
    var whole, name, p := head + Strand(links), links[k].name, Place(|head|, links, k);
    NameStandsAt(|head|, links, k);
    forall m | 0 <= m < |key| && p - i <= m < p - i + |name|
      ensures key[m] == name[m - (p - i)]
    {
      assert key[m] == whole[i..][m] == whole[i + m];
      assert whole[i + m] == Strand(links)[i + m - |head|];
      assert Strand(links)[p - |head|..p - |head| + |name|][i + m - p] == Strand(links)[i + m - |head|];
    }
  }

  lemma ClearNeverAgrees(back: map<string, string>, key: string, name: string, o: int)
    requires Clear(back) && key in back && Inserts(back, name)
    ensures !Agree(key, name, o)
  {
    var raw :| raw in back && back[raw] == name;
  }

  lemma ClearNeverMeets(back: map<string, string>, key: string, head: string, links: seq<Link>, i: nat)
    requires Clear(back) && key in back && forall l :: l in links ==> Inserts(back, l.name)
    requires i <= |head + Strand(links)| && key <= (head + Strand(links))[i..]
    ensures !Meeting(|head|, links, i, i + |key|)
  {
    hide Strand, Agree, Clear, Inserts;
    if Meeting(|head|, links, i, i + |key|) {
      var k :| 0 <= k < |links| && MeetingAt(|head|, links, k, i, i + |key|);
      ClearNeverAgrees(back, key, links[k].name, Place(|head|, links, k) - i);
      MeetingAgrees(key, head, links, i, k);
    }
  }

  /** If no raw value can share characters with a pseudonym, masking leaves none in any
      text. */
  lemma ClearLeavesNothing(back: map<string, string>, text: string)
    requires "" !in back && Clear(back)
    ensures Untouched(back.Keys, Substitute(back, text))
  {
    hide Tokens, Strand, Stretches, Clear, Inserts, Substitute, Meeting;
    LeftMeetsPseudonym(back, text);
    TokensKnown(back, text, false);
    StretchesNames(back, Tokens(back.Keys, text, false));
    var (head, links) := Parts(back, text);
    var masked := Substitute(back, text);
    forall key, i | key in back && 0 <= i <= |masked| && key <= masked[i..]
      ensures false
    {
      ClearNeverMeets(back, key, head, links, i);
    }
  }

  /** No two raw values can share characters. */
  ghost predicate Separate(keys: set<string>) {
    forall r, s, o :: r in keys && s in keys && Agree(r, s, o) ==> r == s && o == 0
  }

  /** The raw value of the pseudonym, with what the other raw value needs around it. */
  function Around(r: string, p: string, o: int): (string, string)
    requires -|p| < o < |r|
  {
    (r[..if o > 0 then o else 0], r[if o + |p| < |r| then o + |p| else |r|..])
  }

  lemma InsideIsUntouched(keys: set<string>, r: string, a: nat, b: nat)
    requires Separate(keys) && "" !in keys && r in keys && a <= b <= |r| && b - a < |r|
    ensures Untouched(keys, r[a..b])
  {
    forall key | key in keys
      ensures !Occurs(key, r[a..b])
    {
      if Occurs(key, r[a..b]) {
        var i :| 0 <= i <= b - a && key <= r[a..b][i..];
        assert forall m :: 0 <= m < |key| ==> key[m] == r[a..b][i..][m] == r[a + i + m];
        assert Agree(r, key, a + i);
      }
    }
  }

  lemma BeginningAgrees(r: string, a: nat, raw: string, post: string, i: nat, key: string)
    requires i < a < |r| && key != "" && key <= (r[..a] + raw + post)[i..]
    ensures if i + |key| <= a then Agree(r, key, i) && |key| < |r| else Agree(key, raw, a - i)
  {
    var text := r[..a] + raw + post;
    assert forall m :: 0 <= m < |key| ==> key[m] == text[i + m];
    if i + |key| <= a {
      assert forall m :: 0 <= m < |key| ==> key[m] == r[i + m];
    } else {
      assert forall m :: 0 <= m < |key| && a - i <= m < a - i + |raw| ==> key[m] == raw[m - (a - i)];
    }
  }

  /** Before a raw value, a beginning of one is not touched. */
  lemma {:induction false} BeginningStays(keys: set<string>, r: string, a: nat, raw: string, post: string)
    requires Separate(keys) && "" !in keys && r in keys && raw in keys && a < |r|
    ensures forall i :: 0 <= i < a ==> LongestKey(keys, (r[..a] + raw + post)[i..], a - i + |raw| + |post|) <= 0
  {
    var text := r[..a] + raw + post;
    forall i | 0 <= i < a
      ensures LongestKey(keys, text[i..], a - i + |raw| + |post|) <= 0
    {
      var n := LongestKey(keys, text[i..], |text[i..]|);
      if n > 0 {
        var key := text[i..][..n];
        BeginningAgrees(r, a, raw, post, i, key);
      }
    }
  }

  lemma RawIsLongest(keys: set<string>, raw: string, post: string)
    requires Separate(keys) && "" !in keys && raw in keys
    ensures LongestKey(keys, raw + post, |raw + post|) == |raw|
  {
    var text := raw + post;
    LongestExtends(keys, text, raw);
    var n := LongestKey(keys, text, |text|);
    var key := text[..n];
    assert forall m :: 0 <= m < |raw| ==> key[m] == text[m] == raw[m];
    assert Agree(key, raw, 0);
  }

  lemma LiteralFirst(keys: set<string>, text: string)
    requires text != "" && "" !in keys && LongestKey(keys, text, |text|) <= 0
    ensures Tokens(keys, text, false) == [Literal(text[0])] + Tokens(keys, text[1..], false)
  {
    assert text[..0] == "";
  }

  lemma {:induction false} BeginningTokens(keys: set<string>, pre: string, rest: string)
    requires forall i :: 0 <= i < |pre| ==> LongestKey(keys, (pre + rest)[i..], |pre| - i + |rest|) <= 0
    requires "" !in keys
    ensures Tokens(keys, pre + rest, false) == Literals(pre) + Tokens(keys, rest, false)
  {
    hide Tokens, LongestKey;
    var text := pre + rest;
    if pre == "" {
      assert text == rest;
    } else {
      assert text[0..] == text;
      assert LongestKey(keys, text[0..], |pre| - 0 + |rest|) <= 0;
      LiteralFirst(keys, text);
      assert text[1..] == pre[1..] + rest;
      forall i | 0 <= i < |pre[1..]|
        ensures LongestKey(keys, (pre[1..] + rest)[i..], |pre[1..]| - i + |rest|) <= 0
      {
        assert text[i + 1..] == (pre[1..] + rest)[i..];
        assert LongestKey(keys, text[i + 1..], |pre| - (i + 1) + |rest|) <= 0;
      }
      BeginningTokens(keys, pre[1..], rest);
    }
  }

  /** Masking a raw value amid such surroundings puts in its pseudonym and nothing else. */
  lemma AmidSurroundings(back: map<string, string>, r: string, raw: string, o: int)
    requires Separate(back.Keys) && "" !in back && r in back && raw in back && -|back[raw]| < o < |r|
    ensures var (pre, post) := Around(r, back[raw], o);
            Substitute(back, pre + raw + post) == pre + back[raw] + post
  {
    hide Separate, Tokens;
    var (pre, post) := Around(r, back[raw], o);
    var a, b := |pre|, |r| - |post|;
    assert post == r[b..|r|] && b > 0;
    InsideIsUntouched(back.Keys, r, b, |r|);
    BeginningStays(back.Keys, r, a, raw, post);
    assert pre + raw + post == pre + (raw + post);
    BeginningTokens(back.Keys, pre, raw + post);
    RawThenRest(back, raw, post);
    LiteralsRender(back, pre);
    TokensKnown(back, raw + post, false);
    RenderConcat(back, Literals(pre), Tokens(back.Keys, raw + post, false));
    assert pre + (back[raw] + post) == pre + back[raw] + post;
  }

  lemma RawThenRest(back: map<string, string>, raw: string, post: string)
    requires Separate(back.Keys) && "" !in back && raw in back && Untouched(back.Keys, post)
    ensures Substitute(back, raw + post) == back[raw] + post
  {
    hide Separate, Untouched;
    RawIsLongest(back.Keys, raw, post);
    var text := raw + post;
    assert text[..|raw|] == raw && text[|raw|..] == post;
    LiteralTokens(back.Keys, post);
    LiteralsRender(back, post);
    assert Tokens(back.Keys, text, false) == [Hit(raw)] + Literals(post);
    assert ([Hit(raw)] + Literals(post))[1..] == Literals(post);
  }

  lemma SurroundedHolds(r: string, p: string, o: int)
    requires Agree(r, p, o)
    ensures var (pre, post) := Around(r, p, o); Occurs(r, pre + p + post)
  {
    var (pre, post) := Around(r, p, o);
    var text := pre + p + post;
    var i := if o < 0 then -o else 0;
    forall m | 0 <= m < |r|
      ensures i + m < |text| && text[i + m] == r[m]
    {
      if o <= m < o + |p| {
        assert text[i + m] == p[m - o];
      } else if m >= o + |p| {
        assert text[i + m] == post[m - (o + |p|)];
      }
    }
    assert text[i..][..|r|] == r;
    assert r <= text[i..];
  }

  /** A text in which masking leaves a raw value, wherever one can share characters with
      a pseudonym. */
  lemma RawIsLeft(back: map<string, string>, r: string, raw: string, o: int) returns (text: string)
    requires Separate(back.Keys) && "" !in back && r in back && raw in back && Agree(r, back[raw], o)
    ensures var (pre, post) := Around(r, back[raw], o); text == pre + raw + post
    ensures Occurs(r, Substitute(back, text))
  {
    hide Separate, Occurs, Substitute;
    var (pre, post) := Around(r, back[raw], o);
    text := pre + raw + post;
    AmidSurroundings(back, r, raw, o);
    SurroundedHolds(r, back[raw], o);
  }

  /** Masking removes the raw values from every text exactly when none can share characters
      with a pseudonym, for raw values that cannot share characters with each other. */
  lemma RemovesAllIff(back: map<string, string>)
    requires "" !in back && Separate(back.Keys)
    ensures (forall text :: Untouched(back.Keys, Substitute(back, text))) <==> Clear(back)
  {
    hide Separate, Substitute, Agree, Occurs;
    if Clear(back) {
      forall text
        ensures Untouched(back.Keys, Substitute(back, text))
      {
        ClearLeavesNothing(back, text);
      }
    } else {
      var r, raw, o :| r in back && raw in back && Agree(r, back[raw], o);
      var text := RawIsLeft(back, r, raw, o);
      assert !Untouched(back.Keys, Substitute(back, text));
    }
  }

  const SAMPLE: map<string, string> := map["Ян" := "ФИО_001", "12" := "ТЕЛЕФОН_001"]

  /** It does happen: the last digit of a pseudonym and the next one of the text are
      another raw value. */
  lemma DigitsAreLeft()
    ensures Occurs("12", Substitute(SAMPLE, "Ян2"))
  {
    hide Occurs, Substitute;
    assert SAMPLE.Keys == {"Ян", "12"};
    var p := "ФИО_001";
    assert Agree("12", p, -6) by {
      assert p[6] == '1';
    }
    assert Separate(SAMPLE.Keys) by {
      SampleSeparate();
    }
    var text := RawIsLeft(SAMPLE, "12", "Ян", -6);
    assert text == "" + "Ян" + "2" == "Ян2";
  }

  lemma SampleSeparate()
    ensures Separate({"Ян", "12"})
  {
    var a, b := "Ян", "12";
    forall r, s, o | r in {a, b} && s in {a, b} && Agree(r, s, o)
      ensures r == s && o == 0
    {
      var i := if o > 0 then o else 0;
      assert r[i] == s[i - o];
      assert a[0] == 'Я' && a[1] == 'н' && b[0] == '1' && b[1] == '2';
    }
  }
}
