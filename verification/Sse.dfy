// The event stream of /api/chat: the printer (rubezh-api/internal/api/chat.go) and
// the incremental reader (rubezh-web/src/api/sse.ts). JSON parsing with schema
// validation is the parameter `decode`; the text decoder joins its chunks.
module Sse {
  import opened Strings
  import opened Wrappers

  datatype Kind = Meta | Status | Delta | Done | Error | RagHits

  datatype Payload = Payload(body: string, requestId: string)

  datatype Event = Event(kind: Kind, payload: Payload)

  function Name(kind: Kind): (s: string)
    ensures s != "" && forall i :: 0 <= i < |s| ==> s[i] != '\n' && !IsSpace(s[i])
  {
    match kind
    case Meta => "meta"
    case Status => "status"
    case Delta => "delta"
    case Done => "done"
    case Error => "error"
    case RagHits => "rag_hits"
  }

  function KindOf(name: string): Option<Kind> {
    if name == "meta" then Some(Meta)
    else if name == "delta" then Some(Delta)
    else if name == "status" then Some(Status)
    else if name == "done" then Some(Done)
    else if name == "error" then Some(Error)
    else if name == "rag_hits" then Some(RagHits)
    else None
  }

  predicate Terminal(e: Event) { e.kind == Done || e.kind == Error }

  // ----- splitting

  /** `s.split("\n\n")`, the last piece apart: the complete blocks and what is left. */
  function Cut(s: string): (r: (seq<string>, string))
    ensures r.0 == [] ==> r.1 == s
  {
    if |s| < 2 then ([], s)
    else if s[0] == '\n' && s[1] == '\n' then
      var tail := Cut(s[2..]);
      ([""] + tail.0, tail.1)
    else
      var tail := Cut(s[1..]);
      if tail.0 == [] then ([], s) else ([[s[0]] + tail.0[0]] + tail.0[1..], tail.1)
  }

  lemma CutAtBlank(s: string)
    requires |s| >= 2 && s[0] == '\n' && s[1] == '\n'
    ensures Cut(s) == ([""] + Cut(s[2..]).0, Cut(s[2..]).1)
  {
  }

  lemma CutAtCharacter(s: string)
    requires |s| >= 2 && !(s[0] == '\n' && s[1] == '\n') && Cut(s[1..]).0 != []
    ensures Cut(s) == ([[s[0]] + Cut(s[1..]).0[0]] + Cut(s[1..]).0[1..], Cut(s[1..]).1)
  {
  }

  lemma CutNonEmpty(s: string)
    requires Cut(s).0 != []
    ensures |s| >= 2 && ((s[0] == '\n' && s[1] == '\n') || Cut(s[1..]).0 != [])
  {
  }

  /** Cutting a prefix first, then what it left joined with the rest, is cutting once. */
  lemma {:induction false} CutExtends(a: string, b: string)
    ensures Cut(a + b) == (Cut(a).0 + Cut(Cut(a).1 + b).0, Cut(Cut(a).1 + b).1)
  {
    hide Cut;
    if Cut(a).0 == [] {
      assert Cut(a).0 + Cut(a + b).0 == Cut(a + b).0;
    } else {
      CutNonEmpty(a);
      var y := Cut(Cut(a).1 + b).0;
      if a[0] == '\n' && a[1] == '\n' {
        CutAtBlank(a);
        CutAtBlank(a + b);
        CutExtends(a[2..], b);
        assert (a + b)[2..] == a[2..] + b;
        assert ([""] + Cut(a[2..]).0) + y == [""] + (Cut(a[2..]).0 + y);
      } else {
        var x := Cut(a[1..]).0;
        CutExtends(a[1..], b);
        assert (a + b)[1..] == a[1..] + b;
        CutAtCharacter(a);
        assert (x + y)[0] == x[0] && (x + y)[1..] == x[1..] + y;
        CutAtCharacter(a + b);
        var head := [[a[0]] + x[0]];
        assert (head + x[1..]) + y == head + (x[1..] + y);
      }
    }
  }

  /** `s.split("\n")`. */
  function Lines(s: string): (r: seq<string>)
    ensures r != []
  {
    if s == "" then [""]
    else
      var tail := Lines(s[1..]);
      if s[0] == '\n' then [""] + tail else [[s[0]] + tail[0]] + tail[1..]
  }

  predicate IsSpace(c: char) {
    var n := c as int;
    || 9 <= n <= 13 || n == 32 || n == 0xA0 || n == 0x1680 || 0x2000 <= n <= 0x200A
    || n == 0x2028 || n == 0x2029 || n == 0x202F || n == 0x205F || n == 0x3000 || n == 0xFEFF
  }

  function Trim(s: string): string {
    if s != "" && IsSpace(s[0]) then Trim(s[1..])
    else if s != "" && IsSpace(s[|s| - 1]) then Trim(s[..|s| - 1])
    else s
  }

  /** A trimmed text is what stands between the blanks at both ends. */
  lemma {:induction false} TrimIs(s: string) returns (i: nat, n: nat)
    ensures i <= n <= |s| && Trim(s) == s[i..n]
    ensures forall k :: 0 <= k < i || n <= k < |s| ==> IsSpace(s[k])
    ensures i < n ==> !IsSpace(s[i]) && !IsSpace(s[n - 1])
  {
    hide IsSpace;
    if s != "" && IsSpace(s[0]) {
      i, n := TrimIs(s[1..]);
      assert s[1..][i..n] == s[i + 1..n + 1];
      i, n := i + 1, n + 1;
      forall k | 0 < k < i || n <= k < |s|
        ensures IsSpace(s[k])
      {
        assert s[k] == s[1..][k - 1];
      }
    } else if s != "" && IsSpace(s[|s| - 1]) {
      i, n := TrimIs(s[..|s| - 1]);
      assert s[..|s| - 1][i..n] == s[i..n];
      assert forall k :: 0 <= k < |s| - 1 ==> s[..|s| - 1][k] == s[k];
    } else {
      i, n := 0, |s|;
    }
  }

  /** The white space and line ends of ECMAScript, which `trim` takes off. */
  lemma SpacesAre(c: char)
    ensures IsSpace(c) <==>
            c in "\U{9}\U{A}\U{B}\U{C}\U{D}\U{20}\U{A0}\U{1680}\U{2000}\U{2001}\U{2002}\U{2003}\U{2004}\U{2005}"
            || c in "\U{2006}\U{2007}\U{2008}\U{2009}\U{200A}\U{2028}\U{2029}\U{202F}\U{205F}\U{3000}\U{FEFF}"
  {
  }

  /** A name stands for one kind, and no other name for any. */
  lemma KindsAreNamed(name: string, kind: Kind)
    ensures KindOf(name) == Some(kind) <==> name == Name(kind)
  {
  }

  // ----- one block

  /** What the last line that starts with `field` says after it; "" if none does. */
  function LastField(lines: seq<string>, field: string): string {
    if lines == [] then ""
    else if field <= lines[|lines| - 1] then lines[|lines| - 1][|field|..]
    else LastField(lines[..|lines| - 1], field)
  }

  function Parse(block: string, decode: (Kind, string) -> Option<Payload>): Option<Event> {
    var name := Trim(LastField(Lines(block), "event: "));
    var data := LastField(Lines(block), "data: ");
    if data == "" || KindOf(name).None? then None
    else
      var payload := decode(KindOf(name).value, data);
      if payload.None? then None else Some(Event(KindOf(name).value, payload.value))
  }

  method ParseBlock(block: string, decode: (Kind, string) -> Option<Payload>) returns (ev: Option<Event>)
    ensures ev == Parse(block, decode)
  {
    var name, dataLine := "", "";
    var lines := Lines(block);
    assert Trim("") == "";
    for i := 0 to |lines|
      invariant name == Trim(LastField(lines[..i], "event: "))
      invariant dataLine == LastField(lines[..i], "data: ")
    {
      var ln := lines[i];
      assert lines[..i + 1][..i] == lines[..i];
      assert !("event: " <= ln && "data: " <= ln) by {
        assert "event: "[0] != "data: "[0];
      }
      if "event: " <= ln {
        name := Trim(ln[7..]);
      } else if "data: " <= ln {
        dataLine := ln[6..];
      }
    }
    assert lines[..|lines|] == lines;
    if name == "" || dataLine == "" || KindOf(name).None? {
      return None;
    }
    var payload := decode(KindOf(name).value, dataLine);
    if payload.None? {
      return None;
    }
    ev := Some(Event(KindOf(name).value, payload.value));
  }

  // ----- the reader

  /** The events of a list of blocks; what does not parse is skipped. */
  function Events(blocks: seq<string>, decode: (Kind, string) -> Option<Payload>): seq<Event> {
    if blocks == [] then []
    else
      var front, ev := Events(blocks[..|blocks| - 1], decode), Parse(blocks[|blocks| - 1], decode);
      if ev.None? then front else front + [ev.value]
  }

  predicate SawTerminal(events: seq<Event>) {
    exists i :: 0 <= i < |events| && Terminal(events[i])
  }

  function LastRequestId(events: seq<Event>): string {
    if events == [] then ""
    else
      var last := events[|events| - 1];
      if last.kind in {Meta, Done, Error} && last.payload.requestId != "" then last.payload.requestId
      else LastRequestId(events[..|events| - 1])
  }

  /** How reading ends: the stream closes, or a read throws. */
  datatype End = Closed | Threw(message: string, aborted: bool)

  function Synthetic(events: seq<Event>, end: End): seq<Event> {
    if SawTerminal(events) then []
    else match end
      case Closed =>
        [Event(Error, Payload("поток оборван без терминального события (truncated)", LastRequestId(events)))]
      case Threw(message, aborted) =>
        if aborted then []
        else [Event(Error, Payload("поток оборван: " + if message == "" then "network error" else message,
                                   LastRequestId(events)))]
  }

  /** What a whole response text is worth, read at once. */
  function Delivered(text: string, end: End, decode: (Kind, string) -> Option<Payload>): seq<Event> {
    var events := Events(Cut(text).0, decode);
    events + Synthetic(events, end)
  }

  lemma {:induction false} EventsConcat(a: seq<string>, b: seq<string>, decode: (Kind, string) -> Option<Payload>)
    ensures Events(a + b, decode) == Events(a, decode) + Events(b, decode)
  {
    if b == [] {
      assert a + b == a;
    } else {
      assert (a + b)[..|a + b| - 1] == a + b[..|b| - 1];
      EventsConcat(a, b[..|b| - 1], decode);
    }
  }

  /** `streamChat` after the response has come: the result depends on the text
      alone, not on where the chunks were cut. */
  method StreamChat(chunks: seq<string>, end: End, decode: (Kind, string) -> Option<Payload>)
    returns (events: seq<Event>, threw: bool)
    ensures events == Delivered(Concat(chunks), end, decode)
    ensures threw == end.Threw?
  {
    var buf, sawTerminal, lastRequestId := "", false, "";
    events := [];
    for n := 0 to |chunks|
      invariant events == Events(Cut(Concat(chunks[..n])).0, decode)
      invariant buf == Cut(Concat(chunks[..n])).1
      invariant sawTerminal == SawTerminal(events) && lastRequestId == LastRequestId(events)
    {
      hide Cut, Events, Synthetic, LastRequestId, SawTerminal;
      assert Concat(chunks[..n + 1]) == Concat(chunks[..n]) + chunks[n] by {
        assert chunks[..n + 1][..n] == chunks[..n];
      }
      CutExtends(Concat(chunks[..n]), chunks[n]);
      EventsConcat(Cut(Concat(chunks[..n])).0, Cut(buf + chunks[n]).0, decode);
      var cut := Cut(buf + chunks[n]);
      events, sawTerminal, lastRequestId := Dispatch(cut.0, events, sawTerminal, lastRequestId, decode);
      buf := cut.1;
    }
    assert chunks[..|chunks|] == chunks;
    threw := end.Threw?;
    match end {
      case Threw(message, aborted) =>
        if !sawTerminal && !aborted {
          var cause := if message == "" then "network error" else message;
          events := events + [Event(Error, Payload("поток оборван: " + cause, lastRequestId))];
        }
      case Closed =>
        if !sawTerminal {
          events := events +
            [Event(Error, Payload("поток оборван без терминального события (truncated)", lastRequestId))];
        }
    }
  }

  lemma Noted(events: seq<Event>, ev: Event)
    ensures SawTerminal(events + [ev]) == (SawTerminal(events) || Terminal(ev))
    ensures LastRequestId(events + [ev]) ==
            if ev.kind in {Meta, Done, Error} && ev.payload.requestId != "" then ev.payload.requestId
            else LastRequestId(events)
  {
    var all := events + [ev];
    assert all[..|all| - 1] == events && all[|events|] == ev;
    assert forall i :: 0 <= i < |events| ==> all[i] == events[i];
  }

  /** The inner loop: parse each complete block and hand its event on. */
  method Dispatch(blocks: seq<string>, before: seq<Event>, saw: bool, last: string,
                  decode: (Kind, string) -> Option<Payload>)
    returns (events: seq<Event>, sawTerminal: bool, lastRequestId: string)
    requires saw == SawTerminal(before) && last == LastRequestId(before)
    ensures events == before + Events(blocks, decode)
    ensures sawTerminal == SawTerminal(events) && lastRequestId == LastRequestId(events)
  {
    events, sawTerminal, lastRequestId := before, saw, last;
    for i := 0 to |blocks|
      invariant events == before + Events(blocks[..i], decode)
      invariant sawTerminal == SawTerminal(events) && lastRequestId == LastRequestId(events)
    {
      assert blocks[..i + 1][..i] == blocks[..i];
      var ev := ParseBlock(blocks[i], decode);
      if ev.None? {
        continue;
      }
      Noted(events, ev.value);
      if ev.value.kind in {Meta, Done, Error} && ev.value.payload.requestId != "" {
        lastRequestId := ev.value.payload.requestId;
      }
      if Terminal(ev.value) {
        sawTerminal := true;
      }
      events := events + [ev.value];
    }
    assert blocks[..|blocks|] == blocks;
  }

  ghost predicate EndsInNews(events: seq<Event>) {
    exists i :: 0 <= i < |events| && events[i].kind in {Done, Error}
  }

  lemma NewsIsTerminal(events: seq<Event>)
    ensures SawTerminal(events) <==> EndsInNews(events)
  {
    if i :| 0 <= i < |events| && events[i].kind in {Done, Error} {
      assert Terminal(events[i]);
    }
  }

  /** A stream that closes normally always delivers a done or an error: the events that
      came, and if none of them is one the truncation error. */
  lemma ClosedStreamIsTerminated(text: string, decode: (Kind, string) -> Option<Payload>)
    ensures var events, all := Events(Cut(text).0, decode), Delivered(text, Closed, decode);
      && EndsInNews(all)
      && (EndsInNews(events) ==> all == events)
      && (!EndsInNews(events) ==> Appended(events, all, "поток оборван без терминального события (truncated)"))
  {
    hide Cut, Events, LastRequestId;
    var events, all := Events(Cut(text).0, decode), Delivered(text, Closed, decode);
    NewsIsTerminal(events);
    if !EndsInNews(events) {
      assert all[|events|].kind in {Done, Error};
    } else {
      assert all == events;
    }
  }

  /** One error more, with the id of the last request that named one. */
  ghost predicate Appended(events: seq<Event>, all: seq<Event>, message: string) {
    all == events + [Event(Error, Payload(message, LastRequestId(events)))]
  }

  /** A read that fails after a done or an error, or because the caller gave up, adds
      nothing; otherwise it adds exactly one error that says why. */
  lemma FailedReadTells(text: string, message: string, aborted: bool, decode: (Kind, string) -> Option<Payload>)
    ensures var events, all := Events(Cut(text).0, decode), Delivered(text, Threw(message, aborted), decode);
      && (EndsInNews(events) || aborted ==> all == events)
      && (!EndsInNews(events) && !aborted && message != "" ==> Appended(events, all, "поток оборван: " + message))
      && (!EndsInNews(events) && !aborted && message == "" ==>
            Appended(events, all, "поток оборван: network error"))
  {
    hide Cut, Events, LastRequestId;
    NewsIsTerminal(Events(Cut(text).0, decode));
    assert "поток оборван: " + "network error" == "поток оборван: network error";
  }

  // ----- the printer

  function Body(kind: Kind, data: string): string {
    "event: " + Name(kind) + "\ndata: " + data
  }

  function Printed(items: seq<(Kind, string)>): string {
    if items == [] then "" else Body(items[0].0, items[0].1) + "\n\n" + Printed(items[1..])
  }

  /** The sink behind the orchestrator; `data` is None where marshalling fails. */
  class SseSink {
    var written: string

    constructor ()
      ensures written == ""
    {
      written := "";
    }

    /** `cut` is None for a write that succeeds; a write that fails may have got so many
        characters out before. */
    method WriteEvent(kind: Kind, data: Option<string>, cut: Option<nat>) returns (ok: bool)
      modifies this
      ensures ok == (data.Some? && cut.None?)
      ensures data.None? ==> written == old(written)
      ensures data.Some? ==>
                var block := Body(kind, data.value) + "\n\n";
                written == old(written) + if ok || cut.value >= |block| then block else block[..cut.value]
    {
      if data.None? {
        return false;
      }
      var block := "event: " + Name(kind) + "\ndata: " + data.value + "\n\n";
      assert block == Body(kind, data.value) + "\n\n";
      if cut.Some? && cut.value < |block| {
        block := block[..cut.value];
      }
      written := written + block;
      return cut.None?;
    }
  }

  ghost predicate OneLine(data: string) { data != "" && '\n' !in data }

  /** No blank line inside: no two newlines in a row. */
  ghost predicate NoBlank(s: string) {
    forall i :: 0 <= i < |s| - 1 ==> !(s[i] == '\n' && s[i + 1] == '\n')
  }

  lemma {:induction false} NoBlankUncut(s: string)
    requires NoBlank(s)
    ensures Cut(s) == ([], s)
  {
    if |s| >= 2 {
      assert NoBlank(s[1..]);
      NoBlankUncut(s[1..]);
    }
  }

  lemma {:induction false} CutBlock(block: string, rest: string)
    requires NoBlank(block) && block != "" && block[|block| - 1] != '\n'
    ensures Cut(block + "\n\n" + rest) == ([block] + Cut(rest).0, Cut(rest).1)
  {
    var s := block + "\n\n" + rest;
    if |block| == 1 {
      assert s[1..] == "\n\n" + rest && ("\n\n" + rest)[2..] == rest;
      assert Cut(s[1..]) == ([""] + Cut(rest).0, Cut(rest).1);
      assert [s[0]] + "" == block;
    } else {
      assert NoBlank(block[1..]);
      CutBlock(block[1..], rest);
      assert s[1..] == block[1..] + "\n\n" + rest;
      assert [s[0]] + block[1..] == block;
      assert !(s[0] == '\n' && s[1] == '\n') by { assert s[0] == block[0] && s[1] == block[1]; }
    }
  }

  lemma BodyIsBlock(kind: Kind, data: string)
    requires OneLine(data)
    ensures Body(kind, data) != "" && NoBlank(Body(kind, data) + "\n")
    ensures Body(kind, data)[|Body(kind, data)| - 1] != '\n'
    ensures NoBlank(Body(kind, data))
  {
    var head, tail := "event: " + Name(kind), "data: " + data;
    assert Body(kind, data) == head + "\n" + tail;
    assert forall i :: 0 <= i < |head| ==> head[i] != '\n';
    assert forall i :: 0 <= i < |tail| ==> tail[i] != '\n' by {
      assert forall i :: 0 <= i < |data| ==> data[i] != '\n';
    }
  }

  lemma {:induction false} OneLineLines(s: string)
    requires '\n' !in s
    ensures Lines(s) == [s]
  {
    if s != "" {
      assert s[0] in s && forall i :: 0 <= i < |s[1..]| ==> s[1..][i] in s;
      OneLineLines(s[1..]);
      assert [s[0]] + s[1..] == s;
    }
  }

  lemma {:induction false} TwoLines(a: string, b: string)
    requires '\n' !in a && '\n' !in b
    ensures Lines(a + "\n" + b) == [a, b]
  {
    var s := a + "\n" + b;
    if a == "" {
      assert s[0] == '\n' && s[1..] == b;
      OneLineLines(b);
    } else {
      assert s[1..] == a[1..] + "\n" + b;
      assert a[0] in a && s[0] == a[0] && forall i :: 0 <= i < |a[1..]| ==> a[1..][i] in a;
      TwoLines(a[1..], b);
      assert [a[0]] + a[1..] == a;
    }
  }

  /** What is printed for one event parses to that event. */
  lemma BodyParses(kind: Kind, data: string, decode: (Kind, string) -> Option<Payload>)
    requires OneLine(data)
    ensures Parse(Body(kind, data), decode) ==
            var p := decode(kind, data);
            if p.None? then None else Some(Event(kind, p.value))
  {
    var head, tail := "event: " + Name(kind), "data: " + data;
    assert forall i :: 0 <= i < |head| ==> head[i] != '\n';
    assert Body(kind, data) == head + "\n" + tail;
    TwoLines(head, tail);
    assert head[7..] == Name(kind) && tail[6..] == data;
    assert "event: " <= head && "data: " <= tail && tail[0] == 'd' && head[0] == 'e';
    assert [head, tail][..1] == [head];
    assert LastField([head, tail], "data: ") == data;
    assert LastField([head, tail], "event: ") == Name(kind);
    assert Trim(Name(kind)) == Name(kind);
  }

  ghost predicate AllOneLine(items: seq<(Kind, string)>) {
    forall i :: 0 <= i < |items| ==> OneLine(items[i].1)
  }

  function Decoded(items: seq<(Kind, string)>, decode: (Kind, string) -> Option<Payload>): seq<Event> {
    if items == [] then []
    else
      var p := decode(items[0].0, items[0].1);
      (if p.None? then [] else [Event(items[0].0, p.value)]) + Decoded(items[1..], decode)
  }

  lemma ShortOfBlock(body: string, later: string, text: string)
    requires text <= body + "\n\n" + later && |text| < |body| + 2 && NoBlank(body + "\n")
    ensures Cut(text) == ([], text)
  {
    hide Cut;
    assert text == (body + "\n\n" + later)[..|text|];
    assert text == (body + "\n")[..|text|];
    NoBlankUncut(text);
  }

  lemma PastBlock(body: string, later: string, text: string) returns (rest: string)
    requires text <= body + "\n\n" + later && |text| >= |body| + 2
    ensures text == body + "\n\n" + rest && rest <= later
  {
    var whole, n := body + "\n\n" + later, |body| + 2;
    rest := text[n..];
    assert whole[..n] == body + "\n\n" && whole[n..] == later;
    assert text == whole[..|text|];
    assert text[..n] == whole[..n];
    assert rest == later[..|rest|];
  }

  lemma FirstEvents(items: seq<(Kind, string)>, rest: string, k: nat, decode: (Kind, string) -> Option<Payload>)
    requires AllOneLine(items) && items != [] && k <= |items| - 1
    requires Events(Cut(rest).0, decode) == Decoded(items[1..][..k], decode)
    ensures Events(Cut(Body(items[0].0, items[0].1) + "\n\n" + rest).0, decode) == Decoded(items[..k + 1], decode)
  {
    hide Cut, Parse, Body, Events;
    var body := Body(items[0].0, items[0].1);
    BodyIsBlock(items[0].0, items[0].1);
    CutBlock(body, rest);
    EventsConcat([body], Cut(rest).0, decode);
    OneEvent(body, decode);
    BodyParses(items[0].0, items[0].1, decode);
    assert items[..k + 1][0] == items[0] && items[..k + 1][1..] == items[1..][..k];
  }

  /** Of any beginning of a printed stream, the reader delivers the events whose
      blocks came whole. */
  lemma {:induction false} CutPrefix(items: seq<(Kind, string)>, text: string,
                                     decode: (Kind, string) -> Option<Payload>)
    returns (k: nat)
    requires AllOneLine(items) && text <= Printed(items)
    ensures k <= |items| && (k == |items| <==> text == Printed(items))
    ensures Events(Cut(text).0, decode) == Decoded(items[..k], decode)
  {
    hide Cut, Parse, Body;
    k := 0;
    if items == [] {
      NoBlankUncut(text);
    } else {
      var body, later := Body(items[0].0, items[0].1), Printed(items[1..]);
      BodyIsBlock(items[0].0, items[0].1);
      if |text| < |body| + 2 {
        ShortOfBlock(body, later, text);
        assert items[..0] == [];
      } else {
        var rest := PastBlock(body, later, text);
        k := CutPrefix(items[1..], rest, decode);
        FirstEvents(items, rest, k, decode);
        assert text == Printed(items) <==> rest == later;
        k := k + 1;
      }
    }
  }

  lemma OneEvent(block: string, decode: (Kind, string) -> Option<Payload>)
    ensures Events([block], decode) ==
            if Parse(block, decode).None? then [] else [Parse(block, decode).value]
  {
    assert [block][..0] == [];
  }

  /** Printing, then reading under any chunking, recovers exactly the printed events
      (those the schemas accept), in order. */
  lemma ReadsBack(items: seq<(Kind, string)>, decode: (Kind, string) -> Option<Payload>)
    requires AllOneLine(items)
    ensures Events(Cut(Printed(items)).0, decode) == Decoded(items, decode)
    ensures SawTerminal(Decoded(items, decode)) ==> Delivered(Printed(items), Closed, decode) == Decoded(items, decode)
  {
    var k := CutPrefix(items, Printed(items), decode);
    assert items[..|items|] == items;
  }

  ghost predicate EndsInTerminal(items: seq<(Kind, string)>) {
    forall i :: 0 <= i < |items| ==> (items[i].0 in {Done, Error} <==> i == |items| - 1)
  }

  lemma {:induction false} DecodedKinds(items: seq<(Kind, string)>, decode: (Kind, string) -> Option<Payload>)
    requires forall i :: 0 <= i < |items| ==> items[i].0 !in {Done, Error}
    ensures !SawTerminal(Decoded(items, decode))
  {
    if items != [] {
      DecodedKinds(items[1..], decode);
    }
  }

  /** A response cut short anywhere, even inside its last event, is never taken for
      a complete one: the events that arrived whole, then one error. */
  lemma TruncationIsSeen(items: seq<(Kind, string)>, text: string, decode: (Kind, string) -> Option<Payload>)
    requires AllOneLine(items) && EndsInTerminal(items) && text < Printed(items)
    ensures exists k :: 0 <= k < |items| &&
              var got := Decoded(items[..k], decode);
              Delivered(text, Closed, decode) ==
              got + [Event(Error, Payload("поток оборван без терминального события (truncated)", LastRequestId(got)))]
  {
    hide Cut, Events, Decoded, Printed, LastRequestId;
    var k := CutPrefix(items, text, decode);
    DecodedKinds(items[..k], decode);
  }
}
