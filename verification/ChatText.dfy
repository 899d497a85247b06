// Text helpers of the chat stream: trimming, the attachment block of an answer
// (rubezh-api/internal/chat/orchestrator_review.go) and the cutting of an answer
// into deltas (rubezh-api/internal/chat/records.go).
module ChatText {
  import opened Strings
  import opened Wrappers

  // ----- trimming

  predicate IsSpace(c: char) {
    || c in "\t\n\U{0B}\U{0C}\r \U{85}\U{A0}\U{1680}\U{2028}\U{2029}\U{202F}\U{205F}\U{3000}"
    || '\U{2000}' <= c <= '\U{200A}'
  }

  function TrimLeft(s: string): string {
    if s != "" && IsSpace(s[0]) then TrimLeft(s[1..]) else s
  }

  function TrimRight(s: string): string {
    if s != "" && IsSpace(s[|s| - 1]) then TrimRight(s[..|s| - 1]) else s
  }

  function Trim(s: string): string { TrimRight(TrimLeft(s)) }

  // ----- the attachment block

  const FILES := "📎 Файлы:"

  /** Where `t` first stands in `s`. */
  function IndexOf(s: string, t: string): Option<nat> {
    if t <= s then Some(0)
    else if s == "" then None
    else
      var rest := IndexOf(s[1..], t);
      if rest.None? then None else Some(rest.value + 1)
  }

  function SplitAttachments(content: string): (string, string) {
    var idx := IndexOf(content, "\n" + FILES);
    if idx.Some? && idx.value <= |content| then (Trim(content[..idx.value]), content[idx.value..])
    else if FILES <= content then ("", content)
    else (content, "")
  }

  function JoinAttachments(text: string, attachments: string): string {
    var t, a := Trim(text), Trim(attachments);
    if a == "" then t else if t == "" then a else t + "\n" + a
  }

  lemma {:induction false} IndexOfIsFirst(s: string, t: string)
    ensures var r := IndexOf(s, t);
      && (r.Some? ==> r.value <= |s| && t <= s[r.value..] && forall j :: 0 <= j < r.value ==> !(t <= s[j..]))
      && (r.None? ==> forall j :: 0 <= j <= |s| ==> !(t <= s[j..]))
  {
    assert s[0..] == s;
    if !(t <= s) && s != "" {
      IndexOfIsFirst(s[1..], t);
      assert forall j :: 1 <= j <= |s| ==> s[j..] == s[1..][j - 1..];
    }
  }

  lemma {:induction false} IndexOfUnique(s: string, t: string, k: nat)
    requires k <= |s| && t <= s[k..] && forall j :: 0 <= j < k ==> !(t <= s[j..])
    ensures IndexOf(s, t) == Some(k)
  {
    IndexOfIsFirst(s, t);
  }

  /** A trimmed text is a part of the text that neither starts nor ends with a blank. */
  lemma {:induction false} TrimLeftIs(s: string) returns (i: nat)
    ensures i <= |s| && TrimLeft(s) == s[i..] && (i < |s| ==> !IsSpace(s[i]))
    ensures s != "" && !IsSpace(s[0]) ==> i == 0
  {
    if s != "" && IsSpace(s[0]) {
      var k := TrimLeftIs(s[1..]);
      i := k + 1;
      assert s[i..] == s[1..][k..];
    } else {
      i := 0;
      assert s[0..] == s;
    }
  }

  lemma {:induction false} TrimRightIs(s: string) returns (n: nat)
    ensures n <= |s| && TrimRight(s) == s[..n] && (n > 0 ==> !IsSpace(s[n - 1]))
    ensures forall k :: n <= k < |s| ==> IsSpace(s[k])
  {
    hide IsSpace;
    if s != "" && IsSpace(s[|s| - 1]) {
      n := TrimRightIs(s[..|s| - 1]);
      assert s[..|s| - 1][..n] == s[..n];
      assert forall k :: n <= k < |s| - 1 ==> s[k] == s[..|s| - 1][k];
    } else {
      n := |s|;
      assert s[..n] == s;
    }
  }

  lemma TrimIs(s: string) returns (i: nat, n: nat)
    ensures i <= n <= |s| && Trim(s) == s[i..n]
    ensures i < n ==> !IsSpace(s[i]) && !IsSpace(s[n - 1])
    ensures forall k :: n <= k < |s| ==> IsSpace(s[k])
    ensures s != "" && !IsSpace(s[0]) ==> i == 0 < n
  {
    hide IsSpace;
    i := TrimLeftIs(s);
    var k := TrimRightIs(s[i..]);
    n := i + k;
    assert s[i..][..k] == s[i..n];
    assert forall j :: n <= j < |s| ==> s[j] == s[i..][j - i];
    if i < n {
      assert s[i..][k - 1] == s[n - 1];
    }
  }

  lemma {:induction false} TrimIdempotent(s: string)
    ensures Trim(Trim(s)) == Trim(s)
  {
    hide IsSpace;
    var i, n := TrimIs(s);
    var t := Trim(s);
    if t != "" {
      assert t[0] == s[i] && t[|t| - 1] == s[n - 1];
    }
  }

  // ----- splitting what was joined

  lemma FilesFacts()
    ensures FILES != "" && FILES[0] != '\n' && '\n' !in FILES
    ensures !IsSpace(FILES[0]) && !IsSpace(FILES[|FILES| - 1])
  {
  }

  /** Trimming a block that starts with the marker leaves the marker. */
  lemma TrimKeepsMarker(block: string)
    requires FILES <= block
    ensures FILES <= Trim(block)
  {
    FilesFacts();
    hide FILES, IsSpace, Trim;
    assert block[0] == FILES[0];
    assert block[|FILES| - 1] == FILES[|FILES| - 1];
    var i, n := TrimIs(block);
    assert block[..n] == block[0..n];
  }

  lemma MarkerAtBorder(text: string, block: string, j: nat)
    requires j < |text| && FILES <= block
    requires ("\n" + FILES) <= (text + "\n" + block)[j..]
    ensures ("\n" + FILES) <= text[j..]
  {
    FilesFacts();
    hide FILES, IsSpace;
    var m, s := "\n" + FILES, text + "\n" + block;
    assert s[j..][|text| - j] == '\n';
    assert forall k :: 0 < k < |m| ==> m[k] != '\n';
    assert |m| <= |text| - j;
    assert forall k :: 0 <= k < |m| ==> m[k] == s[j..][k] == text[j..][k];
  }

  lemma MarkerInPart(content: string, a: nat, b: nat, j: nat)
    requires a <= b <= |content| && j < b - a
    requires ("\n" + FILES) <= content[a..b][j..]
    ensures ("\n" + FILES) <= content[a + j..]
  {
    hide FILES;
    assert content[a..b][j..] == content[a + j..b];
    assert content[a + j..b] <= content[a + j..];
  }

  lemma BothSplitBack(content: string)
    requires var (text, files) := SplitAttachments(content); text != "" && files != ""
    ensures var (text, files) := SplitAttachments(content);
      SplitAttachments(JoinAttachments(text, files)) == (text, "\n" + Trim(files))
  {
    hide FILES, IsSpace, TrimLeft, TrimRight;
    FilesFacts();
    var m := "\n" + FILES;
    var (text, files) := SplitAttachments(content);
    IndexOfIsFirst(content, m);
    var idx := IndexOf(content, m).value;
    TrimIdempotent(content[..idx]);
    var block := Trim(files);
    BlockOfFiles(files);
    var joined := text + "\n" + block;
    var a, b := TrimIs(content[..idx]);
    assert content[..idx][a..b] == content[a..b];
    forall j | 0 <= j < |text|
      ensures !(m <= joined[j..])
    {
      if m <= joined[j..] {
        MarkerAtBorder(text, block, j);
        MarkerInPart(content, a, b, j);
      }
    }
    assert joined[|text|..] == "\n" + block;
    assert m <= "\n" + block;
    IndexOfUnique(joined, m, |text|);
    assert joined[..|text|] == text;
    TrimIdempotent(files);
  }

  lemma BlockOfFiles(files: string)
    requires ("\n" + FILES) <= files
    ensures FILES <= Trim(files) && Trim(files) != ""
  {
    FilesFacts();
    hide FILES;
    assert files[0] == '\n' && IsSpace('\n');
    assert FILES <= files[1..] by {
      assert forall k :: 0 <= k < |FILES| ==> FILES[k] == ("\n" + FILES)[k + 1] == files[k + 1];
    }
    assert TrimLeft(files) == TrimLeft(files[1..]);
    TrimKeepsMarker(files[1..]);
  }

  /** Splitting what was joined gives the same text and the same files, up to blanks
      around them. */
  predicate SplitsBack(content: string) {
    var (text, files) := SplitAttachments(content);
    var (text', files') := SplitAttachments(JoinAttachments(text, files));
    text' == Trim(text) && Trim(files') == Trim(files)
  }

  lemma NoMarkerInPart(content: string, a: nat, b: nat)
    requires a <= b <= |content| && IndexOf(content, "\n" + FILES).None?
    ensures IndexOf(content[a..b], "\n" + FILES).None?
  {
    hide FILES;
    FilesFacts();
    var m := "\n" + FILES;
    IndexOfIsFirst(content, m);
    IndexOfIsFirst(content[a..b], m);
    var r := IndexOf(content[a..b], m);
    if r.Some? {
      MarkerInPart(content, a, b, r.value);
    }
  }

  lemma TextAloneSplitsBack(content: string)
    requires IndexOf(content, "\n" + FILES).None? && !(FILES <= content)
    ensures SplitsBack(content) <==> !(FILES <= Trim(content))
  {
    hide FILES, IsSpace, TrimLeft, TrimRight;
    FilesFacts();
    var a, b := TrimIs(content);
    NoMarkerInPart(content, a, b);
    assert Trim("") == "" by { var i, n := TrimIs(""); }
    TrimIdempotent(content);
  }

  lemma FilesAloneSplitBack(files: string)
    requires FILES <= Trim(files)
    ensures var a := Trim(files); var (text, files') := SplitAttachments(a);
            text == "" && Trim(files') == a <==> IndexOf(a, "\n" + FILES).None?
  {
    hide FILES, IsSpace, TrimLeft, TrimRight;
    FilesFacts();
    var a := Trim(files);
    TrimIdempotent(files);
    var r := IndexOf(a, "\n" + FILES);
    IndexOfIsFirst(a, "\n" + FILES);
    if r.Some? {
      assert a[0] == FILES[0];
      assert a[r.value..][0] == '\n';
      var i, n := TrimIs(a[..r.value]);
    }
  }

  /** Exactly when an answer splits back: not if it is only blanks before a block of files,
      and not if it is files alone with a second block among them. */
  lemma SplitJoined(content: string)
    ensures var (text, files) := SplitAttachments(content);
            SplitsBack(content) <==>
            if files == "" then !(FILES <= Trim(content))
            else text != "" || IndexOf(Trim(files), "\n" + FILES).None?
  {
    hide FILES, IsSpace, TrimLeft, TrimRight;
    FilesFacts();
    var m := "\n" + FILES;
    IndexOfIsFirst(content, m);
    var (text, files) := SplitAttachments(content);
    if files == "" {
      TextAloneSplitsBack(content);
    } else if text == "" {
      if IndexOf(content, m).Some? {
        BlockOfFiles(files);
      } else {
        TrimKeepsMarker(content);
      }
      assert Trim("") == "" by { var i, n := TrimIs(""); }
      FilesAloneSplitBack(files);
    } else {
      BothSplitBack(content);
      TrimIdempotent(content[..IndexOf(content, m).value]);
      BlankThenTrim(files);
    }
  }

  lemma BlankThenTrim(files: string)
    ensures Trim("\n" + Trim(files)) == Trim(files)
  {
    hide TrimRight;
    assert IsSpace('\n') && ("\n" + Trim(files))[1..] == Trim(files);
    assert TrimLeft("\n" + Trim(files)) == TrimLeft(Trim(files));
    TrimIdempotent(files);
  }

  // ----- deltas

  /** Pieces of exactly `size` characters, the last one shorter if need be, that put
      together are the text. */
  method ChunkText(s: string, size: nat) returns (chunks: seq<string>)
    requires size > 0
    ensures Concat(chunks) == s
    ensures forall k :: 0 <= k < |chunks| - 1 ==> |chunks[k]| == size
    ensures chunks != [] ==> 0 < |chunks[|chunks| - 1]| <= size
  {
    if s == "" {
      return [];
    }
    chunks := [];
    var i := 0;
    while i < |s|
      invariant i <= |s| ==> Concat(chunks) == s[..i] && forall k :: 0 <= k < |chunks| ==> |chunks[k]| == size
      invariant i > |s| ==> Concat(chunks) == s
      invariant forall k :: 0 <= k < |chunks| - 1 ==> |chunks[k]| == size
      invariant chunks != [] ==> 0 < |chunks[|chunks| - 1]| <= size
    {
      var end := i + size;
      if end > |s| {
        end := |s|;
      }
      assert s[..end] == s[..i] + s[i..end];
      assert (chunks + [s[i..end]])[..|chunks|] == chunks;
      chunks := chunks + [s[i..end]];
      i := i + size;
    }
    assert s[..|s|] == s;
  }
}
