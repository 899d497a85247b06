// The server-side review of an answer by other models
// (rubezh-api/internal/chat/orchestrator_review.go).
module ReviewLoop {
  import opened Wrappers
  import opened ChatRun
  import opened ChatText
  import opened Strings
  import Names
  import Remask
  import Replacer

  predicate ShouldReview(setup: Setup) {
    setup.review.Some? && setup.review.value.enabled && setup.review.value.reviewers != []
  }

  function MaxRounds(rv: Review): (n: nat)
    ensures 1 <= n <= 5 && (1 <= rv.maxRounds <= 5 ==> n == rv.maxRounds) && (rv.maxRounds <= 0 ==> n == 3)
  {
    if rv.maxRounds <= 0 then 3 else if rv.maxRounds > 5 then 5 else rv.maxRounds
  }

  // ----- drafts, findings, rounds

  /** A draft as it goes to the reviewers: text and the block of attached files. */
  datatype Draft = Draft(text: string, attachments: string)

  /** What a model wrote, with every raw value masked again. */
  function Cleaned(t: Texts, written: string): Draft {
    var (text, attachments) := SplitAttachments(t.remask(written));
    Draft(Trim(text), attachments)
  }

  datatype Finding = Finding(provider: string, issues: seq<string>)

  function VerdictOn(t: Texts, reply: Reply): Verdict
    requires reply.Answer?
  {
    t.verdict(t.remask(reply.content))
  }

  function Findings(t: Texts, reviewers: seq<string>, replies: seq<Reply>): seq<Finding>
    requires |replies| <= |reviewers|
  {
    if replies == [] then []
    else
      var k := |replies| - 1;
      Findings(t, reviewers, replies[..k])
      + if replies[k].Answer? && !VerdictOn(t, replies[k]).ok
        then [Finding(reviewers[k], VerdictOn(t, replies[k]).issues)] else []
  }

  datatype Round = Round(draft: Draft, replies: seq<Reply>, revision: Option<Reply>)

  predicate Complete(rv: Review, r: Round) {
    |r.replies| == |rv.reviewers| && forall k :: 0 <= k < |r.replies| ==> r.replies[k].Answer?
  }

  predicate Criticised(t: Texts, rv: Review, r: Round) {
    Complete(rv, r) && Findings(t, rv.reviewers, r.replies) != []
  }

  predicate Unanimous(t: Texts, rv: Review, r: Round) {
    Complete(rv, r) && forall k :: 0 <= k < |r.replies| ==> VerdictOn(t, r.replies[k]).ok
  }

  predicate LeadsTo(t: Texts, rv: Review, r: Round, d: Draft) {
    && Criticised(t, rv, r) && r.revision.Some? && r.revision.value.Answer?
    && d == Cleaned(t, r.revision.value.content) && d.text != ""
  }

  /** The rounds of one review: each starts from a draft that came out of masking, and
      follows a criticised round whose author answered with new text. */
  ghost predicate Rounds(t: Texts, rv: Review, written: string, rounds: seq<Round>) {
    && |rounds| <= MaxRounds(rv)
    && (rounds != [] ==> rounds[0].draft == Cleaned(t, written))
    && (forall k :: 0 <= k < |rounds| ==> |rounds[k].replies| <= |rv.reviewers|)
    && (forall k :: 0 < k < |rounds| ==> LeadsTo(t, rv, rounds[k - 1], rounds[k].draft))
  }

  lemma {:induction false} NoFindings(t: Texts, reviewers: seq<string>, replies: seq<Reply>)
    requires |replies| <= |reviewers| && forall k :: 0 <= k < |replies| ==> replies[k].Answer?
    ensures Findings(t, reviewers, replies) == [] <==> forall k :: 0 <= k < |replies| ==> VerdictOn(t, replies[k]).ok
  {
    if replies != [] {
      var front := replies[..|replies| - 1];
      NoFindings(t, reviewers, front);
      assert forall k :: 0 <= k < |front| ==> front[k] == replies[k];
    }
  }

  // ----- messages

  /** A reviewer's instruction, closed by the platform's own rules. */
  function Guarded(instruction: string): string {
    instruction
    + ("Работай только с обезличенными данными и псевдонимами. "
       + "Не раскрывай и не запрашивай реальные ПДн. Верни строго JSON без Markdown: "
       + "{\"ok\":true,\"issues\":[]} если черновик можно отдавать пользователю, "
       + "или {\"ok\":false,\"issues\":[\"короткое замечание\"]} если нужны правки. "
       + "Не возвращай финальный текст ответа, только вердикт.")
  }

  function ReviewMessages(source: string, draft: string, prompt: string): seq<Message> {
    var system := Trim(prompt);
    var instruction :=
      if system != "" then system + "\n\nОбязательные ограничения платформы: "
      else "Ты модель-ревизор. Проверь черновик ответа другой "
           + "модели на полноту, точность, противоречия и безопасность. ";
    [Message(System, Guarded(instruction)),
     Message(User, "Обезличенный запрос пользователя:\n" + source + "\n\nЧерновик ответа:\n" + draft)]
  }

  /** An issue without blanks around it, at most 900 characters. */
  function TrimIssue(issue: string): string {
    var s := Trim(issue);
    if |s| <= 900 then s else Trim(s[..900]) + "..."
  }

  function IssueLines(provider: string, issues: seq<string>): string {
    if issues == [] then ""
    else
      var issue := issues[|issues| - 1];
      IssueLines(provider, issues[..|issues| - 1])
      + if Trim(issue) == "" then "" else "- " + provider + ": " + TrimIssue(issue) + "\n"
  }

  function FindingLines(findings: seq<Finding>): string {
    if findings == [] then ""
    else
      var f := findings[|findings| - 1];
      FindingLines(findings[..|findings| - 1]) + IssueLines(f.provider, f.issues)
  }

  function FormatFindings(findings: seq<Finding>): string {
    var out := Trim(FindingLines(findings));
    if out == "" then "- замечания не распознаны" else out
  }

  /** The author's instruction, closed by the platform's own rules. */
  function Limited(instruction: string): string {
    instruction
    + ("\n\nОбязательные ограничения платформы: работай только с "
       + "обезличенными данными и псевдонимами. Верни только финальную версию "
       + "ответа для пользователя: без комментариев о ревизии, без оценок и "
       + "без служебного JSON.")
  }

  function RevisionMessages(source: string, draft: string, findings: seq<Finding>, prompt: string): seq<Message> {
    var system := Trim(prompt);
    var instruction :=
      if system != "" then system else "Ты основная модель. Доработай черновик ответа по замечаниям ревизоров.";
    [Message(System, Limited(instruction)),
     Message(User, "Обезличенный запрос пользователя:\n" + source + "\n\nТекущий черновик ответа:\n" + draft
                   + "\n\nЗамечания ревизоров:\n" + FormatFindings(findings))]
  }

  /** The answer the user gets when the rounds are used up. */
  function FallbackText(text: string, rounds: nat, findings: seq<Finding>): string {
    "Вот что получилось после всех циклов ревизии (" + Names.Decimal(rounds) + "/" + Names.Decimal(rounds)
    + "). Проверяющие модели всё ещё оставили замечания:\n\n" + FormatFindings(findings) + "\n\n" + Trim(text)
  }

  // ----- attached files

  /** Each line with two blanks in front, and a newline at the end. */
  function Indented(text: string): string {
    "  " + IndentedRest(text)
  }

  function IndentedRest(text: string): string {
    if text == "" then "\n"
    else if text[0] == '\n' then "\n  " + IndentedRest(text[1..])
    else [text[0]] + IndentedRest(text[1..])
  }

  function FileLine(a: Attachment): string {
    "- " + a.name + " (" + a.mime + ", " + Names.Decimal(a.sizeBytes) + " B)"
  }

  function PreviewLines(a: Attachment): string { Indented(a.preview) + "  --- конец содержимого ---" }

  const PREVIEW_HEAD := "  --- содержимое (первые ≤2KB) ---\n"

  function FileBlock(a: Attachment): string {
    FileLine(a) + "\n" + if a.preview == "" then "" else PREVIEW_HEAD + PreviewLines(a) + "\n"
  }

  function FileLines(files: seq<Attachment>): string {
    if files == [] then "" else FileLines(files[..|files| - 1]) + FileBlock(files[|files| - 1])
  }

  function TrimNewlines(s: string): string {
    if s != "" && s[|s| - 1] == '\n' then TrimNewlines(s[..|s| - 1]) else s
  }

  function Described(files: seq<Attachment>): string {
    if files == [] then "" else TrimNewlines("Файлы-артефакты от основной модели:\n" + FileLines(files))
  }

  /** The decoded previews are masked as well: the block they come from was masked
      before it was decoded. */
  function MaskedFiles(t: Texts, block: string): (r: seq<Attachment>)
    ensures forall i :: 0 <= i < |r| ==> MaskedPreview(t, r[i])
  {
    var files := t.files(block);
    seq(|files|, i requires 0 <= i < |files| => MaskedFile(t, files[i]))
  }

  function MaskedFile(t: Texts, a: Attachment): (r: Attachment)
    ensures MaskedPreview(t, r) && r.name == a.name && r.mime == a.mime && r.sizeBytes == a.sizeBytes
  {
    a.(preview := if a.preview == "" then "" else t.remask(a.preview))
  }

  ghost predicate MaskedPreview(t: Texts, a: Attachment) {
    a.preview == "" || exists raw :: a.preview == t.remask(raw)
  }

  // ----- the calls of a review

  function WithFiles(source: string, files: seq<Attachment>): string {
    var described := Described(files);
    if described != "" then source + "\n\n" + described else source
  }

  /** The request as reviewers see it, with the files of the draft described. */
  function SourceWithFiles(t: Texts, source: string, draft: Draft): string {
    WithFiles(source, MaskedFiles(t, draft.attachments))
  }

  function PromptOf(setup: Setup, reviewer: string): string {
    if reviewer in setup.reviewPrompts then setup.reviewPrompts[reviewer] else ""
  }

  function ReviewCall(setup: Setup, source: string, draft: Draft, reviewer: string, reply: Reply): Effect {
    Asked(reviewer,
          ReviewMessages(SourceWithFiles(setup.texts, source, draft), draft.text, PromptOf(setup, reviewer)), reply)
  }

  function ReviewCalls(setup: Setup, rv: Review, source: string, draft: Draft, replies: seq<Reply>): (r: seq<Effect>)
    requires |replies| <= |rv.reviewers|
    ensures |r| == |replies|
  {
    hide ReviewMessages, SourceWithFiles;
    if replies == [] then []
    else
      var k := |replies| - 1;
      ReviewCalls(setup, rv, source, draft, replies[..k])
      + [ReviewCall(setup, source, draft, rv.reviewers[k], replies[k])]
  }

  function RevisionCalls(setup: Setup, rv: Review, source: string, r: Round): seq<Effect>
    requires |r.replies| <= |rv.reviewers|
  {
    if r.revision.None? then []
    else
      var findings := Findings(setup.texts, rv.reviewers, r.replies);
      [Asked(setup.provider, RevisionMessages(source, r.draft.text, findings, setup.systemPrompt), r.revision.value)]
  }

  function RoundCalls(setup: Setup, rv: Review, source: string, r: Round): seq<Effect>
    requires |r.replies| <= |rv.reviewers|
  {
    ReviewCalls(setup, rv, source, r.draft, r.replies) + RevisionCalls(setup, rv, source, r)
  }

  /** All model calls of a review: in each round every reviewer in turn, then the author. */
  function Script(setup: Setup, rv: Review, source: string, rounds: seq<Round>): seq<Effect>
    requires forall k :: 0 <= k < |rounds| ==> |rounds[k].replies| <= |rv.reviewers|
  {
    if rounds == [] then []
    else
      Script(setup, rv, source, rounds[..|rounds| - 1]) + RoundCalls(setup, rv, source, rounds[|rounds| - 1])
  }

  // ----- a review changes nothing but calls and status

  /** The order in which a review reports its progress; a reply stands between a call
      and what is reported after it. */
  predicate Follows(at: Point, p: Progress) {
    match p
    case ReviewStarted => at == After(LlmDone)
    case ReviewRound => at == After(ReviewStarted) || at == After(ReviewRevised)
    case ReviewerCall => at == After(ReviewRound) || at == After(ReviewerDone)
    case ReviewerDone => at == Replied(ReviewerCall)
    case ReviewRevise => at == After(ReviewerDone)
    case ReviewRevised => at == Replied(ReviewRevise)
    case ReviewComplete => at == After(ReviewerDone)
    case ReviewFallback => at == After(ReviewerDone)
    case _ => false
  }

  predicate MayAsk(at: Point) { at == After(ReviewerCall) || at == After(ReviewRevise) }

  predicate QuietStep(at: Point, e: Effect) {
    (e.Asked? && MayAsk(at)) || (e.Sent? && e.event.Status? && Follows(at, e.event.progress))
  }

  predicate Lost(run: seq<Effect>) { run != [] && run[|run| - 1].Sent? && !run[|run| - 1].ok }

  /** `next` goes on from `run` with calls and status events alone, and stops at the
      first one the client does not take. */
  ghost predicate Continues(run: seq<Effect>, next: seq<Effect>) {
    && run <= next
    && (forall i :: |run| <= i < |next| ==> QuietStep(PointOf(next[..i]), next[i]))
    && (forall i :: |run| <= i < |next| - 1 ==> next[i].Sent? ==> next[i].ok)
  }

  lemma ContinuesBy(run: seq<Effect>, next: seq<Effect>, e: Effect)
    requires Continues(run, next) && QuietStep(PointOf(next), e) && (Lost(next) ==> next == run)
    ensures Continues(run, next + [e])
    ensures Calls(next + [e]) == Calls(next) + if e.Asked? then [e] else []
    ensures PointOf(next + [e]) == PointStep(PointOf(next), e)
  {
    hide PointOf, QuietStep;
    Grown(next, e);
    var later := next + [e];
    forall i | |run| <= i < |later|
      ensures QuietStep(PointOf(later[..i]), later[i])
    {
      assert later[..i] == next[..i];
      if i == |next| {
        assert next[..i] == next;
      }
    }
  }

  method Announce(w: World, ghost start: seq<Effect>, run: seq<Effect>, p: Progress)
    returns (ok: bool, next: seq<Effect>)
    requires Honest(w, run) && Continues(start, run) && (Lost(run) ==> run == start) && Follows(PointOf(run), p)
    ensures Honest(w, next) && next == run + [Sent(Status(p), ok)]
    ensures Continues(start, next) && Calls(next) == Calls(run) && Lost(next) == !ok && PointOf(next) == After(p)
  {
    hide Honest, Calls, PointOf, Follows;
    ok, next := Send(w, run, Status(p));
    ContinuesBy(start, run, Sent(Status(p), ok));
  }

  method Consult(w: World, ghost start: seq<Effect>, run: seq<Effect>, provider: string, messages: seq<Message>)
    returns (reply: Reply, next: seq<Effect>)
    requires Honest(w, run) && Continues(start, run) && !Lost(run) && MayAsk(PointOf(run))
    ensures Honest(w, next) && Continues(start, next) && !Lost(next)
    ensures Calls(next) == Calls(run) + [Asked(provider, messages, reply)]
    ensures PointOf(next) == Replied(PointOf(run).progress)
  {
    hide Honest, Calls, PointOf;
    reply, next := Ask(w, run, provider, messages);
    ContinuesBy(start, run, Asked(provider, messages, reply));
  }

  // ----- one round of reviewers

  method AskReviewers(w: World, setup: Setup, rv: Review, source: string, draft: Draft, ghost start: seq<Effect>,
                      run: seq<Effect>)
    returns (next: seq<Effect>, replies: seq<Reply>, findings: seq<Finding>, failed: bool)
    requires Honest(w, run) && Continues(start, run) && !Lost(run)
    requires rv.reviewers != [] && PointOf(run) == After(ReviewRound)
    ensures Honest(w, next) && Continues(start, next) && |replies| <= |rv.reviewers|
    ensures Calls(next) == Calls(run) + ReviewCalls(setup, rv, source, draft, replies)
    ensures findings == Findings(setup.texts, rv.reviewers, replies)
    ensures !failed ==> !Lost(next) && Complete(rv, Round(draft, replies, None)) && PointOf(next) == After(ReviewerDone)
    ensures failed ==>
      Lost(next) || (BrokenOff(setup.texts, Round(draft, replies, None)) && PointOf(next) == Replied(ReviewerCall))
  {
    hide Honest, Calls, PointOf, Continues, ReviewMessages, SourceWithFiles, PromptOf;
    next, replies, findings, failed := run, [], [], false;
    for i := 0 to |rv.reviewers|
      invariant PointOf(next) == if i == 0 then After(ReviewRound) else After(ReviewerDone)
      invariant |replies| == i && !failed && Honest(w, next) && Continues(start, next) && !Lost(next)
      invariant forall k :: 0 <= k < i ==> replies[k].Answer?
      invariant Calls(next) == Calls(run) + ReviewCalls(setup, rv, source, draft, replies)
      invariant findings == Findings(setup.texts, rv.reviewers, replies)
    {
      var reviewer := rv.reviewers[i];
      var ok: bool;
      ok, next := Announce(w, start, next, ReviewerCall);
      if !ok {
        return next, replies, findings, true;
      }
      var messages :=
        ReviewMessages(SourceWithFiles(setup.texts, source, draft), draft.text, PromptOf(setup, reviewer));
      var reply: Reply;
      reply, next := Consult(w, start, next, reviewer, messages);
      assert (replies + [reply])[..i] == replies;
      replies := replies + [reply];
      if reply.NoAnswer? {
        return next, replies, findings, true;
      }
      var verdict := VerdictOn(setup.texts, reply);
      if !verdict.ok {
        findings := findings + [Finding(reviewer, verdict.issues)];
      }
      ok, next := Announce(w, start, next, ReviewerDone);
      if !ok {
        return next, replies, findings, true;
      }
    }
  }

  // ----- the loop

  function Revised(r: Round, reply: Reply): Round { r.(revision := Some(reply)) }

  method ReviseDraft(w: World, setup: Setup, rv: Review, source: string, r: Round, findings: seq<Finding>,
                     ghost start: seq<Effect>, run: seq<Effect>)
    returns (next: seq<Effect>, reply: Reply, current: Draft, failed: bool)
    requires Honest(w, run) && Continues(start, run) && !Lost(run) && PointOf(run) == After(ReviewRevise)
    requires Criticised(setup.texts, rv, r) && findings == Findings(setup.texts, rv.reviewers, r.replies)
    ensures Honest(w, next) && Continues(start, next)
    ensures Calls(next) == Calls(run) + RevisionCalls(setup, rv, source, Revised(r, reply))
    ensures failed ==>
              Lost(next) || (BrokenOff(setup.texts, Revised(r, reply)) && PointOf(next) == Replied(ReviewRevise))
    ensures !failed ==>
              && PointOf(next) == After(ReviewRevised) && !Lost(next)
              && LeadsTo(setup.texts, rv, Revised(r, reply), current)
  {
    hide Honest, Calls, PointOf, Continues, RevisionMessages, Findings;
    reply, next := Consult(w, start, run, setup.provider,
      RevisionMessages(source, r.draft.text, findings, setup.systemPrompt));
    current, failed := r.draft, true;
    if reply.NoAnswer? {
      return;
    }
    current := Cleaned(setup.texts, reply.content);
    if current.text == "" {
      return;
    }
    var ok: bool;
    ok, next := Announce(w, start, next, ReviewRevised);
    failed := !ok;
  }

  /** A review that ends without an answer although the client is there: the last
      reviewer asked did not answer, or the author's revision failed or was blank. */
  predicate BrokenOff(t: Texts, r: Round) {
    || (r.revision.None? && r.replies != [] && r.replies[|r.replies| - 1].NoAnswer?)
    || (r.revision.Some? && (r.revision.value.NoAnswer? || Cleaned(t, r.revision.value.content).text == ""))
  }

  /** What a round that ends the review answers: the draft all reviewers accepted, as it
      was shown to them; or, in the last round allowed, the draft wrapped in a notice with
      the open remarks. */
  ghost predicate Ends(t: Texts, rv: Review, r: Round, final: bool, answer: string) {
    && r.revision.None? && Complete(rv, r)
    && if Unanimous(t, rv, r) then answer == JoinAttachments(r.draft.text, r.draft.attachments)
       else
         && final
         && answer == JoinAttachments(FallbackText(r.draft.text, MaxRounds(rv), Findings(t, rv.reviewers, r.replies)),
                                      r.draft.attachments)
  }

  /** The answer a review returns is that of its last round. */
  ghost predicate Reviewed(t: Texts, rv: Review, written: string, rounds: seq<Round>, answer: string) {
    && rounds != [] && Rounds(t, rv, written, rounds)
    && Ends(t, rv, rounds[|rounds| - 1], |rounds| == MaxRounds(rv), answer)
  }

  lemma RoundsGrow(t: Texts, rv: Review, written: string, rounds: seq<Round>, r: Round)
    requires Rounds(t, rv, written, rounds) && |rounds| < MaxRounds(rv) && |r.replies| <= |rv.reviewers|
    requires if rounds == [] then r.draft == Cleaned(t, written) else LeadsTo(t, rv, rounds[|rounds| - 1], r.draft)
    ensures Rounds(t, rv, written, rounds + [r])
  {
    hide LeadsTo;
  }

  lemma ScriptGrow(setup: Setup, rv: Review, source: string, rounds: seq<Round>, r: Round)
    requires |r.replies| <= |rv.reviewers| && forall k :: 0 <= k < |rounds| ==> |rounds[k].replies| <= |rv.reviewers|
    ensures Script(setup, rv, source, rounds + [r]) ==
              Script(setup, rv, source, rounds) + RoundCalls(setup, rv, source, r)
  {
    hide RoundCalls;
    assert (rounds + [r])[..|rounds|] == rounds;
  }

  lemma EndsIs(t: Texts, rv: Review, r: Round, findings: seq<Finding>, final: bool)
    requires r.revision.None? && Complete(rv, r) && findings == Findings(t, rv.reviewers, r.replies)
    ensures findings == [] <==> Unanimous(t, rv, r)
    ensures findings == [] ==> Ends(t, rv, r, final, JoinAttachments(r.draft.text, r.draft.attachments))
    ensures findings != [] && final ==>
      Ends(t, rv, r, final, JoinAttachments(FallbackText(r.draft.text, MaxRounds(rv), findings), r.draft.attachments))
  {
    hide JoinAttachments, FallbackText, VerdictOn, Findings;
    NoFindings(t, rv.reviewers, r.replies);
  }

  lemma RoundCallsAre(setup: Setup, rv: Review, source: string, r: Round)
    requires |r.replies| <= |rv.reviewers|
    ensures RoundCalls(setup, rv, source, r)
         == ReviewCalls(setup, rv, source, r.draft, r.replies) + RevisionCalls(setup, rv, source, r)
    ensures r.revision.None? ==> RoundCalls(setup, rv, source, r) == ReviewCalls(setup, rv, source, r.draft, r.replies)
  {
    hide RevisionMessages, ReviewCalls, Findings;
  }

  method Conclude(w: World, ghost start: seq<Effect>, run: seq<Effect>, p: Progress, text: string)
    returns (next: seq<Effect>, answer: Option<string>)
    requires Honest(w, run) && Continues(start, run) && !Lost(run) && Follows(PointOf(run), p)
    ensures Honest(w, next) && Continues(start, next) && Calls(next) == Calls(run)
    ensures answer == (if Lost(next) then None else Some(text)) && PointOf(next) == After(p)
  {
    hide Honest, Calls, PointOf, Continues, Follows;
    var ok: bool;
    ok, next := Announce(w, start, run, p);
    answer := if ok then Some(text) else None;
  }

  /** How a round goes out: with the next draft, or with the end of the review. */
  datatype RoundEnd = GoOn(draft: Draft) | Stop(answer: Option<string>)

  ghost predicate OutOf(t: Texts, rv: Review, r: Round, final: bool, end: RoundEnd, next: seq<Effect>) {
    match end
    case GoOn(draft) => !final && !Lost(next) && PointOf(next) == After(ReviewRevised) && LeadsTo(t, rv, r, draft)
    case Stop(Some(text)) =>
      && !Lost(next) && Ends(t, rv, r, final, text)
      && PointOf(next) == After(if Unanimous(t, rv, r) then ReviewComplete else ReviewFallback)
    case Stop(None) =>
      Lost(next) ||
        (BrokenOff(t, r) && (PointOf(next) == Replied(ReviewerCall) || PointOf(next) == Replied(ReviewRevise)))
  }

  method RunRound(w: World, setup: Setup, rv: Review, source: string, current: Draft, final: bool,
                  ghost start: seq<Effect>, run: seq<Effect>)
    returns (next: seq<Effect>, end: RoundEnd, ghost r: Round)
    requires Honest(w, run) && Continues(start, run) && !Lost(run) && rv.reviewers != []
    requires PointOf(run) == After(ReviewStarted) || PointOf(run) == After(ReviewRevised)
    ensures Honest(w, next) && Continues(start, next)
    ensures r.draft == current && |r.replies| <= |rv.reviewers|
    ensures Calls(next) == Calls(run) + RoundCalls(setup, rv, source, r)
    ensures OutOf(setup.texts, rv, r, final, end, next)
  {
    hide Honest, PointOf, Continues, Calls, Findings, ReviewCalls, RevisionCalls, RoundCalls, Ends, LeadsTo, BrokenOff,
      Unanimous, JoinAttachments, FallbackText, VerdictOn;
    var t := setup.texts;
    r, end := Round(current, [], None), Stop(None);
    NoReplies(setup, rv, source, current);
    var ok: bool;
    ok, next := Announce(w, start, run, ReviewRound);
    if !ok {
      return;
    }
    var replies, findings, failed;
    next, replies, findings, failed := AskReviewers(w, setup, rv, source, current, start, next);
    r := Round(current, replies, None);
    RoundCallsAre(setup, rv, source, r);
    if failed {
      return;
    }
    EndsIs(t, rv, r, findings, final);
    var answer: Option<string>;
    if |findings| == 0 {
      next, answer := Conclude(w, start, next, ReviewComplete, JoinAttachments(current.text, current.attachments));
      end := Stop(answer);
      return;
    }
    if final {
      var text := FallbackText(current.text, MaxRounds(rv), findings);
      next, answer := Conclude(w, start, next, ReviewFallback, JoinAttachments(text, current.attachments));
      end := Stop(answer);
      return;
    }
    ok, next := Announce(w, start, next, ReviewRevise);
    if !ok {
      return;
    }
    var reply, draft;
    next, reply, draft, failed :=
      ReviseDraft(w, setup, rv, source, Round(current, replies, None), findings, start, next);
    r := Revised(r, reply);
    RoundCallsAre(setup, rv, source, r);
    if !failed {
      end := GoOn(draft);
    }
  }

  lemma NoReplies(setup: Setup, rv: Review, source: string, d: Draft)
    ensures RoundCalls(setup, rv, source, Round(d, [], None)) == []
  {
  }

  method ReviewRounds(w: World, setup: Setup, rv: Review, source: string, written: string, run: seq<Effect>)
    returns (next: seq<Effect>, answer: Option<string>, ghost rounds: seq<Round>)
    requires Honest(w, run) && !Lost(run) && PointOf(run) == After(LlmDone) && rv.reviewers != []
    ensures Honest(w, next) && Continues(run, next)
    ensures Rounds(setup.texts, rv, written, rounds)
    ensures Calls(next) == Calls(run) + Script(setup, rv, source, rounds)
    ensures answer.Some? ==>
      && !Lost(next) && Reviewed(setup.texts, rv, written, rounds, answer.value)
      && PointOf(next) ==
           After(if Unanimous(setup.texts, rv, rounds[|rounds| - 1]) then ReviewComplete else ReviewFallback)
    ensures answer.None? ==>
      || Lost(next)
      || (rounds != [] && BrokenOff(setup.texts, rounds[|rounds| - 1])
          && (PointOf(next) == Replied(ReviewerCall) || PointOf(next) == Replied(ReviewRevise)))
  {
    hide Honest, PointOf, Continues, Calls, Cleaned, RoundCalls, Ends, LeadsTo, BrokenOff, Unanimous, Script;
    ContinuesFromStart(run);
    var t, max := setup.texts, MaxRounds(rv);
    var current := Cleaned(t, written);
    rounds, answer := [], None;
    EmptyScript(setup, rv, source);
    var ok: bool;
    ok, next := Announce(w, run, run, ReviewStarted);
    if !ok {
      return;
    }
    var round := 1;
    while round <= max
      invariant 1 <= round == |rounds| + 1 <= max && answer.None? && !Lost(next)
      invariant Honest(w, next) && Continues(run, next)
      invariant PointOf(next) == After(ReviewStarted) || PointOf(next) == After(ReviewRevised)
      invariant Rounds(t, rv, written, rounds)
      invariant if rounds == [] then current == Cleaned(t, written)
                else LeadsTo(t, rv, rounds[|rounds| - 1], current)
      invariant Calls(next) == Calls(run) + Script(setup, rv, source, rounds)
      decreases max - round
    {
      var end;
      ghost var r;
      next, end, r := RunRound(w, setup, rv, source, current, round == max, run, next);
      RoundsGrow(t, rv, written, rounds, r);
      ScriptGrow(setup, rv, source, rounds, r);
      rounds := rounds + [r];
      if end.Stop? {
        answer := end.answer;
        return;
      }
      current := end.draft;
      round := round + 1;
    }
  }

  lemma ContinuesFromStart(run: seq<Effect>)
    ensures Continues(run, run)
  {
  }

  lemma EmptyScript(setup: Setup, rv: Review, source: string)
    ensures Script(setup, rv, source, []) == []
  {
  }

  // ----- what the calls of a review amount to

  predicate Sized(rv: Review, r: Round) { |r.replies| == |rv.reviewers| && r.revision.Some? }

  lemma RoundCount(setup: Setup, rv: Review, source: string, r: Round)
    requires |r.replies| == |rv.reviewers|
    ensures |RoundCalls(setup, rv, source, r)| == |rv.reviewers| + if r.revision.Some? then 1 else 0
  {
    hide RevisionMessages, ReviewCalls, Findings;
  }

  /** The calls of r rounds that all end in a revision. */
  function RevisedCalls(r: int, n: int): int { r * (n + 1) }

  /** The calls of r rounds whose last ends the review. */
  function ReviewTotal(r: int, n: int): int { r * n + (r - 1) }

  lemma OneMoreRound(r: int, n: int)
    ensures RevisedCalls(0, n) == 0 && RevisedCalls(r + 1, n) == RevisedCalls(r, n) + n + 1
    ensures ReviewTotal(r + 1, n) == RevisedCalls(r, n) + n
  {
  }

  lemma {:induction false} CriticisedCount(setup: Setup, rv: Review, source: string, rounds: seq<Round>)
    requires forall k :: 0 <= k < |rounds| ==> |rounds[k].replies| <= |rv.reviewers| && Sized(rv, rounds[k])
    ensures |Script(setup, rv, source, rounds)| == RevisedCalls(|rounds|, |rv.reviewers|)
  {
    hide RoundCalls, Script, RevisedCalls;
    OneMoreRound(|rounds| - 1, |rv.reviewers|);
    if rounds == [] {
      EmptyScript(setup, rv, source);
    } else {
      var front, last := rounds[..|rounds| - 1], rounds[|rounds| - 1];
      CriticisedCount(setup, rv, source, front);
      ScriptGrow(setup, rv, source, front, last);
      RoundCount(setup, rv, source, last);
      assert front + [last] == rounds;
    }
  }

  lemma RevisedRoundsAreSized(t: Texts, rv: Review, written: string, rounds: seq<Round>)
    requires rounds != [] && Rounds(t, rv, written, rounds)
    ensures forall k :: 0 <= k < |rounds| - 1 ==> Sized(rv, rounds[k])
    ensures |rounds| <= MaxRounds(rv) && forall k :: 0 <= k < |rounds| ==> |rounds[k].replies| <= |rv.reviewers|
  {
    forall k | 0 <= k < |rounds| - 1
      ensures Sized(rv, rounds[k])
    {
      assert LeadsTo(t, rv, rounds[k + 1 - 1], rounds[k + 1].draft);
    }
  }

  lemma LastRoundCount(setup: Setup, rv: Review, source: string, rounds: seq<Round>)
    requires rounds != [] && forall k :: 0 <= k < |rounds| ==> |rounds[k].replies| <= |rv.reviewers|
    requires forall k :: 0 <= k < |rounds| - 1 ==> Sized(rv, rounds[k])
    requires var last := rounds[|rounds| - 1]; |last.replies| == |rv.reviewers| && last.revision.None?
    ensures |Script(setup, rv, source, rounds)| == ReviewTotal(|rounds|, |rv.reviewers|)
  {
    hide RoundCalls, Script, RevisedCalls, ReviewTotal;
    var front, last := rounds[..|rounds| - 1], rounds[|rounds| - 1];
    CriticisedCount(setup, rv, source, front);
    ScriptGrow(setup, rv, source, front, last);
    RoundCount(setup, rv, source, last);
    assert front + [last] == rounds;
    OneMoreRound(|front|, |rv.reviewers|);
  }

  /** The draft is revised for a cause: in every round but the last all reviewers answered and
      one of them did not accept; and the next draft is what the author then wrote. */
  lemma RevisedForCause(t: Texts, rv: Review, written: string, rounds: seq<Round>, k: nat)
    requires Rounds(t, rv, written, rounds) && k + 1 < |rounds|
    ensures |rounds[k].replies| == |rv.reviewers|
    ensures exists j :: 0 <= j < |rv.reviewers| && Rejects(t, rounds[k].replies[j])
    ensures rounds[k].revision.Some? && rounds[k].revision.value.Answer?
    ensures rounds[k + 1].draft == Cleaned(t, rounds[k].revision.value.content)
  {
    hide Cleaned;
    assert LeadsTo(t, rv, rounds[k + 1 - 1], rounds[k + 1].draft);
    NoFindings(t, rv.reviewers, rounds[k].replies);
  }

  predicate Rejects(t: Texts, reply: Reply) { reply.Answer? && !t.verdict(t.remask(reply.content)).ok }

  /** r rounds with n reviewers take r * n + (r - 1) model calls. */
  lemma ReviewCallCount(setup: Setup, rv: Review, source: string, written: string, rounds: seq<Round>, answer: string)
    requires Reviewed(setup.texts, rv, written, rounds, answer)
    ensures |Script(setup, rv, source, rounds)| == |rounds| * |rv.reviewers| + (|rounds| - 1)
    ensures |rounds| <= MaxRounds(rv)
  {
    hide Script, FallbackText, JoinAttachments, Unanimous, LeadsTo, Sized;
    RevisedRoundsAreSized(setup.texts, rv, written, rounds);
    LastRoundCount(setup, rv, source, rounds);
  }

  // ----- what a review shows

  /** The call shows a reviewer the request, the round's draft, which came out of masking,
      and the files of that draft, whose decoded previews did. */
  ghost predicate ShowsDraft(setup: Setup, source: string, r: Round, e: Effect) {
    exists written, reviewer, reply :: IsDraftCall(setup, source, r, e, written, reviewer, reply)
  }

  predicate IsDraftCall(setup: Setup, source: string, r: Round, e: Effect, written: string, reviewer: string,
                        reply: Reply)
  {
    && r.draft == Cleaned(setup.texts, written)
    && var files := MaskedFiles(setup.texts, r.draft.attachments);
       e == Asked(reviewer, ReviewMessages(WithFiles(source, files), r.draft.text, PromptOf(setup, reviewer)), reply)
  }

  /** The call shows the author the request, that draft, and what the round's reviewers
      found, as read from their masked replies. */
  ghost predicate ShowsFindings(setup: Setup, rv: Review, source: string, r: Round, e: Effect) {
    && |r.replies| <= |rv.reviewers| && r.revision.Some?
    && (exists written :: r.draft == Cleaned(setup.texts, written))
    && e == Asked(setup.provider,
                  RevisionMessages(source, r.draft.text, Findings(setup.texts, rv.reviewers, r.replies),
                                   setup.systemPrompt),
                  r.revision.value)
  }

  lemma {:induction false} DraftCalls(setup: Setup, rv: Review, source: string, r: Round, written: string,
                                      replies: seq<Reply>)
    requires |replies| <= |rv.reviewers| && r.draft == Cleaned(setup.texts, written)
    ensures forall e :: e in ReviewCalls(setup, rv, source, r.draft, replies) ==> ShowsDraft(setup, source, r, e)
  {
    hide Cleaned, ReviewMessages, WithFiles, MaskedFiles;
    if replies != [] {
      var k := |replies| - 1;
      DraftCalls(setup, rv, source, r, written, replies[..k]);
      var e := ReviewCall(setup, source, r.draft, rv.reviewers[k], replies[k]);
      assert IsDraftCall(setup, source, r, e, written, rv.reviewers[k], replies[k]);
    }
  }

  lemma RoundShows(setup: Setup, rv: Review, source: string, r: Round, written: string)
    requires |r.replies| <= |rv.reviewers| && r.draft == Cleaned(setup.texts, written)
    ensures forall e :: e in RoundCalls(setup, rv, source, r) ==>
              ShowsDraft(setup, source, r, e) || ShowsFindings(setup, rv, source, r, e)
  {
    hide Cleaned, RevisionMessages, ReviewMessages, ReviewCalls, Findings, ShowsDraft;
    DraftCalls(setup, rv, source, r, written, r.replies);
  }

  ghost predicate ShownIn(setup: Setup, rv: Review, source: string, rounds: seq<Round>, e: Effect) {
    exists k :: 0 <= k < |rounds|
             && (ShowsDraft(setup, source, rounds[k], e) || ShowsFindings(setup, rv, source, rounds[k], e))
  }

  lemma ShownLater(setup: Setup, rv: Review, source: string, rounds: seq<Round>, r: Round, e: Effect)
    requires ShownIn(setup, rv, source, rounds, e) ||
             ShowsDraft(setup, source, r, e) || ShowsFindings(setup, rv, source, r, e)
    ensures ShownIn(setup, rv, source, rounds + [r], e)
  {
    hide ShowsDraft, ShowsFindings;
    var all := rounds + [r];
    if ShownIn(setup, rv, source, rounds, e) {
      var k :| 0 <= k < |rounds| &&
        (ShowsDraft(setup, source, rounds[k], e) || ShowsFindings(setup, rv, source, rounds[k], e));
      assert all[k] == rounds[k];
    } else {
      assert all[|rounds|] == r;
    }
  }

  /** Also in a review that fails half-way: every call shows the draft of its round, with
      its files, or that draft with the findings of that same round; text, previews and
      verdicts all went through masking. */
  lemma {:induction false} OnlyMaskedDrafts(setup: Setup, rv: Review, source: string, written: string,
                                            rounds: seq<Round>)
    requires Rounds(setup.texts, rv, written, rounds)
    ensures forall e :: e in Script(setup, rv, source, rounds) ==> ShownIn(setup, rv, source, rounds, e)
  {
    hide RoundCalls, ShownIn, ShowsDraft, ShowsFindings, Cleaned;
    if rounds == [] {
      EmptyScript(setup, rv, source);
    } else {
      var front, last := rounds[..|rounds| - 1], rounds[|rounds| - 1];
      OnlyMaskedDrafts(setup, rv, source, written, front);
      ScriptGrow(setup, rv, source, front, last);
      assert front + [last] == rounds;
      if front != [] {
        assert LeadsTo(setup.texts, rv, rounds[|front| - 1], last.draft);
      }
      RoundShows(setup, rv, source, last, if front == [] then written else rounds[|front| - 1].revision.value.content);
      forall e | e in Script(setup, rv, source, rounds)
        ensures ShownIn(setup, rv, source, rounds, e)
      {
        ShownLater(setup, rv, source, front, last, e);
      }
    }
  }

  // ----- raw values in what a review shows

  /** Masking is the substitution by this dictionary. */
  ghost predicate MasksWith(t: Texts, back: map<string, string>) {
    forall s :: t.remask(s) == Replacer.Substitute(back, s)
  }

  lemma TrimUntouched(keys: set<string>, s: string)
    requires Replacer.Untouched(keys, s)
    ensures Replacer.Untouched(keys, Trim(s))
  {
    var a, b := TrimIs(s);
    Replacer.PartUntouched(keys, s, a, b);
  }

  lemma CleanedUntouched(t: Texts, written: string, keys: set<string>)
    requires Replacer.Untouched(keys, t.remask(written))
    ensures Replacer.Untouched(keys, Cleaned(t, written).text)
    ensures Replacer.Untouched(keys, Cleaned(t, written).attachments)
  {
    hide Trim, Replacer.Untouched, IndexOf, FILES;
    var s := t.remask(written);
    var idx := IndexOf(s, "\n" + FILES);
    Replacer.PartUntouched(keys, s, 0, 0);
    assert s[..|s|] == s;
    if idx.Some? && idx.value <= |s| {
      Replacer.PartUntouched(keys, s, 0, idx.value);
      Replacer.PartUntouched(keys, s, idx.value, |s|);
      TrimUntouched(keys, s[..idx.value]);
    }
    TrimUntouched(keys, SplitAttachments(s).0);
  }

  /** Where no raw value can share characters with a pseudonym, no draft, attached block
      or decoded preview that a review shows contains one. */
  lemma ReviewShowsNoRaw(setup: Setup, rv: Review, written: string, rounds: seq<Round>, back: map<string, string>)
    requires Rounds(setup.texts, rv, written, rounds) && MasksWith(setup.texts, back)
    requires "" !in back && Remask.Clear(back)
    ensures forall k :: 0 <= k < |rounds| ==>
              var d := rounds[k].draft;
              && Replacer.Untouched(back.Keys, d.text) && Replacer.Untouched(back.Keys, d.attachments)
              && forall a :: a in MaskedFiles(setup.texts, d.attachments) ==> Replacer.Untouched(back.Keys, a.preview)
  {
    hide Cleaned, Replacer.Substitute, Remask.Clear, Replacer.Untouched;
    var t := setup.texts;
    forall s
      ensures Replacer.Untouched(back.Keys, t.remask(s))
    {
      Remask.ClearLeavesNothing(back, s);
    }
    forall k | 0 <= k < |rounds|
      ensures Replacer.Untouched(back.Keys, rounds[k].draft.text)
      ensures Replacer.Untouched(back.Keys, rounds[k].draft.attachments)
    {
      assert k > 0 ==> LeadsTo(t, rv, rounds[k - 1], rounds[k].draft);
      CleanedUntouched(t, if k == 0 then written else rounds[k - 1].revision.value.content, back.Keys);
    }
    Remask.EmptyUntouched(back.Keys);
  }

  // ----- what the messages say

  /** The user message of a review: the request with the draft's files, then the draft. */
  predicate IsReviewText(text: string, request: string, files: string, draft: string) {
    text == "Обезличенный запрос пользователя:\n" + (if files == "" then request else request + "\n\n" + files)
            + "\n\nЧерновик ответа:\n" + draft
  }

  /** The user message of a revision: the request, the draft, the reviewers' remarks. */
  predicate IsRevisionText(text: string, request: string, draft: string, remarks: string) {
    text == "Обезличенный запрос пользователя:\n" + request + "\n\nТекущий черновик ответа:\n" + draft
            + "\n\nЗамечания ревизоров:\n" + remarks
  }

  /** A remark without blanks around it, cut after 900 characters. */
  predicate IsRemark(remark: string, issue: string) {
    && (|Trim(issue)| <= 900 ==> remark == Trim(issue))
    && (|Trim(issue)| > 900 ==> remark == Trim(Trim(issue)[..900]) + "...")
  }

  /** Every remark that is not blank stands in the list, with the reviewer's name. */
  ghost predicate ListsRemarks(findings: seq<Finding>, remarks: string) {
    forall f, issue :: f in findings && issue in f.issues && Trim(issue) != "" ==> ListsRemark(f, issue, remarks)
  }

  ghost predicate ListsRemark(f: Finding, issue: string, remarks: string) {
    exists remark :: IsRemark(remark, issue) && Replacer.Occurs("- " + f.provider + ": " + remark, remarks)
  }

  /** A line of the list: it starts with a dash and ends with a character. */
  predicate Solid(line: string) { line != "" && line[0] == '-' && !IsSpace(line[|line| - 1]) }

  lemma RemarkIsSolid(f: Finding, issue: string)
    requires Trim(issue) != ""
    ensures IsRemark(TrimIssue(issue), issue) && Solid("- " + f.provider + ": " + TrimIssue(issue))
  {
    assert !IsSpace('.');
    hide IsSpace;
    var i, n := TrimIs(issue);
    var t := Trim(issue);
    assert t[|t| - 1] == issue[n - 1];
    var r := TrimIssue(issue);
    assert r[|r| - 1] == if |t| <= 900 then t[|t| - 1] else '.';
  }

  lemma OccursInMiddle(a: string, key: string, b: string)
    ensures Replacer.Occurs(key, a + key + b)
  {
    var s := a + key + b;
    assert s[|a|..][..|key|] == key;
    assert key <= s[|a|..];
  }

  lemma OccursInLonger(key: string, a: string, b: string)
    requires Replacer.Occurs(key, a)
    ensures Replacer.Occurs(key, a + b)
  {
    assert (a + b)[0..|a|] == a;
    Replacer.OccursInPart(key, a + b, 0, |a|);
  }

  lemma {:induction false} IssueIsListed(f: Finding, issues: seq<string>, issue: string)
    requires issue in issues && Trim(issue) != ""
    ensures Replacer.Occurs("- " + f.provider + ": " + TrimIssue(issue), IssueLines(f.provider, issues))
  {
    hide Trim, TrimIssue, Replacer.Occurs;
    var front, last := issues[..|issues| - 1], issues[|issues| - 1];
    var line := "- " + f.provider + ": " + TrimIssue(issue);
    if issue in front {
      IssueIsListed(f, front, issue);
      OccursInLonger(line, IssueLines(f.provider, front),
                     if Trim(last) == "" then "" else "- " + f.provider + ": " + TrimIssue(last) + "\n");
    } else {
      OccursInMiddle(IssueLines(f.provider, front), line, "\n");
      assert IssueLines(f.provider, front) + line + "\n" == IssueLines(f.provider, front) + (line + "\n");
    }
  }

  lemma {:induction false} FindingIsListed(findings: seq<Finding>, f: Finding, issue: string)
    requires f in findings && issue in f.issues && Trim(issue) != ""
    ensures Replacer.Occurs("- " + f.provider + ": " + TrimIssue(issue), FindingLines(findings))
  {
    hide Trim, TrimIssue, Replacer.Occurs, IssueLines;
    var front, last := findings[..|findings| - 1], findings[|findings| - 1];
    var line := "- " + f.provider + ": " + TrimIssue(issue);
    if f in front {
      FindingIsListed(front, f, issue);
      OccursInLonger(line, FindingLines(front), IssueLines(last.provider, last.issues));
    } else {
      IssueIsListed(f, f.issues, issue);
      assert FindingLines(front) + IssueLines(f.provider, f.issues) + "" == FindingLines(findings);
      OccursInBack(line, FindingLines(front), IssueLines(f.provider, f.issues));
    }
  }

  lemma OccursInBack(key: string, a: string, b: string)
    requires Replacer.Occurs(key, b)
    ensures Replacer.Occurs(key, a + b)
  {
    assert (a + b)[|a|..|a| + |b|] == b;
    Replacer.OccursInPart(key, a + b, |a|, |a| + |b|);
  }

  /** Trimming takes no part of a line that starts and ends with a character. */
  lemma TrimKeepsLine(line: string, text: string)
    requires Solid(line) && Replacer.Occurs(line, text)
    ensures Replacer.Occurs(line, Trim(text))
  {
    assert !IsSpace('-');
    hide IsSpace;
    var at :| 0 <= at <= |text| && line <= text[at..];
    var i, n := TrimLeftIsFirst(text);
    assert text[at..][0] == text[at] && text[at..][|line| - 1] == text[at + |line| - 1];
    assert i <= at && at + |line| <= n;
    assert text[i..n][at - i..] == text[at..n];
    assert forall k :: 0 <= k < |line| ==> line[k] == text[at..][k] == text[at..n][k];
    assert line <= text[i..n][at - i..];
  }

  lemma {:induction false} BlanksBefore(s: string) returns (i: nat)
    ensures i <= |s| && TrimLeft(s) == s[i..] && forall k :: 0 <= k < i ==> IsSpace(s[k])
  {
    if s != "" && IsSpace(s[0]) {
      var k := BlanksBefore(s[1..]);
      i := k + 1;
      assert s[i..] == s[1..][k..];
      assert forall j :: 1 <= j < i ==> s[j] == s[1..][j - 1];
    } else {
      i := 0;
    }
  }

  lemma TrimLeftIsFirst(s: string) returns (i: nat, n: nat)
    ensures i <= n <= |s| && Trim(s) == s[i..n]
    ensures forall k :: 0 <= k < i || n <= k < |s| ==> IsSpace(s[k])
  {
    hide IsSpace;
    i := BlanksBefore(s);
    var m := TrimRightIs(s[i..]);
    n := i + m;
    assert s[i..][..m] == s[i..n];
    assert forall k :: n <= k < |s| ==> s[k] == s[i..][k - i];
  }

  /** The list of remarks has every one that is not blank. */
  lemma RemarksAreListed(findings: seq<Finding>)
    ensures ListsRemarks(findings, FormatFindings(findings))
  {
    hide Trim, TrimIssue, FindingLines, Replacer.Occurs, Solid, IsRemark;
    forall f, issue | f in findings && issue in f.issues && Trim(issue) != ""
      ensures ListsRemark(f, issue, FormatFindings(findings))
    {
      var line := "- " + f.provider + ": " + TrimIssue(issue);
      RemarkIsSolid(f, issue);
      FindingIsListed(findings, f, issue);
      TrimKeepsLine(line, FindingLines(findings));
      NothingOccurs(line);
    }
  }

  lemma NothingOccurs(line: string)
    requires Solid(line)
    ensures !Replacer.Occurs(line, "")
  {
  }

  /** The text's lines, with a newline between neighbours, and the same with two blanks in
      front of each. */
  ghost predicate IsIndented(shown: string, text: string) {
    exists lines, body :: IsSplit(lines, text) && Laid(body, lines, "\n  ") && shown == "  " + body + "\n"
  }

  ghost predicate IsSplit(lines: seq<string>, text: string) {
    Laid(text, lines, "\n") && forall l :: l in lines ==> '\n' !in l
  }

  /** One file: name, type and size, and the preview if it has one. */
  ghost predicate IsFileBlock(block: string, a: Attachment) {
    var line := "- " + a.name + " (" + a.mime + ", " + Names.Decimal(a.sizeBytes) + " B)\n";
    if a.preview == "" then block == line else exists shown :: HasPreview(block, line, shown, a.preview)
  }

  ghost predicate HasPreview(block: string, line: string, shown: string, preview: string) {
    && IsIndented(shown, preview)
    && block == line + ("  --- содержимое (первые ≤2KB) ---\n" + (shown + "  --- конец содержимого ---\n"))
  }

  ghost predicate AreFileBlocks(blocks: seq<string>, files: seq<Attachment>) {
    |blocks| == |files| && forall k :: 0 <= k < |blocks| ==> IsFileBlock(blocks[k], files[k])
  }

  /** The files one after another under a heading; nothing if there are none. */
  ghost predicate IsDescription(text: string, files: seq<Attachment>) {
    if files == [] then text == ""
    else
      exists blocks ::
        AreFileBlocks(blocks, files) && text + "\n" == "Файлы-артефакты от основной модели:\n" + Concat(blocks)
  }

  ghost predicate SplitsInto(lines: seq<string>, text: string) {
    && lines != [] && (forall l :: l in lines ==> '\n' !in l)
    && Join(lines, "\n") == text && Join(lines, "\n  ") + "\n" == IndentedRest(text)
  }

  lemma NewLine(text: string, rest: seq<string>)
    requires text != "" && text[0] == '\n' && SplitsInto(rest, text[1..])
    ensures SplitsInto([""] + rest, text)
  {
    hide Join;
    JoinFirst("", rest, "\n");
    JoinFirst("", rest, "\n  ");
    assert "" + "\n" + Join(rest, "\n") == "\n" + text[1..];
    assert "\n" + text[1..] == text;
    assert "" + "\n  " + Join(rest, "\n  ") + "\n" == "\n  " + (Join(rest, "\n  ") + "\n");
  }

  lemma SameLine(text: string, rest: seq<string>)
    requires text != "" && text[0] != '\n' && SplitsInto(rest, text[1..])
    ensures SplitsInto([[text[0]] + rest[0]] + rest[1..], text)
  {
    hide Join;
    var c, first, later := text[0], rest[0], rest[1..];
    assert [first] + later == rest;
    JoinLonger(c, first, later, "\n");
    JoinLonger(c, first, later, "\n  ");
    assert [c] + text[1..] == text;
    assert [c] + Join(rest, "\n  ") + "\n" == [c] + (Join(rest, "\n  ") + "\n");
    assert first in rest && forall l :: l in later ==> l in rest;
  }

  lemma {:induction false} LinesOf(text: string) returns (lines: seq<string>)
    ensures SplitsInto(lines, text)
  {
    if text == "" {
      lines := [""];
    } else {
      hide SplitsInto;
      var rest := LinesOf(text[1..]);
      if text[0] == '\n' {
        NewLine(text, rest);
        lines := [""] + rest;
      } else {
        SameLine(text, rest);
        lines := [[text[0]] + rest[0]] + rest[1..];
      }
    }
  }

  lemma IndentedTells(text: string)
    ensures IsIndented(Indented(text), text)
  {
    var lines := LinesOf(text);
    JoinLays(lines, "\n");
    JoinLays(lines, "\n  ");
    hide Laid, Join, IndentedRest;
    var body := Join(lines, "\n  ");
    assert IsSplit(lines, text);
    assert "  " + (body + "\n") == "  " + body + "\n";
  }

  lemma BlockTells(a: Attachment)
    ensures IsFileBlock(FileBlock(a), a)
  {
    hide Indented, IsIndented, Names.Decimal;
    var line := "- " + a.name + " (" + a.mime + ", " + Names.Decimal(a.sizeBytes) + " B)\n";
    var shown := Indented(a.preview);
    IndentedTells(a.preview);
    BlockText(FileLine(a), shown);
    assert a.preview != "" ==> HasPreview(FileBlock(a), line, shown, a.preview);
  }

  lemma BlockText(line: string, shown: string)
    ensures line + "\n" + "" == line + "\n"
    ensures line + "\n" + (PREVIEW_HEAD + (shown + "  --- конец содержимого ---") + "\n")
         == line + "\n" + ("  --- содержимое (первые ≤2KB) ---\n" + (shown + "  --- конец содержимого ---\n"))
  {
    var tail := "  --- конец содержимого ---";
    assert tail + "\n" == "  --- конец содержимого ---\n";
    assert shown + (tail + "\n") == shown + tail + "\n";
    assert PREVIEW_HEAD + (shown + tail) + "\n" == PREVIEW_HEAD + (shown + tail + "\n");
  }

  lemma {:induction false} FileLinesTell(files: seq<Attachment>) returns (blocks: seq<string>)
    ensures AreFileBlocks(blocks, files) && FileLines(files) == Concat(blocks)
    ensures files != [] ==> EndsWith(FileLines(files), ")\n") || EndsWith(FileLines(files), "-\n")
  {
    hide IsFileBlock, FileBlock;
    blocks := [];
    if files != [] {
      var n := |files| - 1;
      var front := FileLinesTell(files[..n]);
      BlockTells(files[n]);
      BlockEnds(files[n]);
      blocks := front + [FileBlock(files[n])];
      ConcatAppend(front, FileBlock(files[n]));
    }
  }

  predicate EndsWith(text: string, end: string) { |end| <= |text| && text[|text| - |end|..] == end }

  lemma BlockEnds(a: Attachment)
    ensures EndsWith(FileBlock(a), ")\n") || EndsWith(FileBlock(a), "-\n")
  {
    hide Indented, Names.Decimal;
  }

  lemma FilesAreDescribed(files: seq<Attachment>)
    ensures IsDescription(Described(files), files)
  {
    if files != [] {
      hide AreFileBlocks, FileLines;
      var blocks := FileLinesTell(files);
      var text := "Файлы-артефакты от основной модели:\n" + FileLines(files);
      OneNewlineOff(text);
    }
  }

  lemma OneNewlineOff(text: string)
    requires EndsWith(text, ")\n") || EndsWith(text, "-\n")
    ensures TrimNewlines(text) + "\n" == text
  {
    var n := |text| - 1;
    assert text[n - 1..][0] == text[n - 1] && text[n - 1..][1] == text[n];
    assert text[..n][n - 1] == text[n - 1];
    assert text == text[..n] + [text[n]];
  }

  /** What the list of remarks says: every remark that is not blank, without blanks around
      the list; or that there is none. */
  ghost predicate IsRemarkList(findings: seq<Finding>, remarks: string) {
    && ListsRemarks(findings, remarks) && Trim(remarks) == remarks && remarks != ""
    && ((forall f, issue :: f in findings && issue in f.issues ==> Trim(issue) == "") ==>
          remarks == "- замечания не распознаны")
  }

  lemma {:induction false} NoIssueLines(provider: string, issues: seq<string>)
    requires forall issue :: issue in issues ==> Trim(issue) == ""
    ensures IssueLines(provider, issues) == ""
  {
    if issues != [] {
      NoIssueLines(provider, issues[..|issues| - 1]);
      assert Trim(issues[|issues| - 1]) == "";
    }
  }

  lemma {:induction false} NoFindingLines(findings: seq<Finding>)
    requires forall f, issue :: f in findings && issue in f.issues ==> Trim(issue) == ""
    ensures FindingLines(findings) == ""
  {
    if findings != [] {
      NoFindingLines(findings[..|findings| - 1]);
      NoIssueLines(findings[|findings| - 1].provider, findings[|findings| - 1].issues);
    }
  }

  lemma FormatTells(findings: seq<Finding>)
    ensures IsRemarkList(findings, FormatFindings(findings))
  {
    RemarksAreListed(findings);
    hide IsSpace, FindingLines, ListsRemarks;
    TrimIdempotent(FindingLines(findings));
    NoticeIsTrim();
    if forall f, issue :: f in findings && issue in f.issues ==> Trim(issue) == "" {
      NoFindingLines(findings);
    }
  }

  lemma NoticeIsTrim()
    ensures Trim("- замечания не распознаны") == "- замечания не распознаны" && Trim("") == ""
  {
    assert !IsSpace('-') && !IsSpace('ы');
    hide IsSpace;
    var s := "- замечания не распознаны";
    assert |s| == 25 && s[24] == 'ы' && s[0] == '-';
    var i, n := TrimIs(s);
    assert s[..n] == s[0..n];
    assert n == 25;
  }

  /** What a model is asked, question by question. */
  ghost predicate Says(setup: Setup, rv: Review, source: string, r: Round, e: Effect) {
    && e.Asked? && |e.messages| == 2 && e.messages[0].role == System && e.messages[1].role == User
    && var text := e.messages[1].content; SaysReview(setup, source, r, text) || SaysRevision(setup, rv, source, r, text)
  }

  ghost predicate SaysReview(setup: Setup, source: string, r: Round, text: string) {
    exists files :: IsReviewText(text, source, files, r.draft.text)
      && IsDescription(files, MaskedFiles(setup.texts, r.draft.attachments))
  }

  ghost predicate SaysRevision(setup: Setup, rv: Review, source: string, r: Round, text: string) {
    && |r.replies| <= |rv.reviewers|
    && var findings := Findings(setup.texts, rv.reviewers, r.replies);
       exists remarks :: IsRevisionText(text, source, r.draft.text, remarks) && IsRemarkList(findings, remarks)
  }

  lemma {:induction false} ReviewCallsSay(setup: Setup, rv: Review, source: string, r: Round, replies: seq<Reply>)
    requires |replies| <= |rv.reviewers|
    ensures forall e :: e in ReviewCalls(setup, rv, source, r.draft, replies) ==> Says(setup, rv, source, r, e)
  {
    hide Trim, Guarded, PromptOf, Described, MaskedFiles, IsDescription;
    if replies != [] {
      var k := |replies| - 1;
      ReviewCallsSay(setup, rv, source, r, replies[..k]);
      var e := ReviewCall(setup, source, r.draft, rv.reviewers[k], replies[k]);
      var files := MaskedFiles(setup.texts, r.draft.attachments);
      FilesAreDescribed(files);
      assert IsReviewText(e.messages[1].content, source, Described(files), r.draft.text);
      assert SaysReview(setup, source, r, e.messages[1].content);
    }
  }

  lemma RoundSays(setup: Setup, rv: Review, source: string, r: Round)
    requires |r.replies| <= |rv.reviewers|
    ensures forall e :: e in RoundCalls(setup, rv, source, r) ==> Says(setup, rv, source, r, e)
  {
    hide Trim, Limited, FormatFindings, Findings, ReviewCalls, IsRemarkList;
    ReviewCallsSay(setup, rv, source, r, r.replies);
    if r.revision.Some? {
      var findings := Findings(setup.texts, rv.reviewers, r.replies);
      FormatTells(findings);
      var e := RevisionCalls(setup, rv, source, r)[0];
      assert IsRevisionText(e.messages[1].content, source, r.draft.text, FormatFindings(findings));
      assert SaysRevision(setup, rv, source, r, e.messages[1].content);
    }
  }

  ghost predicate SaidIn(setup: Setup, rv: Review, source: string, rounds: seq<Round>, e: Effect) {
    exists k :: 0 <= k < |rounds| && Says(setup, rv, source, rounds[k], e)
  }

  /** Every question of a review is about the request and the draft of its round: with the
      draft's files for a reviewer, with every remark that is not blank for the author. */
  lemma {:induction false} QuestionsSay(setup: Setup, rv: Review, source: string, rounds: seq<Round>)
    requires forall k :: 0 <= k < |rounds| ==> |rounds[k].replies| <= |rv.reviewers|
    ensures forall e :: e in Script(setup, rv, source, rounds) ==> SaidIn(setup, rv, source, rounds, e)
  {
    hide RoundCalls, Says;
    if rounds == [] {
      EmptyScript(setup, rv, source);
    } else {
      var front, last := rounds[..|rounds| - 1], rounds[|rounds| - 1];
      QuestionsSay(setup, rv, source, front);
      RoundSays(setup, rv, source, last);
      forall e | e in Script(setup, rv, source, rounds)
        ensures SaidIn(setup, rv, source, rounds, e)
      {
        if e in Script(setup, rv, source, front) {
          var k :| 0 <= k < |front| && Says(setup, rv, source, front[k], e);
          assert rounds[k] == front[k];
        }
      }
    }
  }

  /** The user message of every question begins with the request. */
  ghost predicate AboutRequest(e: Effect, request: string) {
    e.Asked? && |e.messages| == 2 && e.messages[1].role == User
    && "Обезличенный запрос пользователя:\n" + request <= e.messages[1].content
  }

  lemma QuestionsAboutRequest(setup: Setup, rv: Review, source: string, rounds: seq<Round>)
    requires forall k :: 0 <= k < |rounds| ==> |rounds[k].replies| <= |rv.reviewers|
    ensures forall e :: e in Script(setup, rv, source, rounds) ==> AboutRequest(e, source)
  {
    hide Script, MaskedFiles, IsRemarkList, Findings, IsDescription;
    QuestionsSay(setup, rv, source, rounds);
  }

  /** A draft is the masked reply, cut where its block of files begins: the text without
      blanks around it, the files as they are. */
  lemma CleanedKeepsAll(t: Texts, written: string) returns (k: nat)
    ensures var s, d := t.remask(written), Cleaned(t, written);
      && k <= |s| && d.text == Trim(s[..k]) && d.attachments == s[k..]
      && (d.attachments != "" <==> FILES <= s || Replacer.Occurs("\n" + FILES, s))
  {
    hide IsSpace, TrimLeft, TrimRight;
    FilesFacts();
    hide FILES;
    var s := t.remask(written);
    var m := "\n" + FILES;
    IndexOfIsFirst(s, m);
    var idx := IndexOf(s, m);
    assert s[..|s|] == s && s[0..] == s && s[|s|..] == "" && s[..0] == "";
    assert Trim("") == "" by { var i, n := TrimIs(""); }
    TrimIdempotent(if idx.Some? then s[..idx.value] else s);
    k := if idx.Some? then idx.value else if FILES <= s then 0 else |s|;
  }

  /** The wrapped answer ends with the draft and lists the open remarks. */
  lemma FallbackTells(text: string, rounds: nat, findings: seq<Finding>)
    ensures var r := FallbackText(text, rounds, findings);
            exists remarks :: IsRemarkList(findings, remarks) && WrapsUp(r, text, rounds, remarks)
  {
    hide Trim, FormatFindings, IsRemarkList;
    FormatTells(findings);
    assert WrapsUp(FallbackText(text, rounds, findings), text, rounds, FormatFindings(findings));
  }

  predicate WrapsUp(r: string, text: string, rounds: nat, remarks: string) {
    var n := Names.Decimal(rounds);
    r == "Вот что получилось после всех циклов ревизии (" + n + "/" + n
         + "). Проверяющие модели всё ещё оставили замечания:\n\n" + remarks + "\n\n" + Trim(text)
  }

  // ----- a review is blind to what masking removes

  predicate SameMasked(t: Texts, a: Reply, b: Reply) {
    (a.NoAnswer? && b.NoAnswer?) || (a.Answer? && b.Answer? && t.remask(a.content) == t.remask(b.content))
  }

  predicate SameReplies(t: Texts, a: seq<Reply>, b: seq<Reply>) {
    |a| == |b| && forall k :: 0 <= k < |a| ==> SameMasked(t, a[k], b[k])
  }

  /** The models wrote the same in both rounds, once it is masked. */
  predicate SameRound(t: Texts, r: Round, q: Round) {
    && SameReplies(t, r.replies, q.replies)
    && (r.revision.Some? <==> q.revision.Some?)
    && (r.revision.Some? ==> SameMasked(t, r.revision.value, q.revision.value))
  }

  /** Who is asked what, without the replies. */
  function Questions(calls: seq<Effect>): seq<(string, seq<Message>)> {
    if calls == [] then []
    else
      var e := calls[|calls| - 1];
      Questions(calls[..|calls| - 1]) + if e.Asked? then [(e.provider, e.messages)] else []
  }

  lemma {:induction false} QuestionsConcat(a: seq<Effect>, b: seq<Effect>)
    ensures Questions(a + b) == Questions(a) + Questions(b)
  {
    if b == [] {
      assert a + b == a;
    } else {
      assert (a + b)[..|a + b| - 1] == a + b[..|b| - 1];
      QuestionsConcat(a, b[..|b| - 1]);
    }
  }

  lemma {:induction false} SameFindings(t: Texts, reviewers: seq<string>, a: seq<Reply>, b: seq<Reply>)
    requires SameReplies(t, a, b) && |a| <= |reviewers|
    ensures Findings(t, reviewers, a) == Findings(t, reviewers, b)
  {
    if a != [] {
      SameFindings(t, reviewers, a[..|a| - 1], b[..|b| - 1]);
      assert SameMasked(t, a[|a| - 1], b[|b| - 1]);
    }
  }

  lemma {:induction false} SameReviewQuestions(setup: Setup, rv: Review, source: string, d: Draft, a: seq<Reply>,
                                               b: seq<Reply>)
    requires |a| == |b| <= |rv.reviewers|
    ensures Questions(ReviewCalls(setup, rv, source, d, a)) == Questions(ReviewCalls(setup, rv, source, d, b))
  {
    hide ReviewMessages, SourceWithFiles, PromptOf;
    if a != [] {
      var k := |a| - 1;
      SameReviewQuestions(setup, rv, source, d, a[..k], b[..k]);
      MoreQuestions(ReviewCalls(setup, rv, source, d, a[..k]), ReviewCall(setup, source, d, rv.reviewers[k], a[k]));
      MoreQuestions(ReviewCalls(setup, rv, source, d, b[..k]), ReviewCall(setup, source, d, rv.reviewers[k], b[k]));
    }
  }

  lemma MoreQuestions(calls: seq<Effect>, e: Effect)
    requires e.Asked?
    ensures Questions(calls + [e]) == Questions(calls) + [(e.provider, e.messages)]
  {
    assert (calls + [e])[..|calls|] == calls;
  }

  lemma SameRoundQuestions(setup: Setup, rv: Review, source: string, r: Round, q: Round)
    requires SameRound(setup.texts, r, q) && r.draft == q.draft && |r.replies| <= |rv.reviewers|
    ensures Questions(RoundCalls(setup, rv, source, r)) == Questions(RoundCalls(setup, rv, source, q))
  {
    hide ReviewCalls, RevisionMessages, Questions, Findings;
    SameFindings(setup.texts, rv.reviewers, r.replies, q.replies);
    SameReviewQuestions(setup, rv, source, r.draft, r.replies, q.replies);
    if r.revision.Some? {
      MoreQuestions(ReviewCalls(setup, rv, source, r.draft, r.replies), RevisionCalls(setup, rv, source, r)[0]);
      MoreQuestions(ReviewCalls(setup, rv, source, q.draft, q.replies), RevisionCalls(setup, rv, source, q)[0]);
    } else {
      assert ReviewCalls(setup, rv, source, r.draft, r.replies) + [] ==
        ReviewCalls(setup, rv, source, r.draft, r.replies);
      assert ReviewCalls(setup, rv, source, q.draft, q.replies) + [] ==
        ReviewCalls(setup, rv, source, q.draft, q.replies);
    }
  }

  lemma SameDrafts(t: Texts, rv: Review, w1: string, w2: string, a: seq<Round>, b: seq<Round>, k: nat)
    requires t.remask(w1) == t.remask(w2) && Rounds(t, rv, w1, a) && Rounds(t, rv, w2, b) && |a| == |b|
    requires k < |a| && forall i :: 0 <= i < |a| ==> SameRound(t, a[i], b[i])
    ensures a[k].draft == b[k].draft
  {
    if k > 0 {
      assert LeadsTo(t, rv, a[k - 1], a[k].draft) && LeadsTo(t, rv, b[k - 1], b[k].draft);
      assert SameRound(t, a[k - 1], b[k - 1]);
    }
  }

  lemma RoundsFront(t: Texts, rv: Review, written: string, rounds: seq<Round>)
    requires Rounds(t, rv, written, rounds)
    ensures forall k :: 0 <= k < |rounds| ==> |rounds[k].replies| <= |rv.reviewers|
    ensures rounds != [] ==> Rounds(t, rv, written, rounds[..|rounds| - 1])
  {
    hide LeadsTo;
  }

  /** Two reviews in which the models wrote the same up to masking put the same questions
      to the same models: no raw value that masking removes reaches any of them, through
      draft, files or findings. */
  lemma {:induction false} ReviewIsBlind(setup: Setup, rv: Review, source: string, w1: string, w2: string,
                                         a: seq<Round>, b: seq<Round>)
    requires var t := setup.texts;
      && t.remask(w1) == t.remask(w2) && Rounds(t, rv, w1, a) && Rounds(t, rv, w2, b) && |a| == |b|
      && forall i :: 0 <= i < |a| ==> SameRound(t, a[i], b[i])
    ensures Questions(Script(setup, rv, source, a)) == Questions(Script(setup, rv, source, b))
  {
    hide Rounds, RoundCalls, SameRound, Questions, Script;
    if a == [] {
      EmptyScript(setup, rv, source);
    } else {
      var n := |a| - 1;
      RoundsFront(setup.texts, rv, w1, a);
      RoundsFront(setup.texts, rv, w2, b);
      ReviewIsBlind(setup, rv, source, w1, w2, a[..n], b[..n]);
      SameDrafts(setup.texts, rv, w1, w2, a, b, n);
      SameRoundQuestions(setup, rv, source, a[n], b[n]);
      ScriptGrow(setup, rv, source, a[..n], a[n]);
      ScriptGrow(setup, rv, source, b[..n], b[n]);
      assert a[..n] + [a[n]] == a && b[..n] + [b[n]] == b;
      QuestionsConcat(Script(setup, rv, source, a[..n]), RoundCalls(setup, rv, source, a[n]));
      QuestionsConcat(Script(setup, rv, source, b[..n]), RoundCalls(setup, rv, source, b[n]));
    }
  }

  // ----- the platform's rules

  /** The system message starts with the configured prompt and ends with the platform's
      rules; one user message follows. */
  ghost predicate RulesLast(e: Effect, prompt: string, author: bool) {
    && e.Asked? && |e.messages| == 2 && e.messages[1].role == User
    && exists instruction :: EndsInRules(e.messages[0], prompt, author, instruction)
  }

  predicate EndsInRules(m: Message, prompt: string, author: bool, instruction: string) {
    IsInstruction(instruction, author, Trim(prompt)) && m.role == System && HasRules(m.content, author, instruction)
  }

  /** What stands before the rules: the configured prompt, or a default. */
  predicate IsInstruction(instruction: string, author: bool, prompt: string) {
    if prompt == "" then
      if author then
        instruction == "Ты основная модель. Доработай черновик ответа по замечаниям ревизоров."
      else
        instruction == "Ты модель-ревизор. Проверь черновик ответа другой "
                       + "модели на полноту, точность, противоречия и безопасность. "
    else instruction == if author then prompt else prompt + "\n\nОбязательные ограничения платформы: "
  }

  /** The rules of the platform, for the author of an answer and for its reviewers. */
  predicate HasRules(text: string, author: bool, instruction: string) {
    if author then
      text ==
      instruction
      + ("\n\nОбязательные ограничения платформы: работай только с "
         + "обезличенными данными и псевдонимами. Верни только финальную версию "
         + "ответа для пользователя: без комментариев о ревизии, без оценок и "
         + "без служебного JSON.")
    else
      text ==
      instruction
      + ("Работай только с обезличенными данными и псевдонимами. "
         + "Не раскрывай и не запрашивай реальные ПДн. Верни строго JSON без Markdown: "
         + "{\"ok\":true,\"issues\":[]} если черновик можно отдавать пользователю, "
         + "или {\"ok\":false,\"issues\":[\"короткое замечание\"]} если нужны правки. "
         + "Не возвращай финальный текст ответа, только вердикт.")
  }

  lemma ReviewRules(instruction: string)
    ensures HasRules(Guarded(instruction), false, instruction)
  {
    hide Limited;
  }

  lemma RevisionRules(instruction: string)
    ensures HasRules(Limited(instruction), true, instruction)
  {
    hide Guarded;
  }

  lemma RuledBy(e: Effect, prompt: string, author: bool, instruction: string)
    requires e.Asked? && |e.messages| == 2 && e.messages[1].role == User
    requires EndsInRules(e.messages[0], prompt, author, instruction)
    ensures RulesLast(e, prompt, author)
  {
  }

  ghost predicate Ruled(setup: Setup, e: Effect) {
    e.Asked? && (RulesLast(e, PromptOf(setup, e.provider), false) || RulesLast(e, setup.systemPrompt, true))
  }

  function ReviewInstruction(prompt: string): string {
    var system := Trim(prompt);
    if system != "" then system + "\n\nОбязательные ограничения платформы: "
    else "Ты модель-ревизор. Проверь черновик ответа другой "
         + "модели на полноту, точность, противоречия и безопасность. "
  }

  lemma ReviewSystem(source: string, draft: string, prompt: string)
    ensures var ms := ReviewMessages(source, draft, prompt);
      |ms| == 2 && ms[0] == Message(System, Guarded(ReviewInstruction(prompt))) && ms[1].role == User
  {
    hide Guarded, Trim;
  }

  lemma ReviewInstructed(prompt: string)
    ensures IsInstruction(ReviewInstruction(prompt), false, Trim(prompt))
  {
    hide Trim;
  }

  lemma Ended(m: Message, prompt: string, author: bool, instruction: string)
    requires IsInstruction(instruction, author, Trim(prompt)) && m.role == System
    requires HasRules(m.content, author, instruction)
    ensures EndsInRules(m, prompt, author, instruction)
  {
    hide IsInstruction, HasRules;
  }

  lemma ReviewRuled(source: string, draft: string, prompt: string, provider: string, reply: Reply)
    ensures RulesLast(Asked(provider, ReviewMessages(source, draft, prompt), reply), prompt, false)
  {
    hide ReviewMessages, ReviewInstruction, Guarded, Trim, HasRules, IsInstruction, EndsInRules, RulesLast;
    var instruction := ReviewInstruction(prompt);
    ReviewSystem(source, draft, prompt);
    ReviewInstructed(prompt);
    ReviewRules(instruction);
    Ended(Message(System, Guarded(instruction)), prompt, false, instruction);
    RuledBy(Asked(provider, ReviewMessages(source, draft, prompt), reply), prompt, false, instruction);
  }

  function RevisionInstruction(prompt: string): string {
    var system := Trim(prompt);
    if system != "" then system else "Ты основная модель. Доработай черновик ответа по замечаниям ревизоров."
  }

  lemma RevisionSystem(source: string, draft: string, findings: seq<Finding>, prompt: string)
    ensures var ms := RevisionMessages(source, draft, findings, prompt);
      |ms| == 2 && ms[0] == Message(System, Limited(RevisionInstruction(prompt))) && ms[1].role == User
  {
    hide Limited, Trim, FormatFindings;
  }

  lemma RevisionInstructed(prompt: string)
    ensures IsInstruction(RevisionInstruction(prompt), true, Trim(prompt))
  {
    hide Trim;
  }

  lemma RevisionRuled(source: string, draft: string, findings: seq<Finding>, prompt: string, provider: string,
                      reply: Reply)
    ensures RulesLast(Asked(provider, RevisionMessages(source, draft, findings, prompt), reply), prompt, true)
  {
    hide RevisionMessages, RevisionInstruction, Limited, Trim, HasRules, IsInstruction, EndsInRules, RulesLast;
    var instruction := RevisionInstruction(prompt);
    RevisionSystem(source, draft, findings, prompt);
    RevisionInstructed(prompt);
    RevisionRules(instruction);
    Ended(Message(System, Limited(instruction)), prompt, true, instruction);
    RuledBy(Asked(provider, RevisionMessages(source, draft, findings, prompt), reply), prompt, true, instruction);
  }

  lemma {:induction false} ReviewCallsRuled(setup: Setup, rv: Review, source: string, d: Draft, replies: seq<Reply>)
    requires |replies| <= |rv.reviewers|
    ensures forall e :: e in ReviewCalls(setup, rv, source, d, replies) ==> Ruled(setup, e)
  {
    hide ReviewMessages, SourceWithFiles, PromptOf, RulesLast;
    if replies != [] {
      var k := |replies| - 1;
      ReviewCallsRuled(setup, rv, source, d, replies[..k]);
      var reviewer := rv.reviewers[k];
      ReviewRuled(SourceWithFiles(setup.texts, source, d), d.text, PromptOf(setup, reviewer), reviewer, replies[k]);
    }
  }

  /** Whatever prompts a review is configured with and however it goes: every call of it
      ends its system message with the platform's rules. */
  lemma {:induction false} EveryCallIsRuled(setup: Setup, rv: Review, source: string, rounds: seq<Round>)
    requires forall k :: 0 <= k < |rounds| ==> |rounds[k].replies| <= |rv.reviewers|
    ensures forall e :: e in Script(setup, rv, source, rounds) ==> Ruled(setup, e)
  {
    hide Ruled, ReviewCalls, RevisionCalls;
    if rounds == [] {
      EmptyScript(setup, rv, source);
    } else {
      var front, last := rounds[..|rounds| - 1], rounds[|rounds| - 1];
      EveryCallIsRuled(setup, rv, source, front);
      ReviewCallsRuled(setup, rv, source, last.draft, last.replies);
      RevisionCallsRuled(setup, rv, source, last);
    }
  }

  lemma RevisionCallsRuled(setup: Setup, rv: Review, source: string, r: Round)
    requires |r.replies| <= |rv.reviewers|
    ensures forall e :: e in RevisionCalls(setup, rv, source, r) ==> Ruled(setup, e)
  {
    hide RevisionMessages, Findings, RulesLast;
    if r.revision.Some? {
      var findings := Findings(setup.texts, rv.reviewers, r.replies);
      RevisionRuled(source, r.draft.text, findings, setup.systemPrompt, setup.provider, r.revision.value);
    }
  }
}
