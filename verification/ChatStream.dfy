// The chat stream (rubezh-api/internal/chat/orchestrator.go): announce the decision,
// search, perhaps revise the decision, call the model, review, record, deliver, end.
// Every run keeps the protocol of ChatProtocol, whatever the world answers.
module ChatStream {
  import opened Strings
  import opened Wrappers
  import opened ChatRun
  import opened ChatText
  import opened ChatMessages
  import opened ChatRetrieval
  import opened ReviewLoop
  import opened ChatProtocol
  import RagPrompt
  import Throttle

  // ----- single steps, with what they do to the protocol stage

  method Tell(w: World, setup: Setup, run: seq<Effect>, event: Event) returns (ok: bool, next: seq<Effect>)
    requires Honest(w, run)
    ensures Honest(w, next) && next == run + [Sent(event, ok)]
    ensures StageOf(setup, next) == Advance(setup, StageOf(setup, run), Sent(event, ok))
    ensures Calls(next) == Calls(run) && Saves(next) == Saves(run) && AllTaken(next) == (AllTaken(run) && ok)
    ensures Announced(next) == if event.Meta? then Some(event.decision) else Announced(run)
    ensures PointOf(next) == PointStep(PointOf(run), Sent(event, ok))
  {
    hide Advance, Honest;
    ok, next := Send(w, run, event);
    StageGrown(setup, run, Sent(event, ok));
    Grown(run, Sent(event, ok));
  }

  method Note(w: World, setup: Setup, run: seq<Effect>, entry: AuditEntry) returns (next: seq<Effect>)
    requires Honest(w, run)
    ensures Honest(w, next) && next == run + [Audited(entry)]
    ensures StageOf(setup, next) == Advance(setup, StageOf(setup, run), Audited(entry))
    ensures Calls(next) == Calls(run) && Saves(next) == Saves(run) && AllTaken(next) == AllTaken(run)
    ensures Announced(next) == Announced(run)
  {
    hide Advance, Honest;
    next := WriteAudit(w, run, entry);
    StageGrown(setup, run, Audited(entry));
    Grown(run, Audited(entry));
  }

  method Record(w: World, setup: Setup, run: seq<Effect>, kind: RecordKind, content: string)
    returns (id: Option<string>, next: seq<Effect>)
    requires Honest(w, run)
    ensures Honest(w, next)
    ensures StageOf(setup, next) == OnSave(setup, StageOf(setup, run), kind, content, id)
    ensures Calls(next) == Calls(run) && Saves(next) == Saves(run) + [Saved(kind, content, id)]
    ensures AllTaken(next) == AllTaken(run)
    ensures Announced(next) == Announced(run)
  {
    hide OnSave, Honest;
    id, next := Save(w, run, kind, content);
    StageGrown(setup, run, Saved(kind, content, id));
    Grown(run, Saved(kind, content, id));
  }

  lemma StatusGoesOn(setup: Setup, st: Stage, p: Progress)
    ensures !OnStatus(setup, st, p).Closed?
  {
    hide Settled, Ready, Follows;
  }

  method TellStatus(w: World, setup: Setup, run: seq<Effect>, p: Progress) returns (ok: bool, next: seq<Effect>)
    requires Honest(w, run) && !OnStatus(setup, StageOf(setup, run), p).Wrong?
    ensures Honest(w, next) && next == run + [Sent(Status(p), ok)]
    ensures ok ==> StageOf(setup, next) == OnStatus(setup, StageOf(setup, run), p) && PointOf(next) == After(p)
    ensures !ok ==> StageOf(setup, next).Dropped?
    ensures Calls(next) == Calls(run) && Saves(next) == Saves(run) && AllTaken(next) == (AllTaken(run) && ok)
    ensures Lost(next) == !ok && !EndsWell(next) && Announced(next) == Announced(run)
  {
    hide Honest, Announced, Calls, Saves, StageOf, AllTaken, OnStatus, PointOf;
    StatusGoesOn(setup, StageOf(setup, run), p);
    ok, next := Tell(w, setup, run, Status(p));
  }

  // ----- the end of a run

  /** A run that is over: it kept the protocol, and `ok` tells whether the client took
      the final done or error event. */
  ghost predicate Over(w: World, setup: Setup, run: seq<Effect>, ok: bool) {
    && Honest(w, run) && Conforms(setup, run)
    && (ok <==> EndsWell(run)) && (AllTaken(run) ==> ok)
  }

  method Close(w: World, setup: Setup, run: seq<Effect>, event: Event) returns (next: seq<Effect>, ok: bool)
    requires Honest(w, run) && (event.Done? || event.Fail?)
    requires OnEvent(setup, StageOf(setup, run), event) == Closed
    ensures Over(w, setup, next, ok) && Calls(next) == Calls(run) && Saves(next) == Saves(run)
    ensures next == run + [Sent(event, ok)] && Announced(next) == Announced(run)
  {
    hide Honest, OnEvent, Calls, Saves, Announced;
    ok, next := Tell(w, setup, run, event);
  }

  lemma FailureCloses(setup: Setup, st: Stage, failure: Failure)
    requires MayFail(st, failure)
    ensures Advance(setup, st, Audited(ChatError(failure))) == Failing(failure)
    ensures OnEvent(setup, Failing(failure), Fail(failure)) == Closed
  {
    hide MayFail;
  }

  /** The run gives up: an audit entry, an error event. */
  method GiveUp(w: World, setup: Setup, run: seq<Effect>, failure: Failure) returns (next: seq<Effect>, ok: bool)
    requires Honest(w, run) && MayFail(StageOf(setup, run), failure)
    ensures Over(w, setup, next, ok) && Calls(next) == Calls(run) && Saves(next) == Saves(run)
    ensures next == run + [Audited(ChatError(failure)), Sent(Fail(failure), ok)] && Announced(next) == Announced(run)
  {
    hide Over, Honest, Announced, Calls, Saves, StageOf, AllTaken, MayFail, Advance, OnEvent;
    FailureCloses(setup, StageOf(setup, run), failure);
    var noted := Note(w, setup, run, ChatError(failure));
    next, ok := Close(w, setup, noted, Fail(failure));
  }

  lemma NoticeSaved(setup: Setup, st: Stage, id: Option<string>)
    requires Settled(setup, st) && Blocking(st.told) && st.at == After(BlockedByPolicy)
    ensures var next := OnSave(setup, st, Blocked, BlockedNotice(DueAfter(setup, st.search)), id);
      && (id.None? ==> MayFail(next, BlockSaveFailed))
      && (id.Some? ==> OnEvent(setup, next, Done(id.value)) == Closed)
  {
    hide BlockedNotice, DueAfter, KeptAfter;
  }

  method FinishBlocked(w: World, setup: Setup, outcome: Outcome, run: seq<Effect>) returns (next: seq<Effect>, ok: bool)
    requires Honest(w, run) && Settled(setup, StageOf(setup, run)) && Blocking(outcome.decision)
    requires StageOf(setup, run).at == After(BlockedByPolicy) && outcome == DueAfter(setup, StageOf(setup, run).search)
    ensures Over(w, setup, next, ok) && Calls(next) == Calls(run)
    ensures |Saves(next)| == |Saves(run)| + 1 && Announced(next) == Announced(run)
  {
    hide Over, Honest, Announced, BlockedNotice, Calls, Saves, DueAfter, KeptAfter, StageOf, AllTaken, OnSave, OnEvent,
      MayFail;
    var id, saved := Record(w, setup, run, Blocked, BlockedNotice(outcome));
    NoticeSaved(setup, StageOf(setup, run), id);
    if id.None? {
      next, ok := GiveUp(w, setup, saved, BlockSaveFailed);
    } else {
      next, ok := Close(w, setup, saved, Done(id.value));
    }
  }

  // ----- a review leaves the run where it was

  lemma QuietStepStage(setup: Setup, d: Decision, at: Point, e: Effect)
    requires ShouldReview(setup) && QuietStep(at, e)
    ensures Advance(setup, Asking(d, at), e) == if e.Sent? && !e.ok then Dropped(true) else Asking(d, PointStep(at, e))
  {
    hide DueAfter, KeptAfter, PrimaryMessages, BlockedNotice, MetaFor, Settled, OnSave;
  }

  lemma ContinuesFront(run: seq<Effect>, next: seq<Effect>)
    requires Continues(run, next) && next != run
    ensures var front, e := next[..|next| - 1], next[|next| - 1];
      && next == front + [e] && Continues(run, front) && QuietStep(PointOf(front), e)
      && (front != run ==> !Lost(front)) && !e.Saved? && !(e.Sent? && e.event.Meta?)
  {
    hide Follows, MayAsk, PointOf;
    var front := next[..|next| - 1];
    assert forall i :: 0 <= i <= |front| ==> front[..i] == next[..i];
  }

  lemma {:induction false} ReviewKeepsStage(setup: Setup, d: Decision, run: seq<Effect>, next: seq<Effect>)
    requires StageOf(setup, run) == Asking(d, PointOf(run)) && ShouldReview(setup) && Continues(run, next) && !Lost(run)
    ensures StageOf(setup, next) == if Lost(next) then Dropped(true) else Asking(d, PointOf(next))
    ensures Saves(next) == Saves(run) && AllTaken(next) == (AllTaken(run) && !Lost(next))
    ensures Announced(next) == Announced(run)
    decreases |next|
  {
    hide StageOf, Saves, AllTaken, Announced, Advance, ShouldReview, PointOf, QuietStep;
    if next != run {
      var front, e := next[..|next| - 1], next[|next| - 1];
      ContinuesFront(run, next);
      ReviewKeepsStage(setup, d, run, front);
      StageGrown(setup, front, e);
      Grown(front, e);
      QuietStepStage(setup, d, PointOf(front), e);
    }
  }

  // ----- where the delivered answer comes from

  /** The model's part in a run: what it was told about sources, its first reply, the
      rounds of review, the answer that came out. */
  datatype Story = Story(ragSystem: string, first: Reply, rounds: seq<Round>, answer: string)

  function SourceText(setup: Setup, d: Decision): string {
    if setup.hasPseudonyms then setup.sanitized else ActionOn(setup, d).sendText
  }

  predicate Usable(reply: Reply) { reply.Answer? && reply.content != "" }

  /** The model calls of the run are the first call and those of the review. */
  ghost predicate CallsTell(setup: Setup, d: Decision, calls: seq<Effect>, s: Story) {
    var head := Asked(setup.provider, PrimaryMessages(setup, d, s.ragSystem), s.first);
    if s.rounds == [] then calls == [head]
    else
      && ShouldReview(setup) && Usable(s.first) && Rounds(setup.texts, setup.review.value, s.first.content, s.rounds)
      && calls == [head] + Script(setup, setup.review.value, SourceText(setup, d), s.rounds)
  }

  /** What is recorded is the first reply or, if a review is asked for, what the review
      returned; masked unless the decision allows raw text. */
  ghost predicate RecordTells(setup: Setup, d: Decision, content: string, s: Story) {
    && Usable(s.first) && content == Shown(setup, d, s.ragSystem, s.answer)
    && if ShouldReview(setup) then Reviewed(setup.texts, setup.review.value, s.first.content, s.rounds, s.answer)
       else s.answer == s.first.content
  }

  /** An error is reported for its own reason only. */
  ghost predicate FailureTells(setup: Setup, run: seq<Effect>, s: Story) {
    var n := |run|;
    && (n > 0 && run[n - 1].Sent? && run[n - 1].event == Fail(ModelFailed) ==> !Usable(s.first))
    && (n > 0 && run[n - 1].Sent? && run[n - 1].event == Fail(ReviewFailed) ==>
          && ShouldReview(setup) && n > 2
          && (Lost(run[..n - 2]) || (s.rounds != [] && BrokenOff(setup.texts, s.rounds[|s.rounds| - 1]))))
  }

  ghost predicate Tells(setup: Setup, d: Decision, run: seq<Effect>, s: Story) {
    && CallsTell(setup, d, Calls(run), s)
    && (forall e :: e in Saves(run) ==> e.Saved? && RecordTells(setup, d, e.content, s))
    && FailureTells(setup, run, s)
  }

  // ----- recording and delivering

  const DELTA_RUNES: nat := 80

  /** The stage of an answer being delivered. */
  function Open(content: string, id: string, sent: string): Stage { Stored(Response, content, id, sent, true) }

  lemma DeltaStep(setup: Setup, content: string, id: string, sent: string, text: string, ok: bool)
    requires text != "" && sent + text <= content
    ensures Advance(setup, Open(content, id, sent), Sent(Delta(text), ok)) ==
              if ok then Open(content, id, sent + text) else Dropped(false)
  {
  }

  lemma DeliveryEnds(setup: Setup, content: string, id: string)
    ensures OnStatus(setup, Stored(Response, content, id, "", false), StreamingAnswer) == Open(content, id, "")
    ensures OnEvent(setup, Open(content, id, content), Done(id)) == Closed
    ensures !Open(content, id, "").Wrong?
  {
  }

  method SendDeltas(w: World, setup: Setup, run: seq<Effect>, chunks: seq<string>, ghost id: string)
    returns (ok: bool, next: seq<Effect>)
    requires Honest(w, run) && forall k :: 0 <= k < |chunks| ==> chunks[k] != ""
    requires StageOf(setup, run) == Open(Concat(chunks), id, "")
    ensures Honest(w, next) && Calls(next) == Calls(run) && Saves(next) == Saves(run)
    ensures AllTaken(next) == (AllTaken(run) && ok)
    ensures Announced(next) == Announced(run)
    ensures ok ==> StageOf(setup, next) == Open(Concat(chunks), id, Concat(chunks))
    ensures !ok ==> Conforms(setup, next) && Lost(next) && next[|next| - 1].event.Delta?
  {
    hide Honest, Announced, Calls, Saves, AllTaken, StageOf, Advance, Open, PointOf;
    next, ok := run, true;
    for i := 0 to |chunks|
      invariant Honest(w, next) && Calls(next) == Calls(run) && Saves(next) == Saves(run)
      invariant AllTaken(next) == AllTaken(run) && ok
      invariant StageOf(setup, next) == Open(Concat(chunks), id, Concat(chunks[..i]))
      invariant Announced(next) == Announced(run)
    {
      assert chunks[..i + 1][..i] == chunks[..i];
      ConcatPrefix(chunks, i + 1);
      ok, next := Tell(w, setup, next, Delta(chunks[i]));
      DeltaStep(setup, Concat(chunks), id, Concat(chunks[..i]), chunks[i], ok);
      if !ok {
        return;
      }
    }
    assert chunks[..|chunks|] == chunks;
  }

  predicate NoFailure(run: seq<Effect>, f: Failure) {
    run != [] ==> run[|run| - 1].Sent? ==> run[|run| - 1].event != Fail(f)
  }

  /** The recorded answer goes to the client. */
  method StreamOut(w: World, setup: Setup, run: seq<Effect>, streamed: string, id: string)
    returns (next: seq<Effect>, ok: bool)
    requires Honest(w, run)
    requires StageOf(setup, run) == Stored(Response, streamed, id, "", false)
    ensures Over(w, setup, next, ok) && Calls(next) == Calls(run) && Saves(next) == Saves(run)
    ensures Announced(next) == Announced(run)
    ensures NoFailure(next, ModelFailed) && NoFailure(next, ReviewFailed)
  {
    hide Honest, Announced, Calls, Saves, AllTaken, StageOf, Concat, Open, OnStatus, OnEvent, PointOf;
    DeliveryEnds(setup, streamed, id);
    ok, next := TellStatus(w, setup, run, StreamingAnswer);
    if !ok {
      return;
    }
    var chunks := ChunkText(streamed, DELTA_RUNES);
    ok, next := SendDeltas(w, setup, next, chunks, id);
    if !ok {
      return;
    }
    next, ok := Close(w, setup, next, Done(id));
  }

  lemma AnswerSaved(setup: Setup, st: Stage, content: string, id: Option<string>)
    requires st.Asking? && Answerable(setup, st.at)
    ensures var next := OnSave(setup, st, Response, content, id);
      && (id.None? ==> MayFail(next, SaveFailed))
      && (id.Some? ==> next == Stored(Response, content, id.value, "", false))
  {
    hide Answerable;
  }

  method Deliver(w: World, setup: Setup, run: seq<Effect>, stored: string, streamed: string)
    returns (next: seq<Effect>, ok: bool)
    requires Honest(w, run) && StageOf(setup, run).Asking? && Answerable(setup, StageOf(setup, run).at)
    requires stored == streamed
    ensures Over(w, setup, next, ok) && Calls(next) == Calls(run) && Announced(next) == Announced(run)
    ensures exists id :: Saves(next) == Saves(run) + [Saved(Response, stored, id)]
    ensures NoFailure(next, ModelFailed) && NoFailure(next, ReviewFailed)
  {
    hide Over, Honest, Announced, Calls, Saves, AllTaken, StageOf, OnSave, Answerable, MayFail;
    var id, saved := Record(w, setup, run, Response, stored);
    AnswerSaved(setup, StageOf(setup, run), stored, id);
    assert Saves(saved) == Saves(run) + [Saved(Response, stored, id)];
    if id.None? {
      next, ok := GiveUp(w, setup, saved, SaveFailed);
    } else {
      next, ok := StreamOut(w, setup, saved, streamed, id.value);
    }
  }

  // ----- the model

  predicate MayCall(setup: Setup, st: Stage) {
    st.Decided? && Settled(setup, st) && !Blocking(st.told) && st.at == Ready(setup, st.told)
  }

  function SourcesFor(setup: Setup, st: Stage): string
    requires st.Decided?
  {
    RagPrompt.Prompt(KeptAfter(setup, st.search))
  }

  method AskModel(w: World, setup: Setup, run: seq<Effect>, ragSystem: string)
    returns (reply: Reply, next: seq<Effect>)
    requires var st := StageOf(setup, run);
      && st.Decided? && Settled(setup, st) && !Blocking(st.told) && st.at == After(LlmCall)
      && ragSystem == SourcesFor(setup, st) && PointOf(run) == After(LlmCall)
    requires Honest(w, run)
    ensures var d := StageOf(setup, run).told;
      && StageOf(setup, next) == Asking(d, Replied(LlmCall)) && PointOf(next) == Replied(LlmCall)
      && Calls(next) == Calls(run) + [Asked(setup.provider, PrimaryMessages(setup, d, ragSystem), reply)]
    ensures Honest(w, next) && Saves(next) == Saves(run) && AllTaken(next) == AllTaken(run) && !Lost(next)
    ensures Announced(next) == Announced(run)
  {
    hide Honest, Announced, Calls, Saves, AllTaken, StageOf, PrimaryMessages, KeptAfter, DueAfter, RagPrompt.Prompt;
    var messages := FirstMessages(setup, StageOf(setup, run).told, ragSystem);
    reply, next := Ask(w, run, setup.provider, messages);
    StageGrown(setup, run, Asked(setup.provider, messages, reply));
    Grown(run, Asked(setup.provider, messages, reply));
  }

  lemma GaveUp(setup: Setup, run: seq<Effect>, next: seq<Effect>, failure: Failure, ok: bool, s: Story)
    requires next == run + [Audited(ChatError(failure)), Sent(Fail(failure), ok)]
    requires if failure == ModelFailed then !Usable(s.first) else run != [] && ReviewBroke(setup, run, s.rounds)
    ensures FailureTells(setup, next, s)
  {
    hide BrokenOff;
    assert next[..|next| - 2] == run;
  }

  /** A review that was asked for brought no answer: the client was lost, or a model was. */
  predicate ReviewBroke(setup: Setup, run: seq<Effect>, rounds: seq<Round>) {
    ShouldReview(setup) && (Lost(run) || (rounds != [] && BrokenOff(setup.texts, rounds[|rounds| - 1])))
  }

  method ReviewAnswer(w: World, setup: Setup, run: seq<Effect>, d: Decision, ghost ragSystem: string, first: Reply)
    returns (next: seq<Effect>, answer: Option<string>, ghost rounds: seq<Round>)
    requires Honest(w, run) && StageOf(setup, run) == Asking(d, After(LlmDone)) && PointOf(run) == After(LlmDone)
    requires !Lost(run) && Usable(first) && ShouldReview(setup)
    requires Calls(run) == [Asked(setup.provider, PrimaryMessages(setup, d, ragSystem), first)]
    ensures Honest(w, next) && Saves(next) == Saves(run) && AllTaken(next) == (AllTaken(run) && !Lost(next))
    ensures Announced(next) == Announced(run)
    ensures CallsTell(setup, d, Calls(next), Story(ragSystem, first, rounds, "")) && next != []
    ensures answer.Some? ==>
      && StageOf(setup, next) == Asking(d, PointOf(next)) && Answerable(setup, PointOf(next)) && !Lost(next)
      && Reviewed(setup.texts, setup.review.value, first.content, rounds, answer.value)
    ensures answer.None? ==>
      && MayFail(StageOf(setup, next), ReviewFailed)
      && ReviewBroke(setup, next, rounds)
  {
    hide Honest, Announced, Saves, AllTaken, StageOf, PrimaryMessages, Reviewed, Rounds, BrokenOff, SourceText, PointOf,
      Continues, Unanimous, Calls, Script, Follows;
    RunStart(w, setup);
    EmptyScript(setup, setup.review.value, SourceText(setup, d));
    next, answer, rounds := ReviewRounds(w, setup, setup.review.value, SourceText(setup, d), first.content, run);
    ReviewKeepsStage(setup, d, run, next);
    assert next != [] by {
      LongerNow(run, next);
    }
  }

  lemma LongerNow(run: seq<Effect>, next: seq<Effect>)
    requires Continues(run, next)
    ensures |run| <= |next|
  {
  }

  method SendAnswer(w: World, setup: Setup, run: seq<Effect>, d: Decision, ragSystem: string, answer: string)
    returns (next: seq<Effect>, ok: bool)
    requires Honest(w, run) && StageOf(setup, run).Asking? && Answerable(setup, StageOf(setup, run).at)
    requires Saves(run) == [] && !Blocking(d)
    ensures Over(w, setup, next, ok) && Calls(next) == Calls(run) && Announced(next) == Announced(run)
    ensures exists id :: Saves(next) == [Saved(Response, Shown(setup, d, ragSystem, answer), id)]
    ensures NoFailure(next, ModelFailed) && NoFailure(next, ReviewFailed)
  {
    hide Honest, Announced, Calls, Saves, AllTaken, StageOf;
    var (stored, streamed) := FinalTexts(ActionOn(setup, d), setup.texts, answer);
    if ragSystem != "" {
      streamed := setup.texts.stripEchoes(streamed);
      stored := setup.texts.stripEchoes(stored);
    }
    next, ok := Deliver(w, setup, run, stored, streamed);
    ghost var id :| Saves(next) == Saves(run) + [Saved(Response, stored, id)];
    assert Saves(next) == [Saved(Response, Shown(setup, d, ragSystem, answer), id)];
  }

  lemma UnusableTells(setup: Setup, d: Decision, run: seq<Effect>, next: seq<Effect>, ok: bool, s: Story)
    requires Calls(next) == [Asked(setup.provider, PrimaryMessages(setup, d, s.ragSystem), s.first)]
    requires Saves(next) == []
    requires s.rounds == [] && !Usable(s.first)
    requires next == run + [Audited(ChatError(ModelFailed)), Sent(Fail(ModelFailed), ok)]
    ensures Tells(setup, d, next, s)
  {
    hide Calls, Saves, PrimaryMessages;
  }

  lemma LostTells(setup: Setup, d: Decision, next: seq<Effect>, s: Story)
    requires Calls(next) == [Asked(setup.provider, PrimaryMessages(setup, d, s.ragSystem), s.first)]
    requires Saves(next) == []
    requires s.rounds == [] && Lost(next) && next[|next| - 1].event.Status?
    ensures Tells(setup, d, next, s)
  {
    hide Calls, Saves, PrimaryMessages;
  }

  lemma CallIsReady(setup: Setup, st: Stage)
    requires MayCall(setup, st)
    ensures var next := OnStatus(setup, st, LlmCall);
      && next.Decided? && Settled(setup, next) && next.told == st.told && next.at == After(LlmCall)
      && SourcesFor(setup, next) == SourcesFor(setup, st)
  {
    hide KeptAfter, DueAfter, RagPrompt.Prompt, Ready;
  }

  /** The first call, up to a usable draft. */
  method FirstDraft(w: World, setup: Setup, run: seq<Effect>, d: Decision, ragSystem: string)
    returns (next: seq<Effect>, ok: bool, reply: Reply, usable: bool)
    requires Honest(w, run) && MayCall(setup, StageOf(setup, run)) && d == StageOf(setup, run).told
    requires ragSystem == SourcesFor(setup, StageOf(setup, run)) && Calls(run) == [] && Saves(run) == []
    ensures Saves(next) == [] && Announced(next) == Announced(run)
    ensures usable ==>
      && ok && Usable(reply) && Honest(w, next) && !Lost(next)
      && StageOf(setup, next) == Asking(d, After(LlmDone)) && PointOf(next) == After(LlmDone)
      && AllTaken(next) == AllTaken(run)
      && Calls(next) == [Asked(setup.provider, PrimaryMessages(setup, d, ragSystem), reply)]
    ensures !usable ==> Over(w, setup, next, ok)
    ensures !usable && Calls(next) != [] ==> Tells(setup, d, next, Story(ragSystem, reply, [], ""))
    ensures !usable && Calls(next) == [] ==> !ok
  {
    hide Honest, Announced, Calls, Saves, AllTaken, StageOf, Settled, KeptAfter, PrimaryMessages, Advance, Tells,
      SourcesFor;
    reply, usable := NoAnswer, false;
    CallIsReady(setup, StageOf(setup, run));
    ok, next := TellStatus(w, setup, run, LlmCall);
    if !ok {
      return;
    }
    reply, next := AskModel(w, setup, next, ragSystem);
    if reply.NoAnswer? || reply.content == "" {
      ghost var before := next;
      next, ok := GiveUp(w, setup, next, ModelFailed);
      UnusableTells(setup, d, before, next, ok, Story(ragSystem, reply, [], ""));
      return;
    }
    ok, next := TellStatus(w, setup, next, LlmDone);
    usable := ok;
    if !ok {
      LostTells(setup, d, next, Story(ragSystem, reply, [], ""));
    }
  }

  method FinishAnswer(w: World, setup: Setup, run: seq<Effect>, d: Decision, ragSystem: string, reply: Reply)
    returns (next: seq<Effect>, ok: bool, ghost s: Story)
    requires Honest(w, run) && StageOf(setup, run) == Asking(d, After(LlmDone)) && PointOf(run) == After(LlmDone)
    requires !Lost(run) && Usable(reply) && !Blocking(d)
    requires Saves(run) == [] && Calls(run) == [Asked(setup.provider, PrimaryMessages(setup, d, ragSystem), reply)]
    ensures Over(w, setup, next, ok) && Tells(setup, d, next, s) && Announced(next) == Announced(run)
    ensures Calls(next) != []
  {
    hide Honest, Announced, Calls, Saves, AllTaken, StageOf, PrimaryMessages, Reviewed, Rounds, Script, BrokenOff,
      Advance, ReviewBroke, Shown;
    s := Story(ragSystem, reply, [], reply.content);
    next := run;
    if ShouldReview(setup) {
      var reviewed: Option<string>;
      ghost var rounds;
      next, reviewed, rounds := ReviewAnswer(w, setup, run, d, ragSystem, reply);
      s := s.(rounds := rounds);
      if reviewed.None? {
        ghost var before := next;
        next, ok := GiveUp(w, setup, next, ReviewFailed);
        GaveUp(setup, before, next, ReviewFailed, ok, s);
        return;
      }
      s := s.(answer := reviewed.value);
      next, ok := SendAnswer(w, setup, next, d, ragSystem, reviewed.value);
    } else {
      next, ok := SendAnswer(w, setup, next, d, ragSystem, reply.content);
    }
  }

  method RunLlm(w: World, setup: Setup, run: seq<Effect>, d: Decision, ragSystem: string)
    returns (next: seq<Effect>, ok: bool, ghost s: Story)
    requires Honest(w, run) && MayCall(setup, StageOf(setup, run)) && d == StageOf(setup, run).told
    requires ragSystem == SourcesFor(setup, StageOf(setup, run)) && Calls(run) == [] && Saves(run) == []
    ensures Over(w, setup, next, ok) && Announced(next) == Announced(run)
    ensures Calls(next) != [] ==> Tells(setup, d, next, s)
    ensures Calls(next) == [] ==> Saves(next) == [] && !ok
  {
    hide Over, Tells, Honest, Announced, Calls, Saves, AllTaken, StageOf, Settled, KeptAfter, PrimaryMessages;
    var reply: Reply;
    var usable: bool;
    next, ok, reply, usable := FirstDraft(w, setup, run, d, ragSystem);
    s := Story(ragSystem, reply, [], "");
    if usable {
      next, ok, s := FinishAnswer(w, setup, next, d, ragSystem, reply);
    }
  }

  // ----- the stream

  lemma RunStart(w: World, setup: Setup)
    ensures Honest(w, []) && StageOf(setup, []) == Fresh && Calls([]) == [] && Saves([]) == [] && AllTaken([])
  {
  }

  /** A run that made no call and saved nothing, as far as the client takes its events. */
  ghost predicate Opening(w: World, setup: Setup, run: seq<Effect>, ok: bool) {
    && Honest(w, run) && Calls(run) == [] && Saves(run) == [] && AllTaken(run) == ok
    && (!ok ==> Conforms(setup, run) && !EndsWell(run))
  }

  method Opened(w: World, setup: Setup) returns (ok: bool, run: seq<Effect>)
    ensures Opening(w, setup, run, ok)
    ensures var at := After(if Searches(setup) then RagSearch else PolicyChecked);
      ok ==> StageOf(setup, run) == Decided(setup.outcome.decision, NotYet, false, at)
  {
    RunStart(w, setup);
    hide Honest, Announced, Calls, Saves, AllTaken, StageOf, MetaFor;
    ok, run := Tell(w, setup, [], MetaFor(setup.outcome));
    if !ok {
      return;
    }
    ok, run := TellStatus(w, setup, run, PolicyChecked);
    if ok && Searches(setup) {
      ok, run := TellStatus(w, setup, run, RagSearch);
    }
  }

  predicate NoErrors(entries: seq<AuditEntry>) { forall e :: e in entries ==> !e.ChatError? }

  lemma {:induction false} AuditsKeepStage(setup: Setup, run: seq<Effect>, entries: seq<AuditEntry>)
    requires var st := StageOf(setup, run); st.Decided? && st.search != NotYet && st.at == After(RagSearch)
    requires NoErrors(entries)
    ensures StageOf(setup, run + Entries(entries)) == StageOf(setup, run)
  {
    hide StageOf, OnEvent, OnCall, OnSave, KeptHits, Due;
    if entries == [] {
      assert run + Entries(entries) == run;
    } else {
      var front, last := entries[..|entries| - 1], entries[|entries| - 1];
      AuditsKeepStage(setup, run, front);
      assert run + Entries(entries) == (run + Entries(front)) + [Audited(last)];
      StageGrown(setup, run + Entries(front), Audited(last));
    }
  }

  lemma NoErrorsConcat(a: seq<AuditEntry>, b: seq<AuditEntry>)
    requires NoErrors(a) && NoErrors(b)
    ensures NoErrors(a + b)
  {
  }

  lemma RevisionNoErrors(setup: Setup, hits: seq<Hit>, answer: Throttle.Answer)
    ensures NoErrors(RevisionEntries(setup, hits, answer))
  {
    hide Due, Top;
  }

  lemma {:induction false} ChunksNoErrors(t: Texts, dropped: seq<Hit>, passed: seq<Hit>)
    ensures NoErrors(DroppedEntries(dropped) + SuspiciousEntries(t, passed))
    decreases |dropped| + |passed|
  {
    if dropped != [] {
      ChunksNoErrors(t, dropped[..|dropped| - 1], passed);
    } else if passed != [] {
      ChunksNoErrors(t, dropped, passed[..|passed| - 1]);
    }
  }

  /** Retrieval writes no chat error. */
  lemma TrailNoErrors(setup: Setup, found: Option<seq<Hit>>, answer: Throttle.Answer)
    ensures NoErrors(Trail(setup, found, answer))
  {
    hide Due, KeptHits, RevisionEntries, DroppedEntries, SuspiciousEntries, NoErrors;
    assert NoErrors([RagFailed]) && forall hits :: NoErrors([RagQuery(hits)]) by {
      OneEntryNoErrors();
    }
    if found.Some? {
      var hits := found.value;
      var dropped := if IsExternal(setup) then RagPrompt.Without(hits, false) else [];
      var chunks := DroppedEntries(dropped) + SuspiciousEntries(setup.texts, Passed(setup, hits));
      RevisionNoErrors(setup, hits, answer);
      ChunksNoErrors(setup.texts, dropped, Passed(setup, hits));
      NoErrorsConcat(chunks, [RagQuery(KeptHits(setup, hits))]);
      NoErrorsConcat(RevisionEntries(setup, hits, answer), chunks + [RagQuery(KeptHits(setup, hits))]);
      NoErrorsConcat(RevisionEntries(setup, hits, answer), [RagQuery(hits)]);
    }
  }

  lemma OneEntryNoErrors()
    ensures NoErrors([RagFailed]) && forall hits :: NoErrors([RagQuery(hits)])
  {
  }

  lemma SearchedStage(w: World, setup: Setup, run: seq<Effect>)
    requires Opening(w, setup, run, true) && Searches(setup)
    requires StageOf(setup, run) == Decided(setup.outcome.decision, NotYet, false, After(RagSearch))
    ensures var next := Searched(w, setup, run);
      && Opening(w, setup, next, true)
      && StageOf(setup, next) ==
           Decided(setup.outcome.decision, SearchOf(w.retrieve(run, setup.sanitized)), false, After(RagSearch))
  {
    hide Calls, Saves, AllTaken, StageOf, Trail;
    var found := w.retrieve(run, setup.sanitized);
    var e := Retrieved(setup.sanitized, found);
    var asked := run + [e];
    assert asked[..|run|] == run;
    var trail := Trail(setup, found, w.throttle(asked));
    StageGrown(setup, run, e);
    Grown(run, e);
    TrailNoErrors(setup, found, w.throttle(asked));
    AuditsAreQuiet(w, asked, trail);
    AuditsKeepStage(setup, asked, trail);
  }

  /** The decision is announced, retrieval takes place, its sources are shown, and a
      decision it changed is announced again. */
  method Settle(w: World, setup: Setup) returns (ok: bool, run: seq<Effect>, ragSystem: string, revised: Outcome)
    ensures Opening(w, setup, run, ok)
    ensures ok ==>
      var st := StageOf(setup, run);
      && Settled(setup, st) && st.at == Ready(setup, st.told)
      && revised == DueAfter(setup, st.search) && ragSystem == SourcesFor(setup, st)
  {
    hide Honest, Announced, Calls, Saves, AllTaken, StageOf, RagPrompt.Prompt, Searched, KeptHits, Due;
    ragSystem, revised := "", setup.outcome;
    ok, run := Opened(w, setup);
    if !ok {
      return;
    }
    if Searches(setup) {
      SearchedStage(w, setup, run);
    }
    var kept: seq<Hit>;
    ghost var search;
    run, ragSystem, kept, revised, search := RunRetrieval(w, setup, run);
    if Searches(setup) {
      ok, run := TellStatus(w, setup, run, RagDone);
      if !ok {
        return;
      }
    }
    if |kept| > 0 {
      ok, run := Tell(w, setup, run, RagHits(kept));
      if !ok {
        return;
      }
    }
    if revised.decision != setup.outcome.decision {
      ok, run := Tell(w, setup, run, MetaFor(revised));
      if !ok {
        return;
      }
      ok, run := TellStatus(w, setup, run, PolicyUpdated);
    }
  }

  // ----- what the review and the record hold

  /** The text of the last message of the first call. */
  function FirstText(calls: seq<Effect>): (text: string)
    requires calls != [] && calls[0].Asked? && calls[0].messages != []
    ensures calls[0].messages[|calls[0].messages| - 1].content == text
  {
    calls[0].messages[|calls[0].messages| - 1].content
  }

  /** Every call after the first begins its user message with the request: the sanitized
      text if the sanitizer found anything, otherwise what the first model was sent; and it
      says what a question of its round has to say. */
  ghost predicate ReviewsRequest(setup: Setup, calls: seq<Effect>, rounds: seq<Round>) {
    |calls| > 1 ==>
      && setup.review.Some? && calls[0].Asked? && calls[0].messages != []
      && var request := if setup.hasPseudonyms then setup.sanitized else FirstText(calls);
         forall i :: 1 <= i < |calls| ==>
           AboutRequest(calls[i], request) && SaidIn(setup, setup.review.value, request, rounds, calls[i])
  }

  lemma CallsReviewRequest(setup: Setup, d: Decision, calls: seq<Effect>, s: Story)
    requires CallsTell(setup, d, calls, s)
    ensures ReviewsRequest(setup, calls, s.rounds)
  {
    hide Systems, Rounds, Script, AboutRequest, SaidIn, LeadsTo, Cleaned;
    if s.rounds != [] {
      RoundsAreSized(setup, s);
      var rv, source := setup.review.value, SourceText(setup, d);
      QuestionsAboutRequest(setup, rv, source, s.rounds);
      QuestionsSay(setup, rv, source, s.rounds);
      var script := Script(setup, rv, source, s.rounds);
      forall i | 1 <= i < |calls|
        ensures AboutRequest(calls[i], source) && SaidIn(setup, rv, source, s.rounds, calls[i])
      {
        assert calls[i] == script[i - 1] && script[i - 1] in script;
      }
    }
  }

  lemma RoundsAreSized(setup: Setup, s: Story)
    requires setup.review.Some? && s.first.Answer?
    requires Rounds(setup.texts, setup.review.value, s.first.content, s.rounds)
    ensures forall k :: 0 <= k < |s.rounds| ==> |s.rounds[k].replies| <= |setup.review.value.reviewers|
  {
  }

  /** Unless the decision allows raw text, what is recorded came out of masking. */
  ghost predicate RecordsMasked(setup: Setup, d: Decision, saves: seq<Effect>) {
    d != AllowRaw ==> forall e :: e in saves ==> e.Saved? && CameOutMasked(setup.texts, e.content)
  }

  ghost predicate CameOutMasked(t: Texts, content: string) {
    exists answer :: content == t.remask(answer) || content == t.stripEchoes(t.remask(answer))
  }

  lemma RecordIsMasked(setup: Setup, d: Decision, saves: seq<Effect>, s: Story)
    requires forall e :: e in saves ==> e.Saved? && RecordTells(setup, d, e.content, s)
    ensures RecordsMasked(setup, d, saves)
  {
    hide Reviewed;
    forall e | e in saves && d != AllowRaw
      ensures CameOutMasked(setup.texts, e.content)
    {
      assert RecordTells(setup, d, e.content, s);
      ShownTells(setup, d, s.ragSystem, s.answer);
    }
  }

  /** The answer is reviewed exactly if that is switched on and there is somebody to do it:
      otherwise there is one call, and what is recorded is what it brought. */
  ghost predicate ReviewedAsAsked(setup: Setup, d: Decision, calls: seq<Effect>, saves: seq<Effect>, s: Story) {
    var asked := setup.review.Some? && setup.review.value.enabled && |setup.review.value.reviewers| > 0;
    && (!asked ==> |calls| == 1)
    && (!asked ==> forall e :: e in saves ==>
          s.first.Answer? && e.Saved? && e.content == Shown(setup, d, s.ragSystem, s.first.content))
    && (asked && saves != [] ==>
          s.first.Answer? && Reviewed(setup.texts, setup.review.value, s.first.content, s.rounds, s.answer))
  }

  lemma TellsReviewed(setup: Setup, d: Decision, run: seq<Effect>, s: Story)
    requires Tells(setup, d, run, s)
    ensures ReviewedAsAsked(setup, d, Calls(run), Saves(run), s)
  {
    hide Calls, Saves, Shown, Reviewed, Rounds, PrimaryMessages, Script, FailureTells;
    if Saves(run) != [] {
      assert Saves(run)[0] in Saves(run);
    }
  }

  lemma TellsMore(setup: Setup, d: Decision, run: seq<Effect>, s: Story)
    requires Tells(setup, d, run, s)
    ensures ReviewsRequest(setup, Calls(run), s.rounds) && RecordsMasked(setup, d, Saves(run))
    ensures ReviewedAsAsked(setup, d, Calls(run), Saves(run), s)
  {
    hide Calls, Saves, CallsTell, RecordTells, FailureTells, ReviewsRequest, RecordsMasked, ReviewedAsAsked;
    TellsReviewed(setup, d, run, s);
    CallsReviewRequest(setup, d, Calls(run), s);
    RecordIsMasked(setup, d, Saves(run), s);
  }

  /** One run of the stream, in any world: it keeps the protocol; it ends, if the client
      takes every event, in one done or error event; what it asked the models and what
      it recorded are explained by one story of drafts and reviews. */
  method Stream(w: World, setup: Setup) returns (run: seq<Effect>, ok: bool, ghost s: Story)
    ensures Over(w, setup, run, ok)
    ensures Calls(run) != [] ==> Announced(run).Some? && Tells(setup, Announced(run).value, run, s)
    ensures Calls(run) != [] ==> ReviewsRequest(setup, Calls(run), s.rounds)
    ensures Calls(run) != [] ==> RecordsMasked(setup, Announced(run).value, Saves(run))
    ensures Calls(run) != [] ==> ReviewedAsAsked(setup, Announced(run).value, Calls(run), Saves(run), s)
    ensures AllTaken(run) && Calls(run) == [] ==> |Saves(run)| == 1
  {
    hide ReviewsRequest, RecordsMasked, ReviewedAsAsked, Honest, Announced, Calls, Saves, AllTaken, StageOf,
      RagPrompt.Prompt, Tells, DueAfter, KeptAfter;
    s := Story("", NoAnswer, [], "");
    var ragSystem: string;
    var revised: Outcome;
    ok, run, ragSystem, revised := Settle(w, setup);
    if !ok {
      return;
    }
    CallsFitAlways(setup, run);
    if Blocking(revised.decision) {
      ok, run := TellStatus(w, setup, run, BlockedByPolicy);
      if !ok {
        return;
      }
      run, ok := FinishBlocked(w, setup, revised, run);
    } else {
      run, ok, s := RunLlm(w, setup, run, revised.decision, ragSystem);
      if Calls(run) != [] {
        TellsMore(setup, revised.decision, run, s);
      }
    }
  }
}
