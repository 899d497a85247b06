// The protocol of a chat run: which effect may follow which. The stage after a run is
// a function of its effects; a run that breaks the protocol ends in `Wrong`. The
// lemmas are about every run that keeps it; ChatStream proves that the orchestrator does
// (rubezh-api/internal/chat/orchestrator.go).
module ChatProtocol {
  import opened Wrappers
  import opened ChatRun
  import opened ChatMessages
  import opened ChatRetrieval
  import opened ReviewLoop
  import RagPrompt

  datatype Stage =
    | Fresh
    | Decided(told: Decision, search: Search, shown: bool, at: Point)
    | Asking(told: Decision, at: Point)
    | Stored(kind: RecordKind, content: string, id: string, sent: string, open: bool)
    | Unstored(kind: RecordKind)
    | Dropped(reviewing: bool)
    | Failing(failure: Failure)
    | Closed
    | Wrong

  /** Retrieval took place if it has to, its sources were shown, and the client has been
      told the decision to act on. */
  predicate Settled(setup: Setup, st: Stage) {
    && st.Decided? && st.told == DueAfter(setup, st.search).decision
    && (Searches(setup) <==> st.search != NotYet)
    && (KeptAfter(setup, st.search) != [] ==> st.shown)
  }

  /** The last thing reported before the run acts on its decision. */
  function Ready(setup: Setup, told: Decision): Point {
    After(if told != setup.outcome.decision then PolicyUpdated else if Searches(setup) then RagDone else PolicyChecked)
  }

  function OnStatus(setup: Setup, st: Stage, p: Progress): Stage {
    match st
    case Decided(told, search, shown, at) =>
      var fits := match p
        case PolicyChecked => at == Start
        case RagSearch => at == After(PolicyChecked) && Searches(setup)
        case RagDone => at == After(RagSearch) && search != NotYet
        case PolicyUpdated => at == After(RagDone) && told != setup.outcome.decision
        case BlockedByPolicy => at == Ready(setup, told) && Settled(setup, st) && Blocking(told)
        case LlmCall => at == Ready(setup, told) && Settled(setup, st) && !Blocking(told)
        case _ => false;
      if fits then Decided(told, search, shown, After(p)) else Wrong
    case Asking(told, at) =>
      if (p == LlmDone && at == Replied(LlmCall)) || (ShouldReview(setup) && Follows(at, p))
      then Asking(told, After(p)) else Wrong
    case Stored(kind, content, id, sent, open) =>
      if kind == Response && !open && p == StreamingAnswer then Stored(kind, content, id, sent, true) else Wrong
    case _ => Wrong
  }

  function OnEvent(setup: Setup, st: Stage, ev: Event): Stage {
    if ev.Status? then OnStatus(setup, st, ev.progress)
    else
      match st
      case Fresh => if ev == MetaFor(setup.outcome) then Decided(setup.outcome.decision, NotYet, false, Start)
                    else Wrong
      case Decided(told, search, shown, at) =>
        var due, kept := DueAfter(setup, search), KeptAfter(setup, search);
        if at == After(RagDone) && ev == RagHits(kept) && kept != [] && !shown then Decided(told, search, true, at)
        else if at == After(RagDone) && ev == MetaFor(due) && told != due.decision && (kept != [] ==> shown)
        then Decided(due.decision, search, shown, at)
        else Wrong
      case Stored(kind, content, id, sent, open) =>
        (match ev
         case Delta(text) =>
           if kind == Response && open && text != "" && sent + text <= content
           then Stored(kind, content, id, sent + text, open) else Wrong
         case Done(i) => if i == id && (kind == Blocked || (open && sent == content)) then Closed else Wrong
         case _ => Wrong)
      case Failing(failure) => if ev == Fail(failure) then Closed else Wrong
      case _ => Wrong
  }

  function OnCall(setup: Setup, st: Stage, provider: string, messages: seq<Message>): (next: Stage)
    ensures next.Wrong? || (next.Asking? && (st.Decided? || st.Asking?))
  {
    match st
    case Decided(told, search, _, at) =>
      if at == After(LlmCall) && Settled(setup, st) && !Blocking(told) && provider == setup.provider
         && messages == PrimaryMessages(setup, told, RagPrompt.Prompt(KeptAfter(setup, search)))
      then Asking(told, Replied(LlmCall)) else Wrong
    case Asking(told, at) => if ShouldReview(setup) && MayAsk(at) then Asking(told, Replied(at.progress)) else Wrong
    case _ => Wrong
  }

  function OnSave(setup: Setup, st: Stage, kind: RecordKind, content: string, id: Option<string>): (r: Stage)
    ensures r.Wrong? || ((r.Stored? || r.Unstored?) && (st.Decided? || st.Asking?))
  {
    var next := if id.Some? then Stored(kind, content, id.value, "", false) else Unstored(kind);
    match st
    case Decided(told, search, _, at) =>
      if at == After(BlockedByPolicy) && Settled(setup, st) && Blocking(told) && kind == Blocked
         && content == BlockedNotice(DueAfter(setup, search))
      then next else Wrong
    case Asking(_, at) => if kind == Response && Answerable(setup, at) then next else Wrong
    case _ => Wrong
  }

  /** The model is done, and so is the review if one is asked for. */
  predicate Answerable(setup: Setup, at: Point) {
    if ShouldReview(setup) then at == After(ReviewComplete) || at == After(ReviewFallback) else at == After(LlmDone)
  }

  /** The errors a run may report at a stage; each is audited before the client hears of it. */
  predicate MayFail(st: Stage, failure: Failure) {
    match failure
    case ModelFailed => st.Asking? && st.at == Replied(LlmCall)
    case ReviewFailed => st == Dropped(true) ||
      (st.Asking? && (st.at == Replied(ReviewerCall) || st.at == Replied(ReviewRevise)))
    case SaveFailed => st == Unstored(Response)
    case BlockSaveFailed => st == Unstored(Blocked)
  }

  function Advance(setup: Setup, st: Stage, e: Effect): Stage {
    match e
    case Sent(ev, ok) =>
      var next := OnEvent(setup, st, ev);
      if ok || next.Wrong? || next.Closed? then next else Dropped(st.Asking? && ev != Status(LlmDone))
    case Asked(p, ms, _) => OnCall(setup, st, p, ms)
    case Saved(kind, content, id) => OnSave(setup, st, kind, content, id)
    case Retrieved(query, found) =>
      if st.Decided? && st.at == After(RagSearch) && st.search == NotYet && query == setup.sanitized
      then Decided(st.told, SearchOf(found), st.shown, st.at) else Wrong
    case Audited(entry) =>
      if entry.ChatError? then (if MayFail(st, entry.failure) then Failing(entry.failure) else Wrong)
      else if st.Decided? && st.at == After(RagSearch) && st.search != NotYet then st else Wrong
  }

  function StageOf(setup: Setup, run: seq<Effect>): Stage {
    if run == [] then Fresh else Advance(setup, StageOf(setup, run[..|run| - 1]), run[|run| - 1])
  }

  ghost predicate Conforms(setup: Setup, run: seq<Effect>) { !StageOf(setup, run).Wrong? }

  lemma WrongStays(setup: Setup, e: Effect)
    ensures Advance(setup, Wrong, e).Wrong?
  {
    hide OnCall, OnSave;
  }

  lemma {:induction false} PrefixConforms(setup: Setup, run: seq<Effect>, i: nat)
    requires i <= |run| && Conforms(setup, run)
    ensures Conforms(setup, run[..i])
    decreases |run| - i
  {
    hide Advance;
    if i < |run| {
      PrefixConforms(setup, run, i + 1);
      assert run[..i + 1][..i] == run[..i];
      WrongStays(setup, run[i]);
    } else {
      assert run[..i] == run;
    }
  }

  // ----- calls

  /** The decision stands: the run has left the stages in which it is announced. */
  predicate Past(st: Stage) { !st.Fresh? && !st.Decided? }

  lemma AnnouncedStep(setup: Setup, st: Stage, e: Effect)
    requires !Advance(setup, st, e).Wrong?
    ensures Past(st) ==> Past(Advance(setup, st, e)) && !(e.Sent? && e.event.Meta?) && !e.Retrieved?
    ensures e.Asked? || e.Saved? ==> Past(Advance(setup, st, e))
  {
    hide DueAfter, KeptAfter, MetaFor, PrimaryMessages, BlockedNotice;
  }

  lemma {:induction false} NoNewsAfter(setup: Setup, run: seq<Effect>, i: nat, k: nat)
    requires Conforms(setup, run) && i < k <= |run| && (run[i].Asked? || run[i].Saved?)
    ensures Past(StageOf(setup, run[..k])) && Announced(run[..k]) == Announced(run[..i])
  {
    hide Advance, OnEvent;
    PrefixConforms(setup, run, k);
    PrefixConforms(setup, run, k - 1);
    assert run[..k][..k - 1] == run[..k - 1];
    AnnouncedStep(setup, StageOf(setup, run[..k - 1]), run[k - 1]);
    if k > i + 1 {
      NoNewsAfter(setup, run, i, k - 1);
    }
  }

  /** What retrieval brought in this run. */
  function SearchIn(run: seq<Effect>): Search {
    if run == [] then NotYet
    else if run[|run| - 1].Retrieved? then SearchOf(run[|run| - 1].found)
    else SearchIn(run[..|run| - 1])
  }

  /** What is known at each stage about the calls made and the decision announced. */
  ghost predicate CallsFit(setup: Setup, run: seq<Effect>) {
    var st := StageOf(setup, run);
    && (Calls(run) != [] ==> Past(st) && Cleared(setup, run))
    && (st.Fresh? ==> SearchIn(run) == NotYet)
    && (st.Decided? ==> Announced(run) == Some(st.told) && SearchIn(run) == st.search)
    && (st.Asking? ==> Calls(run) != [] && Announced(run) == Some(st.told))
  }

  /** The calls of a run are made under the decision announced last, which is the one due
      after the run's own search and not a blocking one; and the first carries the messages
      that decision allows, with the sources kept from that search. */
  ghost predicate Cleared(setup: Setup, run: seq<Effect>) {
    var d := DueAfter(setup, SearchIn(run)).decision;
    && Calls(run) != [] && Announced(run) == Some(d) && !Blocking(d)
    && (Searches(setup) <==> SearchIn(run) != NotYet)
    && FirstCall(setup, Calls(run)[0], d, RagPrompt.Prompt(KeptAfter(setup, SearchIn(run))))
  }

  predicate FirstCall(setup: Setup, e: Effect, d: Decision, ragSystem: string) {
    e.Asked? && e.provider == setup.provider && e.messages == PrimaryMessages(setup, d, ragSystem)
  }

  lemma SearchGrown(run: seq<Effect>, e: Effect)
    ensures SearchIn(run + [e]) == if e.Retrieved? then SearchOf(e.found) else SearchIn(run)
  {
    assert (run + [e])[..|run|] == run;
  }

  lemma CallsStep(setup: Setup, run: seq<Effect>, e: Effect)
    requires CallsFit(setup, run) && Conforms(setup, run + [e])
    ensures CallsFit(setup, run + [e])
  {
    hide DueAfter, KeptAfter, PrimaryMessages, BlockedNotice, StageOf, Calls, Announced, SearchIn, RagPrompt.Prompt;
    var st, next := StageOf(setup, run), run + [e];
    StageGrown(setup, run, e);
    Grown(run, e);
    SearchGrown(run, e);
    AnnouncedStep(setup, st, e);
    if Calls(run) != [] {
      assert Calls(next)[0] == Calls(run)[0];
    }
  }

  lemma StageGrown(setup: Setup, run: seq<Effect>, e: Effect)
    ensures StageOf(setup, run + [e]) == Advance(setup, StageOf(setup, run), e)
  {
    hide Advance;
    assert (run + [e])[..|run|] == run;
  }

  lemma CallsFitFresh(setup: Setup)
    ensures CallsFit(setup, [])
  {
  }

  lemma {:induction false} CallsFitAlways(setup: Setup, run: seq<Effect>)
    requires Conforms(setup, run)
    ensures CallsFit(setup, run)
  {
    hide CallsFit, StageOf, Advance, Conforms, Calls, Announced, Cleared, SearchIn;
    if run == [] {
      CallsFitFresh(setup);
    } else {
      var front := run[..|run| - 1];
      PrefixConforms(setup, run, |front|);
      CallsFitAlways(setup, front);
      assert front + [run[|run| - 1]] == run;
      CallsStep(setup, front, run[|run| - 1]);
    }
  }

  /** Sources of a search that may be used: for a model in the cloud, Russian or foreign,
      none of high risk; for one on the premises none is missing but for the budget. */
  ghost predicate SafeSources(setup: Setup, search: Search, sources: seq<Hit>) {
    && (setup.trust in {External, RussianCloud} ==>
          forall h :: h in sources ==> h.risk !in {Some(RagPrompt.High), Some(RagPrompt.Critical)})
    && (search.Found? ==> forall h :: h in sources ==> h in search.hits)
    && (setup.trust in {TrustedLocal, OnPrem} && search.Found? && !Blocking(Due(setup, search.hits).decision) ==>
          LongestWithin(sources, search.hits))
    && (!search.Found? ==> sources == [])
  }

  lemma SourcesAreSafe(setup: Setup, search: Search)
    ensures SafeSources(setup, search, KeptAfter(setup, search))
  {
    hide KeptHits, Due, LongestWithin;
    if search.Found? {
      KeptAreSafe(setup, search.hits);
    }
  }

  /** No model is called under a decision to deny or escalate; the decision the client was
      told last is the one the calls were made under; and no high-risk chunk goes to an
      external model. */
  lemma CallsAreCleared(setup: Setup, run: seq<Effect>)
    requires Conforms(setup, run)
    ensures Calls(run) != [] ==> Cleared(setup, run)
    ensures SafeSources(setup, SearchIn(run), KeptAfter(setup, SearchIn(run)))
    ensures forall i :: 0 <= i < |run| && (run[i].Asked? || run[i].Saved?) ==> Announced(run[..i]) == Announced(run)
  {
    hide Conforms, Cleared, StageOf, Advance, Announced, Calls, KeptHits, Due;
    CallsFitAlways(setup, run);
    SourcesAreSafe(setup, SearchIn(run));
    assert run[..|run|] == run;
    forall i | 0 <= i < |run| && (run[i].Asked? || run[i].Saved?)
      ensures Announced(run[..i]) == Announced(run)
    {
      NoNewsAfter(setup, run, i, |run|);
    }
  }

  // ----- saving and delivering

  ghost predicate SavesFit(setup: Setup, run: seq<Effect>) {
    var st, saves, sent := StageOf(setup, run), Saves(run), Delivered(run);
    && |saves| <= 1
    && (sent != "" ==> |saves| == 1)
    && (|saves| == 1 ==> saves[0].Saved? && sent <= saves[0].content && Past(st) && !st.Asking?)
    && (sent != "" ==> saves[0].kind == Response && saves[0].id.Some?)
    && (st.Stored? ==>
          saves == [Saved(st.kind, st.content, Some(st.id))] && sent == st.sent && (st.kind == Blocked ==> sent == ""))
    && (st.Unstored? ==> |saves| == 1 && saves[0].id.None?)
  }

  lemma SavesStep(setup: Setup, run: seq<Effect>, e: Effect)
    requires SavesFit(setup, run) && Conforms(setup, run + [e])
    ensures SavesFit(setup, run + [e])
  {
    hide Settled, DueAfter, KeptAfter, PrimaryMessages, BlockedNotice, MetaFor, StageOf, Saves, Delivered,
      RagPrompt.Prompt, Searches, Follows, ShouldReview, Answerable, Ready;
    StageGrown(setup, run, e);
    Grown(run, e);
  }

  lemma SavesFitFresh(setup: Setup)
    ensures SavesFit(setup, [])
  {
  }

  lemma {:induction false} SavesFitAlways(setup: Setup, run: seq<Effect>)
    requires Conforms(setup, run)
    ensures SavesFit(setup, run)
  {
    hide SavesFit, StageOf, Advance, Conforms, Saves, Delivered;
    if run == [] {
      SavesFitFresh(setup);
    } else {
      var front := run[..|run| - 1];
      PrefixConforms(setup, run, |front|);
      SavesFitAlways(setup, front);
      assert front + [run[|run| - 1]] == run;
      SavesStep(setup, front, run[|run| - 1]);
    }
  }

  /** One attempt at most to record the end of a run; nothing of an answer reaches the
      client unless that attempt succeeded, and then the client has a beginning of what
      was recorded. */
  lemma DeliveredIsSaved(setup: Setup, run: seq<Effect>, i: nat)
    requires Conforms(setup, run) && i <= |run|
    ensures |Saves(run)| <= 1
    ensures Delivered(run[..i]) != "" ==>
      |Saves(run[..i])| == 1 && var s := Saves(run[..i])[0];
        s.Saved? && s.kind == Response && s.id.Some? && Delivered(run[..i]) <= s.content
  {
    hide Conforms;
    SavesFitAlways(setup, run);
    PrefixConforms(setup, run, i);
    SavesFitAlways(setup, run[..i]);
  }

  // ----- the end

  /** An error event follows the audit entry that records it. */
  lemma FailureIsAudited(setup: Setup, run: seq<Effect>, i: nat)
    requires Conforms(setup, run) && i < |run| && run[i].Sent? && run[i].event.Fail?
    ensures i > 0 && run[i - 1] == Audited(ChatError(run[i].event.failure))
  {
    hide Advance, StageOf;
    PrefixConforms(setup, run, i);
    PrefixConforms(setup, run, i + 1);
    StageGrown(setup, run[..i], run[i]);
    assert run[..i] + [run[i]] == run[..i + 1];
    FailStep(setup, StageOf(setup, run[..i]), run[i]);
    if i > 0 {
      StageGrown(setup, run[..i - 1], run[i - 1]);
      assert run[..i - 1] + [run[i - 1]] == run[..i];
      FailingStep(setup, StageOf(setup, run[..i - 1]), run[i - 1]);
    } else {
      StartsFresh(setup);
    }
  }

  lemma StartsFresh(setup: Setup)
    ensures StageOf(setup, []) == Fresh
  {
  }

  lemma FailStep(setup: Setup, st: Stage, e: Effect)
    requires !Advance(setup, st, e).Wrong? && e.Sent? && e.event.Fail?
    ensures st == Failing(e.event.failure)
  {
    hide DueAfter, KeptAfter, PrimaryMessages, BlockedNotice, MetaFor, Settled, OnCall, OnSave;
  }

  lemma FailingStep(setup: Setup, st: Stage, e: Effect)
    ensures Advance(setup, st, e).Failing? ==> e == Audited(ChatError(Advance(setup, st, e).failure))
  {
    hide DueAfter, KeptAfter, MetaFor, Settled, OnCall, OnSave, Searches;
  }

  lemma EndStep(setup: Setup, st: Stage, e: Effect)
    requires !Advance(setup, st, e).Wrong?
    ensures !st.Closed?
    ensures Advance(setup, st, e).Closed? <==> Ending(e)
    ensures e.Sent? && e.event.Done? ==>
              st.Stored? && e.event.messageId == st.id && (st.kind == Response ==> st.sent == st.content)
  {
    hide Settled, DueAfter, KeptAfter, MetaFor, OnCall, OnSave, Searches;
  }

  /** A done or error event is the last thing a run does, so there is at most one; and
      a client that got `done` got the whole recorded answer and the id it has there. */
  lemma EndsOnce(setup: Setup, run: seq<Effect>, i: nat)
    requires Conforms(setup, run) && i < |run| && Ending(run[i])
    ensures i == |run| - 1 && StageOf(setup, run) == Closed
    ensures run[i].event.Done? ==>
      && |Saves(run)| == 1 && Saves(run)[0].Saved? && Saves(run)[0].id == Some(run[i].event.messageId)
      && (Saves(run)[0].kind == Response ==> Delivered(run) == Saves(run)[0].content)
  {
    hide Advance, SavesFit;
    PrefixConforms(setup, run, i);
    PrefixConforms(setup, run, i + 1);
    assert run[..i + 1][..i] == run[..i];
    EndStep(setup, StageOf(setup, run[..i]), run[i]);
    if i + 1 < |run| {
      PrefixConforms(setup, run, i + 2);
      assert run[..i + 2][..i + 1] == run[..i + 1];
      EndStep(setup, StageOf(setup, run[..i + 1]), run[i + 1]);
    } else {
      assert run[..i + 1] == run && run[..i] + [run[i]] == run;
      Grown(run[..i], run[i]);
      SavesAtDone(setup, run[..i]);
    }
  }

  lemma SavesAtDone(setup: Setup, run: seq<Effect>)
    requires Conforms(setup, run)
    ensures var st := StageOf(setup, run);
      st.Stored? ==> Saves(run) == [Saved(st.kind, st.content, Some(st.id))] && Delivered(run) == st.sent
  {
    hide Conforms;
    SavesFitAlways(setup, run);
  }

  // ----- a lost client

  predicate AfterLoss(e: Effect) { e.Audited? || (e.Sent? && e.event == Fail(ReviewFailed)) }

  predicate Gone(st: Stage) { st.Dropped? || st == Failing(ReviewFailed) || st.Closed? }

  lemma LossStep(setup: Setup, st: Stage, e: Effect)
    requires !Advance(setup, st, e).Wrong?
    ensures Gone(st) ==> AfterLoss(e) && Gone(Advance(setup, st, e))
    ensures e.Sent? && !e.ok ==> Gone(Advance(setup, st, e))
  {
    hide Settled, DueAfter, KeptAfter, MetaFor, OnCall, OnSave, Searches;
  }

  /** Once the client fails to take an event, no model is called, nothing is recorded
      as an answer and nothing more of an answer is sent. */
  lemma {:induction false} NothingAfterLoss(setup: Setup, run: seq<Effect>, i: nat, k: nat)
    requires Conforms(setup, run) && i < k <= |run| && run[i].Sent? && !run[i].ok
    ensures Gone(StageOf(setup, run[..k]))
    ensures forall j :: i < j < k ==> AfterLoss(run[j])
  {
    hide Advance;
    PrefixConforms(setup, run, k);
    assert run[..k][..k - 1] == run[..k - 1];
    LossStep(setup, StageOf(setup, run[..k - 1]), run[k - 1]);
    if k > i + 1 {
      NothingAfterLoss(setup, run, i, k - 1);
    }
  }

  // ----- the sources the client is shown

  predicate ShowsHits(e: Effect) { e.Sent? && e.event.RagHits? }

  /** A run that has shown sources can only end up under a decision that allows it. */
  predicate HitsFit(setup: Setup, st: Stage) {
    st.Decided? ==>
      && (st.told == setup.outcome.decision || st.told == DueAfter(setup, st.search).decision)
      && (st.search != NotYet || st.at == After(RagSearch) || st.at == After(RagDone) ==> Searches(setup))
      && (st.shown ==> st.search.Found? && KeptAfter(setup, st.search) != [])
  }

  lemma HitsStep(setup: Setup, st: Stage, e: Effect)
    requires HitsFit(setup, st) && !Advance(setup, st, e).Wrong?
    ensures HitsFit(setup, Advance(setup, st, e))
  {
    hide Due, KeptHits, PrimaryMessages, BlockedNotice;
  }

  lemma {:induction false} HitsFitAlways(setup: Setup, run: seq<Effect>)
    requires Conforms(setup, run)
    ensures HitsFit(setup, StageOf(setup, run))
  {
    if run != [] {
      hide HitsFit, Advance;
      PrefixConforms(setup, run, |run| - 1);
      HitsFitAlways(setup, run[..|run| - 1]);
      HitsStep(setup, StageOf(setup, run[..|run| - 1]), run[|run| - 1]);
    }
  }

  lemma HitsShown(setup: Setup, st: Stage, e: Effect)
    requires HitsFit(setup, st) && ShowsHits(e) && !Advance(setup, st, e).Wrong?
    ensures Searches(setup) && st.Decided? && st.search.Found? && e.event.hits == KeptAfter(setup, st.search)
    ensures !Blocking(DueAfter(setup, st.search).decision)
    ensures SafeSources(setup, st.search, e.event.hits)
  {
    hide Due, KeptHits, PrimaryMessages, BlockedNotice, MetaFor, SafeSources;
    assert st.Decided?;
    KeptAreSafe(setup, st.search.hits);
    SourcesAreSafe(setup, st.search);
  }

  ghost predicate SourcesFit(setup: Setup, run: seq<Effect>) {
    var st := StageOf(setup, run);
    && (SourceEvents(run) != 0 ==> Announced(run).Some? && !Blocking(Announced(run).value))
    && (st.Fresh? ==> SourceEvents(run) == 0)
    && (st.Decided? ==> SourceEvents(run) == if st.shown then 1 else 0)
    && SourceEvents(run) <= 1
  }

  /** How often a run shows sources. */
  function SourceEvents(run: seq<Effect>): nat {
    if run == [] then 0 else SourceEvents(run[..|run| - 1]) + if ShowsHits(run[|run| - 1]) then 1 else 0
  }

  lemma SourcesGrown(run: seq<Effect>, e: Effect)
    ensures SourceEvents(run + [e]) == SourceEvents(run) + if ShowsHits(e) then 1 else 0
  {
    assert (run + [e])[..|run|] == run;
  }

  lemma SourcesStep(setup: Setup, run: seq<Effect>, e: Effect)
    requires SourcesFit(setup, run) && Conforms(setup, run + [e]) && HitsFit(setup, StageOf(setup, run))
    requires CallsFit(setup, run)
    ensures SourcesFit(setup, run + [e])
  {
    hide Due, KeptHits, PrimaryMessages, BlockedNotice, MetaFor, StageOf, Announced, SourceEvents, Calls, Cleared,
      OnCall, OnSave, Settled;
    var st := StageOf(setup, run);
    StageGrown(setup, run, e);
    Grown(run, e);
    SourcesGrown(run, e);
    AnnouncedStep(setup, st, e);
    if ShowsHits(e) {
      HitsShown(setup, st, e);
    }
    if st.Decided? && st.search.Found? {
      KeptAreSafe(setup, st.search.hits);
    }
  }

  lemma SourcesFitFresh(setup: Setup)
    ensures SourcesFit(setup, [])
  {
  }

  lemma {:induction false} SourcesFitAlways(setup: Setup, run: seq<Effect>)
    requires Conforms(setup, run)
    ensures SourcesFit(setup, run)
  {
    hide SourcesFit, Conforms, HitsFit, CallsFit, StageOf, Advance, SourceEvents, Announced, Calls;
    if run == [] {
      SourcesFitFresh(setup);
    } else {
      var front := run[..|run| - 1];
      PrefixConforms(setup, run, |front|);
      SourcesFitAlways(setup, front);
      HitsFitAlways(setup, front);
      CallsFitAlways(setup, front);
      assert front + [run[|run| - 1]] == run;
      SourcesStep(setup, front, run[|run| - 1]);
    }
  }

  lemma {:induction false} SourcesCounted(run: seq<Effect>, i: nat)
    requires i < |run| && ShowsHits(run[i])
    ensures SourceEvents(run) > 0
  {
    if i < |run| - 1 {
      SourcesCounted(run[..|run| - 1], i);
    }
  }

  lemma HitsAt(setup: Setup, run: seq<Effect>, i: nat)
    requires Conforms(setup, run) && i < |run| && ShowsHits(run[i])
    ensures SearchIn(run[..i]).Found? && SafeSources(setup, SearchIn(run[..i]), run[i].event.hits)
  {
    hide Advance, HitsFit, SafeSources, Cleared;
    PrefixConforms(setup, run, i);
    PrefixConforms(setup, run, i + 1);
    assert run[..i + 1][..i] == run[..i];
    HitsFitAlways(setup, run[..i]);
    CallsFitAlways(setup, run[..i]);
    HitsShown(setup, StageOf(setup, run[..i]), run[i]);
  }

  /** Sources are shown at most once, never by a run that ends up blocked; they come from
      the run's own search, to the client of a cloud model without high-risk ones. */
  lemma ShownHitsAreSafe(setup: Setup, run: seq<Effect>, i: nat)
    requires Conforms(setup, run) && i < |run| && ShowsHits(run[i])
    ensures Announced(run).Some? && !Blocking(Announced(run).value) && SourceEvents(run) == 1
    ensures SearchIn(run[..i]).Found? && SafeSources(setup, SearchIn(run[..i]), run[i].event.hits)
  {
    hide SourceEvents, StageOf, Announced, SafeSources;
    SourcesFitAlways(setup, run);
    SourcesCounted(run, i);
    HitsAt(setup, run, i);
  }

  // ----- single effects in their place

  lemma StepAt(setup: Setup, run: seq<Effect>, i: nat)
    requires Conforms(setup, run) && i < |run|
    ensures Conforms(setup, run[..i]) && !Advance(setup, StageOf(setup, run[..i]), run[i]).Wrong?
    ensures CallsFit(setup, run[..i]) && SavesFit(setup, run[..i]) && HitsFit(setup, StageOf(setup, run[..i]))
  {
    hide Advance, CallsFit, SavesFit, HitsFit;
    PrefixConforms(setup, run, i);
    PrefixConforms(setup, run, i + 1);
    assert run[..i + 1][..i] == run[..i];
    CallsFitAlways(setup, run[..i]);
    SavesFitAlways(setup, run[..i]);
    HitsFitAlways(setup, run[..i]);
  }

  lemma SaveStep(setup: Setup, st: Stage, e: Effect)
    requires e.Saved? && !Advance(setup, st, e).Wrong?
    ensures e.kind == Response ==> st.Asking? && Answerable(setup, st.at)
    ensures e.kind == Blocked ==>
              && st.Decided? && Settled(setup, st) && Blocking(st.told)
              && e.content == BlockedNotice(DueAfter(setup, st.search))
  {
    hide DueAfter, KeptAfter, BlockedNotice;
  }

  /** What is recorded is due: an answer only after a call, under a decision that allows
      one; a notice only without any, under a blocking decision, and it is the notice of
      that very decision. */
  lemma RecordsAreDue(setup: Setup, run: seq<Effect>, i: nat)
    requires Conforms(setup, run) && i < |run| && run[i].Saved?
    ensures var before, due := run[..i], DueAfter(setup, SearchIn(run[..i]));
      && Announced(before) == Some(due.decision)
      && (run[i].kind == Response ==> Calls(before) != [] && !Blocking(due.decision))
      && (run[i].kind == Blocked ==>
            Calls(before) == [] && Blocking(due.decision) && run[i].content == BlockedNotice(due))
  {
    hide Advance, StageOf, DueAfter, KeptAfter, BlockedNotice, SavesFit, HitsFit, Calls, Announced, SearchIn,
      Answerable;
    StepAt(setup, run, i);
    SaveStep(setup, StageOf(setup, run[..i]), run[i]);
  }

  /** A meta event says what is due: the first one the request's own outcome, a later one
      the outcome after the run's search, and only if that changed the decision. */
  lemma MetaIsDue(setup: Setup, run: seq<Effect>, i: nat)
    requires Conforms(setup, run) && i < |run| && run[i].Sent? && run[i].event.Meta?
    ensures i == 0 ==> run[i].event == MetaFor(setup.outcome)
    ensures i > 0 ==>
              var due := DueAfter(setup, SearchIn(run[..i]));
              && SearchIn(run[..i]) != NotYet && run[i].event == MetaFor(due)
              && Announced(run[..i]) == Some(setup.outcome.decision) && due.decision != setup.outcome.decision
              && Calls(run[..i]) == []
  {
    hide Advance, DueAfter, KeptAfter, MetaFor, SavesFit, Calls, Announced, SearchIn, Cleared;
    StepAt(setup, run, i);
    MetaStep(setup, StageOf(setup, run[..i]), run[i]);
    if i > 0 {
      NotFreshAgain(setup, run, i);
    }
  }

  lemma MetaStep(setup: Setup, st: Stage, e: Effect)
    requires e.Sent? && e.event.Meta? && !Advance(setup, st, e).Wrong? && HitsFit(setup, st)
    ensures st.Fresh? ==> e.event == MetaFor(setup.outcome)
    ensures !st.Fresh? ==>
              && st.Decided? && st.search != NotYet && e.event == MetaFor(DueAfter(setup, st.search))
              && st.told == setup.outcome.decision && DueAfter(setup, st.search).decision != st.told
  {
    hide Due, KeptHits;
  }

  lemma {:induction false} NotFreshAgain(setup: Setup, run: seq<Effect>, i: nat)
    requires Conforms(setup, run) && 0 < i <= |run|
    ensures !StageOf(setup, run[..i]).Fresh?
  {
    hide OnEvent, OnCall, OnSave;
    PrefixConforms(setup, run, i);
    assert run[..i][..i - 1] == run[..i - 1];
    NeverFresh(setup, StageOf(setup, run[..i - 1]), run[i - 1]);
  }

  lemma NeverFresh(setup: Setup, st: Stage, e: Effect)
    ensures !Advance(setup, st, e).Fresh?
  {
    hide Settled, DueAfter, KeptAfter, MetaFor, OnCall, OnSave, Searches, Follows;
  }

  ghost predicate ProgressTold(setup: Setup, before: seq<Effect>, p: Progress) {
    match p
    case RagSearch => setup.rag && !Blocking(setup.outcome.decision)
    case RagDone => SearchIn(before) != NotYet
    case PolicyUpdated => Announced(before).Some? && Announced(before) != Some(setup.outcome.decision)
    case BlockedByPolicy =>
      Announced(before) == Some(DueAfter(setup, SearchIn(before)).decision) && Blocking(Announced(before).value)
    case LlmCall =>
      Announced(before) == Some(DueAfter(setup, SearchIn(before)).decision) && !Blocking(Announced(before).value)
    case LlmDone => Calls(before) != []
    case StreamingAnswer => |Saves(before)| == 1 && Saves(before)[0].Saved? && Saves(before)[0].kind == Response
    case PolicyChecked => Announced(before).Some?
    case _ =>
      && Calls(before) != [] && setup.review.Some?
      && setup.review.value.enabled && setup.review.value.reviewers != []
  }

  /** The progress a client is told of is true at that moment. */
  lemma ProgressIsTrue(setup: Setup, run: seq<Effect>, i: nat)
    requires Conforms(setup, run) && i < |run| && run[i].Sent? && run[i].event.Status?
    ensures ProgressTold(setup, run[..i], run[i].event.progress)
  {
    hide StageOf, DueAfter, KeptAfter, Calls, Saves, Announced, SearchIn, Advance, Delivered, Cleared;
    StepAt(setup, run, i);
    StatusStep(setup, StageOf(setup, run[..i]), run[i], run[i].event.progress);
  }

  lemma StatusStep(setup: Setup, st: Stage, e: Effect, p: Progress)
    requires e.Sent? && e.event == Status(p) && !Advance(setup, st, e).Wrong? && HitsFit(setup, st)
    ensures match p
      case PolicyChecked => st.Decided?
      case RagSearch => st.Decided? && setup.rag && !Blocking(setup.outcome.decision)
      case RagDone => st.Decided? && st.search != NotYet
      case PolicyUpdated => st.Decided? && st.told != setup.outcome.decision
      case BlockedByPolicy => st.Decided? && st.told == DueAfter(setup, st.search).decision && Blocking(st.told)
      case LlmCall => st.Decided? && st.told == DueAfter(setup, st.search).decision && !Blocking(st.told)
      case LlmDone => st.Asking?
      case StreamingAnswer => st.Stored? && st.kind == Response
      case _ =>
        st.Asking? && setup.review.Some? && setup.review.value.enabled && setup.review.value.reviewers != []
  {
    hide DueAfter, KeptAfter, OnCall, OnSave;
  }
}
