// Retrieval between the first meta event and the model call
// (rubezh-api/internal/chat/orchestrator_rag.go): what the found chunks do to the
// policy decision, which of them reach the model, and what is audited.
module ChatRetrieval {
  import opened Wrappers
  import opened ChatRun
  import opened RagPrompt
  import Throttle

  // ----- severity

  function Order(d: Decision): nat {
    match d
    case AllowRaw => 0
    case AllowMasked => 1
    case AllowSummaryOnly => 2
    case Escalate => 3
    case Deny => 4
  }

  function ByOrder(o: int): Decision {
    if o == 0 then AllowRaw
    else if o == 1 then AllowMasked
    else if o == 2 then AllowSummaryOnly
    else if o == 3 then Escalate
    else Deny
  }

  function Rank(risk: Option<RiskLevel>): int {
    match risk
    case None => -1
    case Some(Low) => 0
    case Some(Medium) => 1
    case Some(High) => 2
    case Some(Critical) => 3
  }

  function LevelOf(rank: nat): RiskLevel {
    if rank == 0 then Low else if rank == 1 then Medium else if rank == 2 then High else Critical
  }

  function LevelName(level: RiskLevel): string {
    match level
    case Low => "low"
    case Medium => "medium"
    case High => "high"
    case Critical => "critical"
  }

  /** The highest risk among the hits, the first of equals. */
  function Top(hits: seq<Hit>): Option<RiskLevel> {
    if hits == [] then None
    else
      var t, risk := Top(hits[..|hits| - 1]), hits[|hits| - 1].risk;
      if Rank(risk) > Rank(t) then risk else t
  }

  lemma {:induction false} TopIsMax(hits: seq<Hit>)
    ensures forall h :: h in hits ==> Rank(h.risk) <= Rank(Top(hits))
    ensures Top(hits).Some? ==> exists h :: h in hits && h.risk == Top(hits)
  {
    if hits != [] {
      TopIsMax(hits[..|hits| - 1]);
      assert hits[|hits| - 1] in hits;
    }
  }

  method MaxHitRiskLevel(hits: seq<Hit>) returns (top: Option<RiskLevel>)
    ensures top == Top(hits)
  {
    var maxRank := -1;
    top := None;
    for i := 0 to |hits|
      invariant top == Top(hits[..i]) && maxRank == Rank(top)
    {
      assert hits[..i + 1][..i] == hits[..i];
      if hits[i].risk.Some? {
        var r := Rank(hits[i].risk);
        if r > maxRank {
          maxRank := r;
          top := hits[i].risk;
        }
      }
    }
    assert hits[..|hits|] == hits;
  }

  // ----- the revised decision

  function Reason(level: RiskLevel): string {
    "RAG-источник риска уровня " + LevelName(level) + " повысил решение"
  }

  /** The outcome a run has to act on once these hits were found. */
  function Due(setup: Setup, hits: seq<Hit>): Outcome {
    var top, o := Top(hits), setup.outcome;
    if Rank(top) <= Rank(setup.risk) then o
    else Outcome(ByOrder(if Order(o.decision) == 4 then 4 else Order(o.decision) + 1), [Reason(top.value)] + o.reasons)
  }

  function RevisionEntries(setup: Setup, hits: seq<Hit>, answer: Throttle.Answer): seq<AuditEntry> {
    var rank, top := Rank(setup.risk), Rank(Top(hits));
    if top <= rank || answer.Silent? then []
    else if answer.FirstRefusal? then [RevisionThrottled]
    else [PolicyRevised(setup.outcome.decision, Due(setup, hits).decision, LevelOf(rank + 1))]
  }

  method MaybeRevisePolicy(setup: Setup, hits: seq<Hit>, answer: Throttle.Answer)
    returns (revised: Outcome, entries: seq<AuditEntry>)
    ensures revised == Due(setup, hits) && entries == RevisionEntries(setup, hits, answer)
  {
    if |hits| == 0 {
      return setup.outcome, [];
    }
    var top := MaxHitRiskLevel(hits);
    if top == None || Rank(top) <= Rank(setup.risk) {
      return setup.outcome, [];
    }
    var cap := Order(setup.outcome.decision) + 1;
    if cap > 4 {
      cap := 4;
    }
    var elevated := Rank(setup.risk) + 1;
    if elevated > Rank(top) {
      elevated := Rank(top);
    }
    if elevated > 3 {
      elevated := 3;
    }
    revised := Outcome(ByOrder(cap), [Reason(top.value)] + setup.outcome.reasons);
    entries := [];
    if answer.Allowed? {
      entries := [PolicyRevised(setup.outcome.decision, revised.decision, LevelOf(elevated))];
    } else if answer.FirstRefusal? {
      entries := [RevisionThrottled];
    }
  }

  /** Retrieval makes a decision stricter by one step at most, and does so exactly when
      a hit is riskier than the request; so no chunk turns an allowed request into a
      denied one, and only a summary-only request can be escalated. */
  lemma RevisionIsOneStep(setup: Setup, hits: seq<Hit>)
    requires !Blocking(setup.outcome.decision)
    ensures var was, due := setup.outcome.decision, Due(setup, hits).decision;
      && (due != was <==> exists h :: h in hits && Rank(h.risk) > Rank(setup.risk))
      && (due != was ==> Order(due) == Order(was) + 1)
      && (Blocking(due) ==> was == AllowSummaryOnly && due == Escalate)
      && (due == was ==> Due(setup, hits) == setup.outcome)
  {
    TopIsMax(hits);
  }

  /** The order of the risk levels; a request or hit without one is below them all. */
  ghost predicate Riskier(a: Option<RiskLevel>, than: Option<RiskLevel>) {
    match a
    case Some(Critical) => than != Some(Critical)
    case Some(High) => than in {None, Some(Low), Some(Medium)}
    case Some(Medium) => than in {None, Some(Low)}
    case Some(Low) => than == None
    case None => false
  }

  ghost predicate SomeRiskier(setup: Setup, hits: seq<Hit>) {
    exists h :: h in hits && Riskier(h.risk, setup.risk)
  }

  ghost predicate IsHighest(hits: seq<Hit>, level: RiskLevel) {
    (exists h :: h in hits && h.risk == Some(level)) && forall h :: h in hits ==> !Riskier(h.risk, Some(level))
  }

  predicate IsWord(level: RiskLevel, word: string) {
    match level
    case Low => word == "low"
    case Medium => word == "medium"
    case High => word == "high"
    case Critical => word == "critical"
  }

  /** The reason a revision gives names the highest level among the hits. */
  ghost predicate GivesReason(hits: seq<Hit>, reason: string) {
    exists level, word :: IsHighest(hits, level) && IsWord(level, word)
      && reason == "RAG-источник риска уровня " + word + " повысил решение"
  }

  /** Decision by decision what a riskier hit makes of a request; nothing else changes one,
      and a revised decision never sends raw text. */
  lemma RevisionTable(setup: Setup, hits: seq<Hit>)
    ensures var was, due := setup.outcome.decision, Due(setup, hits);
      && (!SomeRiskier(setup, hits) ==> due == setup.outcome)
      && (SomeRiskier(setup, hits) ==>
            && (was == AllowRaw ==> due.decision == AllowMasked)
            && (was == AllowMasked ==> due.decision == AllowSummaryOnly)
            && (was == AllowSummaryOnly ==> due.decision == Escalate)
            && (was == Escalate ==> due.decision == Deny)
            && (was == Deny ==> due.decision == Deny)
            && due.decision != AllowRaw
            && due.reasons != [] && due.reasons[1..] == setup.outcome.reasons && GivesReason(hits, due.reasons[0]))
  {
    hide GivesReason, Reason;
    TopIsMax(hits);
    RankIsOrder();
    if Rank(Top(hits)) > Rank(setup.risk) {
      TopIsRiskier(setup, hits);
      ReasonIs(hits, Top(hits).value);
    }
  }

  lemma TopIsRiskier(setup: Setup, hits: seq<Hit>)
    requires Rank(Top(hits)) > Rank(setup.risk)
    ensures SomeRiskier(setup, hits)
  {
    TopIsMax(hits);
    RankIsOrder();
    var h :| h in hits && h.risk == Top(hits);
    assert Riskier(h.risk, setup.risk);
  }

  lemma RankIsOrder()
    ensures forall a, b :: Rank(a) > Rank(b) <==> Riskier(a, b)
  {
  }

  lemma ReasonIs(hits: seq<Hit>, top: RiskLevel)
    requires exists h :: h in hits && h.risk == Some(top)
    requires forall h :: h in hits ==> Rank(h.risk) <= Rank(Some(top))
    ensures GivesReason(hits, Reason(top))
  {
    RankIsOrder();
    var word := LevelName(top);
    assert IsHighest(hits, top) && IsWord(top, word);
  }

  // ----- the hits a model may see

  predicate IsExternal(setup: Setup) { setup.trust == External || setup.trust == RussianCloud }

  function Passed(setup: Setup, hits: seq<Hit>): seq<Hit> {
    if IsExternal(setup) then Without(hits, true) else hits
  }

  /** The longest beginning of the hits within the budget. */
  function Fitting(hits: seq<Hit>, budget: int): (r: seq<Hit>)
    ensures r <= hits
  {
    if hits == [] then []
    else
      var front := Fitting(hits[..|hits| - 1], budget);
      if |front| == |hits| - 1 && Used(hits) <= budget then hits else front
  }

  lemma {:induction false} FittingIsLongest(hits: seq<Hit>, budget: int)
    requires budget >= 0
    ensures var n := |Fitting(hits, budget)|;
      && Used(Fitting(hits, budget)) <= budget
      && (n < |hits| ==> Used(hits[..n + 1]) > budget)
  {
    if hits != [] {
      var front := hits[..|hits| - 1];
      FittingIsLongest(front, budget);
      var n := |Fitting(front, budget)|;
      assert n < |front| ==> front[..n + 1] == hits[..n + 1];
      assert hits[..|hits|] == hits;
    }
  }

  lemma FittingIs(hits: seq<Hit>, out: seq<Hit>, budget: int)
    requires budget >= 0 && out <= hits && Used(out) <= budget
    requires |out| < |hits| ==> Used(hits[..|out| + 1]) > budget
    ensures out == Fitting(hits, budget)
  {
    var f := Fitting(hits, budget);
    FittingIsLongest(hits, budget);
    assert hits[..|f|] == f && hits[..|out|] == out;
    TruncationIsLongest(hits, f, budget, |out|);
    TruncationIsLongest(hits, out, budget, |f|);
  }

  const RAG_BUDGET := 5 * 4096

  function KeptHits(setup: Setup, hits: seq<Hit>): seq<Hit> {
    if Blocking(Due(setup, hits).decision) then [] else Fitting(Passed(setup, hits), RAG_BUDGET)
  }

  lemma KeptIs(setup: Setup, hits: seq<Hit>, passed: seq<Hit>, out: seq<Hit>)
    requires passed == Passed(setup, hits) && out <= passed && Used(out) <= RAG_BUDGET
    requires |out| < |passed| ==> Used(passed[..|out| + 1]) > RAG_BUDGET
    requires !Blocking(Due(setup, hits).decision)
    ensures out == KeptHits(setup, hits)
  {
    hide Used, Due;
    FittingIs(passed, out, RAG_BUDGET);
  }

  /** The hits fit the budget, and the next one would not. */
  ghost predicate LongestWithin(kept: seq<Hit>, hits: seq<Hit>) {
    kept <= hits && Used(kept) <= 5 * 4096 && (|kept| < |hits| ==> Used(hits[..|kept| + 1]) > 5 * 4096)
  }

  /** The hits that are not high-risk, all of them. */
  ghost predicate AllSafe(safe: seq<Hit>, hits: seq<Hit>) {
    forall h :: h in safe <==> h in hits && h.risk !in {Some(High), Some(Critical)}
  }

  /** A model in the cloud, Russian or foreign, gets no high-risk hit; for one on the
      premises no hit is dropped for its risk; a blocked request keeps none. */
  lemma KeptAreSafe(setup: Setup, hits: seq<Hit>)
    ensures forall h :: h in KeptHits(setup, hits) ==> h in hits
    ensures setup.trust in {External, RussianCloud} ==>
              forall h :: h in KeptHits(setup, hits) ==> h.risk !in {Some(High), Some(Critical)}
    ensures setup.trust in {External, RussianCloud} && !Blocking(Due(setup, hits).decision) ==>
              exists safe :: AllSafe(safe, hits) && LongestWithin(KeptHits(setup, hits), safe)
    ensures setup.trust in {TrustedLocal, OnPrem} && !Blocking(Due(setup, hits).decision) ==>
              LongestWithin(KeptHits(setup, hits), hits)
    ensures Blocking(Due(setup, hits).decision) ==> KeptHits(setup, hits) == []
    ensures Used(KeptHits(setup, hits)) <= RAG_BUDGET
  {
    hide Due, Fitting, Used, Without, LongestWithin;
    var passed := Passed(setup, hits);
    FilterSplits(hits);
    FittingIsWithin(passed);
    NothingUsed();
    assert InCloud(setup) ==> AllSafe(passed, hits);
  }

  lemma FittingIsWithin(hits: seq<Hit>)
    ensures LongestWithin(Fitting(hits, RAG_BUDGET), hits) && Used(Fitting(hits, RAG_BUDGET)) <= RAG_BUDGET
    ensures forall h :: h in Fitting(hits, RAG_BUDGET) ==> h in hits
  {
    hide Used, Fitting;
    FittingIsLongest(hits, RAG_BUDGET);
    var kept := Fitting(hits, RAG_BUDGET);
    assert kept == hits[..|kept|];
  }

  lemma NothingUsed()
    ensures Used([]) <= RAG_BUDGET
  {
  }

  // ----- the retrieval step

  /** What retrieval has brought so far. */
  datatype Search = NotYet | Broken | Found(hits: seq<Hit>)

  function DueAfter(setup: Setup, s: Search): Outcome {
    if s.Found? then Due(setup, s.hits) else setup.outcome
  }

  function KeptAfter(setup: Setup, s: Search): seq<Hit> {
    if s.Found? then KeptHits(setup, s.hits) else []
  }

  function SearchOf(found: Option<seq<Hit>>): Search {
    if found.Some? then Found(found.value) else Broken
  }

  predicate Searches(setup: Setup) { setup.rag && !Blocking(setup.outcome.decision) }

  function DroppedEntries(hits: seq<Hit>): seq<AuditEntry> {
    if hits == [] then [] else DroppedEntries(hits[..|hits| - 1]) + [HighRiskDropped(hits[|hits| - 1])]
  }

  function SuspiciousEntries(t: Texts, hits: seq<Hit>): seq<AuditEntry> {
    if hits == [] then []
    else
      var h := hits[|hits| - 1];
      SuspiciousEntries(t, hits[..|hits| - 1]) + if t.suspicious(h.snippet) then [SuspiciousChunk(h)] else []
  }

  /** One entry per search, naming the hits that went on or, for a request that is now
      blocked, all of them; one per dropped hit; one per suspicious hit that passed. */
  function Trail(setup: Setup, found: Option<seq<Hit>>, answer: Throttle.Answer): seq<AuditEntry> {
    if found.None? then [RagFailed]
    else
      var hits := found.value;
      RevisionEntries(setup, hits, answer)
      + if Blocking(Due(setup, hits).decision) then [RagQuery(hits)]
        else (DroppedEntries(if IsExternal(setup) then Without(hits, false) else [])
              + SuspiciousEntries(setup.texts, Passed(setup, hits))) + [RagQuery(KeptHits(setup, hits))]
  }

  lemma {:induction false} DroppedAre(hits: seq<Hit>)
    ensures forall e :: e in DroppedEntries(hits) <==> exists h :: h in hits && e == HighRiskDropped(h)
  {
    if hits != [] {
      DroppedAre(hits[..|hits| - 1]);
      assert hits == hits[..|hits| - 1] + [hits[|hits| - 1]];
    }
  }

  lemma {:induction false} SuspiciousAre(t: Texts, hits: seq<Hit>)
    ensures forall e :: e in SuspiciousEntries(t, hits) <==>
              exists h :: h in hits && t.suspicious(h.snippet) && e == SuspiciousChunk(h)
  {
    if hits != [] {
      SuspiciousAre(t, hits[..|hits| - 1]);
      assert hits == hits[..|hits| - 1] + [hits[|hits| - 1]];
    }
  }

  ghost predicate InCloud(setup: Setup) { setup.trust in {External, RussianCloud} }

  ghost predicate RiskyHit(h: Hit) { h.risk in {Some(High), Some(Critical)} }

  /** The level a revision is booked under: the one above that of the request. */
  ghost predicate NextLevel(risk: Option<RiskLevel>, level: RiskLevel) {
    match risk
    case None => level == Low
    case Some(Low) => level == Medium
    case Some(Medium) => level == High
    case Some(_) => level == Critical
  }

  /** Which audit entries a search leaves. */
  ghost predicate Audits(setup: Setup, hits: seq<Hit>, answer: Throttle.Answer, trail: seq<AuditEntry>) {
    var blocked := Blocking(Due(setup, hits).decision);
    && trail != [] && trail[|trail| - 1] == RagQuery(if blocked then hits else KeptHits(setup, hits))
    && forall e :: e in trail[..|trail| - 1] <==> Booked(setup, hits, answer, e)
  }

  ghost predicate Booked(setup: Setup, hits: seq<Hit>, answer: Throttle.Answer, e: AuditEntry) {
    var blocked := Blocking(Due(setup, hits).decision);
    match e
    case HighRiskDropped(h) => !blocked && h in hits && InCloud(setup) && RiskyHit(h)
    case SuspiciousChunk(h) =>
      !blocked && h in hits && !(InCloud(setup) && RiskyHit(h)) && setup.texts.suspicious(h.snippet)
    case _ => BooksRevision(setup, hits, answer, e)
  }

  ghost predicate BooksRevision(setup: Setup, hits: seq<Hit>, answer: Throttle.Answer, e: AuditEntry) {
    match e
    case PolicyRevised(was, now, level) =>
      && SomeRiskier(setup, hits) && answer.Allowed? && was == setup.outcome.decision
      && now == Due(setup, hits).decision && NextLevel(setup.risk, level)
    case RevisionThrottled => SomeRiskier(setup, hits) && answer.FirstRefusal?
    case _ => false
  }

  lemma RevisionsAre(setup: Setup, hits: seq<Hit>, answer: Throttle.Answer)
    ensures forall e :: e in RevisionEntries(setup, hits, answer) <==> BooksRevision(setup, hits, answer, e)
  {
    hide Due;
    TopIsMax(hits);
    RankIsOrder();
    if Rank(Top(hits)) > Rank(setup.risk) {
      TopIsRiskier(setup, hits);
      assert NextLevel(setup.risk, LevelOf(Rank(setup.risk) + 1));
    }
  }

  lemma PassedAre(setup: Setup, hits: seq<Hit>)
    ensures forall h :: h in Passed(setup, hits) <==> h in hits && !(InCloud(setup) && RiskyHit(h))
    ensures forall h :: IsExternal(setup) && h in Without(hits, false) <==> h in hits && InCloud(setup) && RiskyHit(h)
  {
    FilterSplits(hits);
  }

  /** The audit trail of a search: one entry for the search itself, at the end; one for
      each hit withheld from a cloud model, for each suspicious hit that passed, and for a
      revision, as far as the throttle lets it; a failed search leaves its failure. */
  lemma TrailTells(setup: Setup, found: Option<seq<Hit>>, answer: Throttle.Answer)
    ensures found.None? ==> Trail(setup, found, answer) == [RagFailed]
    ensures found.Some? ==> Audits(setup, found.value, answer, Trail(setup, found, answer))
  {
    if found.Some? {
      hide Trail, Withheld, Due, KeptHits, Booked;
      var hits := found.value;
      var blocked := Blocking(Due(setup, hits).decision);
      TrailEnds(setup, hits, answer, blocked);
      WithheldBooked(setup, hits, answer, blocked);
    } else {
      TrailOfFailure(setup, answer);
    }
  }

  lemma TrailEnds(setup: Setup, hits: seq<Hit>, answer: Throttle.Answer, blocked: bool)
    requires blocked == Blocking(Due(setup, hits).decision)
    ensures var trail := Trail(setup, Some(hits), answer);
      && trail != [] && trail[|trail| - 1] == RagQuery(if blocked then hits else KeptHits(setup, hits))
      && trail[..|trail| - 1] == Withheld(setup, hits, answer, blocked)
  {
    hide Due, KeptHits, RevisionEntries, DroppedEntries, SuspiciousEntries, Passed, Without;
  }

  /** The trail but for its last entry. */
  function Withheld(setup: Setup, hits: seq<Hit>, answer: Throttle.Answer, blocked: bool): seq<AuditEntry> {
    RevisionEntries(setup, hits, answer)
    + if blocked then []
      else DroppedEntries(if IsExternal(setup) then Without(hits, false) else [])
           + SuspiciousEntries(setup.texts, Passed(setup, hits))
  }

  lemma WithheldBooked(setup: Setup, hits: seq<Hit>, answer: Throttle.Answer, blocked: bool)
    requires blocked == Blocking(Due(setup, hits).decision)
    ensures forall e :: e in Withheld(setup, hits, answer, blocked) <==> Booked(setup, hits, answer, e)
  {
    hide Due, RevisionEntries, DroppedEntries, SuspiciousEntries, Passed, IsExternal, InCloud, RiskyHit, BooksRevision,
      Without;
    var dropped := if IsExternal(setup) then Without(hits, false) else [];
    RevisionsAre(setup, hits, answer);
    PassedAre(setup, hits);
    DroppedAre(dropped);
    SuspiciousAre(setup.texts, Passed(setup, hits));
    forall e
      ensures e in Withheld(setup, hits, answer, blocked) <==> Booked(setup, hits, answer, e)
    {
      NotARevision(setup, hits, answer, e);
    }
  }

  lemma NotARevision(setup: Setup, hits: seq<Hit>, answer: Throttle.Answer, e: AuditEntry)
    ensures e.HighRiskDropped? || e.SuspiciousChunk? ==> !BooksRevision(setup, hits, answer, e)
  {
  }

  /** A run after it searched: the query, the answer, the audit trail. */
  function Searched(w: World, setup: Setup, run: seq<Effect>): seq<Effect> {
    var found := w.retrieve(run, setup.sanitized);
    var asked := run + [Retrieved(setup.sanitized, found)];
    asked + Entries(Trail(setup, found, w.throttle(asked)))
  }

  lemma PromptOfNone()
    ensures Prompt([]) == ""
  {
  }

  lemma TrailOfFailure(setup: Setup, answer: Throttle.Answer)
    ensures Trail(setup, None, answer) == [RagFailed]
  {
  }

  method RunRetrieval(w: World, setup: Setup, run: seq<Effect>)
    returns (next: seq<Effect>, ragSystem: string, kept: seq<Hit>, revised: Outcome, ghost search: Search)
    requires Honest(w, run)
    ensures Honest(w, next)
    ensures kept == KeptAfter(setup, search) && ragSystem == Prompt(kept) && revised == DueAfter(setup, search)
    ensures !Searches(setup) ==> next == run && search == NotYet
    ensures Searches(setup) ==> next == Searched(w, setup, run) && search == SearchOf(w.retrieve(run, setup.sanitized))
  {
    hide Prompt, Trail, Due, KeptHits;
    PromptOfNone();
    search := NotYet;
    if !setup.rag || Blocking(setup.outcome.decision) {
      return run, "", [], setup.outcome, NotYet;
    }
    var found, asked := Retrieve(w, run, setup.sanitized);
    search := SearchOf(found);
    TrailOfFailure(setup, w.throttle(asked));
    var entries: seq<AuditEntry>;
    if found.None? {
      entries, ragSystem, kept, revised := [RagFailed], "", [], setup.outcome;
    } else {
      entries, ragSystem, kept, revised := UseHits(setup, found.value, w.throttle(asked));
    }
    AuditsAreQuiet(w, asked, entries);
    next := asked + Entries(entries);
  }

  method ChunkEntries(t: Texts, passed: seq<Hit>, dropped: seq<Hit>) returns (entries: seq<AuditEntry>)
    ensures entries == DroppedEntries(dropped) + SuspiciousEntries(t, passed)
  {
    entries := [];
    for i := 0 to |dropped|
      invariant entries == DroppedEntries(dropped[..i])
    {
      assert dropped[..i + 1][..i] == dropped[..i];
      entries := entries + [HighRiskDropped(dropped[i])];
    }
    assert dropped[..|dropped|] == dropped && passed[..|passed|] == passed;
    for i := 0 to |passed|
      invariant entries == DroppedEntries(dropped) + SuspiciousEntries(t, passed[..i])
    {
      hide DroppedEntries;
      assert passed[..i + 1][..i] == passed[..i];
      if t.suspicious(passed[i].snippet) {
        entries := entries + [SuspiciousChunk(passed[i])];
      }
    }
  }

  method UseHits(setup: Setup, hits: seq<Hit>, answer: Throttle.Answer)
    returns (entries: seq<AuditEntry>, ragSystem: string, kept: seq<Hit>, revised: Outcome)
    ensures entries == Trail(setup, Some(hits), answer)
    ensures kept == KeptHits(setup, hits) && ragSystem == Prompt(kept) && revised == Due(setup, hits)
  {
    revised, entries := MaybeRevisePolicy(setup, hits, answer);
    PromptOfNone();
    hide Due, Prompt, RevisionEntries, DroppedEntries, SuspiciousEntries, Used, Without, Fitting;
    if Blocking(revised.decision) {
      return entries + [RagQuery(hits)], "", [], revised;
    }
    var passed, dropped := FilterHighRiskForExternal(hits, IsExternal(setup));
    var chunks := ChunkEntries(setup.texts, passed, dropped);
    kept := TruncateByBudget(passed, RAG_BUDGET);
    KeptIs(setup, hits, passed, kept);
    ragSystem := BuildRagSystemPrompt(kept);
    entries := entries + chunks + [RagQuery(kept)];
  }
}
