// What a chat run starts from, what it does to the outside world, and what the
// world answers (rubezh-api/internal/chat/types.go, decision.go, orchestrator_rag.go).
// A run is the list of its effects; every answer of the world is a function of the
// effects before it, so that a theorem for all worlds covers every behaviour of the
// client, the models, the database and the retriever.
module ChatRun {
  import opened Wrappers
  import RagPrompt
  import Throttle

  type Hit = RagPrompt.Hit
  type RiskLevel = RagPrompt.RiskLevel

  // ----- policy decisions

  datatype Decision = AllowRaw | AllowMasked | AllowSummaryOnly | Escalate | Deny

  predicate Blocking(d: Decision) { d == Escalate || d == Deny }

  datatype Outcome = Outcome(decision: Decision, reasons: seq<string>)

  datatype Trust = TrustedLocal | OnPrem | RussianCloud | External

  // ----- effects

  datatype Role = System | User

  datatype Message = Message(role: Role, content: string)

  datatype Reply = Answer(content: string) | NoAnswer

  datatype Failure = ModelFailed | ReviewFailed | SaveFailed | BlockSaveFailed

  /** The stages a client is told about. */
  datatype Progress =
    | PolicyChecked | RagSearch | RagDone | PolicyUpdated | BlockedByPolicy
    | LlmCall | LlmDone
    | ReviewStarted | ReviewRound | ReviewerCall | ReviewerDone
    | ReviewRevise | ReviewRevised | ReviewComplete | ReviewFallback
    | StreamingAnswer

  /** What the client is sent. */
  datatype Event =
    | Meta(decision: Decision, reasons: seq<string>)
    | Status(progress: Progress)
    | RagHits(hits: seq<Hit>)
    | Delta(text: string)
    | Done(messageId: string)
    | Fail(failure: Failure)

  datatype RecordKind = Response | Blocked

  datatype AuditEntry =
    | RagFailed
    | RagQuery(hits: seq<Hit>)
    | HighRiskDropped(hit: Hit)
    | SuspiciousChunk(hit: Hit)
    | PolicyRevised(original: Decision, revised: Decision, elevated: RiskLevel)
    | RevisionThrottled
    | ChatError(failure: Failure)

  /** Each with what came of it; audit entries are written at best effort. */
  datatype Effect =
    | Sent(event: Event, ok: bool)
    | Asked(provider: string, messages: seq<Message>, reply: Reply)
    | Saved(kind: RecordKind, content: string, id: Option<string>)
    | Retrieved(query: string, found: Option<seq<Hit>>)
    | Audited(entry: AuditEntry)

  predicate Ending(e: Effect) { e.Sent? && (e.event.Done? || e.event.Fail?) }

  // ----- the outside world

  datatype World = World(
    takes: (seq<Effect>, Event) -> bool,
    reply: (seq<Effect>, string, seq<Message>) -> Reply,
    save: (seq<Effect>, RecordKind, string) -> Option<string>,
    retrieve: (seq<Effect>, string) -> Option<seq<Hit>>,
    throttle: seq<Effect> -> Throttle.Answer)

  /** The effect records what the world answered. */
  predicate Answered(w: World, past: seq<Effect>, e: Effect) {
    match e
    case Sent(ev, ok) => ok == w.takes(past, ev)
    case Asked(p, m, r) => r == w.reply(past, p, m)
    case Saved(k, c, id) => id == w.save(past, k, c)
    case Retrieved(q, f) => f == w.retrieve(past, q)
    case Audited(_) => true
  }

  predicate Honest(w: World, run: seq<Effect>) {
    run == [] || (Honest(w, run[..|run| - 1]) && Answered(w, run[..|run| - 1], run[|run| - 1]))
  }

  // ----- the start of a run

  datatype Verdict = Verdict(ok: bool, issues: seq<string>)

  /** A file the model attached to its answer; `preview` is decoded text, if any. */
  datatype Attachment = Attachment(name: string, mime: string, sizeBytes: nat, preview: string)

  /** Functions on text that the run applies but this model leaves open. `remask` and
      `restore` are the two directions of the pseudonym map. */
  datatype Texts = Texts(
    remask: string -> string,
    restore: string -> string,
    stripEchoes: string -> string,
    suspicious: string -> bool,
    verdict: string -> Verdict,
    files: string -> seq<Attachment>)

  datatype Review = Review(enabled: bool, reviewers: seq<string>, maxRounds: int)

  datatype Setup = Setup(
    message: string,
    previewToken: string,
    provider: string,
    trust: Trust,
    rag: bool,
    review: Option<Review>,
    sanitized: string,
    risk: Option<RiskLevel>,
    outcome: Outcome,
    systemPrompt: string,
    reviewPrompts: map<string, string>,
    hasPseudonyms: bool,
    texts: Texts)

  // ----- projections of a run

  function Calls(run: seq<Effect>): seq<Effect> {
    if run == [] then []
    else Calls(run[..|run| - 1]) + if run[|run| - 1].Asked? then [run[|run| - 1]] else []
  }

  function Saves(run: seq<Effect>): seq<Effect> {
    if run == [] then []
    else Saves(run[..|run| - 1]) + if run[|run| - 1].Saved? then [run[|run| - 1]] else []
  }

  /** The text the client was sent. */
  function Delivered(run: seq<Effect>): string {
    if run == [] then ""
    else
      var last := run[|run| - 1];
      Delivered(run[..|run| - 1]) + if last.Sent? && last.event.Delta? then last.event.text else ""
  }

  /** The decision the client was told last. */
  function Announced(run: seq<Effect>): Option<Decision> {
    if run == [] then None
    else
      var last := run[|run| - 1];
      if last.Sent? && last.event.Meta? then Some(last.event.decision) else Announced(run[..|run| - 1])
  }

  /** Where a run stands: after a status event, or after the reply to a call made then. */
  datatype Point = Start | After(progress: Progress) | Replied(progress: Progress)

  function PointStep(at: Point, e: Effect): Point {
    if e.Sent? && e.event.Status? then After(e.event.progress)
    else if e.Asked? && at.After? then Replied(at.progress)
    else at
  }

  function PointOf(run: seq<Effect>): Point {
    if run == [] then Start else PointStep(PointOf(run[..|run| - 1]), run[|run| - 1])
  }

  /** Every event was taken by the client. */
  predicate AllTaken(run: seq<Effect>) {
    run == [] || (AllTaken(run[..|run| - 1]) && (run[|run| - 1].Sent? ==> run[|run| - 1].ok))
  }

  predicate EndsWell(run: seq<Effect>) {
    run != [] && Ending(run[|run| - 1]) && run[|run| - 1].ok
  }

  // ----- taking one step

  method Send(w: World, run: seq<Effect>, event: Event) returns (ok: bool, next: seq<Effect>)
    requires Honest(w, run)
    ensures Honest(w, next) && next == run + [Sent(event, ok)]
  {
    ok := w.takes(run, event);
    next := run + [Sent(event, ok)];
    assert next[..|run|] == run;
  }

  method Ask(w: World, run: seq<Effect>, provider: string, messages: seq<Message>)
    returns (reply: Reply, next: seq<Effect>)
    requires Honest(w, run)
    ensures Honest(w, next) && next == run + [Asked(provider, messages, reply)]
  {
    reply := w.reply(run, provider, messages);
    next := run + [Asked(provider, messages, reply)];
    assert next[..|run|] == run;
  }

  method Save(w: World, run: seq<Effect>, kind: RecordKind, content: string)
    returns (id: Option<string>, next: seq<Effect>)
    requires Honest(w, run)
    ensures Honest(w, next) && next == run + [Saved(kind, content, id)]
  {
    id := w.save(run, kind, content);
    next := run + [Saved(kind, content, id)];
    assert next[..|run|] == run;
  }

  method Retrieve(w: World, run: seq<Effect>, query: string) returns (found: Option<seq<Hit>>, next: seq<Effect>)
    requires Honest(w, run)
    ensures Honest(w, next) && next == run + [Retrieved(query, found)]
  {
    found := w.retrieve(run, query);
    next := run + [Retrieved(query, found)];
    assert next[..|run|] == run;
  }

  function Entries(entries: seq<AuditEntry>): seq<Effect> {
    seq(|entries|, i requires 0 <= i < |entries| => Audited(entries[i]))
  }

  lemma {:induction false} AuditsAreQuiet(w: World, run: seq<Effect>, entries: seq<AuditEntry>)
    requires Honest(w, run)
    ensures var next := run + Entries(entries);
      && Honest(w, next) && Calls(next) == Calls(run) && Saves(next) == Saves(run)
      && Delivered(next) == Delivered(run) && Announced(next) == Announced(run)
      && (AllTaken(next) == AllTaken(run)) && PointOf(next) == PointOf(run)
  {
    var next := run + Entries(entries);
    if entries == [] {
      assert next == run;
    } else {
      AuditsAreQuiet(w, run, entries[..|entries| - 1]);
      assert next[..|next| - 1] == run + Entries(entries[..|entries| - 1]);
    }
  }

  method WriteAudit(w: World, run: seq<Effect>, entry: AuditEntry) returns (next: seq<Effect>)
    requires Honest(w, run)
    ensures Honest(w, next) && next == run + [Audited(entry)]
  {
    next := run + [Audited(entry)];
    assert next[..|run|] == run;
  }

  /** One more effect, seen through the projections. */
  lemma Grown(run: seq<Effect>, e: Effect)
    ensures var next := run + [e];
      && Calls(next) == Calls(run) + (if e.Asked? then [e] else [])
      && Saves(next) == Saves(run) + (if e.Saved? then [e] else [])
      && Delivered(next) == Delivered(run) + (if e.Sent? && e.event.Delta? then e.event.text else "")
      && Announced(next) == (if e.Sent? && e.event.Meta? then Some(e.event.decision) else Announced(run))
      && AllTaken(next) == (AllTaken(run) && (e.Sent? ==> e.ok))
      && PointOf(next) == PointStep(PointOf(run), e)
  {
    assert (run + [e])[..|run|] == run;
  }
}
