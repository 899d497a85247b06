// What a policy decision makes of a request (rubezh-api/internal/chat/decision.go,
// records.go): the action, the messages of the first model call, the texts that are
// stored and shown, the events that announce a decision.
module ChatMessages {
  import opened ChatRun
  import opened ChatText
  import opened Strings

  // ----- the action

  datatype Action = Action(callLlm: bool, sendText: string, restore: bool, summaryMode: bool)

  function ActionFor(d: Decision, original: string, sanitized: string): Action {
    match d
    case AllowRaw => Action(true, original, false, false)
    case AllowMasked => Action(true, sanitized, true, false)
    case AllowSummaryOnly => Action(true, sanitized, false, true)
    case _ => Action(false, "", false, false)
  }

  /** The text behind a preview token is the restored sanitized text. */
  function Original(setup: Setup): string {
    if setup.previewToken != "" then setup.texts.restore(setup.sanitized) else setup.message
  }

  function ActionOn(setup: Setup, d: Decision): Action { ActionFor(d, Original(setup), setup.sanitized) }

  // ----- the messages

  function BriefOnly(): Message { Message(System, "Ответь кратким резюме, не повторяя детали.") }

  function Systems(systemPrompt: string, summaryMode: bool): seq<Message> {
    (if Trim(systemPrompt) != "" then [Message(System, Trim(systemPrompt))] else [])
    + if summaryMode then [BriefOnly()] else []
  }

  method BuildLlmMessages(act: Action, systemPrompt: string) returns (messages: seq<Message>)
    ensures messages == Systems(systemPrompt, act.summaryMode) + [Message(User, act.sendText)]
  {
    hide Trim;
    messages := [];
    var p := Trim(systemPrompt);
    if p != "" {
      messages := messages + [Message(System, p)];
    }
    if act.summaryMode {
      messages := messages + [BriefOnly()];
    }
    messages := messages + [Message(User, act.sendText)];
  }

  /** The position of the first message that is not a system message. */
  predicate FirstOther(messages: seq<Message>, k: nat) {
    && k <= |messages| && (forall j :: 0 <= j < k ==> messages[j].role == System)
    && (k < |messages| ==> messages[k].role != System)
  }

  function WithSystem(messages: seq<Message>, k: nat, content: string): seq<Message>
    requires k <= |messages|
  {
    messages[..k] + [Message(System, content)] + messages[k..]
  }

  method ApplyRagToMessages(messages: seq<Message>, ragSystem: string) returns (out: seq<Message>)
    ensures ragSystem == "" ==> out == messages
    ensures ragSystem != "" ==> exists k :: FirstOther(messages, k) && out == WithSystem(messages, k, ragSystem)
  {
    if ragSystem == "" {
      return messages;
    }
    out := [];
    var i := 0;
    while i < |messages| && messages[i].role == System
      invariant i <= |messages| && out == messages[..i]
      invariant forall j :: 0 <= j < i ==> messages[j].role == System
    {
      out := out + [messages[i]];
      i := i + 1;
    }
    assert FirstOther(messages, i);
    out := out + [Message(System, ragSystem)];
    out := out + messages[i..];
  }

  /** The messages of the first call: the administrator's prompt, the summary
      instruction, the sources, then what the user is allowed to say. */
  function PrimaryMessages(setup: Setup, d: Decision, ragSystem: string): seq<Message> {
    var act := ActionOn(setup, d);
    Systems(setup.systemPrompt, act.summaryMode) + (if ragSystem != "" then [Message(System, ragSystem)] else [])
    + [Message(User, act.sendText)]
  }

  lemma RagComesLast(systems: seq<Message>, user: Message, ragSystem: string, k: nat)
    requires forall m :: m in systems ==> m.role == System
    requires user.role == User && FirstOther(systems + [user], k)
    ensures WithSystem(systems + [user], k, ragSystem) == systems + [Message(System, ragSystem)] + [user]
  {
    var ms := systems + [user];
    assert ms[|systems|] == user && forall j :: 0 <= j < |systems| ==> ms[j] in systems;
    assert k == |systems|;
  }

  method FirstMessages(setup: Setup, d: Decision, ragSystem: string) returns (messages: seq<Message>)
    ensures messages == PrimaryMessages(setup, d, ragSystem)
  {
    hide ActionFor;
    var act := ActionOn(setup, d);
    var plain := BuildLlmMessages(act, setup.systemPrompt);
    messages := ApplyRagToMessages(plain, ragSystem);
    if ragSystem != "" {
      ghost var k :| FirstOther(plain, k) && messages == WithSystem(plain, k, ragSystem);
      RagComesLast(Systems(setup.systemPrompt, act.summaryMode), Message(User, act.sendText), ragSystem, k);
    }
  }

  /** What a request may say to a model. */
  ghost predicate Speaks(setup: Setup, d: Decision, text: string) {
    && (d != AllowRaw ==> text == setup.sanitized)
    && (d == AllowRaw && setup.previewToken == "" ==> text == setup.message)
    && (d == AllowRaw && setup.previewToken != "" ==> text == setup.texts.restore(setup.sanitized))
  }

  /** A model gets the administrator's prompt if there is one, the summary instruction if
      and only if the decision asks for a summary, the sources if there are any, and at the
      end the one user message: unless the decision allows raw text the sanitized one. */
  lemma UserMessageIsSanitized(setup: Setup, d: Decision, ragSystem: string)
    requires !Blocking(d)
    ensures var ms := PrimaryMessages(setup, d, ragSystem);
            var prompt := if Trim(setup.systemPrompt) != "" then 1 else 0;
            var brief := if d == AllowSummaryOnly then 1 else 0;
            var sources := if ragSystem != "" then 1 else 0;
      && |ms| == prompt + brief + sources + 1
      && (prompt == 1 ==> ms[0] == Message(System, Trim(setup.systemPrompt)))
      && (brief == 1 ==> ms[prompt] == Message(System, "Ответь кратким резюме, не повторяя детали."))
      && (sources == 1 ==> ms[prompt + brief] == Message(System, ragSystem))
      && ms[|ms| - 1].role == User && Speaks(setup, d, ms[|ms| - 1].content)
  {
    hide Trim;
  }

  // ----- the texts of the answer

  /** What is stored, and what is shown. */
  function FinalTexts(act: Action, t: Texts, raw: string): (string, string) {
    if act.summaryMode then (t.remask(raw), t.remask(raw))
    else if act.restore then (t.remask(raw), t.remask(raw))
    else (raw, raw)
  }

  /** The answer as it leaves the system: masked unless raw text is allowed, without
      echoes of source tags when there were sources. */
  function Shown(setup: Setup, d: Decision, ragSystem: string, answer: string): string {
    var text := if d == AllowRaw then answer else setup.texts.remask(answer);
    if ragSystem != "" then setup.texts.stripEchoes(text) else text
  }

  /** What the answer becomes, decision by decision. */
  lemma ShownTells(setup: Setup, d: Decision, ragSystem: string, answer: string)
    ensures var shown := Shown(setup, d, ragSystem, answer);
      && (d == AllowRaw && ragSystem == "" ==> shown == answer)
      && (d == AllowRaw && ragSystem != "" ==> shown == setup.texts.stripEchoes(answer))
      && (d != AllowRaw && ragSystem == "" ==> shown == setup.texts.remask(answer))
      && (d != AllowRaw && ragSystem != "" ==> shown == setup.texts.stripEchoes(setup.texts.remask(answer)))
  {
  }

  // ----- announcing a decision

  /** The client is told the decision with its reasons, and for a summary that the answer
      is masked. */
  function MetaFor(o: Outcome): (m: Event)
    ensures m.Meta? && m.decision == o.decision && o.reasons <= m.reasons
    ensures o.decision != AllowSummaryOnly ==> m.reasons == o.reasons
    ensures o.decision == AllowSummaryOnly ==>
              && |m.reasons| == |o.reasons| + 1
              && m.reasons[|o.reasons|] == "Ответ обезличен: показаны псевдонимы (режим резюме)"
  {
    Meta(o.decision, o.reasons +
             if o.decision == AllowSummaryOnly then ["Ответ обезличен: показаны псевдонимы (режим резюме)"] else [])
  }

  function BlockedNotice(o: Outcome): string {
    var lead := if o.decision == Escalate then "Запрос направлен на согласование специалисту ИБ."
                else "Запрос отклонён политикой безопасности.";
    Trim(lead + " " + Join(o.reasons, "; "))
  }

  /** The notice says whether the request waits for approval or is refused, and gives the
      reasons in order. */
  lemma NoticeTells(o: Outcome)
    requires Blocking(o.decision)
    ensures exists reasons :: Laid(reasons, o.reasons, "; ") && IsNotice(o.decision, reasons, BlockedNotice(o))
  {
    JoinLays(o.reasons, "; ");
    hide Join, Laid, Trim, IsSpace;
    var reasons := Join(o.reasons, "; ");
    WaitingEnds();
    RefusalEnds();
    if o.decision == Escalate {
      LeadStays("Запрос направлен на согласование специалисту ИБ.", reasons);
    } else {
      LeadStays("Запрос отклонён политикой безопасности.", reasons);
    }
    assert IsNotice(o.decision, reasons, BlockedNotice(o));
  }

  predicate IsNotice(d: Decision, reasons: string, notice: string) {
    && (d == Escalate ==>
          && notice == Trim("Запрос направлен на согласование специалисту ИБ." + " " + reasons)
          && "Запрос направлен на согласование специалисту ИБ." <= notice)
    && (d == Deny ==>
          && notice == Trim("Запрос отклонён политикой безопасности." + " " + reasons)
          && "Запрос отклонён политикой безопасности." <= notice)
  }

  lemma WaitingEnds()
    ensures var lead := "Запрос направлен на согласование специалисту ИБ.";
            |lead| == 48 && lead[0] == 'З' && lead[47] == '.'
  {
    var a, b := "Запрос направлен на согл", "асование специалисту ИБ.";
    assert |a| == 24 && |b| == 24 && a + b == "Запрос направлен на согласование специалисту ИБ.";
    assert b[23] == '.' && (a + b)[47] == b[23];
  }

  lemma RefusalEnds()
    ensures var lead := "Запрос отклонён политикой безопасности.";
            |lead| == 39 && lead[0] == 'З' && lead[38] == '.'
  {
  }

  lemma LeadStays(lead: string, reasons: string)
    requires lead != "" && lead[0] == 'З' && lead[|lead| - 1] == '.'
    ensures lead <= Trim(lead + " " + reasons)
  {
    assert !IsSpace('З') && !IsSpace('.');
    hide Trim, IsSpace;
    var s := lead + " " + reasons;
    var i, n := TrimIs(s);
    assert s[|lead| - 1] == '.';
    assert s[..n] == s[0..n];
  }
}
