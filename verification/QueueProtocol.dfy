// Every interleaving of workers, the API and crashes over the document queue.
// A worker holds a document from its claim to its mark (or its crash); only
// holders send heartbeats, phases and marks. Calls the table refuses are no steps.
module QueueProtocol {
  import opened Wrappers
  import opened DocumentQueue

  datatype Config = Config(maxAttempts: nat, threshold: int)

  datatype State = State(docs: seq<Document>, held: set<(nat, nat)>, now: int)

  datatype Event =
    | Create(storageKey: string)
    | Tick(to: int)
    | Claim(worker: nat, id: nat, locked: set<nat>)
    | Heartbeat(worker: nat, id: nat)
    | SetPhase(worker: nat, id: nat, phase: Option<Phase>)
    | MarkDone(worker: nat, id: nat)
    | MarkFailed(worker: nat, id: nat, error: string)
    | Crash(worker: nat, id: nat)
    | Requeue
    | Retry(id: nat)
    | Delete(id: nat)

  predicate Enabled(cfg: Config, s: State, e: Event) {
    match e
    case Create(_) => true
    case Tick(to) => s.now <= to
    case Claim(_, id, locked) => Oldest(s.docs, cfg.maxAttempts, locked, id)
    case Heartbeat(w, id) => (w, id) in s.held && id < |s.docs|
    case SetPhase(w, id, _) => (w, id) in s.held && id < |s.docs|
    case MarkDone(w, id) => (w, id) in s.held && id < |s.docs|
    case MarkFailed(w, id, _) => (w, id) in s.held && id < |s.docs|
    case Crash(w, id) => (w, id) in s.held && id < |s.docs|
    case Requeue => true
    case Retry(id) => id < |s.docs| && s.docs[id].status == Failed
    case Delete(id) => id < |s.docs| && s.docs[id].status != Deleted
  }

  function After(cfg: Config, s: State, e: Event): State
    requires Enabled(cfg, s, e)
  {
    match e
    case Create(key) => s.(docs := s.docs + [New(s.now, key)])
    case Tick(to) => s.(now := to)
    case Claim(w, id, _) => s.(docs := s.docs[id := Claimed(s.docs[id], s.now)], held := s.held + {(w, id)})
    case Heartbeat(w, id) => s.(docs := s.docs[id := Beaten(s.docs[id], s.now)])
    case SetPhase(w, id, phase) => s.(docs := s.docs[id := s.docs[id].(phase := phase)])
    case MarkDone(w, id) => s.(docs := s.docs[id := Finished(s.docs[id])], held := s.held - {(w, id)})
    case MarkFailed(w, id, err) => s.(docs := s.docs[id := Broken(s.docs[id], err)], held := s.held - {(w, id)})
    case Crash(w, id) => s.(held := s.held - {(w, id)})
    case Requeue => s.(docs := RequeueAll(s.docs, s.now, cfg.threshold))
    case Retry(id) => s.(docs := s.docs[id := Retried(s.docs[id])])
    case Delete(id) => s.(docs := s.docs[id := SoftDeleted(s.docs[id])])
  }

  /** The states a run from `s` goes through: `Legal` while every event is enabled. */
  ghost predicate Legal(cfg: Config, s: State, es: seq<Event>)
    decreases |es|, 0
  {
    es == [] || (Legal(cfg, s, es[..|es| - 1]) && Enabled(cfg, Final(cfg, s, es[..|es| - 1]), es[|es| - 1]))
  }

  ghost function Final(cfg: Config, s: State, es: seq<Event>): State
    requires Legal(cfg, s, es)
    decreases |es|, 1
  {
    if es == [] then s else After(cfg, Final(cfg, s, es[..|es| - 1]), es[|es| - 1])
  }

  ghost predicate Init(s: State) { s.docs == [] && s.held == {} }

  /** What can happen, and to whom: only a holder beats, reports and marks, and only it can
      crash; any live document can be deleted, and a failed one retried. */
  lemma StepsAre(cfg: Config, s: State, w: nat, id: nat, phase: Option<Phase>, error: string)
    ensures var holds := (w, id) in s.held && id < |s.docs|;
      && (Enabled(cfg, s, Heartbeat(w, id)) <==> holds) && (Enabled(cfg, s, SetPhase(w, id, phase)) <==> holds)
      && (Enabled(cfg, s, MarkDone(w, id)) <==> holds) && (Enabled(cfg, s, MarkFailed(w, id, error)) <==> holds)
      && (Enabled(cfg, s, Crash(w, id)) <==> holds)
    ensures Enabled(cfg, s, Delete(id)) <==> id < |s.docs| && s.docs[id].status != Deleted
    ensures Enabled(cfg, s, Retry(id)) <==> id < |s.docs| && s.docs[id].status == Failed
  {
  }

  /** A step moves the clock, the holders and the rows it names, and nothing else. */
  lemma StepTells(cfg: Config, s: State, e: Event)
    requires Enabled(cfg, s, e)
    ensures var t := After(cfg, s, e);
      && (t.now == if e.Tick? then e.to else s.now)
      && (e.Claim? ==> t.held == s.held + {(e.worker, e.id)})
      && (e.MarkDone? || e.MarkFailed? || e.Crash? ==> t.held == s.held - {(e.worker, e.id)})
      && (!e.Claim? && !e.MarkDone? && !e.MarkFailed? && !e.Crash? ==> t.held == s.held)
      && (e.Crash? || e.Tick? ==> t.docs == s.docs)
      && |t.docs| == |s.docs| + (if e.Create? then 1 else 0)
      && (forall i :: 0 <= i < |s.docs| && !e.Requeue? && (e.Create? || e.Tick? || i != e.id) ==>
            t.docs[i] == s.docs[i])
  {
  }

  // ----- attempts count claims

  /** Claims of a document since it was created or last retried. */
  function ClaimsSince(es: seq<Event>, id: nat): nat {
    if es == [] then 0
    else
      var last, before := es[|es| - 1], ClaimsSince(es[..|es| - 1], id);
      if last.Claim? && last.id == id then before + 1 else if last == Retry(id) then 0 else before
  }

  ghost predicate RowOk(cfg: Config, d: Document) {
    && d.attempts <= cfg.maxAttempts
    && (d.status == Processing ==> d.startedAt.Some?)
    && (d.startedAt.Some? ==> d.status == Processing || d.status == Deleted)
  }

  /** The invariant of the rows, over every run. */
  lemma {:induction false} RowsStayOk(cfg: Config, s: State, es: seq<Event>)
    requires Init(s) && Legal(cfg, s, es)
    ensures forall id :: 0 <= id < |Final(cfg, s, es).docs| ==> RowOk(cfg, Final(cfg, s, es).docs[id])
  {
    if es != [] {
      RowsStayOk(cfg, s, es[..|es| - 1]);
    }
  }

  /** In every interleaving `processing_attempts` is the number of claims since
      creation or the last retry. */
  lemma {:induction false} AttemptsAreClaims(cfg: Config, s: State, es: seq<Event>, id: nat)
    requires Init(s) && Legal(cfg, s, es)
    ensures id < |Final(cfg, s, es).docs| ==> Final(cfg, s, es).docs[id].attempts == ClaimsSince(es, id)
    ensures id >= |Final(cfg, s, es).docs| ==> ClaimsSince(es, id) == 0
  {
    if es != [] {
      AttemptsAreClaims(cfg, s, es[..|es| - 1], id);
    }
  }

  // ----- the total work is bounded

  function Claims(es: seq<Event>): nat {
    if es == [] then 0 else Claims(es[..|es| - 1]) + if es[|es| - 1].Claim? then 1 else 0
  }

  function Retries(es: seq<Event>): nat {
    if es == [] then 0 else Retries(es[..|es| - 1]) + if es[|es| - 1].Retry? then 1 else 0
  }

  function TotalAttempts(docs: seq<Document>): nat {
    if docs == [] then 0 else TotalAttempts(docs[..|docs| - 1]) + docs[|docs| - 1].attempts
  }

  lemma {:induction false} TotalUpdate(docs: seq<Document>, i: nat, d: Document)
    requires i < |docs|
    ensures TotalAttempts(docs[i := d]) == TotalAttempts(docs) - docs[i].attempts + d.attempts
  {
    var n := |docs| - 1;
    if i < n {
      TotalUpdate(docs[..n], i, d);
      assert docs[i := d][..n] == docs[..n][i := d];
    } else {
      assert docs[i := d][..n] == docs[..n];
    }
  }

  lemma {:induction false} TotalSame(a: seq<Document>, b: seq<Document>)
    requires |a| == |b| && forall i :: 0 <= i < |a| ==> a[i].attempts == b[i].attempts
    ensures TotalAttempts(a) == TotalAttempts(b)
  {
    if a != [] {
      TotalSame(a[..|a| - 1], b[..|b| - 1]);
    }
  }

  lemma {:induction false} TotalBounded(docs: seq<Document>, max: nat)
    requires forall i :: 0 <= i < |docs| ==> docs[i].attempts <= max
    ensures TotalAttempts(docs) <= max * |docs|
  {
    if docs != [] {
      TotalBounded(docs[..|docs| - 1], max);
    }
  }

  /** How one step moves the total of the attempts. */
  lemma TotalStep(cfg: Config, s: State, e: Event)
    requires Enabled(cfg, s, e)
    requires forall id :: 0 <= id < |s.docs| ==> RowOk(cfg, s.docs[id])
    ensures var before, later := TotalAttempts(s.docs), TotalAttempts(After(cfg, s, e).docs);
            if e.Claim? then later == before + 1
            else if e.Retry? then before <= later + cfg.maxAttempts
            else later == before
  {
    match e
    case Create(key) => assert (s.docs + [New(s.now, key)])[..|s.docs|] == s.docs;
    case Claim(_, id, _) => TotalUpdate(s.docs, id, Claimed(s.docs[id], s.now));
    case Heartbeat(_, id) => TotalUpdate(s.docs, id, Beaten(s.docs[id], s.now));
    case SetPhase(_, id, phase) => TotalUpdate(s.docs, id, s.docs[id].(phase := phase));
    case MarkDone(_, id) => TotalUpdate(s.docs, id, Finished(s.docs[id]));
    case MarkFailed(_, id, err) => TotalUpdate(s.docs, id, Broken(s.docs[id], err));
    case Requeue => TotalSame(s.docs, RequeueAll(s.docs, s.now, cfg.threshold));
    case Retry(id) => TotalUpdate(s.docs, id, Retried(s.docs[id]));
    case Delete(id) => TotalUpdate(s.docs, id, SoftDeleted(s.docs[id]));
    case _ =>
  }

  lemma {:induction false} ClaimsAccounted(cfg: Config, s: State, es: seq<Event>)
    requires Init(s) && Legal(cfg, s, es)
    ensures Claims(es) <= TotalAttempts(Final(cfg, s, es).docs) + cfg.maxAttempts * Retries(es)
  {
    if es != [] {
      var front := es[..|es| - 1];
      ClaimsAccounted(cfg, s, front);
      RowsStayOk(cfg, s, front);
      TotalStep(cfg, Final(cfg, s, front), es[|es| - 1]);
      Distribute(cfg.maxAttempts, Retries(front));
    }
  }

  lemma Distribute(a: nat, b: nat)
    ensures a * (b + 1) == a * b + a
  {
  }

  function ClaimEvents(es: seq<Event>): set<nat> { set i: nat | i < |es| && es[i].Claim? }

  function RetryEvents(es: seq<Event>): set<nat> { set i: nat | i < |es| && es[i].Retry? }

  lemma ClaimsGrow(es: seq<Event>)
    requires es != []
    ensures var n := |es| - 1; ClaimEvents(es) == ClaimEvents(es[..n]) + if es[n].Claim? then {n} else {}
  {
    var n := |es| - 1;
    assert forall i: nat :: i in ClaimEvents(es) <==> i < |es| && es[i].Claim?;
    assert forall i: nat :: i in ClaimEvents(es[..n]) <==> i < n && es[i].Claim?;
  }

  lemma RetriesGrow(es: seq<Event>)
    requires es != []
    ensures var n := |es| - 1; RetryEvents(es) == RetryEvents(es[..n]) + if es[n].Retry? then {n} else {}
  {
    var n := |es| - 1;
    assert forall i: nat :: i in RetryEvents(es) <==> i < |es| && es[i].Retry?;
    assert forall i: nat :: i in RetryEvents(es[..n]) <==> i < n && es[i].Retry?;
  }

  lemma EventsWithin(es: seq<Event>)
    ensures |es| !in ClaimEvents(es) && |es| !in RetryEvents(es)
    ensures es == [] ==> ClaimEvents(es) == {} && RetryEvents(es) == {}
  {
  }

  lemma {:induction false} EventsAreCounted(es: seq<Event>)
    ensures Claims(es) == |ClaimEvents(es)| && Retries(es) == |RetryEvents(es)|
  {
    hide ClaimEvents, RetryEvents;
    if es == [] {
      EventsWithin(es);
    } else {
      var front := es[..|es| - 1];
      EventsAreCounted(front);
      EventsWithin(front);
      ClaimsGrow(es);
      RetriesGrow(es);
    }
  }

  /** However workers interleave and crash, the documents are claimed at most
      `max_attempts` times each, and once more that often per manual retry. */
  lemma ClaimsBounded(cfg: Config, s: State, es: seq<Event>)
    requires Init(s) && Legal(cfg, s, es)
    ensures |ClaimEvents(es)| <= cfg.maxAttempts * (|Final(cfg, s, es).docs| + |RetryEvents(es)|)
  {
    hide Claims, Retries, TotalAttempts;
    EventsAreCounted(es);
    ClaimsAccounted(cfg, s, es);
    RowsStayOk(cfg, s, es);
    TotalBounded(Final(cfg, s, es).docs, cfg.maxAttempts);
    DistributeSum(cfg.maxAttempts, |Final(cfg, s, es).docs|, Retries(es));
  }

  lemma DistributeSum(m: nat, a: nat, b: nat)
    ensures m * (a + b) == m * a + m * b
  {
  }

  // ----- one holder per document

  /** No held document is stuck: its heartbeats came within the threshold. */
  ghost predicate OnTime(cfg: Config, s: State) {
    forall w, id :: (w, id) in s.held && 0 <= id < |s.docs| ==> !Stuck(s.docs[id], s.now, cfg.threshold)
  }

  /** Heartbeats were on time whenever the requeue ran. */
  ghost predicate BeatsOnTime(cfg: Config, s: State, es: seq<Event>)
    requires Legal(cfg, s, es)
  {
    es == [] || (BeatsOnTime(cfg, s, es[..|es| - 1])
              && (es[|es| - 1] == Requeue ==> OnTime(cfg, Final(cfg, s, es[..|es| - 1]))))
  }

  ghost predicate SoleHolders(s: State) {
    && (forall w, v, id :: (w, id) in s.held && (v, id) in s.held ==> w == v)
    && (forall w, id :: (w, id) in s.held ==>
          id < |s.docs| && (s.docs[id].status == Processing || s.docs[id].status == Deleted))
  }

  lemma SoleStep(cfg: Config, s: State, e: Event)
    requires Enabled(cfg, s, e) && SoleHolders(s) && (e == Requeue ==> OnTime(cfg, s))
    ensures SoleHolders(After(cfg, s, e))
  {
  }

  /** While heartbeats keep every held start time within the threshold, no document
      ever has two holders. */
  lemma {:induction false} NoTwoHolders(cfg: Config, s: State, es: seq<Event>)
    requires Init(s) && Legal(cfg, s, es) && BeatsOnTime(cfg, s, es)
    ensures SoleHolders(Final(cfg, s, es))
  {
    if es != [] {
      NoTwoHolders(cfg, s, es[..|es| - 1]);
      SoleStep(cfg, Final(cfg, s, es[..|es| - 1]), es[|es| - 1]);
    }
  }

  /** The assumption is needed: wherever a held document does go stuck with attempts
      left, a requeue and one claim give it a second holder. */
  lemma LateBeatDuplicates(cfg: Config, s: State, w: nat, v: nat, id: nat, busy: set<nat>)
    requires (w, id) in s.held && v != w && id < |s.docs|
    requires Stuck(s.docs[id], s.now, cfg.threshold) && s.docs[id].attempts < cfg.maxAttempts
    requires id !in busy && forall j: nat :: j < |s.docs| && j != id ==> j in busy
    ensures var es := [Requeue, Claim(v, id, busy)];
            Legal(cfg, s, es) && (w, id) in Final(cfg, s, es).held && (v, id) in Final(cfg, s, es).held
  {
    var es := [Requeue, Claim(v, id, busy)];
    assert es[..1] == [Requeue] && [Requeue][..0] == [];
    assert Legal(cfg, s, []) && Final(cfg, s, []) == s;
    assert Legal(cfg, s, [Requeue]) && Final(cfg, s, [Requeue]) == After(cfg, s, Requeue);
    assert Oldest(After(cfg, s, Requeue).docs, cfg.maxAttempts, busy, id);
  }

  // ----- documents no step picks up again

  /** Out of attempts or deleted, and nobody is working on it. */
  ghost predicate Abandoned(cfg: Config, s: State, id: nat) {
    && id < |s.docs|
    && ((s.docs[id].status == Pending && s.docs[id].attempts >= cfg.maxAttempts) || s.docs[id].status == Deleted)
    && (forall w :: (w, id) !in s.held)
  }

  /** The claim's comment says that exhausted documents are moved to failed. One that
      nobody holds never is: it stays pending until it is deleted, and a deleted one
      stays deleted. */
  lemma {:induction false} AbandonedStays(cfg: Config, s: State, es: seq<Event>, id: nat)
    requires Abandoned(cfg, s, id) && Legal(cfg, s, es)
    ensures Abandoned(cfg, Final(cfg, s, es), id)
    ensures s.docs[id].status == Deleted ==> Final(cfg, s, es).docs[id].status == Deleted
  {
    if es != [] {
      AbandonedStays(cfg, s, es[..|es| - 1], id);
    }
  }

  /** An exhausted pending document can fail next exactly when a worker still holds it,
      a worker the requeue took for dead. */
  lemma ExhaustedFailsIff(cfg: Config, s: State, id: nat)
    requires id < |s.docs| && s.docs[id].status == Pending && s.docs[id].attempts >= cfg.maxAttempts
    ensures (exists e :: Enabled(cfg, s, e) && After(cfg, s, e).docs[id].status == Failed)
       <==> (exists w :: (w, id) in s.held)
  {
    if w :| (w, id) in s.held {
      assert Enabled(cfg, s, MarkFailed(w, id, "")) && After(cfg, s, MarkFailed(w, id, "")).docs[id].status == Failed;
    }
  }

  const ONE_TRY := Config(1, 15)

  /** Runs do get there: one worker, one attempt allowed, no heartbeat for longer than
      the threshold. */
  lemma SlowWorkerExhausts(s: State, key: string)
    requires Init(s)
    ensures var es := [Create(key), Claim(7, 0, {}), Tick(s.now + 16), Requeue];
            Legal(ONE_TRY, s, es)
            && var t := Final(ONE_TRY, s, es);
               |t.docs| == 1 && t.docs[0].status == Pending && t.docs[0].attempts == 1 && (7, 0) in t.held
  {
    var e1, e2, e3 := [Create(key)], [Create(key), Claim(7, 0, {})], [Create(key), Claim(7, 0, {}), Tick(s.now + 16)];
    var es := e3 + [Requeue];
    assert e1[..0] == [] && e2[..1] == e1 && e3[..2] == e2 && es[..3] == e3;
    assert Legal(ONE_TRY, s, []) && Final(ONE_TRY, s, []) == s;
    var s1 := After(ONE_TRY, s, Create(key));
    assert Legal(ONE_TRY, s, e1) && Final(ONE_TRY, s, e1) == s1;
    assert s1.docs == [New(s.now, key)] && Oldest(s1.docs, 1, {}, 0);
    var s2 := After(ONE_TRY, s1, Claim(7, 0, {}));
    assert Legal(ONE_TRY, s, e2) && Final(ONE_TRY, s, e2) == s2;
    var s3 := After(ONE_TRY, s2, Tick(s.now + 16));
    assert Legal(ONE_TRY, s, e3) && Final(ONE_TRY, s, e3) == s3;
    assert s3.docs[0].startedAt == Some(s.now) && Stuck(s3.docs[0], s3.now, 15);
    assert es == [Create(key), Claim(7, 0, {}), Tick(s.now + 16), Requeue];
  }

  /** Exactly a holder can bring a deleted document back. */
  lemma DeletedReturnsIff(cfg: Config, s: State, id: nat)
    requires id < |s.docs| && s.docs[id].status == Deleted
    ensures (exists e :: Enabled(cfg, s, e) && After(cfg, s, e).docs[id].status != Deleted)
       <==> (exists w :: (w, id) in s.held)
  {
    if w :| (w, id) in s.held {
      assert Enabled(cfg, s, MarkDone(w, id)) && After(cfg, s, MarkDone(w, id)).docs[id].status == Done;
    }
  }

  /** A document marked done is done: it is not claimed again, and at most deleted, unless
      a late worker marks it failed, which is what a retry starts from. */
  lemma {:induction false} DoneStaysDone(cfg: Config, s: State, es: seq<Event>, id: nat)
    requires id < |s.docs| && s.docs[id].status in {Done, Deleted} && Legal(cfg, s, es)
    requires forall i :: 0 <= i < |es| ==> !(es[i].MarkFailed? && es[i].id == id)
    ensures id < |Final(cfg, s, es).docs| && Final(cfg, s, es).docs[id].status in {Done, Deleted}
    ensures forall i :: 0 <= i < |es| ==> !(es[i].Claim? && es[i].id == id)
  {
    if es != [] {
      DoneStaysDone(cfg, s, es[..|es| - 1], id);
    }
  }

  /** One that failed waits for a retry: until then no worker gets it. */
  lemma {:induction false} FailedWaitsForRetry(cfg: Config, s: State, es: seq<Event>, id: nat)
    requires id < |s.docs| && s.docs[id].status in {Done, Failed, Deleted} && Legal(cfg, s, es)
    requires forall i :: 0 <= i < |es| ==> es[i] != Retry(id)
    ensures id < |Final(cfg, s, es).docs| && Final(cfg, s, es).docs[id].status in {Done, Failed, Deleted}
    ensures forall i :: 0 <= i < |es| ==> !(es[i].Claim? && es[i].id == id)
  {
    if es != [] {
      FailedWaitsForRetry(cfg, s, es[..|es| - 1], id);
    }
  }
}
