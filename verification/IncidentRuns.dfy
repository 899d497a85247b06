// All interleavings of PATCH requests on one incident. A request names a version it
// has seen (If-Match), the handler reads the row for the audit, and the transaction
// compares and swaps; the three moments of different requests mix freely.
module IncidentRuns {
  import opened Wrappers
  import opened Incidents

  /** An in-flight request: the version its client named, and the version the handler
      has read, if it has. */
  datatype Flight = Flight(named: nat, patch: Patch, audits: seq<Audit>, read: Option<nat>)

  /** A successful patch and the audit rows committed with it. */
  datatype Entry = Entry(named: nat, patch: Patch, audits: seq<Audit>, plain: seq<Audit>)

  /** `versions` are all committed states of the row, the last one current; entry `i`
      of the log made version `i + 1`. */
  datatype State = State(versions: seq<Incident>, flights: map<nat, Flight>, log: seq<Entry>)

  datatype Event =
    | Begin(request: nat, named: nat, patch: Patch, audits: seq<Audit>)
    | ReadPrev(request: nat)
    | Commit(request: nat, now: int)
    | Abort(request: nat)

  function Current(s: State): Incident
    requires s.versions != []
  {
    s.versions[|s.versions| - 1]
  }

  predicate Matches(s: State, f: Flight)
    requires s.versions != [] && f.named < |s.versions|
  {
    Current(s).updatedAt == s.versions[f.named].updatedAt
  }

  predicate WellFormed(s: State) {
    && s.versions != []
    && (forall r :: r in s.flights ==>
          s.flights[r].named < |s.versions| && (s.flights[r].read.Some? ==> s.flights[r].read.value < |s.versions|))
  }

  /** A version can be named only once it has been committed. The row's clock moves:
      `strict` asks every commit for a later updated_at than the one it replaces. */
  predicate Enabled(s: State, e: Event, strict: bool) {
    && WellFormed(s)
    && match e
       case Begin(r, named, _, _) => r !in s.flights && named < |s.versions|
       case ReadPrev(r) => r in s.flights && s.flights[r].read.None?
       case Commit(r, now) =>
         r in s.flights && s.flights[r].read.Some? &&
         (if strict then Current(s).updatedAt < now else Current(s).updatedAt <= now)
       case Abort(r) => r in s.flights
  }

  function After(s: State, e: Event): State
    requires Enabled(s, e, false)
  {
    match e
    case Begin(r, named, patch, audits) => s.(flights := s.flights[r := Flight(named, patch, audits, None)])
    case ReadPrev(r) => s.(flights := s.flights[r := s.flights[r].(read := Some(|s.versions| - 1))])
    case Commit(r, now) =>
      var f := s.flights[r];
      var ended := s.flights - {r};
      if Matches(s, f) then
        var audits := Enriched(f.audits, s.versions[f.read.value], f.patch);
        State(s.versions + [Applied(f.patch, Current(s), now)], ended,
              s.log + [Entry(f.named, f.patch, audits, f.audits)])
      else s.(flights := ended)
    case Abort(r) => s.(flights := s.flights - {r})
  }

  ghost predicate Legal(s: State, es: seq<Event>, strict: bool)
    decreases |es|, 0
  {
    es == [] || (Legal(s, es[..|es| - 1], strict) && Enabled(Final(s, es[..|es| - 1], strict), es[|es| - 1], strict))
  }

  ghost function Final(s: State, es: seq<Event>, strict: bool): State
    requires Legal(s, es, strict)
    decreases |es|, 1
  {
    if es == [] then s else After(Final(s, es[..|es| - 1], strict), es[|es| - 1])
  }

  ghost predicate Init(s: State) { |s.versions| == 1 && s.flights == map[] && s.log == [] }

  ghost predicate Increasing(versions: seq<Incident>) {
    forall i, j :: 0 <= i < j < |versions| ==> versions[i].updatedAt < versions[j].updatedAt
  }

  /** Entry `i` was applied to the very version its client named, and its audit rows
      carry the values of the version it overwrote. */
  ghost predicate LinkAt(s: State, i: nat)
    requires i < |s.log| && |s.versions| == |s.log| + 1
  {
    var e := s.log[i];
    && e.named == i
    && s.versions[i + 1] == Applied(e.patch, s.versions[i], s.versions[i + 1].updatedAt)
    && e.audits == Enriched(e.plain, s.versions[i], e.patch)
  }

  ghost predicate Chained(s: State) {
    && |s.versions| == |s.log| + 1
    && Increasing(s.versions)
    && (forall i: nat :: i < |s.log| ==> LinkAt(s, i))
    && (forall r :: r in s.flights && s.flights[r].read.Some? ==> s.flights[r].named <= s.flights[r].read.value)
  }

  lemma MatchIsCurrent(s: State, f: Flight)
    requires s.versions != [] && f.named < |s.versions| && Increasing(s.versions) && Matches(s, f)
    ensures f.named == |s.versions| - 1
  {
  }

  lemma CommitLinks(s: State, r: nat, now: int)
    requires Chained(s) && Enabled(s, Commit(r, now), true) && Matches(s, s.flights[r])
    ensures Chained(After(s, Commit(r, now)))
  {
    var f, t := s.flights[r], After(s, Commit(r, now));
    MatchIsCurrent(s, f);
    assert f.read.value == |s.versions| - 1;
    forall i: nat | i < |t.log|
      ensures LinkAt(t, i)
    {
      if i < |s.log| {
        assert LinkAt(s, i);
        assert t.versions[i] == s.versions[i] && t.versions[i + 1] == s.versions[i + 1] && t.log[i] == s.log[i];
      }
    }
  }

  lemma StepKeepsChain(s: State, e: Event)
    requires Chained(s) && Enabled(s, e, true)
    ensures Chained(After(s, e))
  {
    if e.Commit? && Matches(s, s.flights[e.request]) {
      CommitLinks(s, e.request, e.now);
    } else {
      assert After(s, e).versions == s.versions && After(s, e).log == s.log;
      forall i: nat | i < |s.log|
        ensures LinkAt(After(s, e), i)
      {
        assert LinkAt(s, i);
      }
    }
  }

  /** No lost updates: in every interleaving with a strictly increasing updated_at the
      successful patches form one chain, each applied to the version its client named,
      each audited with the values it really overwrote. */
  lemma {:induction false} PatchesFormChain(s: State, es: seq<Event>)
    requires Init(s) && Legal(s, es, true)
    ensures Chained(Final(s, es, true))
  {
    if es != [] {
      PatchesFormChain(s, es[..|es| - 1]);
      StepKeepsChain(Final(s, es[..|es| - 1], true), es[|es| - 1]);
    }
  }

  /** In particular no version is overwritten twice. */
  lemma OneWinnerPerVersion(s: State, es: seq<Event>, i: nat, j: nat)
    requires Init(s) && Legal(s, es, true)
    requires i < |Final(s, es, true).log| && j < |Final(s, es, true).log|
    requires Final(s, es, true).log[i].named == Final(s, es, true).log[j].named
    ensures i == j
  {
    PatchesFormChain(s, es);
    assert LinkAt(Final(s, es, true), i) && LinkAt(Final(s, es, true), j);
  }

  /** The clock has to move: of two requests that name the same version, the second
      overwrites the first unseen exactly when the first left updated_at unchanged. */
  lemma SecondWinsIffSameInstant(s: State, a: nat, b: nat, t1: int, t2: int)
    requires WellFormed(s) && a in s.flights && b in s.flights && a != b
    requires s.flights[a].named == s.flights[b].named == |s.versions| - 1
    requires s.flights[a].read.Some? && s.flights[b].read.Some? && Current(s).updatedAt <= t1 <= t2
    ensures Enabled(s, Commit(a, t1), false) && Enabled(After(s, Commit(a, t1)), Commit(b, t2), false)
    ensures |After(After(s, Commit(a, t1)), Commit(b, t2)).log| == |s.log| + 2 <==> t1 == Current(s).updatedAt
  {
  }

  // ----- what the current version holds

  /** Every version but the first was made from the one before it by its log entry. */
  ghost predicate Made(s: State) {
    && |s.versions| == |s.log| + 1
    && forall i: nat :: i < |s.log| ==> MadeAt(s, i)
  }

  ghost predicate MadeAt(s: State, i: nat)
    requires i < |s.log| && |s.versions| == |s.log| + 1
  {
    Overwritten(s.log[i].patch, s.versions[i], s.versions[i + 1], s.versions[i + 1].updatedAt)
  }

  lemma StepKeepsMade(s: State, e: Event)
    requires Made(s) && Enabled(s, e, false)
    ensures Made(After(s, e))
  {
    hide Overwritten;
    var t := After(s, e);
    forall i: nat | i < |t.log|
      ensures MadeAt(t, i)
    {
      if i < |s.log| {
        assert MadeAt(s, i);
        assert t.versions[i] == s.versions[i] && t.versions[i + 1] == s.versions[i + 1] && t.log[i] == s.log[i];
      } else {
        AppliedOverwrites(s.flights[e.request].patch, Current(s), e.now);
      }
    }
  }

  lemma StartIsMade(s: State)
    requires Init(s)
    ensures Made(s)
  {
  }

  lemma {:induction false} VersionsAreMade(s: State, es: seq<Event>, strict: bool)
    requires Init(s) && Legal(s, es, strict)
    ensures Made(Final(s, es, strict)) && Final(s, es, strict).versions[0] == s.versions[0]
  {
    hide Made;
    if es == [] {
      StartIsMade(s);
    } else {
      VersionsAreMade(s, es[..|es| - 1], strict);
      StepKeepsMade(Final(s, es[..|es| - 1], strict), es[|es| - 1]);
    }
  }

  /** `v` is what the last of the patches that names the field puts there, or what the
      field held before all of them. */
  ghost predicate LastNamed<T>(named: Patch -> Option<T>, log: seq<Entry>, first: T, v: T) {
    || (v == first && forall i :: 0 <= i < |log| ==> named(log[i].patch).None?)
    || (exists i :: 0 <= i < |log| && IsLastNamed(named, log, i, v))
  }

  ghost predicate IsLastNamed<T>(named: Patch -> Option<T>, log: seq<Entry>, i: nat, v: T)
    requires i < |log|
  {
    named(log[i].patch) == Some(v) && forall j :: i < j < |log| ==> named(log[j].patch).None?
  }

  /** What a patch says about the assignee: nothing, nobody, or somebody. */
  function NamedAssignee(p: Patch): Option<Option<string>> {
    if p.assigneeUnset then Some(None) else if p.assigneeId.Some? then Some(p.assigneeId) else None
  }

  function NamedResolution(p: Patch): Option<Option<string>> {
    if p.resolution.Some? then Some(p.resolution) else None
  }

  lemma LastNamedGrows<T>(named: Patch -> Option<T>, log: seq<Entry>, e: Entry, first: T, v: T, w: T)
    requires LastNamed(named, log, first, v)
    requires if named(e.patch).Some? then w == named(e.patch).value else w == v
    ensures LastNamed(named, log + [e], first, w)
  {
    var all := log + [e];
    if named(e.patch).Some? {
      assert IsLastNamed(named, all, |log|, w);
    } else if i :| 0 <= i < |log| && IsLastNamed(named, log, i, v) {
      assert IsLastNamed(named, all, i, w);
    } else {
      assert forall i :: 0 <= i < |all| ==> all[i] == if i < |log| then log[i] else e;
    }
  }

  ghost predicate HoldsLastNamed(first: Incident, log: seq<Entry>, v: Incident) {
    && LastNamed((p: Patch) => p.status, log, first.status, v.status)
    && LastNamed((p: Patch) => p.severity, log, first.severity, v.severity)
    && LastNamed(NamedAssignee, log, first.assignee, v.assignee)
    && LastNamed(NamedResolution, log, first.resolution, v.resolution)
  }

  lemma {:induction false} VersionHoldsLastNamed(s: State, n: nat)
    requires Made(s) && n <= |s.log|
    ensures HoldsLastNamed(s.versions[0], s.log[..n], s.versions[n])
  {
    hide LastNamed;
    if n == 0 {
      NothingNamed(s.versions[0]);
      assert s.log[..0] == [];
    } else {
      VersionHoldsLastNamed(s, n - 1);
      assert MadeAt(s, n - 1);
      var e, first, v, w := s.log[n - 1], s.versions[0], s.versions[n - 1], s.versions[n];
      var log := s.log[..n - 1];
      assert s.log[..n] == log + [e];
      LastNamedGrows((p: Patch) => p.status, log, e, first.status, v.status, w.status);
      LastNamedGrows((p: Patch) => p.severity, log, e, first.severity, v.severity, w.severity);
      LastNamedGrows(NamedAssignee, log, e, first.assignee, v.assignee, w.assignee);
      LastNamedGrows(NamedResolution, log, e, first.resolution, v.resolution, w.resolution);
    }
  }

  lemma NothingNamed(first: Incident)
    ensures HoldsLastNamed(first, [], first)
  {
  }

  /** No update is lost: in every run each field of the current version is what the last
      successful patch that named it says, or the initial value if none did; a patch that
      wins later keeps what it does not name. */
  lemma NoFieldIsLost(s: State, es: seq<Event>, strict: bool)
    requires Init(s) && Legal(s, es, strict)
    ensures var t := Final(s, es, strict); t.versions != [] && HoldsLastNamed(s.versions[0], t.log, Current(t))
  {
    VersionsAreMade(s, es, strict);
    var t := Final(s, es, strict);
    VersionHoldsLastNamed(t, |t.log|);
    assert t.log[..|t.log|] == t.log;
  }

  /** The audit rows of a successful patch tell what really changed: from the values of the
      version it overwrote to those of the version it made. */
  lemma AuditsTellTheTruth(s: State, es: seq<Event>, i: nat, k: nat)
    requires Init(s) && Legal(s, es, true)
    requires i < |Final(s, es, true).log| && k < |Final(s, es, true).log[i].plain|
    ensures var t := Final(s, es, true);
            var e := t.log[i];
            && |t.versions| == |t.log| + 1 && |e.audits| == |e.plain|
            && (e.audits[k].eventType == StatusChanged && e.patch.status.Some? ==>
                  e.audits[k].from == Some(t.versions[i].status) && e.audits[k].to == Some(t.versions[i + 1].status))
            && (e.audits[k].eventType == SeverityChanged && e.patch.severity.Some? ==>
                  && e.audits[k].from == Some(t.versions[i].severity)
                  && e.audits[k].to == Some(t.versions[i + 1].severity))
  {
    PatchesFormChain(s, es);
    VersionsAreMade(s, es, true);
    var t := Final(s, es, true);
    assert LinkAt(t, i) && MadeAt(t, i);
    EnrichedTells(t.log[i].plain, t.versions[i], t.log[i].patch);
  }

  /** A request that names the current version and is not overtaken wins: it is begun, the
      row is read, and the commit makes the next version from that one by its patch. */
  lemma CurrentRequestWins(s: State, r: nat, patch: Patch, audits: seq<Audit>, now: int)
    requires WellFormed(s) && r !in s.flights && Current(s).updatedAt < now
    ensures var es := [Begin(r, |s.versions| - 1, patch, audits), ReadPrev(r), Commit(r, now)];
      && Legal(s, es, true)
      && var t := Final(s, es, true);
         && |t.versions| == |s.versions| + 1 && t.versions[..|s.versions|] == s.versions
         && Overwritten(patch, Current(s), t.versions[|s.versions|], now)
         && |t.log| == |s.log| + 1 && t.log[|s.log|].patch == patch && t.flights == s.flights
  {
    var b, p, c := Begin(r, |s.versions| - 1, patch, audits), ReadPrev(r), Commit(r, now);
    var es := [b, p, c];
    assert es[..2] == [b, p] && [b, p][..1] == [b] && [b][..0] == [];
    assert Legal(s, [], true) && Final(s, [], true) == s;
    var s1 := After(s, b);
    assert Legal(s, [b], true) && Final(s, [b], true) == s1;
    var s2 := After(s1, p);
    assert Legal(s, [b, p], true) && Final(s, [b, p], true) == s2;
    assert Legal(s, es, true) && Final(s, es, true) == After(s2, c);
    assert s.flights[r := s2.flights[r]] - {r} == s.flights;
    AppliedOverwrites(patch, Current(s), now);
  }
}
