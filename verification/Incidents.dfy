// Incident PATCH (rubezh-api/internal/storage/incidents.go and
// rubezh-api/internal/api/incidents.go): compare-and-swap on updated_at with the
// audit rows in the same transaction, and the handler that prepares both.
module Incidents {
  import opened Wrappers

  datatype Incident = Incident(
    status: string, severity: string, assignee: Option<string>, resolution: Option<string>,
    closedAt: Option<int>, updatedAt: int)

  /** Every field optional; None leaves the column alone. */
  datatype Patch = Patch(
    status: Option<string>, severity: Option<string>, assigneeId: Option<string>,
    resolution: Option<string>, assigneeUnset: bool)

  /** The event types incident_status_changed, incident_severity_changed,
      incident_assigned and incident_resolved. */
  datatype EventType = StatusChanged | SeverityChanged | Assigned | Resolved

  datatype Audit = Audit(userId: string, eventType: EventType, from: Option<string>, to: Option<string>)

  predicate Closed(status: string) { status == "resolved" || status == "false_positive" }

  function Or<T>(v: Option<T>, otherwise: T): T { if v.Some? then v.value else otherwise }

  /** The UPDATE with its SET list, followed by the closed_at trigger. */
  function Applied(p: Patch, old_: Incident, now: int): Incident {
    var status := Or(p.status, old_.status);
    Incident(
      status, Or(p.severity, old_.severity),
      if p.assigneeUnset then None else if p.assigneeId.Some? then p.assigneeId else old_.assignee,
      if p.resolution.Some? then p.resolution else old_.resolution,
      if Closed(status) && !Closed(old_.status) then Some(now)
      else if !Closed(status) && Closed(old_.status) then None
      else old_.closedAt,
      now)
  }

  ghost predicate IsClosed(status: string) { status in {"resolved", "false_positive"} }

  /** What a patch does, field by field: a field it names gets its value, `assigneeUnset`
      leaves none, every other field is kept; `closedAt` is set when the status enters a
      closed one, cleared when it leaves one, and otherwise kept. */
  ghost predicate Overwritten(p: Patch, before: Incident, after: Incident, now: int) {
    && (p.status.Some? ==> after.status == p.status.value)
    && (p.status.None? ==> after.status == before.status)
    && (p.severity.Some? ==> after.severity == p.severity.value)
    && (p.severity.None? ==> after.severity == before.severity)
    && (p.assigneeUnset ==> after.assignee == None)
    && (!p.assigneeUnset && p.assigneeId.Some? ==> after.assignee == p.assigneeId)
    && (!p.assigneeUnset && p.assigneeId.None? ==> after.assignee == before.assignee)
    && (p.resolution.Some? ==> after.resolution == p.resolution)
    && (p.resolution.None? ==> after.resolution == before.resolution)
    && (IsClosed(after.status) && !IsClosed(before.status) ==> after.closedAt == Some(now))
    && (!IsClosed(after.status) && IsClosed(before.status) ==> after.closedAt == None)
    && ((IsClosed(after.status) <==> IsClosed(before.status)) ==> after.closedAt == before.closedAt)
    && after.updatedAt == now
  }

  lemma AppliedOverwrites(p: Patch, before: Incident, now: int)
    ensures Overwritten(p, before, Applied(p, before, now), now)
  {
  }

  datatype PatchResult = Patched(incident: Incident) | NotFound | Conflict | StorageError

  class IncidentTable {
    var rows: map<string, Incident>
    var audits: seq<Audit>

    constructor (rows: map<string, Incident>)
      ensures this.rows == rows && audits == []
    {
      this.rows, audits := rows, [];
    }

    /** `WHERE id = $1 AND updated_at = $2`; nothing matched is told apart afterwards. */
    method ApplyIncidentPatch(id: string, p: Patch, expected: int, now: int) returns (r: PatchResult)
      modifies `rows
      ensures r.NotFound? <==> id !in old(rows)
      ensures r.Conflict? <==> id in old(rows) && old(rows)[id].updatedAt != expected
      ensures !r.StorageError?
      ensures r.Patched? ==> r.incident == Applied(p, old(rows)[id], now)
      ensures r.Patched? ==> Overwritten(p, old(rows)[id], r.incident, now)
      ensures rows == if r.Patched? then old(rows)[id := r.incident] else old(rows)
    {
      if id in rows && rows[id].updatedAt == expected {
        var inc := Applied(p, rows[id], now);
        rows := rows[id := inc];
        return Patched(inc);
      }
      if id !in rows {
        return NotFound;
      }
      return Conflict;
    }

    /** Row and audits change together or not at all. `auditsStored` says how many of
        the audit inserts succeed; a short count rolls everything back. */
    method PatchIncident(id: string, p: Patch, expected: int, audits0: seq<Audit>, now: int, auditsStored: nat)
      returns (r: PatchResult)
      modifies this
      ensures r.NotFound? <==> id !in old(rows)
      ensures r.Conflict? <==> id in old(rows) && old(rows)[id].updatedAt != expected
      ensures r.Patched? <==> id in old(rows) && old(rows)[id].updatedAt == expected && |audits0| <= auditsStored
      ensures r.Patched? ==> r.incident == Applied(p, old(rows)[id], now)
      ensures r.Patched? ==> Overwritten(p, old(rows)[id], r.incident, now)
      ensures rows == if r.Patched? then old(rows)[id := r.incident] else old(rows)
      ensures audits == if r.Patched? then old(audits) + audits0 else old(audits)
    {
      var rows0, log0 := rows, audits;
      r := ApplyIncidentPatch(id, p, expected, now);
      if !r.Patched? {
        return r;
      }
      for i := 0 to |audits0|
        invariant i <= auditsStored && audits == log0 + audits0[..i]
        invariant rows == old(rows)[id := r.incident]
      {
        if i == auditsStored {
          rows, audits := rows0, log0;
          return StorageError;
        }
        audits := audits + [audits0[i]];
      }
      assert audits0[..|audits0|] == audits0;
    }
  }

  // ----- the handler

  datatype Request = Request(
    status: Option<string>, severity: Option<string>, assigneeId: Option<string>,
    resolution: Option<string>, assigneeUnset: Option<bool>)

  predicate ValidStatus(s: string) { s in ["open", "investigating", "resolved", "false_positive"] }

  predicate ValidSeverity(s: string) { s in ["low", "medium", "high", "critical"] }

  datatype BuildResult = Rejected | Built(patch: Patch, audits: seq<Audit>)

  /** A request is accepted iff its values are known, an assignee is not both set and
      removed, and closing comes with a resolution. */
  predicate Acceptable(d: Request, isUuid: string -> bool) {
    && (d.status.Some? ==> ValidStatus(d.status.value))
    && (d.severity.Some? ==> ValidSeverity(d.severity.value))
    && (d.assigneeUnset == Some(true) ==> d.assigneeId.None?)
    && (d.assigneeUnset != Some(true) && d.assigneeId.Some? ==> isUuid(d.assigneeId.value))
    && (d.status.Some? && Closed(d.status.value) ==> d.resolution.Some? && d.resolution.value != "")
  }

  /** What every accepted request satisfies, and every request that also names its
      assignee by a UUID is accepted for. */
  ghost predicate Wellformed(d: Request) {
    && (d.status.Some? ==> d.status.value in {"open", "investigating", "resolved", "false_positive"})
    && (d.severity.Some? ==> d.severity.value in {"low", "medium", "high", "critical"})
    && !(d.assigneeUnset == Some(true) && d.assigneeId.Some?)
    && (d.status.Some? && d.status.value in {"resolved", "false_positive"} ==>
          d.resolution.Some? && d.resolution.value != "")
  }

  lemma AcceptableIff(d: Request, isUuid: string -> bool)
    ensures Acceptable(d, isUuid) <==> Wellformed(d) && (d.assigneeId.Some? ==> isUuid(d.assigneeId.value))
  {
  }

  function Count(audits: seq<Audit>, eventType: EventType): nat {
    if audits == [] then 0
    else Count(audits[..|audits| - 1], eventType) + if audits[|audits| - 1].eventType == eventType then 1 else 0
  }

  function One(b: bool): nat { if b then 1 else 0 }

  /** One audit per kind of change the request makes, none for the rest. */
  ghost predicate AuditsFit(d: Request, actor: string, audits: seq<Audit>) {
    && (forall i :: 0 <= i < |audits| ==>
          audits[i].userId == actor && audits[i].from == None && audits[i].to == None)
    && Count(audits, StatusChanged) == One(d.status.Some?)
    && Count(audits, SeverityChanged) == One(d.severity.Some?)
    && Count(audits, Assigned) == One(d.assigneeUnset == Some(true) || d.assigneeId.Some?)
    && Count(audits, Resolved) == One(d.status.Some? && Closed(d.status.value))
  }

  lemma CountAppend(audits: seq<Audit>, a: Audit, eventType: EventType)
    ensures Count(audits + [a], eventType) == Count(audits, eventType) + One(a.eventType == eventType)
  {
    assert (audits + [a])[..|audits|] == audits;
  }

  lemma NoAudits()
    ensures forall t :: Count([], t) == 0
  {
  }

  lemma CountsAppend(audits: seq<Audit>, a: Audit)
    ensures forall t :: Count(audits + [a], t) == Count(audits, t) + One(a.eventType == t)
  {
    forall t
      ensures Count(audits + [a], t) == Count(audits, t) + One(a.eventType == t)
    {
      CountAppend(audits, a, t);
    }
  }

  method BuildIncidentPatch(d: Request, actor: string, isUuid: string -> bool) returns (r: BuildResult)
    ensures r.Built? <==> Acceptable(d, isUuid)
    ensures r.Built? <==> Wellformed(d) && (d.assigneeId.Some? ==> isUuid(d.assigneeId.value))
    ensures r.Built? ==> AuditsFit(d, actor, r.audits)
    ensures r.Built? ==>
              && r.patch.status == d.status && r.patch.severity == d.severity && r.patch.resolution == d.resolution
              && r.patch.assigneeUnset == (d.assigneeUnset == Some(true)) && r.patch.assigneeId == d.assigneeId
  {
    hide Count, Wellformed;
    AcceptableIff(d, isUuid);
    NoAudits();
    var audits: seq<Audit> := [];
    if d.status.Some? {
      if !ValidStatus(d.status.value) { return Rejected; }
      CountsAppend(audits, Audit(actor, StatusChanged, None, None));
      audits := audits + [Audit(actor, StatusChanged, None, None)];
    }
    if d.severity.Some? {
      if !ValidSeverity(d.severity.value) { return Rejected; }
      CountsAppend(audits, Audit(actor, SeverityChanged, None, None));
      audits := audits + [Audit(actor, SeverityChanged, None, None)];
    }
    var unset := d.assigneeUnset == Some(true);
    if unset {
      if d.assigneeId.Some? { return Rejected; }
    } else if d.assigneeId.Some? && !isUuid(d.assigneeId.value) {
      return Rejected;
    }
    if unset || d.assigneeId.Some? {
      CountsAppend(audits, Audit(actor, Assigned, None, None));
      audits := audits + [Audit(actor, Assigned, None, None)];
    }
    if d.status.Some? && Closed(d.status.value) {
      if d.resolution.None? || d.resolution.value == "" { return Rejected; }
      CountsAppend(audits, Audit(actor, Resolved, None, None));
      audits := audits + [Audit(actor, Resolved, None, None)];
    }
    return Built(Patch(d.status, d.severity, d.assigneeId, d.resolution, unset), audits);
  }

  /** The audit rows say what the patch overwrote: `prev`'s values, and what with. */
  function EnrichedOne(a: Audit, prev: Incident, p: Patch): Audit {
    if a.eventType == StatusChanged then a.(from := Some(prev.status), to := if p.status.Some? then p.status else a.to)
    else if a.eventType == SeverityChanged then
      a.(from := Some(prev.severity), to := if p.severity.Some? then p.severity else a.to)
    else a
  }

  function Enriched(audits: seq<Audit>, prev: Incident, p: Patch): (r: seq<Audit>)
    ensures |r| == |audits| && forall i :: 0 <= i < |r| ==> r[i] == EnrichedOne(audits[i], prev, p)
  {
    seq(|audits|, i requires 0 <= i < |audits| => EnrichedOne(audits[i], prev, p))
  }

  /** Per event type: a status audit goes from the previous status to the one the patch
      names, a severity audit likewise, and no other audit changes. */
  ghost predicate Tells(plain: Audit, a: Audit, prev: Incident, p: Patch) {
    && a.userId == plain.userId && a.eventType == plain.eventType
    && match plain.eventType
       case StatusChanged =>
         a.from == Some(prev.status) && (p.status.Some? ==> a.to == p.status) && (p.status.None? ==> a.to == plain.to)
       case SeverityChanged =>
         && a.from == Some(prev.severity)
         && (p.severity.Some? ==> a.to == p.severity) && (p.severity.None? ==> a.to == plain.to)
       case Assigned => a == plain
       case Resolved => a == plain
  }

  lemma EnrichedTells(audits: seq<Audit>, prev: Incident, p: Patch)
    ensures forall i :: 0 <= i < |audits| ==> Tells(audits[i], Enriched(audits, prev, p)[i], prev, p)
  {
  }

  /** `enrichAuditsWithFrom`, which updates the list it is given. */
  method EnrichAuditsWithFrom(audits: array<Audit>, prev: Incident, p: Patch)
    modifies audits
    ensures audits[..] == Enriched(old(audits[..]), prev, p)
    ensures forall i :: 0 <= i < audits.Length ==> Tells(old(audits[i]), audits[i], prev, p)
  {
    for i := 0 to audits.Length
      invariant forall k :: 0 <= k < i ==> audits[k] == EnrichedOne(old(audits[k]), prev, p)
      invariant forall k :: i <= k < audits.Length ==> audits[k] == old(audits[k])
    {
      if audits[i].eventType == StatusChanged {
        audits[i] := audits[i].(from := Some(prev.status), to := if p.status.Some? then p.status else audits[i].to);
      } else if audits[i].eventType == SeverityChanged {
        audits[i] := audits[i].(from := Some(prev.severity),
                                to := if p.severity.Some? then p.severity else audits[i].to);
      }
    }
  }
}
