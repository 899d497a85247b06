// The document queue (rubezh-worker/app/queue.py, with the retry and delete of
// rubezh-api/internal/storage/documents.go). Each statement is one atomic step on
// the document rows; rows are never removed, so a document's id is its index.
module DocumentQueue {
  import opened Wrappers

  datatype Status = Pending | Processing | Done | Failed | Deleted

  datatype Phase = Parsing | Chunking | Sanitizing | Embedding

  datatype Document = Document(
    status: Status, attempts: nat, startedAt: Option<int>, phase: Option<Phase>,
    error: Option<string>, createdAt: int, storageKey: string)

  // ----- what each statement does to one row

  function New(now: int, storageKey: string): Document {
    Document(Pending, 0, None, None, None, now, storageKey)
  }

  /** `processing_started_at < now() - threshold`; a null start time is not stuck. */
  predicate Stuck(d: Document, now: int, threshold: int) {
    d.status == Processing && d.startedAt.Some? && d.startedAt.value < now - threshold
  }

  function Requeued(d: Document, now: int, threshold: int): Document {
    if Stuck(d, now, threshold) then d.(status := Pending, startedAt := None, phase := None) else d
  }

  function Claimed(d: Document, now: int): Document {
    d.(status := Processing, startedAt := Some(now), attempts := d.attempts + 1)
  }

  function Beaten(d: Document, now: int): Document {
    if d.status == Processing then d.(startedAt := Some(now)) else d
  }

  function Finished(d: Document): Document {
    d.(status := Done, startedAt := None, phase := None, error := None)
  }

  function Broken(d: Document, error: string): Document {
    d.(status := Failed, startedAt := None, phase := None, error := Some(error))
  }

  function Retried(d: Document): Document {
    d.(status := Pending, attempts := 0, error := None, startedAt := None, phase := None)
  }

  function SoftDeleted(d: Document): Document {
    d.(status := Deleted, storageKey := "", phase := None)
  }

  /** What each statement leaves in a row, and what it leaves alone. */
  lemma RowsTell(d: Document, now: int, threshold: int, error: string)
    ensures New(now, error) == Document(Pending, 0, None, None, None, now, error)
    ensures Claimed(d, now) ==
            Document(Processing, d.attempts + 1, Some(now), d.phase, d.error, d.createdAt, d.storageKey)
    ensures d.status == Processing ==>
              Beaten(d, now) == Document(Processing, d.attempts, Some(now), d.phase, d.error, d.createdAt, d.storageKey)
    ensures d.status != Processing ==> Beaten(d, now) == d
    ensures Finished(d) == Document(Done, d.attempts, None, None, None, d.createdAt, d.storageKey)
    ensures Broken(d, error) == Document(Failed, d.attempts, None, None, Some(error), d.createdAt, d.storageKey)
    ensures Retried(d) == Document(Pending, 0, None, None, None, d.createdAt, d.storageKey)
    ensures SoftDeleted(d) == Document(Deleted, d.attempts, d.startedAt, None, d.error, d.createdAt, "")
    ensures Stuck(d, now, threshold) ==>
              Requeued(d, now, threshold) ==
                Document(Pending, d.attempts, None, None, d.error, d.createdAt, d.storageKey)
    ensures !Stuck(d, now, threshold) ==> Requeued(d, now, threshold) == d
    ensures Stuck(d, now, threshold) <==>
              d.status == Processing && exists t :: d.startedAt == Some(t) && t + threshold < now
  {
    if Stuck(d, now, threshold) {
      assert d.startedAt == Some(d.startedAt.value);
    }
  }

  // ----- which row a claim takes

  predicate Eligible(docs: seq<Document>, max: nat, locked: set<nat>, id: nat) {
    id < |docs| && docs[id].status == Pending && docs[id].attempts < max && id !in locked
  }

  /** The oldest eligible row; rows locked by a concurrent claim are skipped. */
  predicate Oldest(docs: seq<Document>, max: nat, locked: set<nat>, id: nat) {
    && Eligible(docs, max, locked, id)
    && forall j: nat :: j < |docs| && Eligible(docs, max, locked, j) ==> docs[id].createdAt <= docs[j].createdAt
  }

  lemma {:induction false} OldestExists(docs: seq<Document>, max: nat, locked: set<nat>, n: nat) returns (id: nat)
    requires n <= |docs| && exists j: nat :: j < n && Eligible(docs, max, locked, j)
    ensures id < n && Eligible(docs, max, locked, id)
    ensures forall j: nat :: j < n && Eligible(docs, max, locked, j) ==> docs[id].createdAt <= docs[j].createdAt
  {
    if exists j: nat :: j < n - 1 && Eligible(docs, max, locked, j) {
      id := OldestExists(docs, max, locked, n - 1);
      if Eligible(docs, max, locked, n - 1) && docs[n - 1].createdAt < docs[id].createdAt {
        id := n - 1;
      }
    } else {
      id := n - 1;
    }
  }

  function RequeueAll(docs: seq<Document>, now: int, threshold: int): (r: seq<Document>)
    ensures |r| == |docs|
    ensures forall i :: 0 <= i < |docs| ==> r[i] == Requeued(docs[i], now, threshold)
  {
    seq(|docs|, i requires 0 <= i < |docs| => Requeued(docs[i], now, threshold))
  }

  function StuckCount(docs: seq<Document>, now: int, threshold: int): nat {
    if docs == [] then 0
    else StuckCount(docs[..|docs| - 1], now, threshold) + if Stuck(docs[|docs| - 1], now, threshold) then 1 else 0
  }

  /** The rows a requeue touches. */
  function StuckRows(docs: seq<Document>, now: int, threshold: int): set<nat> {
    set i: nat | i < |docs| && Stuck(docs[i], now, threshold)
  }

  lemma {:induction false} CountIsCardinality(docs: seq<Document>, now: int, threshold: int)
    ensures StuckCount(docs, now, threshold) == |StuckRows(docs, now, threshold)|
  {
    if docs == [] {
      assert StuckRows(docs, now, threshold) == {};
    } else {
      var n := |docs| - 1;
      CountIsCardinality(docs[..n], now, threshold);
      var front := StuckRows(docs[..n], now, threshold);
      assert StuckRows(docs, now, threshold) == front + if Stuck(docs[n], now, threshold) then {n} else {};
    }
  }

  /** The `documents` table. An update whose WHERE matches no row changes nothing. */
  class DocumentTable {
    var docs: seq<Document>

    constructor ()
      ensures docs == []
    {
      docs := [];
    }

    method Insert(now: int, storageKey: string) returns (id: nat)
      modifies this
      ensures id == old(|docs|) && docs == old(docs) + [New(now, storageKey)]
      ensures docs[id] == Document(Pending, 0, None, None, None, now, storageKey)
    {
      id := |docs|;
      docs := docs + [New(now, storageKey)];
    }

    method RequeueStuck(now: int, threshold: int) returns (n: nat)
      modifies this
      ensures docs == RequeueAll(old(docs), now, threshold)
      ensures |docs| == |old(docs)| && forall i :: 0 <= i < |docs| && i !in StuckRows(old(docs), now, threshold) ==>
                docs[i] == old(docs)[i]
      ensures forall i :: i in StuckRows(old(docs), now, threshold) ==>
                && old(docs)[i].status == Processing && old(docs)[i].startedAt.Some?
                && old(docs)[i].startedAt.value < now - threshold
                && docs[i] == old(docs)[i].(status := Pending, startedAt := None, phase := None)
      ensures n == |StuckRows(old(docs), now, threshold)| && StuckRows(docs, now, threshold) == {}
    {
      CountIsCardinality(docs, now, threshold);
      n := StuckCount(docs, now, threshold);
      docs := RequeueAll(docs, now, threshold);
    }

    method ClaimNext(max: nat, now: int, locked: set<nat>) returns (claimed: Option<nat>)
      modifies this
      ensures claimed.None? <==> forall id: nat :: id < |old(docs)| ==> !Eligible(old(docs), max, locked, id)
      ensures claimed.None? ==> docs == old(docs)
      ensures claimed.Some? ==>
                var id := claimed.value;
                Oldest(old(docs), max, locked, id) && docs == old(docs)[id := Claimed(old(docs)[id], now)]
      ensures claimed.None? ==>
                forall id: nat :: id < |docs| && docs[id].status == Pending && docs[id].attempts < max ==> id in locked
      ensures claimed.Some? ==>
                var id := claimed.value;
                && id < |old(docs)| && id !in locked && |docs| == |old(docs)|
                && old(docs)[id].status == Pending && old(docs)[id].attempts < max
                && (forall j: nat ::
                      j < |old(docs)| && j !in locked && old(docs)[j].status == Pending && old(docs)[j].attempts < max
                      ==> old(docs)[id].createdAt <= old(docs)[j].createdAt)
                && docs[id] == old(docs)[id].(
                     status := Processing, startedAt := Some(now), attempts := old(docs)[id].attempts + 1)
    {
      if exists id: nat :: id < |docs| && Eligible(docs, max, locked, id) {
        ghost var first := OldestExists(docs, max, locked, |docs|);
        assert Oldest(docs, max, locked, first);
        var id: nat :| id < |docs| && Oldest(docs, max, locked, id);
        docs := docs[id := Claimed(docs[id], now)];
        claimed := Some(id);
      } else {
        claimed := None;
        forall id: nat | id < |docs| && docs[id].status == Pending && docs[id].attempts < max
          ensures id in locked
        {
          assert !Eligible(docs, max, locked, id);
        }
      }
    }

    method Heartbeat(id: nat, now: int)
      modifies this
      ensures docs == if id < |old(docs)| then old(docs)[id := Beaten(old(docs)[id], now)] else old(docs)
    {
      if id < |docs| && docs[id].status == Processing {
        docs := docs[id := docs[id].(startedAt := Some(now))];
      }
    }

    method UpdatePhase(id: nat, phase: Option<Phase>)
      modifies this
      ensures docs == if id < |old(docs)| then old(docs)[id := old(docs)[id].(phase := phase)] else old(docs)
    {
      if id < |docs| {
        docs := docs[id := docs[id].(phase := phase)];
      }
    }

    method MarkDone(id: nat)
      modifies this
      ensures docs == if id < |old(docs)| then old(docs)[id := Finished(old(docs)[id])] else old(docs)
    {
      if id < |docs| {
        docs := docs[id := docs[id].(status := Done, startedAt := None, phase := None, error := None)];
      }
    }

    method MarkFailed(id: nat, error: string)
      modifies this
      ensures docs == if id < |old(docs)| then old(docs)[id := Broken(old(docs)[id], error)] else old(docs)
    {
      if id < |docs| {
        docs := docs[id := docs[id].(status := Failed, startedAt := None, phase := None, error := Some(error))];
      }
    }

    method SoftDelete(id: nat) returns (found: bool)
      modifies this
      ensures found == (id < |old(docs)| && old(docs)[id].status != Deleted)
      ensures docs == if found then old(docs)[id := SoftDeleted(old(docs)[id])] else old(docs)
    {
      found := id < |docs| && docs[id].status != Deleted;
      if found {
        docs := docs[id := docs[id].(status := Deleted, storageKey := "", phase := None)];
      }
    }

    method Retry(id: nat) returns (found: bool)
      modifies this
      ensures found == (id < |old(docs)| && old(docs)[id].status == Failed)
      ensures docs == if found then old(docs)[id := Retried(old(docs)[id])] else old(docs)
    {
      found := id < |docs| && docs[id].status == Failed;
      if found {
        docs := docs[id := docs[id].(
          status := Pending, attempts := 0, error := None, startedAt := None, phase := None)];
      }
    }
  }
}
