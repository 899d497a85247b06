// Processing one document (rubezh-worker/app/processor.py) against the chunk and
// result tables: cleanup, indexed inserts, one aggregate, a terminal mark. Any
// statement or service call may fail; `fails` decides, by the number of the call.
module Processor {
  import opened Wrappers

  datatype RiskLevel = Low | Medium | High | Critical | Other(name: string)

  datatype Risk = Risk(level: RiskLevel, score: real, classes: set<string>, entities: seq<string>)

  /** One answer of the sanitizer; `sanitizedText` may be missing or empty. */
  datatype Answer = Answer(sanitizedText: Option<string>, risk: Risk)

  datatype Chunk = Chunk(text: string, tokenCount: nat)

  /** `vectorOf` is the text the row's vector was computed from, once it has one. */
  datatype ChunkRow = ChunkRow(content: string, tokenCount: nat, vectorOf: Option<string>)

  datatype Insert = Inserted | UniqueViolation | Unavailable

  datatype Outcome = Done | Failed

  // ----- aggregated risk

  /** `levels_order.get(level, 0)`. */
  function Rank(level: RiskLevel): nat {
    match level
    case Medium => 1
    case High => 2
    case Critical => 3
    case _ => 0
  }

  function Entities(answers: seq<Answer>): seq<string> {
    if answers == [] then [] else Entities(answers[..|answers| - 1]) + answers[|answers| - 1].risk.entities
  }

  /** The document's risk: the highest level and score of its chunks, the union of
      their classes, their entities in order. A level nobody knows counts as low. */
  ghost predicate IsAggregate(answers: seq<Answer>, agg: Risk) {
    && (forall i :: 0 <= i < |answers| ==> Rank(answers[i].risk.level) <= Rank(agg.level))
    && (agg.level == Low || exists i :: 0 <= i < |answers| && answers[i].risk.level == agg.level && Rank(agg.level) > 0)
    && agg.score >= 0.0
    && (forall i :: 0 <= i < |answers| ==> answers[i].risk.score <= agg.score)
    && (agg.score == 0.0 || exists i :: 0 <= i < |answers| && answers[i].risk.score == agg.score)
    && (forall c :: c in agg.classes <==> exists i :: 0 <= i < |answers| && c in answers[i].risk.classes)
    && agg.entities == Entities(answers)
  }

  ghost predicate SomeAt(answers: seq<Answer>, level: RiskLevel) {
    exists i :: 0 <= i < |answers| && answers[i].risk.level == level
  }

  /** The levels in order: critical if any chunk is, else high, else medium, else low. */
  ghost predicate TopLevel(answers: seq<Answer>, level: RiskLevel) {
    level == if SomeAt(answers, Critical) then Critical
             else if SomeAt(answers, High) then High
             else if SomeAt(answers, Medium) then Medium
             else Low
  }

  lemma AggregateIsTop(answers: seq<Answer>, agg: Risk)
    requires IsAggregate(answers, agg)
    ensures TopLevel(answers, agg.level)
  {
  }

  method AggregateRisk(answers: seq<Answer>) returns (agg: Risk)
    ensures IsAggregate(answers, agg) && TopLevel(answers, agg.level)
  {
    agg := Risk(Low, 0.0, {}, []);
    for i := 0 to |answers|
      invariant IsAggregate(answers[..i], agg)
    {
      var risk := answers[i].risk;
      var level := if Rank(risk.level) > Rank(agg.level) then risk.level else agg.level;
      var score := if risk.score > agg.score then risk.score else agg.score;
      AggregateStep(answers[..i], answers[i], agg, level, score);
      assert answers[..i + 1] == answers[..i] + [answers[i]];
      agg := Risk(level, score, agg.classes + risk.classes, agg.entities + risk.entities);
    }
    assert answers[..|answers|] == answers;
    AggregateIsTop(answers, agg);
  }

  lemma AggregateStep(front: seq<Answer>, a: Answer, agg: Risk, level: RiskLevel, score: real)
    requires IsAggregate(front, agg)
    requires level == if Rank(a.risk.level) > Rank(agg.level) then a.risk.level else agg.level
    requires score == if a.risk.score > agg.score then a.risk.score else agg.score
    ensures IsAggregate(front + [a], Risk(level, score, agg.classes + a.risk.classes, agg.entities + a.risk.entities))
  {
    var all := front + [a];
    assert all[|front|] == a && all[..|front|] == front;
    assert forall i :: 0 <= i < |front| ==> all[i] == front[i];
    forall c
      ensures c in agg.classes + a.risk.classes <==> exists i :: 0 <= i < |all| && c in all[i].risk.classes
    {
      if c in agg.classes {
        var i :| 0 <= i < |front| && c in front[i].risk.classes;
        assert c in all[i].risk.classes;
      }
      if c in a.risk.classes {
        assert c in all[|front|].risk.classes;
      }
    }
    if level != Low && level == agg.level {
      var i :| 0 <= i < |front| && front[i].risk.level == agg.level && Rank(agg.level) > 0;
      assert all[i].risk.level == level;
    }
    if score != 0.0 && score == agg.score {
      var i :| 0 <= i < |front| && front[i].risk.score == agg.score;
      assert all[i].risk.score == score;
    }
  }

  // ----- the rows a run leaves

  /** `san.get("sanitized_text") or chunk.text`. */
  function Content(chunk: Chunk, answer: Answer): string {
    if answer.sanitizedText.Some? && answer.sanitizedText.value != "" then answer.sanitizedText.value else chunk.text
  }

  /** The rows asked for: chunks paired with answers, as far as both go. */
  function Wanted(chunks: seq<Chunk>, answers: seq<Answer>): (rows: seq<ChunkRow>)
    ensures |rows| == if |chunks| <= |answers| then |chunks| else |answers|
  {
    var n := if |chunks| <= |answers| then |chunks| else |answers|;
    seq(n, i requires 0 <= i < n =>
      var content := Content(chunks[i], answers[i]); ChunkRow(content, chunks[i].tokenCount, Some(content)))
  }

  /** What a row holds: the sanitizer's text whenever there is one, else the chunk's own;
      and the chunk's token count. */
  predicate Holds(row: ChunkRow, chunk: Chunk, answer: Answer) {
    && row.tokenCount == chunk.tokenCount
    && match answer.sanitizedText
       case Some(text) => row.content == if text == "" then chunk.text else text
       case None => row.content == chunk.text
  }

  /** The rows of a finished run. */
  ghost predicate Stored(table: map<(nat, nat), ChunkRow>, doc: nat, chunks: seq<Chunk>, answers: seq<Answer>) {
    forall i: nat ::
      && ((doc, i) in table <==> i < |chunks| && i < |answers|)
      && ((doc, i) in table ==> Holds(table[(doc, i)], chunks[i], answers[i]))
      && ((doc, i) in table ==> table[(doc, i)].vectorOf == Some(table[(doc, i)].content))
  }

  /** The raw text of a chunk leaves no trace where the sanitizer gave a text: two runs
      with the same answers and token counts end with the same rows. */
  lemma RawTextLeavesNoTrace(one: map<(nat, nat), ChunkRow>, two: map<(nat, nat), ChunkRow>, doc: nat,
                             a: seq<Chunk>, b: seq<Chunk>, answers: seq<Answer>)
    requires Stored(one, doc, a, answers) && Stored(two, doc, b, answers)
    requires |a| == |b| && forall i :: 0 <= i < |a| ==> a[i].tokenCount == b[i].tokenCount
    requires forall i :: 0 <= i < |answers| ==> answers[i].sanitizedText !in {None, Some("")}
    ensures forall i: nat ::
              ((doc, i) in one <==> (doc, i) in two) && ((doc, i) in one ==> one[(doc, i)] == two[(doc, i)])
  {
    forall i: nat
      ensures ((doc, i) in one <==> (doc, i) in two) && ((doc, i) in one ==> one[(doc, i)] == two[(doc, i)])
    {
      if (doc, i) in one {
        assert Holds(one[(doc, i)], a[i], answers[i]) && Holds(two[(doc, i)], b[i], answers[i]);
      }
    }
  }

  /** The rows of one document are exactly `rows`, at indices 0, 1, ... */
  ghost predicate HasExactly(table: map<(nat, nat), ChunkRow>, doc: nat, rows: seq<ChunkRow>) {
    forall i: nat :: ((doc, i) in table <==> i < |rows|) && (i < |rows| ==> table[(doc, i)] == rows[i])
  }

  ghost predicate SameElsewhere(a: map<(nat, nat), ChunkRow>, b: map<(nat, nat), ChunkRow>, doc: nat) {
    forall other: nat, i: nat :: other != doc ==>
      ((other, i) in a <==> (other, i) in b) && ((other, i) in a ==> a[(other, i)] == b[(other, i)])
  }

  /** `rows` is a beginning of `wanted`, its last row perhaps without its vector yet. */
  ghost predicate PartOf(rows: seq<ChunkRow>, wanted: seq<ChunkRow>) {
    && |rows| <= |wanted|
    && (forall i :: 0 <= i < |rows| ==>
          rows[i].content == wanted[i].content && rows[i].tokenCount == wanted[i].tokenCount)
    && (forall i :: 0 <= i < |rows| - 1 ==> rows[i] == wanted[i])
  }

  class ChunkStore {
    var chunks: map<(nat, nat), ChunkRow>
    var results: map<nat, seq<Risk>>

    /** Both deletes, in one transaction. */
    method CleanupPreviousRun(doc: nat)
      modifies this
      ensures HasExactly(chunks, doc, []) && SameElsewhere(old(chunks), chunks, doc)
      ensures results == old(results) - {doc}
    {
      chunks := map key | key in chunks && key.0 != doc :: chunks[key];
      results := results - {doc};
    }

    /** UNIQUE (document_id, chunk_index). */
    method InsertChunk(doc: nat, idx: nat, content: string, tokenCount: nat, down: bool) returns (r: Insert)
      modifies `chunks
      ensures r == if down then Unavailable else if (doc, idx) in old(chunks) then UniqueViolation else Inserted
      ensures chunks ==
                if r.Inserted? then old(chunks)[(doc, idx) := ChunkRow(content, tokenCount, None)] else old(chunks)
    {
      if down {
        return Unavailable;
      }
      if (doc, idx) in chunks {
        return UniqueViolation;
      }
      chunks := chunks[(doc, idx) := ChunkRow(content, tokenCount, None)];
      return Inserted;
    }

    method InsertEmbedding(doc: nat, idx: nat, text: string)
      requires (doc, idx) in chunks
      modifies `chunks
      ensures chunks == old(chunks)[(doc, idx) := old(chunks)[(doc, idx)].(vectorOf := Some(text))]
    {
      chunks := chunks[(doc, idx) := chunks[(doc, idx)].(vectorOf := Some(text))];
    }

    method InsertResult(doc: nat, risk: Risk)
      modifies `results
      ensures results == old(results)[doc := (if doc in old(results) then old(results)[doc] else []) + [risk]]
    {
      results := results[doc := (if doc in results then results[doc] else []) + [risk]];
    }

    /** Chunk by chunk: the row, its vector, the vector's row. Calls 2i, 2i+1 of `fails`. */
    method PersistChunks(doc: nat, chunks0: seq<Chunk>, answers: seq<Answer>, fails: nat -> bool)
      returns (ok: bool, clash: bool, ghost rows: seq<ChunkRow>)
      requires HasExactly(chunks, doc, [])
      modifies `chunks
      ensures !clash
      ensures HasExactly(chunks, doc, rows) && SameElsewhere(old(chunks), chunks, doc)
      ensures PartOf(rows, Wanted(chunks0, answers))
      ensures ok ==> rows == Wanted(chunks0, answers)
      ensures |rows| <= |chunks0| && |rows| <= |answers|
      ensures forall i :: 0 <= i < |rows| ==> Holds(rows[i], chunks0[i], answers[i])
      ensures ok ==> Stored(chunks, doc, chunks0, answers)
    {
      var n := if |chunks0| <= |answers| then |chunks0| else |answers|;
      ghost var wanted := Wanted(chunks0, answers);
      rows := [];
      for i := 0 to n
        invariant rows == wanted[..i]
        invariant HasExactly(chunks, doc, rows) && SameElsewhere(old(chunks), chunks, doc)
      {
        var content := Content(chunks0[i], answers[i]);
        ghost var before := chunks;
        var r := InsertChunk(doc, i, content, chunks0[i].tokenCount, fails(2 * i));
        assert r != UniqueViolation;
        if r != Inserted {
          return false, r == UniqueViolation, rows;
        }
        rows := rows + [ChunkRow(content, chunks0[i].tokenCount, None)];
        assert HasExactly(chunks, doc, rows);
        if fails(2 * i + 1) {
          return false, false, rows;
        }
        InsertEmbedding(doc, i, content);
        rows := wanted[..i + 1];
      }
      return true, false, rows;
    }

    /** `process_document` for the sole holder of `doc`, from whatever rows an
        earlier run left. */
    method ProcessDocument(doc: nat, chunks0: seq<Chunk>, answers: seq<Answer>, fails: nat -> bool)
      returns (outcome: Outcome, clash: bool, ghost rows: seq<ChunkRow>)
      modifies this
      ensures !clash
      ensures SameElsewhere(old(chunks), chunks, doc) && results - {doc} == old(results) - {doc}
      ensures outcome.Done? ==>
                HasExactly(chunks, doc, Wanted(chunks0, answers)) && Stored(chunks, doc, chunks0, answers)
      ensures outcome.Done? ==>
                if chunks0 == [] then doc !in results
                else
                  && doc in results && |results[doc]| == 1
                  && IsAggregate(answers, results[doc][0]) && TopLevel(answers, results[doc][0].level)
      ensures fails(0) ==> outcome.Failed? && chunks == old(chunks) && results == old(results)
      ensures !fails(0) ==> HasExactly(chunks, doc, rows) && PartOf(rows, Wanted(chunks0, answers))
      ensures |rows| <= |chunks0| && |rows| <= |answers|
      ensures forall i :: 0 <= i < |rows| ==> Holds(rows[i], chunks0[i], answers[i])
    {
      rows := [];
      if fails(0) {
        return Failed, false, rows;
      }
      CleanupPreviousRun(doc);
      // phase, download and parse; then the chunks
      if fails(1) || fails(2) {
        return Failed, false, rows;
      }
      if chunks0 == [] {
        return if fails(3) then Failed else Done, false, rows;
      }
      if fails(4) {
        return Failed, false, rows;
      }
      var agg := AggregateRisk(answers);
      var ok;
      ok, clash, rows := PersistChunks(doc, chunks0, answers, (k: nat) => fails(k + 6));
      if !ok || fails(5) {
        return Failed, clash, rows;
      }
      InsertResult(doc, agg);
      outcome := if fails(3) then Failed else Done;
    }
  }
}
