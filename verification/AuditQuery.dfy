// The audit log query (rubezh-api/internal/storage/audit.go): a filter compiled to
// conditions over positional arguments, and what those conditions select. ILIKE is
// the parameter `like`. Rows keep the columns the filter can test; times and uuids
// are integers, and `leak` is detail->>'response_leak_detected'.
module AuditQuery {
  import opened Wrappers

  datatype Row = Row(
    id: int, createdAt: int, userId: string, eventType: string, providerId: Option<string>,
    riskLevel: Option<string>, decision: Option<string>, payload: Option<string>, leak: Option<string>)

  datatype Cursor = Cursor(createdAt: int, id: int)

  /** `cursor` stands for the two optional cursor fields, set together or not at all. */
  datatype Filter = Filter(
    from: Option<int>, to: Option<int>, userId: Option<string>, eventTypes: seq<string>,
    decisions: seq<string>, riskLevels: seq<string>, providerId: Option<string>,
    hasLeak: Option<bool>, q: Option<string>, cursor: Option<Cursor>, limit: int)

  // ----- the direct reading of a filter

  predicate KeyLess(createdAt: int, id: int, c: Cursor) {
    createdAt < c.createdAt || (createdAt == c.createdAt && id < c.id)
  }

  predicate OneOf(v: Option<string>, options: seq<string>) { v.Some? && v.value in options }

  ghost predicate Matches(f: Filter, r: Row, like: (string, string) -> bool) {
    && (f.cursor.Some? ==>
          var c := f.cursor.value; r.createdAt < c.createdAt || (r.createdAt == c.createdAt && r.id < c.id))
    && (f.from.Some? ==> f.from.value <= r.createdAt)
    && (f.to.Some? ==> r.createdAt <= f.to.value)
    && (f.userId.Some? ==> r.userId == f.userId.value)
    && (f.eventTypes != [] ==> r.eventType in f.eventTypes)
    && (f.decisions != [] ==> exists d :: d in f.decisions && r.decision == Some(d))
    && (f.riskLevels != [] ==> exists l :: l in f.riskLevels && r.riskLevel == Some(l))
    && (f.providerId.Some? ==> r.providerId == f.providerId)
    && (f.hasLeak == Some(true) ==> r.leak == Some("true"))
    && (f.hasLeak == Some(false) ==> r.leak == None || r.leak == Some("false"))
    && (f.q.Some? && f.q.value != "" ==> r.payload.Some? && like(r.payload.value, "%" + f.q.value + "%"))
  }

  /** 1..200, anything else is 50. */
  function EffectiveLimit(limit: int): nat {
    if limit <= 0 || limit > 200 then 50 else limit
  }

  // ----- the compiled form

  datatype Arg = Time(t: int) | Uuid(u: int) | Text(s: string) | Texts(ss: seq<string>) | Number(n: int)

  /** A condition with its placeholders; `$1` is the first argument. */
  datatype Cond =
    | CursorBelow(at: nat, idAt: nat)
    | CreatedFrom(at: nat)
    | CreatedTo(at: nat)
    | UserIs(at: nat)
    | EventAnyOf(at: nat)
    | DecisionAnyOf(at: nat)
    | RiskAnyOf(at: nat)
    | ProviderIs(at: nat)
    | LeakTrue
    | LeakFalseOrAbsent
    | PayloadLike(at: nat)

  datatype Query = Query(conds: seq<Cond>, args: seq<Arg>, limitAt: nat)

  predicate InRange(args: seq<Arg>, at: nat) { 1 <= at <= |args| }

  predicate Placed(c: Cond, args: seq<Arg>) {
    match c
    case CursorBelow(at, idAt) => InRange(args, at) && InRange(args, idAt)
    case LeakTrue => true
    case LeakFalseOrAbsent => true
    case _ => InRange(args, c.at)
  }

  /** The condition is true of the row; NULL columns and ill-typed arguments make it not true. */
  predicate Holds(c: Cond, args: seq<Arg>, r: Row, like: (string, string) -> bool)
    requires Placed(c, args)
  {
    match c
    case CursorBelow(at, idAt) =>
      args[at - 1].Time? && args[idAt - 1].Uuid? && KeyLess(r.createdAt, r.id, Cursor(args[at - 1].t, args[idAt - 1].u))
    case CreatedFrom(at) => args[at - 1].Time? && args[at - 1].t <= r.createdAt
    case CreatedTo(at) => args[at - 1].Time? && r.createdAt <= args[at - 1].t
    case UserIs(at) => args[at - 1].Text? && r.userId == args[at - 1].s
    case EventAnyOf(at) => args[at - 1].Texts? && r.eventType in args[at - 1].ss
    case DecisionAnyOf(at) => args[at - 1].Texts? && OneOf(r.decision, args[at - 1].ss)
    case RiskAnyOf(at) => args[at - 1].Texts? && OneOf(r.riskLevel, args[at - 1].ss)
    case ProviderIs(at) => args[at - 1].Text? && r.providerId == Some(args[at - 1].s)
    case LeakTrue => r.leak == Some("true")
    case LeakFalseOrAbsent => (if r.leak.Some? then r.leak.value else "false") == "false"
    case PayloadLike(at) => args[at - 1].Text? && r.payload.Some? && like(r.payload.value, args[at - 1].s)
  }

  predicate AllPlaced(conds: seq<Cond>, args: seq<Arg>) {
    forall k :: 0 <= k < |conds| ==> Placed(conds[k], args)
  }

  ghost predicate AllHold(conds: seq<Cond>, args: seq<Arg>, r: Row, like: (string, string) -> bool)
    requires AllPlaced(conds, args)
  {
    forall k :: 0 <= k < |conds| ==> Holds(conds[k], args, r, like)
  }

  /** The conditions select exactly the rows of `meaning`. */
  ghost predicate Selects(conds: seq<Cond>, args: seq<Arg>, like: (string, string) -> bool, meaning: Row -> bool) {
    AllPlaced(conds, args) && forall r :: AllHold(conds, args, r, like) <==> meaning(r)
  }

  lemma AddClause(conds: seq<Cond>, args: seq<Arg>, like: (string, string) -> bool, meaning: Row -> bool,
                  c: Cond, vals: seq<Arg>, clause: Row -> bool, both: Row -> bool)
    requires Selects(conds, args, like, meaning)
    requires Placed(c, args + vals) && forall r :: Holds(c, args + vals, r, like) <==> clause(r)
    requires forall r :: both(r) <==> meaning(r) && clause(r)
    ensures Selects(conds + [c], args + vals, like, both)
  {
    var all, wide := conds + [c], args + vals;
    assert forall k :: 0 <= k < |conds| ==> all[k] == conds[k] && Placed(conds[k], args);
    assert all[|conds|] == c;
    forall r
      ensures AllHold(all, wide, r, like) <==> both(r)
    {
      forall k | 0 <= k < |conds|
        ensures Holds(conds[k], wide, r, like) == Holds(conds[k], args, r, like)
      {
      }
      assert AllHold(conds, args, r, like) <==> meaning(r);
      if both(r) {
        assert AllHold(conds, args, r, like) && Holds(c, wide, r, like);
      }
      if AllHold(all, wide, r, like) {
        assert forall k :: 0 <= k < |conds| ==> Holds(all[k], wide, r, like);
        assert Holds(all[|conds|], wide, r, like);
      }
    }
  }

  /** The closure `add` of the source: append the values and the condition. */
  method Add(conds: seq<Cond>, args: seq<Arg>, c: Cond, vals: seq<Arg>, ghost like: (string, string) -> bool,
             ghost meaning: Row -> bool, ghost clause: Row -> bool)
    returns (conds': seq<Cond>, args': seq<Arg>, ghost meaning': Row -> bool)
    requires Selects(conds, args, like, meaning)
    requires Placed(c, args + vals) && forall r :: Holds(c, args + vals, r, like) <==> clause(r)
    ensures Selects(conds', args', like, meaning')
    ensures conds' == conds + [c] && args' == args + vals
    ensures forall r :: meaning'(r) <==> meaning(r) && clause(r)
  {
    meaning' := r => meaning(r) && clause(r);
    AddClause(conds, args, like, meaning, c, vals, clause, meaning');
    conds', args' := conds + [c], args + vals;
  }

  /** The part of the filter read before the list columns. */
  ghost predicate ScalarPart(f: Filter, r: Row) {
    && (f.cursor.Some? ==> KeyLess(r.createdAt, r.id, f.cursor.value))
    && (f.from.Some? ==> f.from.value <= r.createdAt)
    && (f.to.Some? ==> r.createdAt <= f.to.value)
    && (f.userId.Some? ==> r.userId == f.userId.value)
  }

  method BuildScalarPart(f: Filter, ghost like: (string, string) -> bool)
    returns (conds: seq<Cond>, args: seq<Arg>, ghost meaning: Row -> bool)
    ensures Selects(conds, args, like, meaning) && forall r :: meaning(r) <==> ScalarPart(f, r)
  {
    conds, args, meaning := [], [], (_: Row) => true;
    if f.cursor.Some? {
      var c := f.cursor.value;
      conds, args, meaning := Add(conds, args, CursorBelow(|args| + 1, |args| + 2), [Time(c.createdAt), Uuid(c.id)],
                                  like, meaning, (r: Row) => KeyLess(r.createdAt, r.id, c));
    }
    if f.from.Some? {
      conds, args, meaning := Add(conds, args, CreatedFrom(|args| + 1), [Time(f.from.value)],
                                  like, meaning, (r: Row) => f.from.value <= r.createdAt);
    }
    if f.to.Some? {
      conds, args, meaning := Add(conds, args, CreatedTo(|args| + 1), [Time(f.to.value)],
                                  like, meaning, (r: Row) => r.createdAt <= f.to.value);
    }
    if f.userId.Some? {
      conds, args, meaning := Add(conds, args, UserIs(|args| + 1), [Text(f.userId.value)],
                                  like, meaning, (r: Row) => r.userId == f.userId.value);
    }
  }

  ghost predicate ListPart(f: Filter, r: Row) {
    && (f.eventTypes != [] ==> r.eventType in f.eventTypes)
    && (f.decisions != [] ==> OneOf(r.decision, f.decisions))
    && (f.riskLevels != [] ==> OneOf(r.riskLevel, f.riskLevels))
    && (f.providerId.Some? ==> r.providerId == f.providerId)
  }

  method BuildListPart(f: Filter, conds0: seq<Cond>, args0: seq<Arg>, ghost like: (string, string) -> bool,
                       ghost meaning0: Row -> bool)
    returns (conds: seq<Cond>, args: seq<Arg>, ghost meaning: Row -> bool)
    requires Selects(conds0, args0, like, meaning0)
    ensures Selects(conds, args, like, meaning) && forall r :: meaning(r) <==> meaning0(r) && ListPart(f, r)
  {
    conds, args, meaning := conds0, args0, meaning0;
    if |f.eventTypes| > 0 {
      conds, args, meaning := Add(conds, args, EventAnyOf(|args| + 1), [Texts(f.eventTypes)],
                                  like, meaning, (r: Row) => r.eventType in f.eventTypes);
    }
    if |f.decisions| > 0 {
      conds, args, meaning := Add(conds, args, DecisionAnyOf(|args| + 1), [Texts(f.decisions)],
                                  like, meaning, (r: Row) => OneOf(r.decision, f.decisions));
    }
    if |f.riskLevels| > 0 {
      conds, args, meaning := Add(conds, args, RiskAnyOf(|args| + 1), [Texts(f.riskLevels)],
                                  like, meaning, (r: Row) => OneOf(r.riskLevel, f.riskLevels));
    }
    if f.providerId.Some? {
      conds, args, meaning := Add(conds, args, ProviderIs(|args| + 1), [Text(f.providerId.value)],
                                  like, meaning, (r: Row) => r.providerId == f.providerId);
    }
  }

  method BuildListAuditQuery(f: Filter, ghost like: (string, string) -> bool) returns (q: Query)
    ensures AllPlaced(q.conds, q.args)
    ensures forall r :: AllHold(q.conds, q.args, r, like) <==> Matches(f, r, like)
    ensures q.limitAt == |q.args| && q.limitAt > 0 && q.args[q.limitAt - 1] == Number(EffectiveLimit(f.limit))
  {
    var conds, args;
    ghost var meaning;
    conds, args, meaning := BuildScalarPart(f, like);
    conds, args, meaning := BuildListPart(f, conds, args, like, meaning);
    if f.hasLeak.Some? {
      if f.hasLeak.value {
        conds, args, meaning := Add(conds, args, LeakTrue, [], like, meaning, (r: Row) => r.leak == Some("true"));
      } else {
        conds, args, meaning := Add(conds, args, LeakFalseOrAbsent, [], like, meaning,
                                    (r: Row) => r.leak == None || r.leak == Some("false"));
      }
    }
    if f.q.Some? && f.q.value != "" {
      conds, args, meaning := Add(conds, args, PayloadLike(|args| + 1), [Text("%" + f.q.value + "%")], like, meaning,
                                  (r: Row) => r.payload.Some? && like(r.payload.value, "%" + f.q.value + "%"));
    }
    var limit := f.limit;
    if limit <= 0 || limit > 200 {
      limit := 50;
    }
    MeaningStays(conds, args, like, meaning, Number(limit));
    args := args + [Number(limit)];
    q := Query(conds, args, |args|);
    MatchesParts(f, like);
  }

  lemma MeaningStays(conds: seq<Cond>, args: seq<Arg>, like: (string, string) -> bool, meaning: Row -> bool, extra: Arg)
    requires Selects(conds, args, like, meaning)
    ensures Selects(conds, args + [extra], like, meaning)
  {
    forall r
      ensures AllHold(conds, args + [extra], r, like) <==> meaning(r)
    {
      assert forall k :: 0 <= k < |conds| ==>
        Holds(conds[k], args + [extra], r, like) == Holds(conds[k], args, r, like);
      assert AllHold(conds, args, r, like) <==> meaning(r);
    }
  }

  lemma MatchesParts(f: Filter, like: (string, string) -> bool)
    ensures forall r :: Matches(f, r, like) <==>
      && ScalarPart(f, r) && ListPart(f, r)
      && (f.hasLeak == Some(true) ==> r.leak == Some("true"))
      && (f.hasLeak == Some(false) ==> r.leak == None || r.leak == Some("false"))
      && (f.q.Some? && f.q.value != "" ==> r.payload.Some? && like(r.payload.value, "%" + f.q.value + "%"))
  {
  }
}
