// The per-user throttle of auxiliary audit events (rubezh-api/internal/chat/throttle.go).
// The clock is a parameter of each call.
module Throttle {
  import opened Wrappers

  datatype Answer = Allowed | FirstRefusal | Silent

  datatype Window = Window(count: int, throttled: bool, resetAt: int)

  /** One call of a user: the window it leaves, the answer it gets. */
  function Step(limit: int, window: int, st: Option<Window>, now: int): (Window, Answer) {
    var w := if st.None? || now > st.value.resetAt then Window(0, false, now + window) else st.value;
    if w.count < limit then (w.(count := w.count + 1), Allowed)
    else if w.throttled then (w, Silent)
    else (w.(throttled := true), FirstRefusal)
  }

  function Lookup(state: map<string, Window>, user: string): Option<Window> {
    if user in state then Some(state[user]) else None
  }

  class ThrottleReporter {
    const limit: int
    const window: int
    var state: map<string, Window>

    constructor (limit: int, window: int)
      ensures this.limit == limit && this.window == window && state == map[]
    {
      this.limit, this.window, state := limit, window, map[];
    }

    method Allow(user: string, now: int) returns (allowed: bool, emitThrottled: bool)
      modifies this
      ensures var (w, answer) := Step(limit, window, Lookup(old(state), user), now);
              && state == old(state)[user := w]
              && allowed == answer.Allowed? && emitThrottled == answer.FirstRefusal?
    {
      if user !in state || now > state[user].resetAt {
        state := state[user := Window(0, false, now + window)];
      }
      var st := state[user];
      if st.count < limit {
        state := state[user := st.(count := st.count + 1)];
        return true, false;
      }
      if st.throttled {
        return false, false;
      }
      state := state[user := st.(throttled := true)];
      return false, true;
    }
  }

  // ----- users do not affect each other

  datatype Call = Call(user: string, now: int)

  function StateAfter(limit: int, window: int, calls: seq<Call>): map<string, Window> {
    if calls == [] then map[]
    else
      var before, c := StateAfter(limit, window, calls[..|calls| - 1]), calls[|calls| - 1];
      before[c.user := Step(limit, window, Lookup(before, c.user), c.now).0]
  }

  /** The times of one user's own calls. */
  function Times(calls: seq<Call>, user: string): seq<int> {
    if calls == [] then []
    else
      var before, c := Times(calls[..|calls| - 1], user), calls[|calls| - 1];
      if c.user == user then before + [c.now] else before
  }

  /** What a user alone would have left behind. */
  function Solo(limit: int, window: int, times: seq<int>): Option<Window> {
    if times == [] then None
    else Some(Step(limit, window, Solo(limit, window, times[..|times| - 1]), times[|times| - 1]).0)
  }

  /** A user's window is a function of that user's calls alone. */
  lemma {:induction false} UsersIndependent(limit: int, window: int, calls: seq<Call>, user: string)
    ensures Lookup(StateAfter(limit, window, calls), user) == Solo(limit, window, Times(calls, user))
  {
    if calls != [] {
      var front, c := calls[..|calls| - 1], calls[|calls| - 1];
      UsersIndependent(limit, window, front, user);
      assert c.user == user ==> (Times(front, user) + [c.now])[..|Times(front, user)|] == Times(front, user);
    }
  }

  // ----- the answers of one user

  ghost predicate Monotone(times: seq<int>) {
    forall i, j :: 0 <= i <= j < |times| ==> times[i] <= times[j]
  }

  /** The call that opened the window call `k` falls into. */
  function Opener(window: int, times: seq<int>, k: nat): (o: nat)
    requires k < |times|
    ensures o <= k
  {
    if k == 0 then 0
    else
      var o := Opener(window, times, k - 1);
      if times[k] > times[o] + window then k else o
  }

  function AnswerTo(limit: int, window: int, times: seq<int>, k: nat): Answer
    requires k < |times|
  {
    Step(limit, window, Solo(limit, window, times[..k]), times[k]).1
  }

  /** In any mix of users, a call gets the answer its own user's calls alone decide. */
  lemma AnswerIsOwn(limit: int, window: int, calls: seq<Call>, k: nat)
    requires k < |calls|
    ensures var user, times := calls[k].user, Times(calls[..k + 1], calls[k].user);
            && times != []
            && Step(limit, window, Lookup(StateAfter(limit, window, calls[..k]), user), calls[k].now).1
               == AnswerTo(limit, window, times, |times| - 1)
  {
    var user := calls[k].user;
    UsersIndependent(limit, window, calls[..k], user);
    assert calls[..k + 1][..k] == calls[..k];
    assert (Times(calls[..k], user) + [calls[k].now])[..|Times(calls[..k], user)|] == Times(calls[..k], user);
  }

  function Min(a: int, b: int): int { if a <= b then a else b }

  lemma {:induction false} WindowAt(limit: int, window: int, times: seq<int>, k: nat)
    requires k < |times| && limit >= 0 && window >= 0
    ensures var o := Opener(window, times, k);
            Solo(limit, window, times[..k + 1]) ==
            Some(Window(Min(k - o + 1, limit), k - o >= limit, times[o] + window))
    ensures AnswerTo(limit, window, times, k) ==
            var pos := k - Opener(window, times, k);
            if pos < limit then Allowed else if pos == limit then FirstRefusal else Silent
  {
    assert times[..k + 1][..k] == times[..k];
    if k > 0 {
      WindowAt(limit, window, times, k - 1);
    } else {
      assert times[..0] == [];
    }
  }

  /** Within a window: `limit` calls allowed, one refusal reported, then silence. */
  lemma AnswersByPosition(limit: int, window: int, times: seq<int>, k: nat)
    requires k < |times| && limit >= 0 && window >= 0
    ensures var pos := k - Opener(window, times, k);
            && (AnswerTo(limit, window, times, k) == Allowed <==> pos < limit)
            && (AnswerTo(limit, window, times, k) == FirstRefusal <==> pos == limit)
            && (AnswerTo(limit, window, times, k) == Silent <==> pos > limit)
  {
    WindowAt(limit, window, times, k);
  }

  // ----- the rate over any interval

  /** How many of the calls a, ..., b - 1 are allowed. */
  function AllowedIn(limit: int, window: int, times: seq<int>, a: nat, b: nat): nat
    requires a <= b <= |times|
  {
    if a == b then 0
    else AllowedIn(limit, window, times, a, b - 1) + if AnswerTo(limit, window, times, b - 1) == Allowed then 1 else 0
  }

  lemma {:induction false} OneWindow(limit: int, window: int, times: seq<int>, a: nat, b: nat, o: nat)
    requires a <= b <= |times| && limit >= 0 && window >= 0
    requires o <= a && forall k :: a <= k < b ==> Opener(window, times, k) == o
    ensures AllowedIn(limit, window, times, a, b) + Min(a - o, limit) <= Min(b - o, limit)
  {
    if a < b {
      OneWindow(limit, window, times, a, b - 1, o);
      AnswersByPosition(limit, window, times, b - 1);
    }
  }

  lemma {:induction false} AllowedSplit(limit: int, window: int, times: seq<int>, a: nat, m: nat, b: nat)
    requires a <= m <= b <= |times|
    ensures AllowedIn(limit, window, times, a, b) ==
              AllowedIn(limit, window, times, a, m) + AllowedIn(limit, window, times, m, b)
  {
    if m < b {
      AllowedSplit(limit, window, times, a, m, b - 1);
    }
  }

  /** The first call after `a` that opens a window, or `b`. */
  lemma {:induction false} NextOpener(window: int, times: seq<int>, a: nat, b: nat) returns (c: nat)
    requires a < b <= |times|
    ensures a < c <= b
    ensures forall k :: a <= k < c ==> Opener(window, times, k) == Opener(window, times, a)
    ensures c < b ==> Opener(window, times, c) == c && times[c] > times[Opener(window, times, a)] + window
    decreases b
  {
    if b == a + 1 {
      c := b;
    } else {
      c := NextOpener(window, times, a, b - 1);
      if c == b - 1 && Opener(window, times, b - 1) != b - 1 {
        c := b;
      }
    }
  }

  lemma InOrder(times: seq<int>, i: nat, j: nat, k: nat)
    requires Monotone(times) && i <= j <= k < |times|
    ensures times[i] <= times[j] <= times[k]
  {
  }

  /** The calls from `a` up to `b` that are allowed. */
  ghost function AllowedCalls(limit: int, window: int, times: seq<int>, a: nat, b: nat): set<nat>
    requires a <= b <= |times|
  {
    set k: nat | a <= k < b && AnswerTo(limit, window, times, k) == Allowed
  }

  lemma {:induction false} AllowedAreCounted(limit: int, window: int, times: seq<int>, a: nat, b: nat)
    requires a <= b <= |times|
    ensures AllowedIn(limit, window, times, a, b) == |AllowedCalls(limit, window, times, a, b)|
  {
    hide AnswerTo;
    if a == b {
      assert AllowedCalls(limit, window, times, a, b) == {};
    } else {
      AllowedAreCounted(limit, window, times, a, b - 1);
      assert AllowedCalls(limit, window, times, a, b) ==
        AllowedCalls(limit, window, times, a, b - 1) +
        if AnswerTo(limit, window, times, b - 1) == Allowed then {b - 1} else {};
    }
  }

  /** In any stretch of calls no longer than the window, at most 2 * limit are allowed. */
  lemma RateBounded(limit: int, window: int, times: seq<int>, a: nat, b: nat)
    requires Monotone(times) && limit >= 0 && window >= 0
    requires a < b <= |times| && times[b - 1] - times[a] <= window
    ensures |AllowedCalls(limit, window, times, a, b)| <= 2 * limit
  {
    AllowedAreCounted(limit, window, times, a, b);
    var c := NextOpener(window, times, a, b);
    OneWindow(limit, window, times, a, c, Opener(window, times, a));
    AllowedSplit(limit, window, times, a, c, b);
    if c < b {
      var d := NextOpener(window, times, c, b);
      InOrder(times, Opener(window, times, a), a, c);
      InOrder(times, c, if d < b then d else c, b - 1);
      OneWindow(limit, window, times, c, b, c);
    }
  }
}
