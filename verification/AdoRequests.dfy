/** Requests, paging and batching (packages/shared/src/azure-devops-rest-adapter.ts). */
module AdoRequests {
  import opened Wrappers

  const MAX_RETRIES: nat := 4
  const CIRCUIT_BREAKER_THRESHOLD: nat := 3

  /** What one fetch comes back with; a numeric `Retry-After` is in seconds. */
  datatype Reply = NetworkError | Reply(status: nat, retryAfter: Option<nat>)

  /** What the attempts of one call meet, one by one. */
  type Replies = s: seq<Reply> | |s| == MAX_RETRIES + 1 witness seq(MAX_RETRIES + 1, _ => NetworkError)

  datatype Outcome = Succeeded | AuthError | Rejected | Exhausted | CircuitOpen

  /** A finished call: how often it fetched, how many seconds it waited between, and the failures in a row after it. */
  datatype Call = Call(outcome: Outcome, fetches: nat, waited: nat, failures: nat)

  function Pow2(n: nat): nat {
    if n == 0 then 1 else 2 * Pow2(n - 1)
  }

  function Wait(reply: Reply, attempt: nat): nat {
    if reply.Reply? && reply.status == 429 && reply.retryAfter.Some? then reply.retryAfter.value
    else Pow2(attempt)
  }

  predicate IsOk(status: nat) {
    200 <= status < 300
  }

  predicate Retriable(reply: Reply) {
    reply.NetworkError? || reply.status == 429 || reply.status >= 500
  }

  /** The end an attempt puts to its call, if it does. */
  function Settled(reply: Reply, attempt: nat, waited: nat, failures: nat): Option<Call> {
    if reply.NetworkError? then None
    else if reply.status == 401 || reply.status == 403 then Some(Call(AuthError, attempt + 1, waited, failures + 1))
    else if IsOk(reply.status) then Some(Call(Succeeded, attempt + 1, waited, 0))
    else if Retriable(reply) then None
    else Some(Call(Rejected, attempt + 1, waited, failures + 1))
  }

  /** The attempts of one call from number `attempt` on. */
  function Attempts(replies: Replies, attempt: nat, waited: nat, failures: nat): Call
    requires attempt <= MAX_RETRIES
    decreases MAX_RETRIES - attempt
  {
    var end := Settled(replies[attempt], attempt, waited, failures);
    if end.Some? then end.value
    else if attempt == MAX_RETRIES then Call(Exhausted, attempt + 1, waited, failures + 1)
    else Attempts(replies, attempt + 1, waited + Wait(replies[attempt], attempt), failures)
  }

  lemma AttemptsStep(replies: Replies, attempt: nat, waited: nat, failures: nat)
    requires attempt <= MAX_RETRIES
    ensures var end := Settled(replies[attempt], attempt, waited, failures);
            Attempts(replies, attempt, waited, failures)
            == if end.Some? then end.value
               else if attempt == MAX_RETRIES then Call(Exhausted, attempt + 1, waited, failures + 1)
               else Attempts(replies, attempt + 1, waited + Wait(replies[attempt], attempt), failures)
  {
    hide Settled, Wait;
  }

  /** The call still has `goal` ahead of it before attempt number `attempt`, or after the last one. */
  ghost predicate Upcoming(goal: Call, replies: Replies, attempt: nat, waited: nat, failures: nat) {
    goal == if attempt <= MAX_RETRIES then Attempts(replies, attempt, waited, failures)
            else Call(Exhausted, attempt, waited, failures + 1)
  }

  lemma UpcomingStep(goal: Call, replies: Replies, attempt: nat, waited: nat, failures: nat)
    requires attempt <= MAX_RETRIES && Upcoming(goal, replies, attempt, waited, failures)
    ensures var end := Settled(replies[attempt], attempt, waited, failures);
            if end.Some? then goal == end.value
            else Upcoming(goal, replies, attempt + 1,
                          if attempt < MAX_RETRIES then waited + Wait(replies[attempt], attempt) else waited, failures)
  {
    AttemptsStep(replies, attempt, waited, failures);
    hide Settled, Wait, Attempts;
  }

  function MakeRequest(failures: nat, replies: Replies): Call {
    if failures >= CIRCUIT_BREAKER_THRESHOLD then Call(CircuitOpen, 0, 0, failures)
    else Attempts(replies, 0, 0, failures)
  }

  class AzureDevOpsRestAdapter {
    var consecutiveFailures: nat

    constructor ()
      ensures consecutiveFailures == 0
    {
      consecutiveFailures := 0;
    }

    /** The body of the retry loop: the end of the call, or how long to wait before the next attempt. */
    method Attempt(reply: Reply, attempt: nat, ghost waited: nat) returns (end: Option<Outcome>, wait: nat)
      modifies this
      ensures Settled(reply, attempt, waited, old(consecutiveFailures))
              == if end.None? then None else Some(Call(end.value, attempt + 1, waited, consecutiveFailures))
      ensures end.None? ==> consecutiveFailures == old(consecutiveFailures) && wait == Wait(reply, attempt)
    {
      hide Pow2;
      end, wait := None, Pow2(attempt);
      if reply.NetworkError? { return; }
      if reply.status == 401 || reply.status == 403 {
        consecutiveFailures := consecutiveFailures + 1;
        end := Some(AuthError);
      } else if IsOk(reply.status) {
        consecutiveFailures := 0;
        end := Some(Succeeded);
      } else if reply.status == 429 {
        if reply.retryAfter.Some? { wait := reply.retryAfter.value; }
      } else if reply.status < 500 {
        consecutiveFailures := consecutiveFailures + 1;
        end := Some(Rejected);
      }
    }

    method Request(replies: Replies) returns (outcome: Outcome, fetches: nat, waited: nat)
      modifies this
      ensures Call(outcome, fetches, waited, consecutiveFailures) == MakeRequest(old(consecutiveFailures), replies)
    {
      fetches, waited := 0, 0;
      if consecutiveFailures >= CIRCUIT_BREAKER_THRESHOLD { return CircuitOpen, fetches, waited; }
      ghost var goal := MakeRequest(consecutiveFailures, replies);
      assert Upcoming(goal, replies, 0, 0, consecutiveFailures);
      for attempt := 0 to MAX_RETRIES + 1
        invariant consecutiveFailures == old(consecutiveFailures) && fetches == attempt
        invariant Upcoming(goal, replies, attempt, waited, consecutiveFailures)
      {
        hide *;
        UpcomingStep(goal, replies, attempt, waited, consecutiveFailures);
        fetches := fetches + 1;
        var end, wait := Attempt(replies[attempt], attempt, waited);
        if end.Some? { return end.value, fetches, waited; }
        if attempt < MAX_RETRIES { waited := waited + wait; }
      }
      hide Attempts;
      consecutiveFailures := consecutiveFailures + 1;
      outcome := Exhausted;
    }
  }

  // ---- One call ----

  /** An attempt that ends its call is counted, adds no wait, and says why; one that does not is retriable. */
  lemma SettledEnds(reply: Reply, attempt: nat, waited: nat, failures: nat)
    ensures var end := Settled(reply, attempt, waited, failures);
            && (end.None? <==> Retriable(reply))
            && (end.Some? ==>
                  && end.value.fetches == attempt + 1 && end.value.waited == waited
                  && end.value.outcome != CircuitOpen && end.value.outcome != Exhausted
                  && end.value.failures == if end.value.outcome == Succeeded then 0 else failures + 1)
  {
  }

  lemma WaitsDouble(reply: Reply, attempt: nat)
    requires reply.Reply? ==> reply.retryAfter.None?
    ensures Wait(reply, attempt) == Pow2(attempt) && Pow2(attempt + 1) == 2 * Pow2(attempt)
  {
  }

  /** Without a `Retry-After` the waits double. */
  lemma {:induction false} WaitIsGeometric(replies: Replies, attempt: nat, waited: nat, failures: nat)
    requires attempt <= MAX_RETRIES
    requires forall i :: attempt <= i < MAX_RETRIES ==> replies[i].Reply? ==> replies[i].retryAfter.None?
    ensures attempt < Attempts(replies, attempt, waited, failures).fetches
    ensures var c := Attempts(replies, attempt, waited, failures);
            c.waited == waited + (Pow2(c.fetches - 1) - Pow2(attempt))
    decreases MAX_RETRIES - attempt
  {
    hide *;
    AttemptsStep(replies, attempt, waited, failures);
    SettledEnds(replies[attempt], attempt, waited, failures);
    if Settled(replies[attempt], attempt, waited, failures).None? && attempt < MAX_RETRIES {
      WaitsDouble(replies[attempt], attempt);
      WaitIsGeometric(replies, attempt + 1, waited + Wait(replies[attempt], attempt), failures);
    }
  }

  lemma {:induction false} FetchesBounded(replies: Replies, attempt: nat, waited: nat, failures: nat)
    requires attempt <= MAX_RETRIES
    ensures var c := Attempts(replies, attempt, waited, failures);
            && attempt < c.fetches <= MAX_RETRIES + 1
            && c.outcome != CircuitOpen
            && c.failures == (if c.outcome == Succeeded then 0 else failures + 1)
            && (forall i :: attempt <= i < c.fetches - 1 ==> Retriable(replies[i]))
            && (c.outcome == Exhausted <==> forall i :: attempt <= i <= MAX_RETRIES ==> Retriable(replies[i]))
    decreases MAX_RETRIES - attempt
  {
    hide *;
    AttemptsStep(replies, attempt, waited, failures);
    SettledEnds(replies[attempt], attempt, waited, failures);
    if Settled(replies[attempt], attempt, waited, failures).None? && attempt < MAX_RETRIES {
      FetchesBounded(replies, attempt + 1, waited + Wait(replies[attempt], attempt), failures);
    }
  }

  /** At most five fetches, and fifteen seconds of waiting where no reply asks for more. */
  lemma OneCallIsBounded(failures: nat, replies: Replies)
    ensures MakeRequest(failures, replies).fetches <= 5
    ensures MakeRequest(failures, replies).fetches == 0 <==> failures >= CIRCUIT_BREAKER_THRESHOLD
    ensures (forall i :: 0 <= i < MAX_RETRIES ==> replies[i].Reply? ==> replies[i].retryAfter.None?)
            ==> MakeRequest(failures, replies).waited <= 15
  {
    if failures < CIRCUIT_BREAKER_THRESHOLD {
      FetchesBounded(replies, 0, 0, failures);
      if forall i :: 0 <= i < MAX_RETRIES ==> replies[i].Reply? ==> replies[i].retryAfter.None? {
        WaitIsGeometric(replies, 0, 0, failures);
        Pow2Monotone(MakeRequest(failures, replies).fetches - 1, 4);
        assert Pow2(4) == 16 by { assert Pow2(1) == 2; assert Pow2(2) == 4; assert Pow2(3) == 8; }
      }
    }
  }

  lemma {:induction false} Pow2Monotone(m: nat, n: nat)
    requires m <= n
    ensures Pow2(m) <= Pow2(n)
    decreases n
  {
    if m < n { Pow2Monotone(m, n - 1); }
  }

  /** What the protocol says of a reply: these are tried again, and of the others only a 2xx is a success. */
  predicate TryAgain(reply: Reply) {
    reply.NetworkError? || reply.status == 429 || reply.status >= 500
  }

  function OutcomeOf(status: nat): Outcome {
    if 200 <= status < 300 then Succeeded else if status == 401 || status == 403 then AuthError else Rejected
  }

  /** The seconds to wait after attempt number `i`: what a 429 asks for, and otherwise 1, 2, 4, 8. */
  function Pause(reply: Reply, i: nat): nat
    requires i < 4
  {
    if reply.Reply? && reply.status == 429 && reply.retryAfter.Some? then reply.retryAfter.value else [1, 2, 4, 8][i]
  }

  /** The pauses after the attempts number `i` up to `n`, which is not one of them. */
  function Pauses(replies: Replies, i: nat, n: nat): nat
    requires i <= n <= MAX_RETRIES
    decreases MAX_RETRIES - i
  {
    if i == n then 0 else Pause(replies[i], i) + Pauses(replies, i + 1, n)
  }

  lemma WaitIsPause(reply: Reply, i: nat)
    requires i < 4
    ensures Wait(reply, i) == Pause(reply, i)
  {
    assert Pow2(0) == 1;
    assert Pow2(1) == 2;
    assert Pow2(2) == 4;
    assert Pow2(3) == 8;
  }

  /** A call that is tried again from attempt number `i` up to `n`, and ends with attempt `n`. */
  ghost predicate EndsAt(c: Call, replies: Replies, i: nat, waited: nat, failures: nat, n: nat)
    requires i <= n <= MAX_RETRIES
  {
    && c.fetches == n + 1 && c.waited == waited + Pauses(replies, i, n)
    && c.outcome == (if TryAgain(replies[n]) then Exhausted else OutcomeOf(replies[n].status))
    && c.failures == (if c.outcome == Succeeded then 0 else failures + 1)
  }

  lemma EndsEarlier(c: Call, replies: Replies, i: nat, waited: nat, failures: nat, n: nat)
    requires i < n <= MAX_RETRIES && EndsAt(c, replies, i + 1, waited + Pause(replies[i], i), failures, n)
    ensures EndsAt(c, replies, i, waited, failures, n)
  {
    hide Pause;
  }

  lemma EndsHere(replies: Replies, waited: nat, failures: nat, n: nat)
    requires n <= MAX_RETRIES && (n < MAX_RETRIES ==> !TryAgain(replies[n]))
    ensures EndsAt(Attempts(replies, n, waited, failures), replies, n, waited, failures, n)
  {
    AttemptsStep(replies, n, waited, failures);
    SettledExactly(replies[n], n, waited, failures);
    hide Attempts, Settled, TryAgain, OutcomeOf;
  }

  lemma {:induction false} AttemptsExactly(replies: Replies, i: nat, waited: nat, failures: nat, n: nat)
    requires i <= n <= MAX_RETRIES
    requires forall j :: i <= j < n ==> TryAgain(replies[j])
    requires n < MAX_RETRIES ==> !TryAgain(replies[n])
    ensures EndsAt(Attempts(replies, i, waited, failures), replies, i, waited, failures, n)
    decreases n - i
  {
    hide Attempts, Wait, Pause, Settled, TryAgain, OutcomeOf, EndsAt;
    if i < n {
      AttemptsStep(replies, i, waited, failures);
      SettledExactly(replies[i], i, waited, failures);
      WaitIsPause(replies[i], i);
      AttemptsExactly(replies, i + 1, waited + Pause(replies[i], i), failures, n);
      EndsEarlier(Attempts(replies, i, waited, failures), replies, i, waited, failures, n);
    } else {
      EndsHere(replies, waited, failures, n);
    }
  }

  lemma SettledExactly(reply: Reply, n: nat, waited: nat, failures: nat)
    ensures var end := Settled(reply, n, waited, failures);
            if TryAgain(reply) then end.None?
            else end == Some(Call(OutcomeOf(reply.status), n + 1, waited,
                                  if OutcomeOf(reply.status) == Succeeded then 0 else failures + 1))
  {
  }

  /**
   A call whose first `n` replies are to be tried again, and whose next one is not or was the last: how many fetches
   it makes, how it ends, and that it waits exactly what the replies asked for plus the back-off of the others.
   */
  lemma CallEndsExactly(failures: nat, replies: Replies, n: nat)
    requires failures < CIRCUIT_BREAKER_THRESHOLD && n <= MAX_RETRIES
    requires forall i :: 0 <= i < n ==> TryAgain(replies[i])
    requires n < MAX_RETRIES ==> !TryAgain(replies[n])
    ensures var c := MakeRequest(failures, replies);
            && c.fetches == n + 1 && c.waited == Pauses(replies, 0, n)
            && c.outcome == (if TryAgain(replies[n]) then Exhausted else OutcomeOf(replies[n].status))
            && c.failures == (if c.outcome == Succeeded then 0 else failures + 1)
  {
    AttemptsExactly(replies, 0, 0, failures, n);
  }

  // ---- Calls one after another ----

  /** The failures in a row after `calls`. */
  function FailuresAfter(calls: seq<Replies>): nat {
    if calls == [] then 0 else MakeRequest(FailuresAfter(calls[..|calls| - 1]), calls[|calls| - 1]).failures
  }

  /** Whether a call that does fetch fails is a matter of its replies alone. */
  predicate Fails(replies: Replies) {
    Attempts(replies, 0, 0, 0).outcome != Succeeded
  }

  lemma {:induction false} OutcomeIgnoresFailures(replies: Replies, attempt: nat, waited: nat, failures: nat)
    requires attempt <= MAX_RETRIES
    ensures Attempts(replies, attempt, waited, failures).outcome == Attempts(replies, attempt, waited, 0).outcome
    decreases MAX_RETRIES - attempt
  {
    if Settled(replies[attempt], attempt, waited, failures).None? && attempt < MAX_RETRIES {
      OutcomeIgnoresFailures(replies, attempt + 1, waited + Wait(replies[attempt], attempt), failures);
    }
  }

  lemma FailureStep(calls: seq<Replies>)
    requires calls != []
    ensures var f := FailuresAfter(calls[..|calls| - 1]);
            FailuresAfter(calls) == if f >= CIRCUIT_BREAKER_THRESHOLD then f
                                    else if Fails(calls[|calls| - 1]) then f + 1 else 0
  {
    var f, last := FailuresAfter(calls[..|calls| - 1]), calls[|calls| - 1];
    if f < CIRCUIT_BREAKER_THRESHOLD {
      FetchesBounded(last, 0, 0, f);
      OutcomeIgnoresFailures(last, 0, 0, f);
    }
  }

  /** How many calls at the end of `calls` would fail. */
  function Trailing(calls: seq<Replies>): nat {
    if calls == [] then 0
    else if Fails(calls[|calls| - 1]) then Trailing(calls[..|calls| - 1]) + 1 else 0
  }

  ghost predicate ThreeFrom(calls: seq<Replies>, i: int) {
    0 <= i <= |calls| - 3 && Fails(calls[i]) && Fails(calls[i + 1]) && Fails(calls[i + 2])
  }

  ghost predicate ThreeInARow(calls: seq<Replies>) {
    exists i :: ThreeFrom(calls, i)
  }

  lemma {:induction false} TrailingThree(calls: seq<Replies>)
    ensures Trailing(calls) >= 3 <==> ThreeFrom(calls, |calls| - 3)
  {
    hide Fails;
    var n := |calls|;
    if n > 0 {
      assert Trailing(calls) == if Fails(calls[n - 1]) then Trailing(calls[..n - 1]) + 1 else 0;
      if n > 1 {
        assert calls[..n - 1][..n - 2] == calls[..n - 2];
        assert Trailing(calls[..n - 1]) == if Fails(calls[n - 2]) then Trailing(calls[..n - 2]) + 1 else 0;
      }
    }
  }

  lemma ThreeStep(calls: seq<Replies>)
    requires calls != []
    ensures ThreeInARow(calls) <==> ThreeInARow(calls[..|calls| - 1]) || ThreeFrom(calls, |calls| - 3)
  {
    hide Fails;
    var init := calls[..|calls| - 1];
    if ThreeInARow(calls) {
      var i :| ThreeFrom(calls, i);
      if i != |calls| - 3 { assert ThreeFrom(init, i); }
    }
    if ThreeInARow(init) {
      var i :| ThreeFrom(init, i);
      assert ThreeFrom(calls, i);
    }
  }

  /** Until the circuit opens, the counter is the length of the run of failed calls at the end. */
  lemma {:induction false} CounterIsTrailingFailures(calls: seq<Replies>)
    ensures FailuresAfter(calls) == if ThreeInARow(calls) then CIRCUIT_BREAKER_THRESHOLD else Trailing(calls)
    ensures !ThreeInARow(calls) ==> Trailing(calls) < CIRCUIT_BREAKER_THRESHOLD
  {
    if calls == [] {
    } else {
      CounterIsTrailingFailures(calls[..|calls| - 1]);
      FailureStep(calls);
      hide FailuresAfter, Fails, ThreeInARow;
      ThreeStep(calls);
      hide ThreeFrom;
      TrailingThree(calls);
    }
  }

  /** A call fetches nothing exactly when three consecutive calls before it failed: the circuit never closes. */
  lemma CircuitOpensExactly(calls: seq<Replies>, next: Replies)
    ensures MakeRequest(FailuresAfter(calls), next).fetches == 0 <==> ThreeInARow(calls)
  {
    CounterIsTrailingFailures(calls);
    OneCallIsBounded(FailuresAfter(calls), next);
  }
}

/** Keyset paging and batching (packages/shared/src/azure-devops-rest-adapter.ts). */
module AdoPaging {
  import opened Arithmetic
  import opened Sequences

  const BATCH_SIZE: nat := 200

  /** What the service holds: positive ids in ascending order. */
  ghost predicate Ids(server: seq<int>) {
    && (forall i :: 0 <= i < |server| ==> server[i] > 0)
    && (forall i, j :: 0 <= i < j < |server| ==> server[i] < server[j])
  }

  /** `WHERE [System.Id] > lastId ORDER BY [System.Id] ASC`. */
  function Above(server: seq<int>, lastId: int): seq<int> {
    if server == [] then []
    else (if server[0] > lastId then [server[0]] else []) + Above(server[1..], lastId)
  }

  /** One answer: at most `top` rows. */
  function Page(server: seq<int>, lastId: int, top: nat): seq<int> {
    var rows := Above(server, lastId);
    if top < |rows| then rows[..top] else rows
  }

  lemma {:induction false} AboveAll(server: seq<int>, lastId: int)
    requires forall i :: 0 <= i < |server| ==> server[i] > lastId
    ensures Above(server, lastId) == server
  {
    if server != [] { AboveAll(server[1..], lastId); }
  }

  lemma {:induction false} AboveCursor(server: seq<int>, k: nat)
    requires Ids(server) && k <= |server|
    ensures Above(server, if k == 0 then 0 else server[k - 1]) == server[k..]
  {
    var lastId := if k == 0 then 0 else server[k - 1];
    if k == 0 {
      AboveAll(server, lastId);
    } else {
      SkipBelow(server, k, lastId);
      AboveAll(server[k..], lastId);
    }
  }

  lemma {:induction false} SkipBelow(server: seq<int>, k: nat, lastId: int)
    requires k <= |server| && forall i :: 0 <= i < k ==> server[i] <= lastId
    ensures Above(server, lastId) == Above(server[k..], lastId)
  {
    if k > 0 {
      SkipBelow(server[1..], k - 1, lastId);
      assert server[1..][k - 1..] == server[k..];
    }
  }

  /** After `requests` full pages: how far the keyset has come. */
  ghost predicate Paged(server: seq<int>, top: nat, ids: seq<int>, requests: nat, lastId: int) {
    && |ids| == top * requests && |ids| <= |server| && ids == server[..|ids|]
    && lastId == if ids == [] then 0 else server[|ids| - 1]
  }

  /** The page after the first `k` ids: what comes next, whole or cut at the end. */
  lemma NextPage(server: seq<int>, k: nat, top: nat)
    requires Ids(server) && k <= |server|
    ensures Page(server, if k == 0 then 0 else server[k - 1], top) == server[k..Min(k + top, |server|)]
  {
    AboveCursor(server, k);
  }

  lemma PageGrows(server: seq<int>, k: nat, top: nat, ids: seq<int>, page: seq<int>)
    requires k <= |server| && ids == server[..k] && page == server[k..Min(k + top, |server|)]
    ensures |page| <= top && |page| == Min(k + top, |server|) - k && ids + page == server[..k + |page|]
  {
  }

  lemma PagedStep(server: seq<int>, top: nat, ids: seq<int>, requests: nat, lastId: int)
    requires Ids(server) && top >= 1 && Paged(server, top, ids, requests, lastId)
    ensures var page := Page(server, lastId, top);
            && |page| <= top && ids + page <= server
            && (|page| < top ==> ids + page == server && |server| / top == requests)
            && (|page| == top ==> Paged(server, top, ids + page, requests + 1, page[top - 1]))
  {
    var k, page := |ids|, Page(server, lastId, top);
    NextPage(server, k, top);
    hide Page, Ids;
    PageGrows(server, k, top, ids, page);
    if |page| < top {
      hide Paged;
      ShortPage(|server|, top, requests);
    } else {
      OneMore(top, requests);
    }
  }

  lemma OneMore(top: nat, requests: nat)
    ensures top * (requests + 1) == top * requests + top
  {
  }

  /**
   * Every id once and in order, with `|server| / top + 1` requests; a request that throws ends the call.
   */
  method QueryWorkItemIds(
    server: seq<int>, top: nat, throws: nat -> bool) returns (ids: seq<int>, requests: nat, ok: bool)
    requires Ids(server) && top >= 1
    ensures ok <==> forall i :: 0 <= i <= |server| / top ==> !throws(i)
    ensures ok ==> ids == server && requests == |server| / top + 1
  {
    ids, requests := [], 0;
    var lastId := 0;
    while true
      invariant |ids| <= |server| && Paged(server, top, ids, requests, lastId)
      invariant forall i :: 0 <= i < requests ==> !throws(i)
      decreases |server| - |ids|
    {
      FullPages(|server|, top, requests);
      PagedStep(server, top, ids, requests, lastId);
      hide Page, Ids, Paged;
      if throws(requests) { return ids, requests, false; }
      var pageIds := Page(server, lastId, top);
      ids := ids + pageIds;
      requests := requests + 1;
      if |pageIds| == 0 || |pageIds| < top { return ids, requests, true; }
      lastId := pageIds[|pageIds| - 1];
    }
  }

  lemma FullPages(n: nat, top: nat, requests: nat)
    requires top >= 1 && top * requests <= n
    ensures requests <= n / top
  {
    if requests > n / top { TimesMonotone(top, n / top + 1, requests); }
  }

  lemma ShortPage(n: nat, top: nat, requests: nat)
    requires top >= 1 && top * requests <= n < top * requests + top
    ensures n / top == requests
  {
    QuotientUnique(n, top, requests, n - top * requests);
  }

  /** The batches of the stream put end to end are the ids again; only the last may be short, and none is empty. */
  method StreamBatches(ids: seq<int>) returns (batches: seq<seq<int>>)
    ensures Flatten(batches) == ids
    ensures forall i :: 0 <= i < |batches| ==> 0 < |batches[i]| <= BATCH_SIZE
    ensures forall i :: 0 <= i < |batches| - 1 ==> |batches[i]| == BATCH_SIZE
  {
    batches := [];
    var i := 0;
    while i < |ids|
      invariant 0 <= i && Flatten(batches) == ids[..if i < |ids| then i else |ids|]
      invariant i < |ids| ==> forall b :: b in batches ==> |b| == BATCH_SIZE
      invariant forall j :: 0 <= j < |batches| ==> 0 < |batches[j]| <= BATCH_SIZE
      invariant forall j :: 0 <= j < |batches| - 1 ==> |batches[j]| == BATCH_SIZE
    {
      var end := if i + BATCH_SIZE < |ids| then i + BATCH_SIZE else |ids|;
      assert ids[..end] == ids[..i] + ids[i..end];
      ghost var before := batches;
      batches := batches + [ids[i..end]];
      assert batches[..|batches| - 1] == before;
      i := i + BATCH_SIZE;
    }
    assert ids[..|ids|] == ids;
  }
}
