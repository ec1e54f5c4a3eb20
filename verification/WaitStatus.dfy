/**
 * Waiting for a commit status: toolkit/features/argo_manager.py, latest_status and wait_status.
 * Fetches and clock readings are arbitrary functions of the number of the fetch, so the contract
 * holds for every sequence of answers.
 */
module WaitStatus {
  import opened Prelude

  /** One posted status. `updatedAt` 0 stands for the empty string of a missing timestamp. */
  datatype Status = Status(context: string, state: string, updatedAt: nat, description: string)

  datatype Fetch = Statuses(all: seq<Status>) | FetchError

  datatype Verdict = SUCCESS | FAILED | CANNOT_CHECK

  /** Why the wait ended: the last status read, that there was none, or that it could not be read. */
  datatype Line =
    | Posted(state: string, description: string)
    | StillPending(description: string)
    | NoStatus
    | Unreadable(lastRead: Option<Line>)

  /** The newest status of `context`; the first one listed among equal timestamps. */
  function Latest(all: seq<Status>, context: string): (r: Option<Status>)
  {
    if all == [] then None
    else
      var before := Latest(all[..|all| - 1], context);
      var last := all[|all| - 1];
      if last.context == context && (before == None || before.value.updatedAt < last.updatedAt) then Some(last)
      else before
  }

  /** `i` is where the newest status of `context` stands. */
  ghost predicate IsLatest(all: seq<Status>, context: string, i: nat) {
    && i < |all| && all[i].context == context
    && (forall j :: 0 <= j < |all| && all[j].context == context ==> all[j].updatedAt <= all[i].updatedAt)
    && (forall j :: 0 <= j < i && all[j].context == context ==> all[j].updatedAt < all[i].updatedAt)
  }

  lemma {:induction false} LatestIsNewest(all: seq<Status>, context: string) returns (i: nat)
    ensures Latest(all, context) == None ==> forall s :: s in all ==> s.context != context
    ensures Latest(all, context).Some? ==> IsLatest(all, context, i) && all[i] == Latest(all, context).value
  {
    i := 0;
    if all != [] {
      var n := |all| - 1;
      var init := all[..n];
      i := LatestIsNewest(init, context);
      assert all == init + [all[n]];
      var before := Latest(init, context);
      if all[n].context == context && (before == None || before.value.updatedAt < all[n].updatedAt) {
        forall j | 0 <= j < n && all[j].context == context
          ensures all[j].updatedAt < all[n].updatedAt
        {
          assert init[j] in init;
        }
        i := n;
      }
    }
  }

  lemma LatestIsUnique(all: seq<Status>, context: string, i: nat, j: nat)
    requires IsLatest(all, context, i) && IsLatest(all, context, j)
    ensures i == j
  {
  }

  /** A fetch that ends the wait at once, and how. */
  function Settles(fetch: Fetch, context: string): Option<Verdict> {
    if fetch.FetchError? then None
    else match Latest(fetch.all, context)
      case None => None
      case Some(status) =>
        if status.state == "success" then Some(SUCCESS)
        else if status.state == "failure" || status.state == "error" then Some(FAILED)
        else None
  }

  /** What one fetch says, when it is the last one before the deadline. */
  function Says(fetch: Fetch, context: string, lastRead: Option<Line>): Line {
    match fetch
    case FetchError => Unreadable(lastRead)
    case Statuses(all) =>
      match Latest(all, context)
      case None => NoStatus
      case Some(status) =>
        if status.state == "success" || status.state == "failure" || status.state == "error"
        then Posted(status.state, status.description) else StillPending(status.description)
  }

  /** The line of the last readable one among the first `n` fetches. */
  function LastRead(fetch: nat -> Fetch, context: string, n: nat): Option<Line> {
    if n == 0 then None
    else if fetch(n - 1).FetchError? then LastRead(fetch, context, n - 1)
    else Some(Says(fetch(n - 1), context, None))
  }

  /** A fetch settles the wait exactly by the state of the newest status of the context, and what it says. */
  lemma WhatAFetchSays(fetch: Fetch, context: string, i: nat, lastRead: Option<Line>)
    requires fetch.Statuses? && IsLatest(fetch.all, context, i)
    ensures var status := fetch.all[i];
            && Settles(fetch, context) == (if status.state == "success" then Some(SUCCESS)
                                           else if status.state == "failure" then Some(FAILED)
                                           else if status.state == "error" then Some(FAILED) else None)
            && Says(fetch, context, lastRead)
               == if status.state == "success" || status.state == "failure" || status.state == "error"
                  then Posted(status.state, status.description) else StillPending(status.description)
  {
    assert fetch.all[i] in fetch.all;
    var k := LatestIsNewest(fetch.all, context);
    LatestIsUnique(fetch.all, context, i, k);
  }

  /** Without a status of the context, or without an answer, nothing is settled. */
  lemma WhatNothingSays(fetch: Fetch, context: string, lastRead: Option<Line>)
    requires fetch.FetchError? || forall i: nat :: !IsLatest(fetch.all, context, i)
    ensures Settles(fetch, context) == None
    ensures Says(fetch, context, lastRead) == if fetch.FetchError? then Unreadable(lastRead) else NoStatus
  {
    if fetch.Statuses? && Latest(fetch.all, context).Some? {
      var k := LatestIsNewest(fetch.all, context);
    }
  }

  /** What an unreadable fetch repeats is the line of the last readable one before it, if there was one. */
  lemma {:induction false} LastReadIsTheLast(fetch: nat -> Fetch, context: string, n: nat)
    ensures LastRead(fetch, context, n) == None <==> forall k: nat :: k < n ==> fetch(k).FetchError?
    ensures forall k: nat :: k < n && fetch(k).Statuses? && (forall j: nat :: k < j < n ==> fetch(j).FetchError?) ==>
      LastRead(fetch, context, n) == Some(Says(fetch(k), context, None))
  {
    if n > 0 {
      LastReadIsTheLast(fetch, context, n - 1);
      assert fetch(n - 1).FetchError? || fetch(n - 1).Statuses?;
    }
  }

  /** The sleep between the reading after fetch `k` and the next one lasted at least `poll`. */
  ghost predicate Advances(clock: nat -> real, poll: real, k: nat) {
    clock(k) + poll <= clock(k + 1)
  }

  /** How long `n` sleeps last at least. */
  ghost function Slept(n: nat, poll: real): real {
    if n == 0 then 0.0 else Slept(n - 1, poll) + poll
  }

  lemma {:induction false} SleptIsProduct(n: nat, poll: real)
    ensures Slept(n, poll) == n as real * poll
  {
    if n > 0 {
      SleptIsProduct(n - 1, poll);
      assert (n - 1) as real * poll + poll == n as real * poll;
    }
  }

  /** A number of polls that outlasts the timeout. */
  lemma Outlasts(timeout: real, poll: real) returns (n: nat)
    requires poll > 0.0
    ensures timeout <= Slept(n, poll)
  {
    n := 0;
    if timeout > 0.0 {
      n := (timeout / poll).Floor + 1;
      assert timeout / poll <= n as real;
      SleptIsProduct(n, poll);
    }
  }

  function Ceil(x: real): int {
    -((-x).Floor)
  }

  /** The least whole number that is not below `x`. */
  lemma CeilMeans(x: real)
    ensures Ceil(x) as real - 1.0 < x <= Ceil(x) as real
  {
  }

  /** When all sleeps but the last fit in the timeout, there are no more fetches than that. */
  lemma FetchesAreBounded(fetches: nat, timeout: real, poll: real)
    requires poll > 0.0 && (fetches >= 2 ==> Slept(fetches - 2, poll) < timeout)
    ensures fetches <= (if timeout > 0.0 then Ceil(timeout / poll) else 0) + 1
  {
    if fetches >= 2 {
      SleptIsProduct(fetches - 2, poll);
      assert (fetches - 2) as real * poll / poll == (fetches - 2) as real;
      assert (fetches - 2) as real < timeout / poll <= Ceil(timeout / poll) as real;
    } else if timeout > 0.0 {
      assert timeout / poll > 0.0;
    }
  }

  /**
   * Polls until a fetch settles the wait or the deadline has passed. `clock(k)` is read after fetch k,
   * and between two fetches the wait sleeps, which moves the clock by at least `poll`.
   */
  method Wait(context: string, fetch: nat -> Fetch, timeout: real, poll: real, start: real, clock: nat -> real)
    returns (verdict: Verdict, line: Line, fetches: nat)
    requires poll > 0.0 && start <= clock(0)
    requires forall k: nat :: Advances(clock, poll, k)
    ensures fetches >= 1
    // it waited only for fetches that settle nothing, and only before the deadline
    ensures forall k: nat :: k < fetches - 1 ==>
      Settles(fetch(k), context) == None && clock(k) < start + timeout
    ensures fetches <= (if timeout > 0.0 then Ceil(timeout / poll) else 0) + 1
    ensures match Settles(fetch(fetches - 1), context)
      case Some(settled) => verdict == settled
      case None => verdict == (if fetch(fetches - 1).FetchError? then CANNOT_CHECK else FAILED)
                   && clock(fetches - 1) >= start + timeout
    ensures line == Says(fetch(fetches - 1), context, LastRead(fetch, context, fetches - 1))
  {
    var deadline := start + timeout;
    var seen: Option<Line> := None;
    fetches := 0;
    ghost var budget := Outlasts(timeout, poll);
    while true
      invariant seen == LastRead(fetch, context, fetches)
      invariant forall k: nat :: k < fetches ==> Settles(fetch(k), context) == None && clock(k) < deadline
      invariant clock(fetches) >= start + Slept(fetches, poll)
      invariant fetches >= 1 ==> Slept(fetches - 1, poll) < timeout
      invariant deadline <= clock(fetches) + Slept(budget, poll)
      decreases budget
    {
      var status := fetch(fetches);
      fetches := fetches + 1;
      FetchesAreBounded(fetches, timeout, poll);
      if status.FetchError? {
        verdict, line := CANNOT_CHECK, Unreadable(seen);
      } else {
        var latest := Latest(status.all, context);
        if latest == None {
          verdict, line := FAILED, NoStatus;
        } else {
          var state, description := latest.value.state, latest.value.description;
          line := Posted(state, description);
          if state == "success" {
            return SUCCESS, line, fetches;
          }
          if state == "failure" || state == "error" {
            return FAILED, line, fetches;
          }
          verdict, line := FAILED, StillPending(description);
        }
        seen := Some(line);
      }
      if clock(fetches - 1) >= deadline {
        return;
      }
      // sleep(poll)
      assert Advances(clock, poll, fetches - 1);
      assert budget > 0;
      budget := budget - 1;
    }
  }

  /**
   * The two answers a caller branches on: success only when the newest status read last is a success,
   * and cannot-check exactly when the last fetch failed.
   */
  lemma VerdictMeans(fetch: Fetch, context: string, verdict: Verdict)
    requires match Settles(fetch, context)
      case Some(settled) => verdict == settled
      case None => verdict == (if fetch.FetchError? then CANNOT_CHECK else FAILED)
    ensures verdict == CANNOT_CHECK <==> fetch.FetchError?
    ensures verdict == SUCCESS <==>
      fetch.Statuses? && exists i: nat :: IsLatest(fetch.all, context, i) && fetch.all[i].state == "success"
  {
    if fetch.Statuses? {
      var k := LatestIsNewest(fetch.all, context);
      forall i: nat | IsLatest(fetch.all, context, i)
        ensures Latest(fetch.all, context).Some? && i == k
      {
        assert fetch.all[i] in fetch.all;
        LatestIsUnique(fetch.all, context, i, k);
      }
    }
  }
}
