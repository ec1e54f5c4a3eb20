/**
 * The alerting smoke test: toolkit/features/alert_smoke.py, run_alert_smoke and _await.
 * A certificate failure is induced, the alert awaited, the failure removed, and the all-clear awaited.
 * Any call may raise, at any point; the removal of the induced failure is sent on every path.
 */
module AlertSmoke {
  import opened Prelude

  const PROBE_HOST := "obs007-induced-failure.kubelab.local"
  const FIRING_TIMEOUT_S := 900
  const RESOLVE_TIMEOUT_S := 1200
  const NOTIFY_TIMEOUT_S := 120
  const POLL_INTERVAL_S := 30

  /** The rule's state as Grafana answers it, and the domains of its firing instances. */
  datatype Rules = Rules(state: string, domains: set<string>)

  /** What was sent and what it showed; the two writes are recorded when sent, with whether they took effect. */
  datatype Event =
    | Counted(deliveries: nat, really: nat)  // what the log showed, and how many there had been
    | RulesRead(rules: Rules)
    | ApplySent(landed: bool)
    | DeleteSent(landed: bool)

  /**
   * What one call meets: how long it takes, whether it raises, what was delivered meanwhile and how much
   * of all that the log does not show, what the rules are, and what a write answers and does.
   */
  datatype Answer = Answer(elapsed: nat, raises: bool, more: nat, missed: nat, rules: Rules, applied: bool,
                           landed: bool)

  /**
   * Counts are never too high and what was delivered stays delivered. A count may be too low: the exit
   * code of `kubectl logs` is not looked at, and a log that could not be read counts nothing.
   */
  ghost predicate Counts(trace: seq<Event>, delivered: nat) {
    && (forall k :: 0 <= k < |trace| && trace[k].Counted? ==> trace[k].deliveries <= trace[k].really <= delivered)
    && (forall j, k :: 0 <= j < k < |trace| && trace[j].Counted? && trace[k].Counted? ==>
          trace[j].really <= trace[k].really)
  }

  class Cluster {
    const answers: nat -> Answer
    var calls: nat
    /** A monotonic clock: calls take the time they take, and a sleep at least what was asked. */
    var clock: int
    /** The notifications Apprise has delivered. */
    var delivered: nat
    /** The probe is on the cluster. */
    var present: bool
    ghost var trace: seq<Event>

    ghost predicate Valid()
      reads this
    {
      Counts(trace, delivered)
    }

    /** None of the calls from `first` up to `end` raises. */
    ghost predicate Quiet(first: nat, end: nat) {
      forall k :: first <= k < end ==> !answers(k).raises
    }

    method Next() returns (a: Answer)
      requires Valid()
      modifies this`calls, this`clock, this`delivered
      ensures Valid()
      ensures a == answers(old(calls)) && calls == old(calls) + 1 && clock >= old(clock)
    {
      delivered := delivered + answers(calls).more;
      a := answers(calls);
      calls := calls + 1;
      clock := clock + a.elapsed;
    }

    /** The deliveries that the log shows; None when the call raised. */
    method Deliveries() returns (n: Option<nat>)
      requires Valid()
      modifies this`calls, this`clock, this`delivered, this`trace
      ensures Valid()
      ensures calls == old(calls) + 1 && (n == None <==> answers(old(calls)).raises)
      ensures clock >= old(clock)
      ensures trace == old(trace) + if n.Some? then [Counted(n.value, delivered)] else []
    {
      var a := Next();
      n := if a.raises then None else Some(if a.missed >= delivered then 0 else delivered - a.missed);
      trace := trace + if n.Some? then [Counted(n.value, delivered)] else [];
    }

    method ReadRules() returns (rules: Option<Rules>)
      requires Valid()
      modifies this`calls, this`clock, this`delivered, this`trace
      ensures Valid()
      ensures calls == old(calls) + 1 && (rules == None <==> answers(old(calls)).raises)
      ensures clock >= old(clock)
      ensures trace == old(trace) + if rules.Some? then [RulesRead(rules.value)] else []
    {
      var a := Next();
      rules := if a.raises then None else Some(a.rules);
      trace := trace + if rules.Some? then [RulesRead(rules.value)] else [];
    }

    /** kubectl apply of the probe: whether it exited 0, or None when it raised. */
    method ApplyProbe() returns (ok: Option<bool>)
      requires Valid()
      modifies this`calls, this`clock, this`delivered, this`trace, this`present
      ensures Valid()
      ensures calls == old(calls) + 1 && (ok == None <==> answers(old(calls)).raises)
      ensures ok.Some? ==> ok.value == answers(old(calls)).applied
      ensures clock >= old(clock)
      ensures exists landed :: trace == old(trace) + [ApplySent(landed)] && present == (old(present) || landed)
    {
      var a := Next();
      ok := if a.raises then None else Some(a.applied);
      present := present || a.landed;
      trace := trace + [ApplySent(a.landed)];
    }

    /** kubectl delete of the probe. Nobody looks at its exit code. */
    method DeleteProbe() returns (raised: bool)
      requires Valid()
      modifies this`calls, this`clock, this`delivered, this`trace, this`present
      ensures Valid()
      ensures calls == old(calls) + 1 && raised == answers(old(calls)).raises
      ensures clock >= old(clock)
      ensures exists landed :: trace == old(trace) + [DeleteSent(landed)] && present == (old(present) && !landed)
    {
      var a := Next();
      raised := a.raises;
      present := present && !a.landed;
      trace := trace + [DeleteSent(a.landed)];
    }

    method Sleep(seconds: nat) returns (raised: bool)
      requires Valid()
      modifies this`calls, this`clock, this`delivered
      ensures Valid()
      ensures calls == old(calls) + 1 && raised == answers(old(calls)).raises
      ensures clock >= old(clock) + seconds
    {
      var a := Next();
      clock := clock + seconds;
      raised := a.raises;
    }
  }

  // ---------------------------------------------------------------- waiting

  /** What a wait waits for. */
  datatype Goal = Firing | Inactive | MoreThan(n: nat)

  /** An observation that reaches the goal. */
  predicate Reaches(e: Event, goal: Goal) {
    match goal
    case Firing => e.RulesRead? && e.rules.state == "firing"
    case Inactive => e.RulesRead? && e.rules.state == "inactive"
    case MoreThan(n) => e.Counted? && e.deliveries > n
  }

  ghost predicate OnlyObserves(trace: seq<Event>, from: nat) {
    from <= |trace| && forall k :: from <= k < |trace| ==> trace[k].Counted? || trace[k].RulesRead?
  }

  /** The first of the events from `from` on to reach the goal is the one at `at`. */
  ghost predicate First(trace: seq<Event>, from: nat, at: nat, goal: Goal) {
    && from <= at < |trace| && Reaches(trace[at], goal)
    && Never(trace, from, at, goal)
  }

  ghost predicate Never(trace: seq<Event>, from: nat, to: nat, goal: Goal) {
    to <= |trace| && forall k :: from <= k < to ==> !Reaches(trace[k], goal)
  }

  /** One look, and the rules it saw if it looked at them. */
  method Observe(c: Cluster, goal: Goal) returns (seen: Option<bool>, rules: Option<Rules>)
    requires c.Valid()
    modifies c`calls, c`clock, c`delivered, c`trace
    ensures c.Valid()
    ensures c.clock >= old(c.clock) && old(c.trace) <= c.trace
    ensures OnlyObserves(c.trace, |old(c.trace)|)
    ensures seen == None ==> c.trace == old(c.trace)
    ensures seen.Some? ==> |c.trace| == |old(c.trace)| + 1 && (seen.value <==> Reaches(c.trace[|c.trace| - 1], goal))
    ensures rules.Some? ==> c.trace == old(c.trace) + [RulesRead(rules.value)]
    ensures seen.Some? && !goal.MoreThan? ==> rules.Some?
    ensures c.calls == old(c.calls) + 1 && (seen == None <==> c.answers(old(c.calls)).raises)
  {
    rules := None;
    match goal
    case MoreThan(n) =>
      var count := c.Deliveries();
      seen := if count == None then None else Some(count.value > n);
    case _ =>
      rules := c.ReadRules();
      seen := if rules == None then None
      else Some(rules.value.state == if goal == Firing then "firing" else "inactive");
  }

  /**
   * Polls until the goal is observed or the deadline has passed. True means the last thing observed
   * was the first to reach it; false means that nothing observed did, and the time was up.
   */
  method Await(c: Cluster, goal: Goal, timeout: nat) returns (reached: Option<bool>, rules: Option<Rules>)
    requires c.Valid()
    modifies c`calls, c`clock, c`delivered, c`trace
    ensures c.Valid()
    ensures c.clock >= old(c.clock) && old(c.trace) <= c.trace
    ensures OnlyObserves(c.trace, |old(c.trace)|)
    ensures reached == Some(true) ==> |c.trace| > |old(c.trace)| && First(c.trace, |old(c.trace)|, |c.trace| - 1, goal)
    ensures reached == Some(false) ==> Never(c.trace, |old(c.trace)|, |c.trace|, goal)
    ensures reached == Some(true) && !goal.MoreThan? ==>
      rules.Some? && c.trace[|c.trace| - 1] == RulesRead(rules.value)
    ensures reached == Some(false) ==> c.clock >= old(c.clock) + timeout
    ensures |c.trace| > |old(c.trace)| ==> 30 * (|c.trace| - |old(c.trace)| - 1) < timeout
    ensures old(c.calls) <= c.calls && (reached == None <==> !c.Quiet(old(c.calls), c.calls))
  {
    var deadline := c.clock + timeout;
    rules := None;
    while c.clock < deadline
      invariant c.Valid() && c.clock >= old(c.clock) && old(c.trace) <= c.trace
      invariant OnlyObserves(c.trace, |old(c.trace)|) && Never(c.trace, |old(c.trace)|, |c.trace|, goal)
      invariant old(c.calls) <= c.calls && c.Quiet(old(c.calls), c.calls)
      invariant c.clock >= old(c.clock) + 30 * (|c.trace| - |old(c.trace)|)
      invariant |c.trace| > |old(c.trace)| ==> 30 * (|c.trace| - |old(c.trace)| - 1) < timeout
      decreases deadline - c.clock
    {
      var seen;
      seen, rules := Observe(c, goal);
      if seen == None {
        return None, rules;
      }
      if seen.value {
        return Some(true), rules;
      }
      var raised := c.Sleep(POLL_INTERVAL_S);
      if raised {
        return None, rules;
      }
    }
    reached := Some(false);
  }

  // ---------------------------------------------------------------- the run

  datatype SmokeResult = SmokeResult(fired: bool, notified: bool, resolved: bool, resolveNotified: bool, named: bool)

  function Ok(r: SmokeResult): bool {
    r.fired && r.named && r.notified && r.resolved && r.resolveNotified
  }

  const NOTHING := SmokeResult(false, false, false, false, false)

  datatype Outcome = Raised | Refused | NotObservable | ApplyFailed | Ran(result: SmokeResult)

  /** Where in the trace each stage of a passing run happened. */
  datatype Stages = Stages(baseline: nat, applied: nat, firing: nat, delivered: nat, deleted: nat, recounted: nat,
                           cleared: nat, resolved: nat)

  /** The first half, in order: a baseline, the apply, the rule firing and naming the host, a delivery. */
  ghost predicate Fired(trace: seq<Event>, s: Stages) {
    && s.baseline < s.applied < s.firing < s.delivered < |trace|
    && trace[s.baseline].Counted? && trace[s.applied].ApplySent?
    && trace[s.firing].RulesRead? && trace[s.firing].rules.state == "firing"
    && PROBE_HOST in trace[s.firing].rules.domains
    && trace[s.delivered].Counted? && trace[s.delivered].deliveries > trace[s.baseline].deliveries
  }

  /** The second half: the removal, a new baseline, the rule inactive, and a delivery after that. */
  ghost predicate Cleared(trace: seq<Event>, s: Stages) {
    && s.delivered < s.deleted < s.recounted < s.cleared < s.resolved < |trace|
    && trace[s.deleted].DeleteSent? && trace[s.recounted].Counted?
    && trace[s.cleared].RulesRead? && trace[s.cleared].rules.state == "inactive"
    && trace[s.resolved].Counted? && trace[s.resolved].deliveries > trace[s.recounted].deliveries
  }

  /**
   * What the first half of a result says of the trace before `to`: whether a reading showed the rule
   * firing, whether the first that did named the host, and whether a later count was above the baseline.
   */
  ghost predicate Induced(trace: seq<Event>, s: Stages, r: SmokeResult, to: nat) {
    && s.baseline < s.applied < to <= |trace| && trace[s.baseline].Counted? && trace[s.applied].ApplySent?
    && if !r.fired then !r.named && !r.notified && Never(trace, s.applied + 1, to, Firing)
       else
         && s.firing < to && First(trace, s.applied + 1, s.firing, Firing)
         && (r.named <==> "obs007-induced-failure.kubelab.local" in trace[s.firing].rules.domains)
         && if r.notified then
              s.delivered < to && First(trace, s.firing + 1, s.delivered, MoreThan(trace[s.baseline].deliveries))
            else Never(trace, s.firing + 1, to, MoreThan(trace[s.baseline].deliveries))
  }

  /** And the second half: whether the rule was then read as inactive, and a count above the recount after that. */
  ghost predicate Settled(trace: seq<Event>, s: Stages, r: SmokeResult) {
    && s.deleted < s.recounted < |trace| && trace[s.deleted].DeleteSent? && trace[s.recounted].Counted?
    && if !r.resolved then !r.resolveNotified && Never(trace, s.recounted + 1, |trace|, Inactive)
       else
         && First(trace, s.recounted + 1, s.cleared, Inactive)
         && if r.resolveNotified then
              First(trace, s.cleared + 1, s.resolved, MoreThan(trace[s.recounted].deliveries))
            else Never(trace, s.cleared + 1, |trace|, MoreThan(trace[s.recounted].deliveries))
  }

  /** The `try`: apply, wait for the alert, wait for its notification. None when something raised. */
  method Induce(c: Cluster, ghost baselineAt: nat, baseline: nat)
    returns (r: Option<SmokeResult>, applied: bool, ghost s: Stages)
    requires baselineAt < |c.trace| && c.trace[baselineAt].Counted? && c.trace[baselineAt].deliveries == baseline
    requires c.Valid()
    modifies c`calls, c`clock, c`delivered, c`trace, c`present
    ensures c.Valid()
    ensures old(c.trace) < c.trace && c.trace[|old(c.trace)|].ApplySent?
    ensures c.present == (old(c.present) || c.trace[|old(c.trace)|].landed)
    ensures OnlyObserves(c.trace, |old(c.trace)| + 1)
    ensures r.Some? && !applied ==> r.value == NOTHING
    ensures r.Some? ==> !r.value.resolved && !r.value.resolveNotified
    ensures r.Some? && !r.value.fired ==> r.value == NOTHING
    ensures s.delivered < |c.trace| && c.clock >= old(c.clock)
    ensures old(c.calls) <= c.calls && (r == None <==> !c.Quiet(old(c.calls), c.calls))
    ensures r.Some? ==> applied == c.answers(old(c.calls)).applied
    ensures r.Some? && applied && !r.value.fired ==> c.clock >= old(c.clock) + FIRING_TIMEOUT_S
    ensures r.Some? && r.value.fired && !r.value.notified ==> c.clock >= old(c.clock) + NOTIFY_TIMEOUT_S
    ensures s.baseline == baselineAt && s.applied == |old(c.trace)|
    ensures r.Some? && applied ==> Induced(c.trace, s, r.value, |c.trace|)
  {
    s := Stages(baselineAt, |c.trace|, 0, 0, 0, 0, 0, 0);
    var exited := c.ApplyProbe();
    applied := exited.Some? && exited.value;
    if exited == None {
      return None, applied, s;
    }
    if !applied {
      return Some(NOTHING), applied, s;
    }
    var fired, rules := Await(c, Firing, FIRING_TIMEOUT_S);
    if fired == None {
      return None, applied, s;
    }
    var named, notified := false, Some(false);
    if fired.value {
      s := s.(firing := |c.trace| - 1);
      named := PROBE_HOST in rules.value.domains;
      notified, rules := Await(c, MoreThan(baseline), NOTIFY_TIMEOUT_S);
      s := s.(delivered := |c.trace| - 1);
      if notified == None {
        return None, applied, s;
      }
    }
    r := Some(SmokeResult(fired.value, notified.value, false, false, named));
  }

  /** One apply and one removal after it, and nothing else but looking. */
  ghost predicate Undone(trace: seq<Event>, from: nat, s: Stages) {
    && from <= s.applied < s.deleted < |trace|
    && trace[s.applied].ApplySent? && trace[s.deleted].DeleteSent?
    && (forall k :: from <= k < |trace| && k != s.applied && k != s.deleted ==>
          trace[k].Counted? || trace[k].RulesRead?)
  }

  /** The probe is there after such a run: it was there or the apply put it there, and the removal failed. */
  ghost predicate LeftBehind(trace: seq<Event>, s: Stages, before: bool)
    requires s.applied < |trace| && trace[s.applied].ApplySent?
    requires s.deleted < |trace| && trace[s.deleted].DeleteSent?
  {
    (before || trace[s.applied].landed) && !trace[s.deleted].landed
  }

  /** The `try` and its `finally`: what the removal raises replaces whatever was on its way out. */
  method InduceAndRemove(c: Cluster, ghost baselineAt: nat, baseline: nat)
    returns (r: Option<SmokeResult>, applied: bool, ghost s: Stages)
    requires baselineAt < |c.trace| && c.trace[baselineAt].Counted? && c.trace[baselineAt].deliveries == baseline
    requires c.Valid()
    modifies c`calls, c`clock, c`delivered, c`trace, c`present
    ensures c.Valid()
    ensures old(c.trace) < c.trace && Undone(c.trace, |old(c.trace)|, s)
    ensures c.present == LeftBehind(c.trace, s, old(c.present))
    ensures r.Some? && (!applied || !r.value.fired) ==> r.value == NOTHING
    ensures r.Some? ==> !r.value.resolved && !r.value.resolveNotified
    ensures s.delivered < s.deleted && c.clock >= old(c.clock)
    ensures old(c.calls) <= c.calls && (r == None <==> !c.Quiet(old(c.calls), c.calls))
    ensures r.Some? ==> applied == c.answers(old(c.calls)).applied
    ensures r.Some? && applied && !r.value.fired ==> c.clock >= old(c.clock) + FIRING_TIMEOUT_S
    ensures r.Some? && r.value.fired && !r.value.notified ==> c.clock >= old(c.clock) + NOTIFY_TIMEOUT_S
    ensures s.baseline == baselineAt && s.applied == |old(c.trace)|
    ensures r.Some? && applied ==> Induced(c.trace, s, r.value, s.deleted)
  {
    r, applied, s := Induce(c, baselineAt, baseline);
    s := s.(applied := |old(c.trace)|, deleted := |c.trace|);
    var raised := c.DeleteProbe();
    r := if raised then None else r;
  }

  /** After the removal: a fresh count, the rule read as inactive, and a delivery above that count. */
  method Clear(c: Cluster, first: SmokeResult, ghost before: Stages)
    returns (r: Option<SmokeResult>, ghost s: Stages)
    requires !first.resolved && !first.resolveNotified && before.delivered < before.deleted < |c.trace|
    requires c.trace[before.deleted].DeleteSent?
    requires c.Valid()
    modifies c`calls, c`clock, c`delivered, c`trace
    ensures c.Valid()
    ensures old(c.trace) <= c.trace && OnlyObserves(c.trace, |old(c.trace)|)
    ensures r.Some? ==> r.value.(resolved := false, resolveNotified := false) == first
    ensures r.Some? ==> Settled(c.trace, s, r.value)
    ensures s == before.(recounted := s.recounted, cleared := s.cleared, resolved := s.resolved)
    ensures c.clock >= old(c.clock)
    ensures old(c.calls) <= c.calls && (r == None <==> !c.Quiet(old(c.calls), c.calls))
    ensures r.Some? && !r.value.resolved ==> c.clock >= old(c.clock) + RESOLVE_TIMEOUT_S
    ensures r.Some? && r.value.resolved && !r.value.resolveNotified ==> c.clock >= old(c.clock) + NOTIFY_TIMEOUT_S
  {
    s := before.(recounted := |c.trace|);
    var recount := c.Deliveries();
    if recount == None {
      return None, s;
    }
    var resolved, rules := Await(c, Inactive, RESOLVE_TIMEOUT_S);
    if resolved == None {
      return None, s;
    }
    var told := Some(false);
    if resolved.value {
      s := s.(cleared := |c.trace| - 1);
      told, rules := Await(c, MoreThan(recount.value), NOTIFY_TIMEOUT_S);
      s := s.(resolved := |c.trace| - 1);
      if told == None {
        return None, s;
      }
    }
    r := Some(first.(resolved := resolved.value, resolveNotified := told.value));
  }

  /** The two looks before anything is induced. None: the run may go on, from that many deliveries. */
  method Baseline(c: Cluster) returns (end: Option<Outcome>, n: nat)
    requires c.Valid()
    modifies c`calls, c`clock, c`delivered, c`trace
    ensures c.Valid()
    ensures old(c.trace) <= c.trace && OnlyObserves(c.trace, |old(c.trace)|) && c.clock >= old(c.clock)
    ensures end == None ==>
      && |c.trace| == |old(c.trace)| + 2 && c.trace[|old(c.trace)|].Counted?
      && c.trace[|old(c.trace)|].deliveries == n && c.trace[|old(c.trace)| + 1].RulesRead?
      && c.trace[|old(c.trace)| + 1].rules.state != "absent"
      && c.trace[|old(c.trace)| + 1].rules.state != "unreadable"
    ensures end.Some? ==> end.value == Raised || end.value == NotObservable
    ensures old(c.calls) <= c.calls && (end == Some(Raised) <==> !c.Quiet(old(c.calls), c.calls))
    ensures end == None ==> c.calls == old(c.calls) + 2
    ensures end == Some(NotObservable) ==>
      && |c.trace| == |old(c.trace)| + 2 && c.trace[|old(c.trace)| + 1].RulesRead?
      && (c.trace[|old(c.trace)| + 1].rules.state == "absent"
          || c.trace[|old(c.trace)| + 1].rules.state == "unreadable")
  {
    var baseline := c.Deliveries();
    if baseline == None {
      return Some(Raised), 0;
    }
    var initial := c.ReadRules();
    if initial == None {
      return Some(Raised), 0;
    }
    if initial.value.state == "absent" || initial.value.state == "unreadable" {
      return Some(NotObservable), 0;
    }
    end, n := None, baseline.value;
  }

  /** What each field of a result stands for, and that it passes exactly if both halves are in the trace in order. */
  ghost predicate Stands(trace: seq<Event>, s: Stages, r: SmokeResult) {
    && Induced(trace, s, r, s.deleted)
    && (if r.fired then Settled(trace, s, r) else !r.resolved && !r.resolveNotified)
    && (Ok(r) <==> Fired(trace, s) && Cleared(trace, s))
  }

  /** The run from the apply on. */
  method Smoke(c: Cluster, ghost baselineAt: nat, baseline: nat) returns (o: Outcome, ghost s: Stages)
    requires baselineAt < |c.trace| && c.trace[baselineAt].Counted? && c.trace[baselineAt].deliveries == baseline
    requires c.Valid()
    modifies c`calls, c`clock, c`delivered, c`trace, c`present
    ensures c.Valid()
    ensures o == Raised || o == ApplyFailed || o.Ran?
    ensures old(c.trace) < c.trace && Undone(c.trace, |old(c.trace)|, s)
    ensures c.present == LeftBehind(c.trace, s, old(c.present))
    ensures s.applied == |old(c.trace)|
    ensures o.Ran? ==> s.baseline == baselineAt && Stands(c.trace, s, o.result)
    ensures old(c.calls) <= c.calls && (o == Raised <==> !c.Quiet(old(c.calls), c.calls))
    ensures o != Raised ==> (o == ApplyFailed <==> !c.answers(old(c.calls)).applied)
    ensures o.Ran? ==> TimeWasUp(o.result, c.clock - old(c.clock)) && c.clock >= old(c.clock)
    ensures o == Raised || o == ApplyFailed ==> c.clock >= old(c.clock)
  {
    var first, applied;
    first, applied, s := InduceAndRemove(c, baselineAt, baseline);
    if first == None {
      return Raised, s;
    }
    if !applied {
      return ApplyFailed, s;
    }
    if !first.value.fired {
      WhenAResultPasses(c.trace, s, first.value);
      return Ran(first.value), s;
    }
    var r;
    ghost var before, removed := c.trace, s;
    r, s := Clear(c, first.value, s);
    UndoneStays(before, c.trace, |old(c.trace)|, removed, s);
    if r.Some? {
      InducedStays(before, c.trace, s, r.value);
      WhenAResultPasses(c.trace, s, r.value);
    }
    o := if r == None then Raised else Ran(r.value);
  }

  /** What a result says did not happen had its time. */
  predicate TimeWasUp(r: SmokeResult, elapsed: int) {
    && (!r.fired ==> elapsed >= 900)
    && (r.fired && !r.notified ==> elapsed >= 120)
    && (r.fired && !r.resolved ==> elapsed >= 1200)
    && (r.resolved && !r.resolveNotified ==> elapsed >= 120)
  }

  /**
   * The whole run. A passing verdict is an ordered trace of this run, and on every path, whatever
   * raises, the apply and its removal after it are sent once each. The probe is left behind exactly when
   * it was there or the apply took effect, and the removal did not.
   */
  method RunAlertSmoke(c: Cluster, env: string) returns (o: Outcome, ghost s: Stages)
    requires c.Valid()
    modifies c`calls, c`clock, c`delivered, c`trace, c`present
    ensures c.Valid()
    ensures old(c.trace) <= c.trace
    ensures o == Refused <==> env != "staging"
    ensures o == Refused ==> c.trace == old(c.trace) && c.calls == old(c.calls)
    ensures o == NotObservable ==>
      && |c.trace| == |old(c.trace)| + 2 && OnlyObserves(c.trace, |old(c.trace)|)
      && c.trace[|old(c.trace)| + 1].RulesRead?
      && (c.trace[|old(c.trace)| + 1].rules.state == "absent"
          || c.trace[|old(c.trace)| + 1].rules.state == "unreadable")
    ensures o == Raised ==> OnlyObserves(c.trace, |old(c.trace)|) || Undone(c.trace, |old(c.trace)|, s)
    ensures o.Ran? || o == ApplyFailed ==> Undone(c.trace, |old(c.trace)|, s)
    ensures OnlyObserves(c.trace, |old(c.trace)|) ==> c.present == old(c.present)
    ensures Undone(c.trace, |old(c.trace)|, s) ==> c.present == LeftBehind(c.trace, s, old(c.present))
    ensures o.Ran? || o == ApplyFailed ==>
      && |c.trace| > |old(c.trace)| + 1 && s.applied == |old(c.trace)| + 2 && c.trace[|old(c.trace)| + 1].RulesRead?
      && c.trace[|old(c.trace)| + 1].rules.state != "absent"
      && c.trace[|old(c.trace)| + 1].rules.state != "unreadable"
    ensures o.Ran? ==> s.baseline == |old(c.trace)| && Stands(c.trace, s, o.result)
    // each answer but a pass has its reason: a call that raised or failed, or a deadline that passed
    ensures old(c.calls) <= c.calls && (o == Raised <==> !c.Quiet(old(c.calls), c.calls))
    ensures o.Ran? || o == ApplyFailed ==> (o == ApplyFailed <==> !c.answers(old(c.calls) + 2).applied)
    ensures o.Ran? ==> TimeWasUp(o.result, c.clock - old(c.clock))
  {
    s := Stages(|c.trace|, 0, 0, 0, 0, 0, 0, 0);
    if env != "staging" {
      return Refused, s;
    }
    var end, baseline := Baseline(c);
    if end.Some? {
      return end.value, s;
    }
    ghost var observed := c.trace;
    o, s := Smoke(c, s.baseline, baseline);
    assert Undone(c.trace, |old(c.trace)|, s) by {
      assert forall k :: |old(c.trace)| <= k < |observed| ==> c.trace[k] == observed[k];
    }
  }

  // ---------------------------------------------------------------- what a passing verdict means

  /** What the first half says is about the trace before the removal only. */
  lemma InducedStays(before: seq<Event>, trace: seq<Event>, s: Stages, r: SmokeResult)
    requires before <= trace && s.deleted <= |before|
    requires Induced(before, s, r, s.deleted)
    ensures Induced(trace, s, r, s.deleted)
  {
  }

  /** Looking on after the removal, with only later stages added, leaves what was sent and what that left. */
  lemma UndoneStays(before: seq<Event>, trace: seq<Event>, from: nat, s: Stages, s': Stages)
    requires Undone(before, from, s) && before <= trace && OnlyObserves(trace, |before|)
    requires s' == s.(recounted := s'.recounted, cleared := s'.cleared, resolved := s'.resolved)
    ensures Undone(trace, from, s') && forall b :: LeftBehind(trace, s', b) == LeftBehind(before, s, b)
  {
    assert forall k :: from <= k < |before| ==> trace[k] == before[k];
  }

  /** A result passes exactly if the trace holds both halves in order. */
  lemma WhenAResultPasses(trace: seq<Event>, s: Stages, r: SmokeResult)
    requires Induced(trace, s, r, s.deleted)
    requires if r.fired then Settled(trace, s, r) else !r.resolved && !r.resolveNotified
    ensures Stands(trace, s, r)
  {
  }

  /** A later count that the run takes for a delivery: above the earlier one, and not above what there was. */
  predicate TakenForOne(earlier: nat, before: nat, later: nat, after: nat) {
    earlier < later <= after && before <= after
  }

  /** A higher count means a delivery between the two exactly if the first one was not too low. */
  lemma WhenAHigherCountIsADelivery(earlier: nat, before: nat)
    requires earlier <= before
    ensures (forall later: nat, after: nat :: TakenForOne(earlier, before, later, after) ==> before < after) <==>
            earlier == before
  {
    if earlier < before {
      assert TakenForOne(earlier, before, before, before);
    }
  }

  /**
   * So a passing run had its firing notification delivered after the apply if the baseline was whole, and
   * its resolved notification after the removal if the recount was.
   */
  lemma WhatAPassDelivered(trace: seq<Event>, s: Stages, delivered: nat)
    requires Fired(trace, s) && Cleared(trace, s) && Counts(trace, delivered)
    ensures trace[s.baseline].deliveries == trace[s.baseline].really ==>
      trace[s.delivered].really > trace[s.baseline].really
    ensures trace[s.recounted].deliveries == trace[s.recounted].really ==>
      trace[s.resolved].really > trace[s.recounted].really
  {
  }

  /** The trace of a pass in which nothing is delivered after the removal: the log is not read for the recount. */
  lemma AFailedRecount()
    ensures var firing, clear := Rules("firing", {PROBE_HOST}), Rules("inactive", {});
            var trace := [Counted(0, 0), RulesRead(clear), ApplySent(true), RulesRead(firing), Counted(1, 1),
                          DeleteSent(true), Counted(0, 1), RulesRead(clear), Counted(1, 1)];
            var s := Stages(0, 2, 3, 4, 5, 6, 7, 8);
            && Counts(trace, 1) && Fired(trace, s) && Cleared(trace, s)
            && trace[s.resolved].really == trace[s.recounted].really == trace[s.delivered].really
  {
  }
}
