/**
 * Repointing an Argo CD Application: toolkit/features/argo_manager.py, set_revision.
 * One call is a small state machine (`Lane`): a guarded read, then a patch conditioned on the
 * resourceVersion that was read, retried once after a conflict. Many lanes run at once, and the
 * controller bumps the resourceVersion with every status write.
 */
module Argo {
  import opened Prelude

  const PATCH_ATTEMPTS := 2

  /** What a caller asked for: the revision, whether to force, and which branch is the release. */
  datatype Request = Request(rev: string, force: bool, release: string)

  datatype Result =
    | Revised(oldRevision: string, newRevision: string)
    | HeldBy(revision: string)  // RevisionHeldError
    | NotFound                  // ApplicationNotFoundError
    | Failed                    // any other kubectl failure, a second conflict included

  datatype Lane =
    | Reading(req: Request, attempt: nat)
    | Patching(req: Request, attempt: nat, oldRevision: string, version: Option<nat>)
    | Finished(req: Request, result: Result)

  datatype ReadAnswer = Got(revision: string, version: Option<nat>) | Missing | ReadFailed

  datatype PatchAnswer = Patched | Conflict | PatchFailed

  /** The guard: another branch's preview is not replaced unless forced. */
  predicate Allowed(req: Request, current: string) {
    req.force || req.rev == req.release || current == req.release || current == req.rev
  }

  function AfterRead(lane: Lane, answer: ReadAnswer): Lane
    requires lane.Reading?
  {
    match answer
    case Missing => Finished(lane.req, NotFound)
    case ReadFailed => Finished(lane.req, Failed)
    case Got(revision, version) =>
      if Allowed(lane.req, revision) then Patching(lane.req, lane.attempt, revision, version)
      else Finished(lane.req, HeldBy(revision))
  }

  function AfterPatch(lane: Lane, answer: PatchAnswer): Lane
    requires lane.Patching?
  {
    match answer
    case Patched => Finished(lane.req, Revised(lane.oldRevision, lane.req.rev))
    case PatchFailed => Finished(lane.req, Failed)
    case Conflict =>
      if lane.attempt == PATCH_ATTEMPTS - 1 then Finished(lane.req, Failed) else Reading(lane.req, lane.attempt + 1)
  }

  /** A lane alone, given what each attempt's read and patch would answer. */
  function Drive(lane: Lane, befores: seq<ReadAnswer>, afters: seq<PatchAnswer>): Result
    requires |befores| == |afters| == PATCH_ATTEMPTS
    requires lane.Finished? || lane.attempt < PATCH_ATTEMPTS
    decreases if lane.Finished? then 0 else 2 * (PATCH_ATTEMPTS - lane.attempt) + (if lane.Reading? then 1 else 0)
  {
    match lane
    case Reading(_, attempt) => Drive(AfterRead(lane, befores[attempt]), befores, afters)
    case Patching(_, attempt, _, _) => Drive(AfterPatch(lane, afters[attempt]), befores, afters)
    case Finished(_, result) => result
  }

  /**
   * The loop of set_revision, with `before` and `after` as it keeps them. It drives the lane, sends no
   * patch after a refusal, and never patches twice except after a conflict. The refusal is exactly of a
   * call that is not forced and not to the release, by a revision that is neither the release nor its own.
   */
  method SetRevision(req: Request, befores: seq<ReadAnswer>, afters: seq<PatchAnswer>)
    returns (r: Result, sent: nat)
    requires |befores| == |afters| == PATCH_ATTEMPTS
    ensures r == Drive(Reading(req, 0), befores, afters)
    ensures sent <= PATCH_ATTEMPTS
    ensures sent > 1 ==> afters[0] == Conflict
    ensures r.HeldBy? ==> !Allowed(req, r.revision) && (sent > 0 ==> afters[sent - 1] == Conflict)
    // the answer from the attempts it reached; `held` is the guard, spelled out
    ensures var held := (c: string) => !req.force && req.rev != req.release && c != req.release && c != req.rev;
            var again := befores[0].Got? && !held(befores[0].revision) && afters[0] == Conflict;
            && (forall c :: r == HeldBy(c) <==>
                  || (befores[0].Got? && befores[0].revision == c && held(c))
                  || (again && befores[1].Got? && befores[1].revision == c && held(c)))
            && (forall c :: r == Revised(c, req.rev) <==>
                  || (befores[0].Got? && befores[0].revision == c && !held(c) && afters[0] == Patched)
                  || (again && befores[1].Got? && befores[1].revision == c && !held(c) && afters[1] == Patched))
            && (r == NotFound <==> befores[0].Missing? || (again && befores[1].Missing?))
            && sent == (if befores[0].Got? && !held(befores[0].revision) then 1 else 0)
                       + (if again && befores[1].Got? && !held(befores[1].revision) then 1 else 0)
    ensures r.Revised? ==>
      && r.newRevision == req.rev && sent > 0 && afters[sent - 1] == Patched
      && befores[sent - 1].Got? && r.oldRevision == befores[sent - 1].revision && Allowed(req, r.oldRevision)
  {
    sent := 0;
    for attempt := 0 to PATCH_ATTEMPTS
      invariant sent == attempt
      invariant forall k :: 0 <= k < attempt ==> afters[k] == Conflict
      invariant forall k :: 0 <= k < attempt ==> befores[k].Got? && Allowed(req, befores[k].revision)
      invariant attempt < PATCH_ATTEMPTS
      invariant Drive(Reading(req, 0), befores, afters) == Drive(Reading(req, attempt), befores, afters)
    {
      var before := befores[attempt];
      if before.Missing? {
        return NotFound, sent;
      }
      if before.ReadFailed? {
        return Failed, sent;
      }
      if !req.force && req.rev != req.release && before.revision != req.release && before.revision != req.rev {
        return HeldBy(before.revision), sent;
      }
      var after := afters[attempt];
      ghost var lane := Patching(req, attempt, before.revision, before.version);
      assert AfterRead(Reading(req, attempt), before) == lane;
      assert Drive(lane, befores, afters) == Drive(AfterPatch(lane, after), befores, afters);
      sent := sent + 1;
      if after == Patched {
        return Revised(before.revision, req.rev), sent;
      }
      if after != Conflict || attempt == PATCH_ATTEMPTS - 1 {
        return Failed, sent;
      }
    }
  }

  // ---------------------------------------------------------------- many lanes and the controller

  /** The object on the cluster. Every write to it, status writes included, moves its version. */
  datatype Application = Application(revision: string, version: nat)

  /** What one patch replaced, by what, and whether it was conditioned: the patch named a version. */
  datatype Commit = Commit(lane: nat, from: string, to: string, conditioned: bool)

  datatype State = State(app: Application, lanes: map<nat, Lane>, log: seq<Commit>)

  datatype Step =
    | Begin(lane: nat, req: Request)
    | Read(lane: nat, carries: bool)          // `carries`: the object read names its resourceVersion
    | ReadBroken(lane: nat, missing: bool)
    | Patch(lane: nat)
    | PatchBroken(lane: nat, landed: bool)    // no answer, or an error that is no conflict
    | StatusWrite                             // the controller

  /** The API server's own check: a patch that names a version commits only on that version. */
  predicate Matches(lane: Lane, app: Application)
    requires lane.Patching?
  {
    lane.version == None || lane.version == Some(app.version)
  }

  function CommitPatch(s: State, i: nat): State
    requires i in s.lanes && s.lanes[i].Patching?
  {
    var to := s.lanes[i].req.rev;
    s.(app := Application(to, s.app.version + 1),
       log := s.log + [Commit(i, s.app.revision, to, s.lanes[i].version.Some?)])
  }

  /** One step of anyone; a step that is not possible changes nothing. */
  function Do(s: State, step: Step): State {
    match step
    case Begin(i, req) =>
      if i in s.lanes then s else s.(lanes := s.lanes[i := Reading(req, 0)])
    case Read(i, carries) =>
      if i in s.lanes && s.lanes[i].Reading? then
        var version := if carries then Some(s.app.version) else None;
        s.(lanes := s.lanes[i := AfterRead(s.lanes[i], Got(s.app.revision, version))])
      else s
    case ReadBroken(i, missing) =>
      if i in s.lanes && s.lanes[i].Reading? then
        s.(lanes := s.lanes[i := AfterRead(s.lanes[i], if missing then Missing else ReadFailed)])
      else s
    case Patch(i) =>
      if i in s.lanes && s.lanes[i].Patching? then
        if Matches(s.lanes[i], s.app) then
          CommitPatch(s, i).(lanes := s.lanes[i := AfterPatch(s.lanes[i], Patched)])
        else s.(lanes := s.lanes[i := AfterPatch(s.lanes[i], Conflict)])
      else s
    case PatchBroken(i, landed) =>
      if i in s.lanes && s.lanes[i].Patching? then
        var s' := if landed && Matches(s.lanes[i], s.app) then CommitPatch(s, i) else s;
        s'.(lanes := s.lanes[i := AfterPatch(s.lanes[i], PatchFailed)])
      else s
    case StatusWrite => s.(app := s.app.(version := s.app.version + 1))
  }

  function Run(s: State, steps: seq<Step>): State
    decreases |steps|
  {
    if steps == [] then s else Do(Run(s, steps[..|steps| - 1]), steps[|steps| - 1])
  }

  ghost predicate Initial(s: State) {
    s.lanes == map[] && s.log == []
  }

  /** Every read in the run named a resourceVersion. */
  ghost predicate Versioned(steps: seq<Step>) {
    forall step :: step in steps && step.Read? ==> step.carries
  }

  /** The log explains the object: each commit replaced what the one before it wrote. */
  ghost predicate Chained(origin: string, log: seq<Commit>, revision: string) {
    && (log == [] ==> revision == origin)
    && (log != [] ==> log[0].from == origin && log[|log| - 1].to == revision)
    && forall k :: 0 < k < |log| ==> log[k].from == log[k - 1].to
  }

  /** What a lane about to patch knows: while its version still matches, the object is what it read. */
  ghost predicate Informed(lane: Lane, app: Application) {
    lane.Patching? ==>
      && Allowed(lane.req, lane.oldRevision)
      && (lane.version.Some? ==> lane.version.value <= app.version)
      && (lane.version == Some(app.version) ==> lane.oldRevision == app.revision)
  }

  /** A logged commit is of a lane that has finished, and a conditioned one was allowed. */
  ghost predicate Accounted(c: Commit, lanes: map<nat, Lane>) {
    && c.lane in lanes && lanes[c.lane].Finished?
    && c.to == lanes[c.lane].req.rev && (c.conditioned ==> Allowed(lanes[c.lane].req, c.from))
  }

  /** A lane that reports a revision has logged its commit, and reports what a conditioned one replaced. */
  ghost predicate Recorded(i: nat, lane: Lane, log: seq<Commit>) {
    lane.Finished? && lane.result.Revised? ==> exists c :: c in log && Reports(lane.result, c, i)
  }

  ghost predicate Reports(r: Result, c: Commit, i: nat)
    requires r.Revised?
  {
    c.lane == i && c.to == r.newRevision && (c.conditioned ==> c.from == r.oldRevision)
  }

  ghost predicate Ledger(log: seq<Commit>, lanes: map<nat, Lane>) {
    && (forall c :: c in log ==> Accounted(c, lanes))
    && (forall i :: i in lanes ==> Recorded(i, lanes[i], log))
    && (forall j, k :: 0 <= j < k < |log| ==> log[j].lane != log[k].lane)
  }

  ghost predicate Inv(origin: string, s: State) {
    && Chained(origin, s.log, s.app.revision)
    && Ledger(s.log, s.lanes)
    && (forall i :: i in s.lanes ==> Informed(s.lanes[i], s.app))
  }

  /** The ledger when a lane that was not finished finishes with its own commit. */
  lemma LedgerSnoc(log: seq<Commit>, lanes: map<nat, Lane>, i: nat, lane: Lane, commit: Commit)
    requires Ledger(log, lanes) && i in lanes && !lanes[i].Finished?
    requires commit.lane == i && Accounted(commit, lanes[i := lane]) && Recorded(i, lane, [commit])
    ensures Ledger(log + [commit], lanes[i := lane])
  {
    var log', lanes' := log + [commit], lanes[i := lane];
    forall c | c in log
      ensures c.lane != i && c in log' && Accounted(c, lanes')
    {
      assert Accounted(c, lanes);
    }
    forall k | k in lanes'
      ensures Recorded(k, lanes'[k], log')
    {
      if k != i {
        assert Recorded(k, lanes[k], log);
      } else if lane.Finished? && lane.result.Revised? {
        assert Reports(lane.result, commit, i) && commit in log';
      }
    }
  }

  /** A lane moves on without a commit. */
  lemma InvMove(origin: string, s: State, i: nat, lane: Lane)
    requires Inv(origin, s)
    requires i !in s.lanes || !s.lanes[i].Finished?
    requires Informed(lane, s.app) && (lane.Finished? ==> !lane.result.Revised?)
    ensures Inv(origin, s.(lanes := s.lanes[i := lane]))
  {
  }

  /** A lane commits: its patch still matched, so it replaced exactly what it had read. */
  lemma InvCommit(origin: string, s: State, i: nat, lane: Lane)
    requires Inv(origin, s)
    requires i in s.lanes && s.lanes[i].Patching? && Matches(s.lanes[i], s.app)
    requires lane.Finished? && lane.req == s.lanes[i].req
    requires lane.result.Revised? ==> lane.result == Revised(s.lanes[i].oldRevision, lane.req.rev)
    ensures Inv(origin, CommitPatch(s, i).(lanes := s.lanes[i := lane]))
  {
    var commit := Commit(i, s.app.revision, lane.req.rev, s.lanes[i].version.Some?);
    assert Informed(s.lanes[i], s.app);
    if lane.result.Revised? {
      assert commit in [commit] && Reports(lane.result, commit, i);
    }
    LedgerSnoc(s.log, s.lanes, i, lane, commit);
    assert forall k :: k in s.lanes && k != i ==> Informed(s.lanes[k], CommitPatch(s, i).app);
  }

  lemma InvStep(origin: string, s: State, step: Step)
    requires Inv(origin, s)
    ensures Inv(origin, Do(s, step))
  {
    if step.StatusWrite? {
      assert forall i :: i in s.lanes ==> Informed(s.lanes[i], Do(s, step).app);
    } else if Do(s, step) != s {
      var i := step.lane;
      var lane := Do(s, step).lanes[i];
      if (step.Patch? || (step.PatchBroken? && step.landed)) && Matches(s.lanes[i], s.app) {
        InvCommit(origin, s, i, lane);
      } else {
        InvMove(origin, s, i, lane);
      }
    }
  }

  lemma {:induction false} InvRun(s0: State, steps: seq<Step>)
    requires Initial(s0)
    ensures Inv(s0.app.revision, Run(s0, steps))
  {
    if steps != [] {
      var n := |steps| - 1;
      InvRun(s0, steps[..n]);
      InvStep(s0.app.revision, Run(s0, steps[..n]), steps[n]);
    }
  }

  /** What an unforced call may do: move to the release, off the release, or onto the branch it is on. */
  ghost predicate Respects(c: Commit, req: Request) {
    && c.to == req.rev
    && (!req.force ==> c.to == req.release || c.from == req.release || c.from == c.to)
  }

  /**
   * In every interleaving, forced lanes, status writes and unversioned reads included: an unforced call
   * whose own patch was conditioned moves the Application only to the release, off the release, or onto
   * the branch it is already on, and the `old_revision` it reports is the value its commit replaced.
   * Every call commits at most once.
   */
  lemma PreviewsAreNotReplaced(s0: State, steps: seq<Step>)
    requires Initial(s0)
    ensures Chained(s0.app.revision, Run(s0, steps).log, Run(s0, steps).app.revision)
    ensures forall c :: c in Run(s0, steps).log ==>
      c.lane in Run(s0, steps).lanes && (c.conditioned ==> Respects(c, Run(s0, steps).lanes[c.lane].req))
    ensures forall a, b :: a in Run(s0, steps).log && b in Run(s0, steps).log && a.lane == b.lane ==> a == b
    ensures forall i :: i in Run(s0, steps).lanes ==> Recorded(i, Run(s0, steps).lanes[i], Run(s0, steps).log)
  {
    InvRun(s0, steps);
    var s := Run(s0, steps);
    assert forall c :: c in s.log ==> Accounted(c, s.lanes);
  }

  /** Where every read named a resourceVersion, every commit is conditioned, and so every one respects the guard. */
  lemma {:induction false} VersionedRunsAreConditioned(s0: State, steps: seq<Step>)
    requires Initial(s0) && Versioned(steps)
    ensures forall c :: c in Run(s0, steps).log ==> c.conditioned
    ensures forall i :: i in Run(s0, steps).lanes && Run(s0, steps).lanes[i].Patching? ==>
      Run(s0, steps).lanes[i].version.Some?
  {
    if steps != [] {
      var n := |steps| - 1;
      assert forall step :: step in steps[..n] ==> step in steps;
      assert steps[n] in steps;
      VersionedRunsAreConditioned(s0, steps[..n]);
    }
  }

  /**
   * The guard survives to the commit exactly because the patch is conditioned: whenever a lane holds a
   * read that named no resourceVersion, another lane can repoint the Application in between, and the
   * unforced patch then replaces that lane's preview while reporting the revision it read.
   */
  lemma AnUnversionedReadCanAlwaysBreakIt(s: State, i: nat, j: nat, preview: string)
    requires i in s.lanes && s.lanes[i].Patching? && s.lanes[i].version == None
    requires !s.lanes[i].req.force && s.lanes[i].req.rev != s.lanes[i].req.release
    requires j !in s.lanes && preview != s.lanes[i].req.release && preview != s.lanes[i].req.rev
    ensures var other := Request(preview, true, s.lanes[i].req.release);
            var s' := Do(Do(Do(Do(s, Begin(j, other)), Read(j, true)), Patch(j)), Patch(i));
            && s'.log == s.log + [Commit(j, s.app.revision, preview, true),
                                  Commit(i, preview, s.lanes[i].req.rev, false)]
            && !Allowed(s.lanes[i].req, preview)
            && s'.lanes[i].result == Revised(s.lanes[i].oldRevision, s.lanes[i].req.rev)
  {
  }

  /**
   * The guard in the transition system, both ways: a read finishes the lane as held exactly if the call is
   * not forced and not to the release and the revision is neither the release nor its own; otherwise the
   * lane goes on to patch.
   */
  lemma WhenAReadHolds(s: State, i: nat, carries: bool)
    requires i in s.lanes && s.lanes[i].Reading?
    ensures var req, c, lane := s.lanes[i].req, s.app.revision, Do(s, Read(i, carries)).lanes[i];
            if !req.force && req.rev != req.release && c != req.release && c != req.rev
            then lane == Finished(req, HeldBy(c))
            else lane.Patching? && lane.req == req && lane.oldRevision == c && lane.attempt == s.lanes[i].attempt
                 && lane.version == if carries then Some(s.app.version) else None
    ensures Do(s, Read(i, carries)).app == s.app && Do(s, Read(i, carries)).log == s.log
  {
  }

  /** A read that fails ends the call, as not found or as failed, and changes nothing. */
  lemma WhenAReadBreaks(s: State, i: nat, missing: bool)
    requires i in s.lanes && s.lanes[i].Reading?
    ensures var lane := Finished(s.lanes[i].req, if missing then NotFound else Failed);
            Do(s, ReadBroken(i, missing)) == s.(lanes := s.lanes[i := lane])
  {
  }

  /** A patch that was never answered, or met another error, ends the call; it may have committed. */
  lemma WhenAPatchBreaks(s: State, i: nat, landed: bool)
    requires i in s.lanes && s.lanes[i].Patching?
    ensures var lane, t := s.lanes[i], Do(s, PatchBroken(i, landed));
            && t.lanes == s.lanes[i := Finished(lane.req, Failed)]
            && if landed && (lane.version == None || lane.version == Some(s.app.version)) then
                 && t.app == Application(lane.req.rev, s.app.version + 1)
                 && t.log == s.log + [Commit(i, s.app.revision, lane.req.rev, lane.version.Some?)]
               else t.app == s.app && t.log == s.log
  {
  }

  /** A status write moves the version and nothing else, and a call that begins reads first. */
  lemma WhatElseHappens(s: State, i: nat, req: Request)
    ensures Do(s, StatusWrite) == s.(app := Application(s.app.revision, s.app.version + 1))
    ensures i !in s.lanes ==> Do(s, Begin(i, req)) == s.(lanes := s.lanes[i := Reading(req, 0)])
  {
  }

  /** A patch commits if it names the version the object is at, or names none; else it meets a conflict. */
  lemma WhenAPatchCommits(s: State, i: nat)
    requires i in s.lanes && s.lanes[i].Patching?
    ensures var lane, t := s.lanes[i], Do(s, Patch(i));
            if lane.version == None || lane.version == Some(s.app.version) then
              && t.app == Application(lane.req.rev, s.app.version + 1)
              && t.log == s.log + [Commit(i, s.app.revision, lane.req.rev, lane.version.Some?)]
              && t.lanes[i] == Finished(lane.req, Revised(lane.oldRevision, lane.req.rev))
            else
              && t.app == s.app && t.log == s.log
              && t.lanes[i] == if lane.attempt == 0 then Reading(lane.req, 1) else
                                 if lane.attempt == 1 then Finished(lane.req, Failed)
                                 else Reading(lane.req, lane.attempt + 1)
  {
  }

  /** So pointing back at the release is never refused, whoever holds the Application. */
  lemma TheReleaseIsNeverRefused(s: State, i: nat, release: string, force: bool)
    requires i !in s.lanes
    ensures var t := Do(Do(Do(s, Begin(i, Request(release, force, release))), Read(i, true)), Patch(i));
            t.app.revision == release
            && t.lanes[i] == Finished(Request(release, force, release), Revised(s.app.revision, release))
  {
    var s1 := Do(s, Begin(i, Request(release, force, release)));
    WhenAReadHolds(s1, i, true);
    WhenAPatchCommits(Do(s1, Read(i, true)), i);
  }

  /** Six steps, one after the other. */
  lemma RunSix(s: State, a: Step, b: Step, c: Step, d: Step, e: Step, f: Step)
    ensures Run(s, [a, b, c, d, e, f]) == Do(Do(Do(Do(Do(Do(s, a), b), c), d), e), f)
  {
    assert [a, b, c, d, e, f][..5] == [a, b, c, d, e];
    assert [a, b, c, d, e][..4] == [a, b, c, d];
    assert [a, b, c, d][..3] == [a, b, c];
    assert [a, b, c][..2] == [a, b];
    assert [a, b][..1] == [a];
    assert [a][..0] == [];
    assert Run(s, [a]) == Do(s, a);
    assert Run(s, [a, b]) == Do(Do(s, a), b);
    assert Run(s, [a, b, c]) == Do(Do(Do(s, a), b), c);
    assert Run(s, [a, b, c, d]) == Do(Do(Do(Do(s, a), b), c), d);
  }

  /** So without the version the promise is false: two lanes read the release, and the second wins. */
  lemma UnversionedReadBreaksThePromise()
    ensures var a, b := Request("lane-a", false, "master"), Request("lane-b", false, "master");
            var s := Run(State(Application("master", 0), map[], []),
                         [Begin(0, a), Begin(1, b), Read(0, false), Read(1, true), Patch(1), Patch(0)]);
            s.log == [Commit(1, "master", "lane-b", true), Commit(0, "lane-b", "lane-a", false)]
  {
    var a, b := Request("lane-a", false, "master"), Request("lane-b", false, "master");
    var s0 := State(Application("master", 0), map[], []);
    RunSix(s0, Begin(0, a), Begin(1, b), Read(0, false), Read(1, true), Patch(1), Patch(0));
    var s4 := Do(Do(Do(Do(s0, Begin(0, a)), Begin(1, b)), Read(0, false)), Read(1, true));
    assert s4.lanes[0] == Patching(a, 0, "master", None) && s4.lanes[1] == Patching(b, 0, "master", Some(0));
  }

  /**
   * A status write between the read and the patch costs the call its first attempt and nothing else:
   * it reads again, the guard decides again, and the second patch commits.
   */
  lemma OneStatusWriteIsAbsorbed(s: State, i: nat, req: Request)
    requires i !in s.lanes && Allowed(req, s.app.revision)
    ensures var s' := Run(s, [Begin(i, req), Read(i, true), StatusWrite, Patch(i), Read(i, true), Patch(i)]);
            && s'.app.revision == req.rev
            && s'.log == s.log + [Commit(i, s.app.revision, req.rev, true)]
            && s'.lanes == s.lanes[i := Finished(req, Revised(s.app.revision, req.rev))]
  {
    RunSix(s, Begin(i, req), Read(i, true), StatusWrite, Patch(i), Read(i, true), Patch(i));
    var s3 := Do(Do(Do(s, Begin(i, req)), Read(i, true)), StatusWrite);
    assert s3.lanes == s.lanes[i := Patching(req, 0, s.app.revision, Some(s.app.version))];
    var s4 := Do(s3, Patch(i));
    assert s4.lanes == s.lanes[i := Reading(req, 1)];
  }
}
