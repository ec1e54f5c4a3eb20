/**
 * What a run of `FleetMint.All` with `rotate` does when it answers that it succeeded.
 */
module FleetRotation {
  import opened Prelude
  import opened World
  import opened TokenMint
  import opened MintRuns
  import opened MintLeftovers
  import opened CalmRuns
  import opened FleetMint
  import opened FleetRuns
  import opened FleetScopes

  /** The pair is that of a token made since. */
  ghost predicate Renewed(s: State, t: State, pair: Pair) {
    exists n: nat :: s.nextId <= n < t.nextId && Names(t.files, pair, n)
  }

  /** The token that the pair named is dead, unless a read failed. */
  ghost predicate Retired(s: State, t: State, pair: Pair) {
    || SomeReadFailed(s.trace, t.trace)
    || forall n: nat :: Shown(s.files, pair.access) == Some(Id(n)) ==> Id(n) !in t.tokens
  }

  /** A new pair for the old, whose token is dead unless a read failed or a call claimed what it did not do. */
  ghost predicate Rotates(s: State, t: State, pair: Pair) {
    Renewed(s, t, pair) && (Pretend in s.weather || Retired(s, t, pair))
  }

  lemma RetiredInTrace(s: State, t: State, pair: Pair, id: Option<Value>)
    requires s.trace <= t.trace && (id.Some? ==> id.value !in t.tokens)
    requires (forall e :: e in t.trace[|s.trace|..] ==> !ReadFailed(e)) ==> id == Shown(s.files, pair.access)
    ensures Retired(s, t, pair)
  {
    var sent := t.trace[|s.trace|..];
    if e :| e in sent && ReadFailed(e) {
      var k :| 0 <= k < |sent| && sent[k] == e;
      assert t.trace[|s.trace| + k] == e;
    }
  }

  /** One mint that succeeds. */
  lemma MintRotates(s: State, granted: Grant, job: Job)
    requires Sound(s) && job.readable != [] && job.pair.access != job.pair.secret && job.rotate
    ensures var (r, t) := Mint(s, granted, job);
            r != Failed && r != Raised ==> Rotates(s, t, job.pair)
  {
    var mint := Mint(s, granted, job);
    var r, t, run := mint.0, mint.1, RunOf(s, granted, job);
    MintIsARun(s, granted, job);
    MintKeeps(s, granted, job);
    if r != Failed && r != Raised {
      WrittenNames(s.files, job.pair, s.nextId);
      assert run.end.Stored?;
      if Pretend !in s.weather {
        ARotationIsARevocation(s, granted, job);
        NoReadRaised(s, r, t, run, granted, job);
        RetiredInTrace(s, t, job.pair, IdRead(run));
      }
    }
  }

  lemma NoReadRaised(s: State, r: Outcome, t: State, run: Run, granted: Grant, job: Job)
    requires Ran(s, r, t, run, granted, job) && r != Raised && Halts(s.trace, t.trace, false)
    ensures (forall e :: e in t.trace[|s.trace|..] ==> !ReadFailed(e)) ==>
      IdRead(run) == Shown(s.files, job.pair.access)
  {
    var sent := t.trace[|s.trace|..];
    forall e | e in sent
      ensures !e.ShowRaised?
    {
      var k :| 0 <= k < |sent| && sent[k] == e;
      assert t.trace[|s.trace| + k] == e;
    }
    if forall e :: e in sent ==> !ReadFailed(e) {
      WhereEveryReadOpens(s, r, t, run, granted, job);
    }
  }

  lemma RotatesStays(s: State, mid: State, t: State, pair: Pair)
    requires Sound(s) && Rotates(s, mid, pair) && SamePair(mid, t, pair)
    requires Grows(s, mid) && Grows(mid, t) && s.trace <= mid.trace <= t.trace
    ensures Rotates(s, t, pair)
  {
    var n: nat :| s.nextId <= n < mid.nextId && Names(mid.files, pair, n);
    assert Names(t.files, pair, n);
    ReplacesAmong(s.trace, s.trace, mid.trace, t.trace, "");
  }

  lemma RotatesSince(s: State, mid: State, t: State, pair: Pair)
    requires Rotates(mid, t, pair) && SamePair(s, mid, pair)
    requires Grows(s, mid) && s.trace <= mid.trace <= t.trace && Shorter(s, mid)
    ensures Rotates(s, t, pair)
  {
    var n: nat :| mid.nextId <= n < t.nextId && Names(t.files, pair, n);
    ReplacesAmong(s.trace, mid.trace, t.trace, t.trace, "");
    SameAtShown(s.files, mid.files, pair.access);
    if Pretend !in s.weather {
      StillToCome(s, mid);
    }
  }

  // ---------------------------------------------------------------- the nodes

  /** What one node's turn does when a rotation is asked for. */
  ghost predicate TurnRotated(s: State, done: Option<bool>, t: State, node: string) {
    && Sound(t) && Grows(s, t) && SameBeyond(s.files, t.files, node) && s.trace <= t.trace && Shorter(s, t)
    && (done == Some(true) ==> Rotates(s, t, NodePair(node)))
  }

  lemma TurnRotates(s: State, granted: Grant, node: string, otherBucket: string, password: string)
    requires Sound(s) && password != ""
    ensures var (done, t) := NodeTurn(s, granted, node, otherBucket, true, password);
            TurnRotated(s, done, t, node)
  {
    var job := PairJob(node, otherBucket, true);
    var (minted, mid) := Mint(s, granted, job);
    PathsApart(node, node);
    MintRotates(s, granted, job);
    MintFences(s, granted, job);
    MintKeeps(s, granted, job);
    TurnFences(s, granted, node, otherBucket, true, password);
    TurnTwin(s, granted, node, otherBucket, true, password);
    if minted != Failed && minted != Raised {
      EnsureSends(mid, node, password);
      EnsureWrites(mid, node, password);
      EnsureKeeps(mid, node, password);
      var t := Ensure(mid, node, password).1;
      assert SamePair(mid, t, job.pair);
      RotatesStays(s, mid, t, job.pair);
    }
  }

  ghost predicate TurnsRotate(turn: Turner, targets: seq<string>) {
    forall s: State, k: nat {:trigger turn(s, k)} ::
      Sound(s) && k < |targets| ==> TurnRotated(s, turn(s, k).0, turn(s, k).1, targets[k])
  }

  lemma RotationsTaken(granted: Grant, nodes: seq<string>, targets: seq<string>, legacy: string,
                       passwords: nat -> string, turn: Turner)
    requires GivesTurns(turn, granted, nodes, targets, legacy, true, passwords)
    requires forall k :: passwords(k) != ""
    ensures TurnsRotate(turn, targets)
  {
    forall s: State, k: nat | Sound(s) && k < |targets|
      ensures TurnRotated(s, turn(s, k).0, turn(s, k).1, targets[k])
    {
      TurnRotates(s, granted, targets[k], OtherBucket(nodes, targets[k], legacy), passwords(k));
    }
  }

  /** What `n` turns have done: whoever had none is as before. */
  ghost predicate RotatedUpTo(s: State, r: Option<bool>, t: State, targets: seq<string>, n: nat)
    requires n <= |targets|
  {
    && Sound(t) && Grows(s, t) && s.trace <= t.trace && Shorter(s, t) && SamePair(s, t, WATCHER_PAIR)
    && (forall node :: node !in targets[..n] ==> SamePair(s, t, NodePair(node)))
    && (r == Some(true) ==> forall k :: 0 <= k < n ==> Rotates(s, t, NodePair(targets[k])))
  }

  lemma PairsApart(s: State, t: State, node: string, other: string)
    requires SameBeyond(s.files, t.files, node)
    ensures other != node ==> SamePair(s, t, NodePair(other))
    ensures SamePair(s, t, WATCHER_PAIR)
  {
    PathsApart(other, node);
    PathsApart(node, other);
  }

  lemma SamePairTwice(s: State, mid: State, t: State, pair: Pair)
    requires SamePair(s, mid, pair) && SamePair(mid, t, pair)
    ensures SamePair(s, t, pair)
  {
    SameAtTransitive(s.files, mid.files, t.files, pair.access);
    SameAtTransitive(s.files, mid.files, t.files, pair.secret);
  }

  lemma OneMoreSame(s: State, mid: State, t: State, targets: seq<string>, n: nat, node: string)
    requires n < |targets| && (node !in targets[..n] ==> SamePair(s, mid, NodePair(node)))
    requires SameBeyond(mid.files, t.files, targets[n])
    ensures node !in targets[..n + 1] ==> SamePair(s, t, NodePair(node))
  {
    if node !in targets[..n + 1] {
      assert targets[..n + 1] == targets[..n] + [targets[n]];
      PairsApart(mid, t, targets[n], node);
      SamePairTwice(s, mid, t, NodePair(node));
    }
  }

  lemma RotatedOneMore(s: State, ok: bool, mid: State, done: Option<bool>, t: State, targets: seq<string>, n: nat)
    requires n < |targets| && Distinct(targets) && Sound(s)
    requires RotatedUpTo(s, Some(ok), mid, targets, n) && TurnRotated(mid, done, t, targets[n])
    ensures RotatedUpTo(s, if done == None then None else Some(ok && done.value), t, targets, n + 1)
  {
    GrowsTwice(s, mid, t);
    ShorterTwice(s, mid, t);
    PairsApart(mid, t, targets[n], "");
    SamePairTwice(s, mid, t, WATCHER_PAIR);
    forall node
      ensures node !in targets[..n + 1] ==> SamePair(s, t, NodePair(node))
    {
      OneMoreSame(s, mid, t, targets, n, node);
    }
    if ok && done == Some(true) {
      forall k | 0 <= k <= n
        ensures Rotates(s, t, NodePair(targets[k]))
      {
        if k == n {
          RotatesSince(s, mid, t, NodePair(targets[n]));
        } else {
          PairsApart(mid, t, targets[n], targets[k]);
          RotatesStays(s, mid, t, NodePair(targets[k]));
        }
      }
    }
  }

  /** What the turns have done, or those up to one that raised. */
  ghost predicate RotatedSoFar(s: State, r: Option<bool>, t: State, targets: seq<string>, n: nat)
    requires n <= |targets|
  {
    r.Some? ==> RotatedUpTo(s, r, t, targets, n)
  }

  lemma {:induction false} TurnsRotated(s: State, turn: Turner, targets: seq<string>, n: nat)
    returns (r: Option<bool>, t: State)
    requires n <= |targets| && Distinct(targets) && Sound(s) && TurnsRotate(turn, targets)
    ensures Turns(s, turn, n) == (r, t) && RotatedSoFar(s, r, t, targets, n)
  {
    if n == 0 {
      r, t := Some(true), s;
    } else {
      var mid;
      r, mid := TurnsRotated(s, turn, targets, n - 1);
      if r == None {
        t := mid;
      } else {
        var next := turn(mid, n - 1);
        t := next.1;
        assert TurnRotated(mid, turn(mid, n - 1).0, turn(mid, n - 1).1, targets[n - 1]);
        TurnsNext(s, turn, n - 1, r.value, mid, next.0, t);
        RotatedOneMore(s, r.value, mid, next.0, t, targets, n - 1);
        r := if next.0 == None then None else Some(r.value && next.0.value);
      }
    }
  }

  // ---------------------------------------------------------------- the whole run

  /** Everyone that was asked for. */
  ghost predicate EveryoneRotates(s: State, t: State, nodes: seq<string>, only: Option<string>, watcherOnly: bool) {
    && (only == None ==> Rotates(s, t, WATCHER_PAIR))
    && (only == None && !watcherOnly ==> forall node :: node in nodes ==> Rotates(s, t, NodePair(node)))
    && (only.Some? ==> Rotates(s, t, NodePair(only.value)))
  }

  /**
   * A run with `rotate` that answers true has given everyone asked for a pair of a new token, and the tokens
   * that were named before are dead, unless a read of SOPS failed or a call claimed what it did not do.
   */
  lemma RotationRenews(s: State, granted: Grant, nodes: seq<string>, only: Option<string>, watcherOnly: bool,
                       r2: Settings, outside: string, passwords: nat -> string)
    requires Sound(s) && Distinct(nodes) && (forall k :: passwords(k) != "")
    ensures var (r, t) := All(s, granted, nodes, only, watcherOnly, r2, outside, true, passwords);
            r == Some(true) ==> EveryoneRotates(s, t, nodes, only, watcherOnly)
  {
    var (end, s1) := PreflightStep(s, nodes, only, watcherOnly, r2, outside);
    PreflightMeans(s, nodes, only, watcherOnly, r2, outside);
    PreflightShorter(s, nodes, only, watcherOnly, r2, outside);
    if end == None && r2.bucket.Some? {
      var targets := TargetsOf(nodes, only, watcherOnly);
      var turn := TurnOf(granted, nodes, targets, r2.bucket.value, true, passwords);
      RotationsTaken(granted, nodes, targets, r2.bucket.value, passwords, turn);
      var r, t := GoesRound(s1, granted, nodes, only, watcherOnly, r2.bucket.value, outside, turn);
      if r == Some(true) {
        RotatesFrom(s, s1, t, nodes, only, watcherOnly);
      }
    }
  }

  lemma PreflightShorter(s: State, nodes: seq<string>, only: Option<string>, watcherOnly: bool, r2: Settings,
                         outside: string)
    ensures Shorter(s, PreflightStep(s, nodes, only, watcherOnly, r2, outside).1)
  {
    LoadTwin(s);
    var s1 := LoadStep(s).1;
    ShowTwin(s1, MINTER_KEY);
    ShorterTwice(s, s1, ShowStep(s1, MINTER_KEY).1);
  }

  /** The reads before the turns change nothing of it. */
  lemma RotatesFrom(s: State, s1: State, t: State, nodes: seq<string>, only: Option<string>, watcherOnly: bool)
    requires s1 == s.(weather := s1.weather, trace := s1.trace) && s.trace <= s1.trace <= t.trace && Shorter(s, s1)
    requires EveryoneRotates(s1, t, nodes, only, watcherOnly)
    ensures EveryoneRotates(s, t, nodes, only, watcherOnly)
  {
    forall pair: Pair | Rotates(s1, t, pair)
      ensures Rotates(s, t, pair)
    {
      RotatesSince(s, s1, t, pair);
    }
  }

  lemma GoesRound(s: State, granted: Grant, nodes: seq<string>, only: Option<string>, watcherOnly: bool,
                  legacy: string, outside: string, turn: Turner)
    returns (r: Option<bool>, t: State)
    requires Sound(s) && Distinct(nodes) && TurnsRotate(turn, TargetsOf(nodes, only, watcherOnly))
    requires only.Some? ==> only.value in nodes && !watcherOnly
    ensures GoOn(s, granted, nodes, only, watcherOnly, legacy, outside, true, turn) == (r, t)
    ensures r == Some(true) ==> EveryoneRotates(s, t, nodes, only, watcherOnly) && s.trace <= t.trace
  {
    var targets := TargetsOf(nodes, only, watcherOnly);
    r, t := TurnsRotated(s, turn, targets, |targets|);
    if r == Some(true) {
      NodesRotate(s, t, nodes, only, watcherOnly);
    }
    if r.Some? && only == None {
      var mid, ok := t, r.value;
      var minted;
      minted, t := WatchersTurn(mid, granted, nodes, legacy, outside, true);
      if ok && minted != Failed && minted != Raised {
        WatcherRotates(s, mid, granted, nodes, legacy, outside, targets);
      }
      r := if minted == Raised then None else if minted == Failed then Some(false) else Some(ok);
    }
  }

  lemma NodesRotate(s: State, t: State, nodes: seq<string>, only: Option<string>, watcherOnly: bool)
    requires only.Some? ==> only.value in nodes && !watcherOnly
    requires var targets := TargetsOf(nodes, only, watcherOnly); RotatedUpTo(s, Some(true), t, targets, |targets|)
    ensures forall node :: node in TargetsOf(nodes, only, watcherOnly) ==> Rotates(s, t, NodePair(node))
    ensures only.Some? ==> Rotates(s, t, NodePair(only.value))
  {
  }

  lemma WatcherRotates(s: State, mid: State, granted: Grant, nodes: seq<string>, legacy: string, outside: string,
                       targets: seq<string>)
    requires Sound(s) && RotatedUpTo(s, Some(true), mid, targets, |targets|)
    ensures var (minted, t) := Mint(mid, granted, WatcherJob(nodes, legacy, outside, true));
            minted != Failed && minted != Raised ==>
              && s.trace <= t.trace && Rotates(s, t, WATCHER_PAIR)
              && forall node :: node in targets ==> Rotates(s, t, NodePair(node))
  {
    var job := WatcherJob(nodes, legacy, outside, true);
    var (minted, t) := Mint(mid, granted, job);
    PathsApart("", "");
    MintFences(mid, granted, job);
    MintKeeps(mid, granted, job);
    MintRotates(mid, granted, job);
    WatcherMeans(mid, granted, nodes, legacy, outside, true);
    if minted != Failed && minted != Raised {
      RotatesSince(s, mid, t, WATCHER_PAIR);
      forall node | node in targets
        ensures Rotates(s, t, NodePair(node))
      {
        assert HasSamePair(mid.files, t.files, node);
        assert SamePair(mid, t, NodePair(node));
        RotatesStays(s, mid, t, NodePair(node));
      }
    }
  }
}
