/**
 * What the tokens reach that a run of `FleetMint.All` leaves in SOPS, for every outcome of every call.
 */
module FleetScopes {
  import opened Prelude
  import opened World
  import opened TokenMint
  import opened MintRuns
  import opened MintLeftovers
  import opened FleetMint
  import opened FleetRuns

  /** Numbers are given out in order, and what a token reaches never changes. */
  ghost predicate Grows(s: State, t: State) {
    && s.nextId <= t.nextId
    && (forall n: nat :: n < s.nextId && Id(n) in t.tokens ==>
          Id(n) in s.tokens && t.tokens[Id(n)] == s.tokens[Id(n)])
  }

  /** The pair in its file is that of the n-th token. */
  predicate Names(files: Files, pair: Pair, n: nat) {
    Show(files, pair.file, pair.access) == Some(Id(n)) && Show(files, pair.file, pair.secret) == Some(SecretOf(n))
  }

  ghost predicate Reaches(t: State, n: nat, readable: seq<string>, refused: string) {
    Id(n) in t.tokens ==> Proven(t.tokens[Id(n)], readable, refused)
  }

  ghost predicate SamePair(s: State, t: State, pair: Pair) {
    SameAt(s.files, t.files, pair.access) && SameAt(s.files, t.files, pair.secret)
  }

  /** The pair is as it was, or that of one token made since, which reaches what it must and no more, if it lives. */
  ghost predicate Fenced(s: State, t: State, pair: Pair, readable: seq<string>, refused: string) {
    || SamePair(s, t, pair)
    || exists n: nat :: s.nextId <= n < t.nextId && Names(t.files, pair, n) && Reaches(t, n, readable, refused)
  }

  lemma FencedTwice(s: State, mid: State, t: State, pair: Pair, readable: seq<string>, refused: string)
    requires Grows(s, mid) && Grows(mid, t)
    requires Fenced(s, mid, pair, readable, refused) && Fenced(mid, t, pair, readable, refused)
    ensures Fenced(s, t, pair, readable, refused)
  {
    if SamePair(mid, t, pair) {
      if SamePair(s, mid, pair) {
        SameAtTransitive(s.files, mid.files, t.files, pair.access);
        SameAtTransitive(s.files, mid.files, t.files, pair.secret);
      } else {
        var n: nat :| s.nextId <= n < mid.nextId && Names(mid.files, pair, n) && Reaches(mid, n, readable, refused);
        assert Names(t.files, pair, n) && Reaches(t, n, readable, refused);
      }
    } else {
      var n: nat :| mid.nextId <= n < t.nextId && Names(t.files, pair, n) && Reaches(t, n, readable, refused);
    }
  }

  lemma GrowsTwice(s: State, mid: State, t: State)
    requires Grows(s, mid) && Grows(mid, t)
    ensures Grows(s, t)
  {
  }

  /** What a run that wrote its pair wrote: the keys of the token that was proved. */
  lemma WrittenNames(files: Files, pair: Pair, id: nat)
    requires pair.access != pair.secret
    ensures Names(Written(files, pair, id), pair, id)
  {
  }

  lemma DidGrow(s: State, r: Outcome, t: State, end: End, oldId: Option<Value>, granted: Grant, job: Job)
    requires Sound(s) && Did(s, r, t, end, oldId, granted, job)
    ensures Grows(s, t)
    ensures Id(s.nextId) in t.tokens && !end.Stopped? ==>
      t.tokens[Id(s.nextId)] == granted(s.nextId, Asked(job.readable))
  {
  }

  lemma RanFences(s: State, r: Outcome, t: State, run: Run, granted: Grant, job: Job)
    requires Sound(s) && Ran(s, r, t, run, granted, job) && job.pair.access != job.pair.secret
    ensures Grows(s, t) && Fenced(s, t, job.pair, job.readable, job.refused)
  {
    DidGrow(s, r, t, run.end, IdRead(run), granted, job);
    if Wrote(run.end) {
      WrittenNames(s.files, job.pair, s.nextId);
      assert Names(t.files, job.pair, s.nextId) && Reaches(t, s.nextId, job.readable, job.refused);
    }
  }

  /** One mint, whatever becomes of it. */
  lemma MintFences(s: State, granted: Grant, job: Job)
    requires Sound(s) && job.readable != [] && job.pair.access != job.pair.secret
    ensures var t := Mint(s, granted, job).1;
            Grows(s, t) && Fenced(s, t, job.pair, job.readable, job.refused)
  {
    var mint := Mint(s, granted, job);
    MintIsARun(s, granted, job);
    RanFences(s, mint.0, mint.1, RunOf(s, granted, job), granted, job);
  }

  // ---------------------------------------------------------------- the nodes

  /** What one node's turn does to the tokens and the pairs. */
  ghost predicate TurnFenced(s: State, t: State, node: string, refused: string) {
    && Sound(t) && Grows(s, t) && SameBeyond(s.files, t.files, node)
    && Fenced(s, t, NodePair(node), [NodeBucket(node)], refused)
  }

  lemma TurnFences(s: State, granted: Grant, node: string, otherBucket: string, rotate: bool, password: string)
    requires Sound(s) && password != ""
    ensures TurnFenced(s, NodeTurn(s, granted, node, otherBucket, rotate, password).1, node, otherBucket)
  {
    var job := PairJob(node, otherBucket, rotate);
    var (minted, mid) := Mint(s, granted, job);
    PathsApart(node, node);
    MintFences(s, granted, job);
    TurnMeans(s, granted, node, otherBucket, rotate, password);
    if minted != Failed && minted != Raised {
      var t := Ensure(mid, node, password).1;
      EnsureWrites(mid, node, password);
      EnsureKeeps(mid, node, password);
      assert SamePair(mid, t, job.pair);
      FencedTwice(s, mid, t, job.pair, job.readable, job.refused);
    }
  }

  ghost predicate TurnsFence(turn: Turner, nodes: seq<string>, targets: seq<string>, legacy: string) {
    forall s: State, k: nat {:trigger turn(s, k)} ::
      Sound(s) && k < |targets| ==>
        TurnFenced(s, turn(s, k).1, targets[k], OtherBucket(nodes, targets[k], legacy))
  }

  lemma FencesTaken(granted: Grant, nodes: seq<string>, targets: seq<string>, legacy: string, rotate: bool,
                    passwords: nat -> string, turn: Turner)
    requires GivesTurns(turn, granted, nodes, targets, legacy, rotate, passwords)
    requires forall k :: passwords(k) != ""
    ensures TurnsFence(turn, nodes, targets, legacy)
  {
    forall s: State, k: nat | Sound(s) && k < |targets|
      ensures TurnFenced(s, turn(s, k).1, targets[k], OtherBucket(nodes, targets[k], legacy))
    {
      TurnFences(s, granted, targets[k], OtherBucket(nodes, targets[k], legacy), rotate, passwords(k));
    }
  }

  /** A path of no key that is minted here. */
  ghost predicate Foreign(path: string) {
    && (forall node :: path != "backup.r2.nodes." + node + ".access_key_id"
                       && path != "backup.r2.nodes." + node + ".secret_access_key"
                       && path != "backup.nodes." + node + ".restic_password")
    && path != "backup.r2.watcher.access_key_id" && path != "backup.r2.watcher.secret_access_key"
  }

  ghost predicate ForeignStay(s: State, t: State) {
    forall path :: Foreign(path) ==> SameAt(s.files, t.files, path)
  }

  lemma ForeignStayTwice(s: State, mid: State, t: State)
    requires ForeignStay(s, mid) && ForeignStay(mid, t)
    ensures ForeignStay(s, t)
  {
    forall path | Foreign(path)
      ensures SameAt(s.files, t.files, path)
    {
      SameAtTransitive(s.files, mid.files, t.files, path);
    }
  }

  lemma ForeignBeyond(s: State, t: State, node: string)
    requires SameBeyond(s.files, t.files, node)
    ensures ForeignStay(s, t)
  {
    forall path | Foreign(path)
      ensures SameAt(s.files, t.files, path)
    {
      assert path != AccessKeyPath(node) && path != SecretKeyPath(node) && path != ResticPasswordPath(node);
    }
  }

  /** What any number of turns have done to the pairs: the watcher's is as it was, and so is every foreign key. */
  ghost predicate AllFenced(s: State, t: State, nodes: seq<string>, legacy: string) {
    && Sound(t) && Grows(s, t) && SamePair(s, t, WATCHER_PAIR) && ForeignStay(s, t)
    && forall node :: Fenced(s, t, NodePair(node), [NodeBucket(node)], OtherBucket(nodes, node, legacy))
  }

  lemma FencedOneMore(s: State, mid: State, t: State, nodes: seq<string>, node: string, legacy: string)
    requires AllFenced(s, mid, nodes, legacy) && TurnFenced(mid, t, node, OtherBucket(nodes, node, legacy))
    ensures AllFenced(s, t, nodes, legacy)
  {
    GrowsTwice(s, mid, t);
    ForeignBeyond(mid, t, node);
    ForeignStayTwice(s, mid, t);
    PathsApart(node, node);
    SameAtTransitive(s.files, mid.files, t.files, WATCHER_PAIR.access);
    SameAtTransitive(s.files, mid.files, t.files, WATCHER_PAIR.secret);
    forall other
      ensures Fenced(s, t, NodePair(other), [NodeBucket(other)], OtherBucket(nodes, other, legacy))
    {
      PathsApart(other, node);
      PathsApart(node, other);
      assert other != node ==> SamePair(mid, t, NodePair(other));
      FencedTwice(s, mid, t, NodePair(other), [NodeBucket(other)], OtherBucket(nodes, other, legacy));
    }
  }

  lemma {:induction false} TurnsAreFenced(s: State, turn: Turner, nodes: seq<string>, targets: seq<string>,
                                          legacy: string, n: nat)
    returns (r: Option<bool>, t: State)
    requires n <= |targets| && Sound(s) && TurnsFence(turn, nodes, targets, legacy)
    ensures Turns(s, turn, n) == (r, t) && AllFenced(s, t, nodes, legacy)
  {
    if n == 0 {
      r, t := Some(true), s;
    } else {
      var s1;
      r, s1 := TurnsAreFenced(s, turn, nodes, targets, legacy, n - 1);
      if r == None {
        t := s1;
      } else {
        var next := turn(s1, n - 1);
        t := next.1;
        assert TurnFenced(s1, turn(s1, n - 1).1, targets[n - 1], OtherBucket(nodes, targets[n - 1], legacy));
        TurnsNext(s, turn, n - 1, r.value, s1, next.0, t);
        FencedOneMore(s, s1, t, nodes, targets[n - 1], legacy);
        r := if next.0 == None then None else Some(r.value && next.0.value);
      }
    }
  }

  // ---------------------------------------------------------------- the whole run

  /** The bucket a node's token must be refused: the first other node's, or the shared one if there is none. */
  ghost predicate IsOther(nodes: seq<string>, node: string, legacy: string, other: string) {
    || (other == legacy && forall k :: 0 <= k < |nodes| ==> nodes[k] == node)
    || exists k :: && 0 <= k < |nodes| && nodes[k] != node && other == "kubelab-backup-" + nodes[k]
                   && forall j :: 0 <= j < k ==> nodes[j] == node
  }

  lemma {:induction false} OtherIs(nodes: seq<string>, node: string, legacy: string, other: string)
    requires IsOther(nodes, node, legacy, other)
    ensures OtherBucket(nodes, node, legacy) == other
  {
    if nodes != [] && nodes[0] == node {
      assert IsOther(nodes[1..], node, legacy, other) by {
        if k :| && 0 <= k < |nodes| && nodes[k] != node && other == "kubelab-backup-" + nodes[k]
                && forall j :: 0 <= j < k ==> nodes[j] == node {
          assert nodes[1..][k - 1] == nodes[k];
        }
      }
      OtherIs(nodes[1..], node, legacy, other);
    }
  }

  /**
   * The node's two keys in prod are as they were, or those of one token made since; that one reaches the
   * node's own bucket and not `other`, if it lives.
   */
  ghost predicate OwnBucketOnly(s: State, t: State, node: string, other: string) {
    var access := "backup.r2.nodes." + node + ".access_key_id";
    var secret := "backup.r2.nodes." + node + ".secret_access_key";
    || (SameAt(s.files, t.files, access) && SameAt(s.files, t.files, secret))
    || exists n: nat ::
         && s.nextId <= n < t.nextId
         && Show(t.files, "prod", access) == Some(Id(n)) && Show(t.files, "prod", secret) == Some(SecretOf(n))
         && (Id(n) in t.tokens ==> "kubelab-backup-" + node in t.tokens[Id(n)] && other !in t.tokens[Id(n)])
  }

  /** And the watcher's, in common: its token reaches every node's bucket and the shared one, and not `outside`. */
  ghost predicate EveryBucketOnly(s: State, t: State, nodes: seq<string>, legacy: string, outside: string) {
    var access, secret := "backup.r2.watcher.access_key_id", "backup.r2.watcher.secret_access_key";
    || (SameAt(s.files, t.files, access) && SameAt(s.files, t.files, secret))
    || exists n: nat ::
         && s.nextId <= n < t.nextId
         && Show(t.files, "common", access) == Some(Id(n)) && Show(t.files, "common", secret) == Some(SecretOf(n))
         && (Id(n) in t.tokens ==>
               && (forall node :: node in nodes ==> "kubelab-backup-" + node in t.tokens[Id(n)])
               && legacy in t.tokens[Id(n)] && outside !in t.tokens[Id(n)])
  }

  /**
   * Whatever fails, a run leaves no pair in SOPS whose token reaches a bucket that it was not to reach, or
   * lacks one that it was to: it writes only the two keys of one token that was proved. No key of any
   * other path changes.
   */
  lemma TokensReachTheirOwn(s: State, granted: Grant, nodes: seq<string>, only: Option<string>, watcherOnly: bool,
                            r2: Settings, outside: string, rotate: bool, passwords: nat -> string, node: string,
                            other: string)
    requires Sound(s) && (forall k :: passwords(k) != "")
    requires r2.bucket.Some? ==> IsOther(nodes, node, r2.bucket.value, other)
    ensures var t := All(s, granted, nodes, only, watcherOnly, r2, outside, rotate, passwords).1;
            && OwnBucketOnly(s, t, node, other) && ForeignStay(s, t)
            && EveryBucketOnly(s, t, nodes, if r2.bucket.Some? then r2.bucket.value else "", outside)
  {
    var _, _ := EverythingFenced(s, granted, nodes, only, watcherOnly, r2, outside, rotate, passwords, node, other);
  }

  lemma EverythingFenced(s: State, granted: Grant, nodes: seq<string>, only: Option<string>, watcherOnly: bool,
                         r2: Settings, outside: string, rotate: bool, passwords: nat -> string, node: string,
                         other: string)
    returns (r: Option<bool>, t: State)
    requires Sound(s) && (forall k :: passwords(k) != "")
    requires r2.bucket.Some? ==> IsOther(nodes, node, r2.bucket.value, other)
    ensures All(s, granted, nodes, only, watcherOnly, r2, outside, rotate, passwords) == (r, t)
    ensures OwnBucketOnly(s, t, node, other) && ForeignStay(s, t)
    ensures EveryBucketOnly(s, t, nodes, if r2.bucket.Some? then r2.bucket.value else "", outside)
  {
    var preflight := PreflightStep(s, nodes, only, watcherOnly, r2, outside);
    var end, s1 := preflight.0, preflight.1;
    PreflightMeans(s, nodes, only, watcherOnly, r2, outside);
    if end == None && r2.bucket.Some? {
      var legacy := r2.bucket.value;
      var targets := TargetsOf(nodes, only, watcherOnly);
      var turn := TurnOf(granted, nodes, targets, legacy, rotate, passwords);
      FencesTaken(granted, nodes, targets, legacy, rotate, passwords, turn);
      OtherIs(nodes, node, legacy, other);
      r, t := GoesFenced(s1, granted, nodes, only, watcherOnly, legacy, outside, rotate, turn, node);
    } else {
      r, t := if end.Some? then end.value else Some(false), s1;
    }
  }

  lemma GoesFenced(s: State, granted: Grant, nodes: seq<string>, only: Option<string>, watcherOnly: bool,
                   legacy: string, outside: string, rotate: bool, turn: Turner, node: string)
    returns (r: Option<bool>, t: State)
    requires Sound(s) && TurnsFence(turn, nodes, TargetsOf(nodes, only, watcherOnly), legacy)
    ensures GoOn(s, granted, nodes, only, watcherOnly, legacy, outside, rotate, turn) == (r, t)
    ensures OwnBucketOnly(s, t, node, OtherBucket(nodes, node, legacy))
    ensures EveryBucketOnly(s, t, nodes, legacy, outside) && ForeignStay(s, t)
  {
    var targets := TargetsOf(nodes, only, watcherOnly);
    r, t := TurnsAreFenced(s, turn, nodes, targets, legacy, |targets|);
    if r.Some? && only == None {
      var mid, ok := t, r.value;
      var minted;
      minted, t := WatchersTurn(mid, granted, nodes, legacy, outside, rotate);
      WatcherFences(s, mid, granted, nodes, legacy, outside, rotate);
      NodeStaysFenced(s, mid, t, nodes, legacy, node);
      ForeignStayTwice(s, mid, t);
      r := if minted == Raised then None else if minted == Failed then Some(false) else Some(ok);
    }
    OwnFence(s, t, node, OtherBucket(nodes, node, legacy));
  }

  lemma NodeStaysFenced(s: State, mid: State, t: State, nodes: seq<string>, legacy: string, node: string)
    requires AllFenced(s, mid, nodes, legacy) && Grows(mid, t) && NodesAsTheyWere(mid.files, t.files)
    ensures Fenced(s, t, NodePair(node), [NodeBucket(node)], OtherBucket(nodes, node, legacy))
  {
    assert HasSamePair(mid.files, t.files, node);
    assert SamePair(mid, t, NodePair(node));
    FencedTwice(s, mid, t, NodePair(node), [NodeBucket(node)], OtherBucket(nodes, node, legacy));
  }

  lemma WatcherFences(s: State, mid: State, granted: Grant, nodes: seq<string>, legacy: string, outside: string,
                      rotate: bool)
    requires Sound(mid) && Grows(s, mid) && SamePair(s, mid, WATCHER_PAIR)
    ensures var t := Mint(mid, granted, WatcherJob(nodes, legacy, outside, rotate)).1;
            Grows(mid, t) && EveryBucketOnly(s, t, nodes, legacy, outside) && ForeignStay(mid, t)
  {
    var job := WatcherJob(nodes, legacy, outside, rotate);
    var mint := Mint(mid, granted, job);
    PathsApart("", "");
    MintFences(mid, granted, job);
    MintKeeps(mid, granted, job);
    FencedTwice(s, mid, mint.1, WATCHER_PAIR, job.readable, outside);
    EveryFence(s, mint.1, nodes, legacy, outside, rotate);
  }

  /** The watcher's pair, spelled out. */
  lemma EveryFence(s: State, t: State, nodes: seq<string>, legacy: string, outside: string, rotate: bool)
    requires Fenced(s, t, WATCHER_PAIR, WatcherJob(nodes, legacy, outside, rotate).readable, outside)
    ensures EveryBucketOnly(s, t, nodes, legacy, outside)
  {
    var readable := WatcherJob(nodes, legacy, outside, rotate).readable;
    if !SamePair(s, t, WATCHER_PAIR) {
      var n: nat :| s.nextId <= n < t.nextId && Names(t.files, WATCHER_PAIR, n) && Reaches(t, n, readable, outside);
      assert readable[|nodes|] == legacy;
      forall node | node in nodes
        ensures "kubelab-backup-" + node in readable
      {
        var k :| 0 <= k < |nodes| && nodes[k] == node;
        assert readable[k] == NodeBucket(node);
      }
    }
  }

  /** A node's pair, spelled out. */
  lemma OwnFence(s: State, t: State, node: string, other: string)
    requires Fenced(s, t, NodePair(node), [NodeBucket(node)], other)
    ensures OwnBucketOnly(s, t, node, other)
  {
    if !SamePair(s, t, NodePair(node)) {
      var n: nat :|
        s.nextId <= n < t.nextId && Names(t.files, NodePair(node), n) && Reaches(t, n, [NodeBucket(node)], other);
      assert NodeBucket(node) in [NodeBucket(node)];
    }
  }
}
