/**
 * Minting for every node and the watcher: toolkit/features/backup_node_credentials.py, mint_node,
 * ensure_restic_password, mint_watcher and mint_all. The run is a function from state to state, which the
 * methods compute; `FleetRuns` is about that function.
 */
module FleetMint {
  import opened Prelude
  import opened World
  import opened TokenMint

  // ---------------------------------------------------------------- where the keys are

  function NodePair(node: string): Pair {
    Pair("prod", AccessKeyPath(node), SecretKeyPath(node))
  }

  const WATCHER_PAIR := Pair("common", WATCHER_ACCESS_KEY_PATH, WATCHER_SECRET_KEY_PATH)

  /** The files a node's keys and the watcher's go to are the ones the path says. */
  lemma PairsGoWhereTheyBelong(node: string)
    ensures SopsFileFor(AccessKeyPath(node)) == SopsFileFor(SecretKeyPath(node)) == Some(NodePair(node).file)
    ensures SopsFileFor(ResticPasswordPath(node)) == Some("common")
    ensures SopsFileFor(WATCHER_PAIR.access) == SopsFileFor(WATCHER_PAIR.secret) == Some(WATCHER_PAIR.file)
  {
    assert AccessKeyPath(node)[..16] == "backup.r2.nodes." && SecretKeyPath(node)[..16] == "backup.r2.nodes.";
    var restic := ResticPasswordPath(node);
    assert restic[..13] == "backup.nodes." && restic[7] == 'n' && "backup.r2.nodes."[7] == 'r';
    assert WATCHER_ACCESS_KEY_PATH[..18] == "backup.r2.watcher.";
    assert WATCHER_SECRET_KEY_PATH[..18] == "backup.r2.watcher.";
    assert WATCHER_ACCESS_KEY_PATH[10] == 'w' && WATCHER_SECRET_KEY_PATH[10] == 'w' && "backup.r2.nodes."[10] == 'n';
  }

  /** No two keys this module mints share a path. */
  lemma PathsApart(a: string, b: string)
    ensures AccessKeyPath(a) != SecretKeyPath(b)
    ensures AccessKeyPath(a) != ResticPasswordPath(b) && SecretKeyPath(a) != ResticPasswordPath(b)
    ensures a != b ==>
      && AccessKeyPath(a) != AccessKeyPath(b) && SecretKeyPath(a) != SecretKeyPath(b)
      && ResticPasswordPath(a) != ResticPasswordPath(b)
    ensures WATCHER_ACCESS_KEY_PATH != AccessKeyPath(a) && WATCHER_ACCESS_KEY_PATH != SecretKeyPath(a)
    ensures WATCHER_SECRET_KEY_PATH != AccessKeyPath(a) && WATCHER_SECRET_KEY_PATH != SecretKeyPath(a)
    ensures WATCHER_ACCESS_KEY_PATH != ResticPasswordPath(a) && WATCHER_SECRET_KEY_PATH != ResticPasswordPath(a)
    ensures WATCHER_ACCESS_KEY_PATH != WATCHER_SECRET_KEY_PATH
  {
    var access, secret, restic := AccessKeyPath(a), SecretKeyPath(b), ResticPasswordPath(b);
    assert access[|access| - 1] == 'd' && secret[|secret| - 1] == 'y';
    assert access[7] == 'r' && SecretKeyPath(a)[7] == 'r' && restic[7] == 'n' && ResticPasswordPath(a)[7] == 'n';
    assert access[10] == 'n' && SecretKeyPath(a)[10] == 'n';
    assert WATCHER_ACCESS_KEY_PATH[10] == 'w' && WATCHER_SECRET_KEY_PATH[10] == 'w';
    assert |WATCHER_ACCESS_KEY_PATH| != |WATCHER_SECRET_KEY_PATH|;
    assert WATCHER_ACCESS_KEY_PATH[7] == 'r' && WATCHER_SECRET_KEY_PATH[7] == 'r';
    assert AccessKeyPath(a)[16..|AccessKeyPath(a)| - 14] == a && AccessKeyPath(b)[16..|AccessKeyPath(b)| - 14] == b;
    assert SecretKeyPath(a)[16..|SecretKeyPath(a)| - 18] == a && SecretKeyPath(b)[16..|SecretKeyPath(b)| - 18] == b;
    assert ResticPasswordPath(a)[13..|ResticPasswordPath(a)| - 16] == a
           && ResticPasswordPath(b)[13..|ResticPasswordPath(b)| - 16] == b;
  }

  // ---------------------------------------------------------------- the restic password

  datatype Ensured = PasswordKept | Generated | PasswordFailed | PasswordRaised

  predicate InPlace(r: Ensured) {
    r == PasswordKept || r == Generated
  }

  /** A password is written when none was read; `password` is the new one. */
  function Ensure(s: State, node: string, password: string): (Ensured, State) {
    var path := ResticPasswordPath(node);
    var (read, s1) := ShowStep(s, path);
    match read
    case ReadRaised => (PasswordRaised, s1)
    case Got(Some(_)) => (PasswordKept, s1)
    case Got(None) =>
      var (told, t) := WriteStep(s1, "common", map[path := Text(password)]);
      (match told case Yes => Generated case No => PasswordFailed case Thrown => PasswordRaised, t)
  }

  method EnsureResticPassword(w: World, node: string, password: string) returns (r: Ensured)
    modifies w`weather, w`trace, w`files
    ensures (r, w.Full()) == Ensure(old(w.Full()), node, password)
  {
    var path := ResticPasswordPath(node);
    var read := w.ShowKey(path);
    if read.ReadRaised? {
      return PasswordRaised;
    }
    if read.value.Some? {
      return PasswordKept;
    }
    var told := w.WriteKeys("common", map[path := Text(password)]);
    r := match told case Yes => Generated case No => PasswordFailed case Thrown => PasswordRaised;
  }

  // ---------------------------------------------------------------- one node's turn

  function PairJob(node: string, otherBucket: string, rotate: bool): Job {
    Job(NodePair(node), [NodeBucket(node)], otherBucket, rotate)
  }

  /** The password, unless the mint failed. None: what was raised is no MintError. */
  function RestOfTurn(mint: (Outcome, State), node: string, password: string): (Option<bool>, State) {
    if mint.0 == Failed then (Some(false), mint.1)
    else if mint.0 == Raised then (None, mint.1)
    else
      var (ensured, t) := Ensure(mint.1, node, password);
      (if ensured == PasswordRaised then None else Some(ensured != PasswordFailed), t)
  }

  /** The node's pair, then its password; `password` is the new one. */
  function NodeTurn(s: State, granted: Grant, node: string, otherBucket: string, rotate: bool, password: string)
    : (Option<bool>, State)
  {
    RestOfTurn(Mint(s, granted, PairJob(node, otherBucket, rotate)), node, password)
  }

  /** The node's pair, its bucket and the one it must not reach. */
  method MintNodePair(w: World, node: string, otherBucket: string, rotate: bool) returns (minted: Outcome)
    modifies w`weather, w`trace, w`tokens, w`settled, w`nextId, w`files
    ensures (minted, w.Full()) == Mint(old(w.Full()), w.granted, PairJob(node, otherBucket, rotate))
  {
    minted := MintToken(w, PairJob(node, otherBucket, rotate));
  }

  /** One turn of the loop. */
  method MintNode(w: World, node: string, otherBucket: string, rotate: bool, password: string)
    returns (r: Option<bool>)
    modifies w`weather, w`trace, w`tokens, w`settled, w`nextId, w`files
    ensures (r, w.Full()) == NodeTurn(old(w.Full()), w.granted, node, otherBucket, rotate, password)
  {
    var minted := MintNodePair(w, node, otherBucket, rotate);
    if minted == Failed || minted == Raised {
      return if minted == Failed then Some(false) else None;
    }
    var ensured := EnsureResticPassword(w, node, password);
    r := if ensured == PasswordRaised then None else Some(ensured != PasswordFailed);
  }

  // ---------------------------------------------------------------- every node's turn

  /** The bucket a node's token must not reach: the first other node's, or the shared one. */
  function OtherBucket(nodes: seq<string>, node: string, legacy: string): (bucket: string)
    ensures legacy != NodeBucket(node) ==> bucket != NodeBucket(node)
  {
    if nodes == [] then legacy
    else if nodes[0] != node then
      assert NodeBucket(nodes[0])[15..] == nodes[0] && NodeBucket(node)[15..] == node;
      NodeBucket(nodes[0])
    else OtherBucket(nodes[1..], node, legacy)
  }

  function NodeBuckets(nodes: seq<string>): (r: seq<string>)
    ensures |r| == |nodes| && forall i :: 0 <= i < |nodes| ==> r[i] == NodeBucket(nodes[i])
  {
    if nodes == [] then [] else NodeBuckets(nodes[..|nodes| - 1]) + [NodeBucket(nodes[|nodes| - 1])]
  }

  /** What the k-th turn does. */
  type Turner = (State, nat) -> (Option<bool>, State)

  /** The first `n` turns; a node's failure is remembered and the next has its turn, a raise ends them. */
  function Turns(s: State, turn: Turner, n: nat): (Option<bool>, State) {
    if n == 0 then (Some(true), s)
    else
      var (r, s1) := Turns(s, turn, n - 1);
      if r == None then (None, s1)
      else
        var (done, t) := turn(s1, n - 1);
        (if done == None then None else Some(r.value && done.value), t)
  }

  /** The turn of the k-th target. */
  function TurnOf(granted: Grant, nodes: seq<string>, targets: seq<string>, legacy: string, rotate: bool,
                  passwords: nat -> string): Turner
  {
    (s: State, k: nat) =>
      if k < |targets| then
        NodeTurn(s, granted, targets[k], OtherBucket(nodes, targets[k], legacy), rotate, passwords(k))
      else (None, s)
  }

  lemma TurnsNext(s: State, turn: Turner, n: nat, ok: bool, s1: State, done: Option<bool>, t: State)
    requires Turns(s, turn, n) == (Some(ok), s1) && turn(s1, n) == (done, t)
    ensures Turns(s, turn, n + 1) == (if done == None then None else Some(ok && done.value), t)
  {
  }

  lemma {:induction false} TurnsStop(s: State, turn: Turner, n: nat, m: nat)
    requires n <= m && Turns(s, turn, n).0 == None
    ensures Turns(s, turn, m) == Turns(s, turn, n)
    decreases m
  {
    if n < m {
      TurnsStop(s, turn, n, m - 1);
    }
  }

  /** `turn` gives each target its turn. Looked at only where a turn is taken. */
  ghost predicate GivesTurns(turn: Turner, granted: Grant, nodes: seq<string>, targets: seq<string>, legacy: string,
                             rotate: bool, passwords: nat -> string)
  {
    forall s: State, k: nat
      {:trigger NodeTurn(s, granted, targets[k], OtherBucket(nodes, targets[k], legacy), rotate, passwords(k))} ::
      k < |targets| ==>
        turn(s, k) == NodeTurn(s, granted, targets[k], OtherBucket(nodes, targets[k], legacy), rotate, passwords(k))
  }

  method MintTarget(w: World, nodes: seq<string>, targets: seq<string>, i: nat, legacy: string, rotate: bool,
                    passwords: nat -> string, ghost turn: Turner)
    returns (done: Option<bool>)
    requires i < |targets| && GivesTurns(turn, w.granted, nodes, targets, legacy, rotate, passwords)
    modifies w`weather, w`trace, w`tokens, w`settled, w`nextId, w`files
    ensures (done, w.Full()) == turn(old(w.Full()), i)
  {
    done := MintNode(w, targets[i], OtherBucket(nodes, targets[i], legacy), rotate, passwords(i));
  }

  /** The loop over the nodes. */
  method MintTargets(w: World, nodes: seq<string>, targets: seq<string>, legacy: string, rotate: bool,
                     passwords: nat -> string, ghost turn: Turner)
    returns (r: Option<bool>)
    requires GivesTurns(turn, w.granted, nodes, targets, legacy, rotate, passwords)
    modifies w`weather, w`trace, w`tokens, w`settled, w`nextId, w`files
    ensures (r, w.Full()) == Turns(old(w.Full()), turn, |targets|)
  {
    var ok := true;
    ghost var start := w.Full();
    for i := 0 to |targets|
      invariant Turns(start, turn, i) == (Some(ok), w.Full())
    {
      ghost var before := w.Full();
      var done := MintTarget(w, nodes, targets, i, legacy, rotate, passwords, turn);
      TurnsNext(start, turn, i, ok, before, done, w.Full());
      if done == None {
        TurnsStop(start, turn, i + 1, |targets|);
        return None;
      }
      ok := ok && done == Some(true);
    }
    r := Some(ok);
  }

  // ---------------------------------------------------------------- the whole run

  /** What `backup.r2` of the config names; a missing entry is reported and nothing is minted. */
  datatype Settings = Settings(account: Option<string>, endpoint: Option<string>, bucket: Option<string>)

  predicate Complete(r2: Settings) {
    r2.account.Some? && r2.endpoint.Some? && r2.bucket.Some?
  }

  const MINTER_KEY := "cloudflare.r2_token_minter"

  /**
   * What is looked at before anything is minted: the config, the nodes asked for, the minter's token and
   * the settings. Some: it ends here, with that answer.
   */
  function PreflightStep(s: State, nodes: seq<string>, only: Option<string>, watcherOnly: bool, r2: Settings,
                         outside: string): (Option<Option<bool>>, State)
  {
    var (loaded, s1) := LoadStep(s);
    if loaded.LoadRaised? then (Some(None), s1)
    else if only.Some? && (only.value !in nodes || watcherOnly) then (Some(Some(false)), s1)
    else
      var (minter, t) := ShowStep(s1, MINTER_KEY);
      (if minter.ReadRaised? then Some(None)
       else if minter.value == None || !Complete(r2) || (only == None && outside == "") then Some(Some(false))
       else None, t)
  }

  method Preflight(w: World, nodes: seq<string>, only: Option<string>, watcherOnly: bool, r2: Settings, outside: string)
    returns (end: Option<Option<bool>>)
    modifies w`weather, w`trace
    ensures (end, w.Full()) == PreflightStep(old(w.Full()), nodes, only, watcherOnly, r2, outside)
    ensures end == None ==> Complete(r2)
  {
    var loaded := w.LoadConfig();
    if loaded.LoadRaised? {
      return Some(None);
    }
    if only.Some? && (only.value !in nodes || watcherOnly) {
      return Some(Some(false));
    }
    var minter := w.ShowKey(MINTER_KEY);
    if minter.ReadRaised? {
      return Some(None);
    }
    if minter.value == None || !Complete(r2) {
      return Some(Some(false));
    }
    if only == None && outside == "" {
      return Some(Some(false));
    }
    end := None;
  }

  function WatcherJob(nodes: seq<string>, legacy: string, outside: string, rotate: bool): Job {
    Job(WATCHER_PAIR, NodeBuckets(nodes) + [legacy], outside, rotate)
  }

  /** The watcher's pair, last. */
  method MintWatcher(w: World, nodes: seq<string>, legacy: string, outside: string, rotate: bool)
    returns (minted: Outcome)
    modifies w`weather, w`trace, w`tokens, w`settled, w`nextId, w`files
    ensures (minted, w.Full()) == Mint(old(w.Full()), w.granted, WatcherJob(nodes, legacy, outside, rotate))
  {
    minted := MintToken(w, WatcherJob(nodes, legacy, outside, rotate));
  }

  /** Whom to mint for. An empty name counts as no name here, so every node is minted. */
  function TargetsOf(nodes: seq<string>, only: Option<string>, watcherOnly: bool): seq<string> {
    if watcherOnly then [] else if only.Some? && only.value != "" then [only.value] else nodes
  }

  /** The run once it has begun: every target's turn, then the watcher's unless one node was asked for. */
  function GoOn(s: State, granted: Grant, nodes: seq<string>, only: Option<string>, watcherOnly: bool, legacy: string,
                outside: string, rotate: bool, turn: Turner): (Option<bool>, State)
  {
    var (r, s1) := Turns(s, turn, |TargetsOf(nodes, only, watcherOnly)|);
    if r == None || only.Some? then (r, s1)
    else
      var (minted, t) := Mint(s1, granted, WatcherJob(nodes, legacy, outside, rotate));
      (if minted == Raised then None else if minted == Failed then Some(false) else r, t)
  }

  /** The whole run, when the new passwords are `passwords`. */
  function All(s: State, granted: Grant, nodes: seq<string>, only: Option<string>, watcherOnly: bool, r2: Settings,
               outside: string, rotate: bool, passwords: nat -> string): (Option<bool>, State)
  {
    var (end, s1) := PreflightStep(s, nodes, only, watcherOnly, r2, outside);
    if end.Some? || r2.bucket == None then (if end.Some? then end.value else Some(false), s1)
    else
      var turn := TurnOf(granted, nodes, TargetsOf(nodes, only, watcherOnly), r2.bucket.value, rotate, passwords);
      GoOn(s1, granted, nodes, only, watcherOnly, r2.bucket.value, outside, rotate, turn)
  }

  method MintAll(w: World, nodes: seq<string>, only: Option<string>, watcherOnly: bool, r2: Settings,
                 outside: string, rotate: bool, passwords: nat -> string)
    returns (r: Option<bool>)
    modifies w`weather, w`trace, w`tokens, w`settled, w`nextId, w`files
    ensures (r, w.Full()) == All(old(w.Full()), w.granted, nodes, only, watcherOnly, r2, outside, rotate, passwords)
  {
    var end := Preflight(w, nodes, only, watcherOnly, r2, outside);
    if end.Some? {
      return end.value;
    }
    var targets := TargetsOf(nodes, only, watcherOnly);
    ghost var turn := TurnOf(w.granted, nodes, targets, r2.bucket.value, rotate, passwords);
    r := MintTargets(w, nodes, targets, r2.bucket.value, rotate, passwords, turn);
    if r == None {
      return;
    }
    if only == None {
      var minted := MintWatcher(w, nodes, r2.bucket.value, outside, rotate);
      if minted == Raised {
        return None;
      }
      if minted == Failed {
        return Some(false);
      }
    }
  }
}
