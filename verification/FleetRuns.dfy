/**
 * What minting for the fleet keeps and reaches, for every outcome of every call.
 */
module FleetRuns {
  import opened Prelude
  import opened World
  import opened TokenMint
  import opened MintRuns
  import opened MintLeftovers
  import opened CalmRuns
  import opened FleetMint

  // ---------------------------------------------------------------- what the files hold

  /**
   * A key lives only in the file its path names: prod hides no password and no watcher pair, and no
   * node's pair is in common.
   */
  ghost predicate Placed(files: Files) {
    && ("prod" in files ==>
          && (forall node :: ResticPasswordPath(node) !in files["prod"])
          && WATCHER_ACCESS_KEY_PATH !in files["prod"] && WATCHER_SECRET_KEY_PATH !in files["prod"])
    && ("common" in files ==>
          forall node :: AccessKeyPath(node) !in files["common"] && SecretKeyPath(node) !in files["common"])
  }

  /** What a node needs: its pair and its restic password. */
  ghost predicate Equipped(files: Files, node: string) {
    HasPair(files, NodePair(node)) && Shown(files, ResticPasswordPath(node)).Some?
  }

  lemma SameAtShown(before: Files, after: Files, path: string)
    requires SameAt(before, after, path)
    ensures Shown(after, path) == Shown(before, path)
  {
  }

  // ---------------------------------------------------------------- the restic password

  /** What a new password leaves, if it was written. */
  lemma PasswordLands(files: Files, node: string, password: string)
    requires password != ""
    ensures var after, path := Merged(files, "common", map[ResticPasswordPath(node) := Text(password)]),
                               ResticPasswordPath(node);
            && (forall other :: other != path ==> SameAt(files, after, other))
            && (Placed(files) ==> Placed(after) && Shown(after, path) == Some(Text(password)))
  {
    PathsApart(node, node);
    assert "prod" != "common";
    forall other
      ensures AccessKeyPath(other) != ResticPasswordPath(node) && SecretKeyPath(other) != ResticPasswordPath(node)
    {
      PathsApart(other, node);
    }
  }

  /** The read of this password answered nothing, and a write that landed came next. */
  ghost predicate Overwrites(before: seq<Event>, after: seq<Event>, node: string) {
    exists k :: |before| <= k < |after| - 1 && ReadNothing(after[k], node) && LandsInCommon(after[k + 1])
  }

  predicate ReadNothing(e: Event, node: string) {
    e.KeyShown? && e.path == ResticPasswordPath(node) && e.value == None
  }

  predicate LandsInCommon(e: Event) {
    e.KeysWritten? && e.env == "common" && e.landed
  }

  /** What the password's turn sends, and whether it writes. */
  lemma EnsureSends(s: State, node: string, password: string)
    ensures var (r, t) := Ensure(s, node, password);
            && s.trace < t.trace && t.tokens == s.tokens && t.nextId == s.nextId && t.settled == s.settled
            && Reads(t.trace[|s.trace|], s.files, ResticPasswordPath(node))
            && (t.files == s.files
                || t.files == Merged(s.files, "common", map[ResticPasswordPath(node) := Text(password)]))
            && (t.files != s.files ==> Overwrites(s.trace, t.trace, node))
            && (Overwrites(s.trace, t.trace, node) ==>
                  t.files == Merged(s.files, "common", map[ResticPasswordPath(node) := Text(password)]))
            && Halts(s.trace, t.trace, r == PasswordRaised)
            && (r == Generated ==> Overwrites(s.trace, t.trace, node))
            && (r == Generated <==> Last(t).KeysWritten? && Last(t).told == Yes)
            && (r == PasswordFailed <==> Last(t).KeysWritten? && Last(t).told == No)
            && (r == PasswordRaised <==> Last(t).ShowRaised? || (Last(t).KeysWritten? && Last(t).told == Thrown))
            && (r == PasswordKept ==> t.trace[|s.trace|].KeyShown? && t.trace[|s.trace|].value.Some?)
            && (s.weather == [] ==> t.weather == [] && InPlace(r))
  {
    var (r, t) := Ensure(s, node, password);
    var (read, s1) := ShowStep(s, ResticPasswordPath(node));
    ShowMeans(s, ResticPasswordPath(node));
    var e := s1.trace[|s1.trace| - 1];
    if read == Got(None) {
      assert t.trace == s1.trace + [t.trace[|s1.trace|]];
      assert ReadNothing(t.trace[|s.trace|], node);
    }
  }

  /**
   * A password that is there is replaced exactly if its read answered nothing, which is when common's
   * file could not be opened, and the write landed.
   */
  lemma WhenAPasswordIsReplaced(s: State, node: string, password: string)
    requires Placed(s.files) && Shown(s.files, ResticPasswordPath(node)).Some? && password != ""
    requires Shown(s.files, ResticPasswordPath(node)) != Some(Text(password))
    ensures var t := Ensure(s, node, password).1;
            && (Shown(t.files, ResticPasswordPath(node)) != Shown(s.files, ResticPasswordPath(node)) <==>
                  Overwrites(s.trace, t.trace, node))
            && (Overwrites(s.trace, t.trace, node) ==> t.trace[|s.trace|].KeyShown? && !t.trace[|s.trace|].common)
  {
    EnsureSends(s, node, password);
    PasswordLands(s.files, node, password);
  }

  /** Common's file cannot be opened for the read, and nothing else fails: the password is replaced. */
  lemma AnUnreadPassword(s: State, node: string, password: string)
    requires Placed(s.files) && s.weather == [Http(false)] && password != ""
    ensures var (r, t) := Ensure(s, node, password);
            r == Generated && Shown(t.files, ResticPasswordPath(node)) == Some(Text(password))
  {
    PasswordLands(s.files, node, password);
    assert s.weather[1..] == [];
  }

  // ---------------------------------------------------------------- what a turn keeps

  /** Some read since `before` failed. */
  ghost predicate SomeReadFailed(before: seq<Event>, after: seq<Event>) {
    exists k :: |before| <= k < |after| && ReadFailed(after[k])
  }

  /** The password was overwritten after a read that failed. */
  ghost predicate Replaces(before: seq<Event>, after: seq<Event>, node: string) {
    exists k :: && |before| <= k < |after| - 1
                && ReadNothing(after[k], node) && ReadFailed(after[k]) && LandsInCommon(after[k + 1])
  }

  lemma ReplacesAmong(a: seq<Event>, b: seq<Event>, c: seq<Event>, d: seq<Event>, node: string)
    requires a <= b <= c <= d
    ensures Replaces(b, c, node) ==> Replaces(a, d, node)
    ensures SomeReadFailed(b, c) ==> SomeReadFailed(a, d)
  {
    if Replaces(b, c, node) {
      var k :| && |b| <= k < |c| - 1
               && ReadNothing(c[k], node) && ReadFailed(c[k]) && LandsInCommon(c[k + 1]);
      assert d[k] == c[k] && d[k + 1] == c[k + 1];
    }
    if SomeReadFailed(b, c) {
      var k :| |b| <= k < |c| && ReadFailed(c[k]);
      assert d[k] == c[k];
    }
  }

  /** The password's turn changes its own path only. */
  lemma EnsureKeeps(s: State, node: string, password: string)
    requires password != ""
    ensures var (r, t) := Ensure(s, node, password);
            && (forall path :: path != ResticPasswordPath(node) ==> SameAt(s.files, t.files, path))
            && (Placed(s.files) ==> Placed(t.files))
            && (Sound(s) ==> Sound(t))
  {
    EnsureWrites(s, node, password);
    PasswordLands(s.files, node, password);
  }

  lemma EnsureWrites(s: State, node: string, password: string)
    ensures var t := Ensure(s, node, password).1;
            && t.tokens == s.tokens && t.nextId == s.nextId && t.settled == s.settled
            && (t.files == s.files
                || t.files == Merged(s.files, "common", map[ResticPasswordPath(node) := Text(password)]))
  {
  }

  /** What was there goes only after a read that failed, and where keys are in their places it is there after. */
  lemma EnsureLeavesOne(s: State, node: string, password: string)
    requires password != ""
    ensures var (r, t) := Ensure(s, node, password);
            && (Shown(s.files, ResticPasswordPath(node)).Some? ==>
                  t.files == s.files || Replaces(s.trace, t.trace, node))
            && (Placed(s.files) && InPlace(r) ==> Shown(t.files, ResticPasswordPath(node)).Some?)
  {
    EnsureSends(s, node, password);
    PasswordLands(s.files, node, password);
    var t := Ensure(s, node, password).1;
    if t.files != s.files && Shown(s.files, ResticPasswordPath(node)).Some? {
      WhenAReadIsEmpty(s.files, ResticPasswordPath(node), t.trace[|s.trace|].common, t.trace[|s.trace|].prod);
    }
  }

  /** The key at `path` was read, or a read of it raised. */
  ghost predicate Tried(before: seq<Event>, after: seq<Event>, path: string) {
    exists k :: |before| <= k < |after| && IsReadOf(after[k], path)
  }

  predicate IsReadOf(e: Event, path: string) {
    e == ShowRaised(path) || (e.KeyShown? && e.path == path)
  }

  lemma TriedAmong(a: seq<Event>, b: seq<Event>, c: seq<Event>, d: seq<Event>, path: string)
    requires a <= b <= c <= d
    ensures Tried(b, c, path) ==> Tried(a, d, path)
  {
    if Tried(b, c, path) {
      var k :| |b| <= k < |c| && IsReadOf(c[k], path);
      assert d[k] == c[k];
    }
  }

  /** What one mint means for the files, the tokens and the trace. */
  lemma MintKeeps(s: State, granted: Grant, job: Job)
    requires Sound(s) && job.readable != []
    ensures var (r, t) := Mint(s, granted, job);
            && Sound(t) && Halts(s.trace, t.trace, r == Raised)
            && (forall path :: path != job.pair.access && path != job.pair.secret ==> SameAt(s.files, t.files, path))
            && (!job.rotate ==> s.tokens.Keys <= t.tokens.Keys)
            && Tried(s.trace, t.trace, job.pair.access)
            && (r == Minted || r == Rotated ==> t.files == Written(s.files, job.pair, s.nextId))
            && (r == Kept ==> t.files == s.files)
            && (t.files == s.files || t.files == Written(s.files, job.pair, s.nextId))
  {
    var (r, t) := Mint(s, granted, job);
    var run := RunOf(s, granted, job);
    MintIsARun(s, granted, job);
    RanIsSound(s, r, t, run, granted, job);
    RanKeeps(s, r, t, run, granted, job);
    RaiseIsLast(s, r, t, run, granted, job);
    assert t.trace[|s.trace|] == run.looks[0];
  }

  /** A pair that is whole is written over without a rotation only after a read that failed. */
  lemma WholePairsStay(s: State, granted: Grant, job: Job)
    requires Sound(s) && job.readable != [] && job.pair.access != job.pair.secret
    requires HasPair(s.files, job.pair) && !job.rotate
    ensures var t := Mint(s, granted, job).1;
            t.files == s.files || SomeReadFailed(s.trace, t.trace)
  {
    var (r, t) := Mint(s, granted, job);
    var run := RunOf(s, granted, job);
    MintIsARun(s, granted, job);
    var sent := t.trace[|s.trace|..];
    WhenAWholePairIsMintedOver(s, r, t, run, granted, job);
    NewToken(s, r, t, run, granted, job);
    if t.files != s.files {
      var e :| e in sent && ReadFailed(e);
      var k :| 0 <= k < |sent| && sent[k] == e;
      assert t.trace[|s.trace| + k] == e;
    }
  }

  /** A pair in the files its paths name that is kept is there. */
  lemma KeptPairIsThere(s: State, granted: Grant, job: Job)
    requires Sound(s) && job.readable != [] && Mint(s, granted, job).0 == Kept
    requires Show(s.files, "common", job.pair.access) == Show(s.files, "common", job.pair.secret) == None
             || ("prod" in s.files ==> job.pair.access !in s.files["prod"] && job.pair.secret !in s.files["prod"])
    ensures HasPair(s.files, job.pair)
  {
    var (r, t) := Mint(s, granted, job);
    MintIsARun(s, granted, job);
    MintKeeps(s, granted, job);
    KeptIsThere(s, r, t, RunOf(s, granted, job), granted, job);
  }

  /** A pair written where its path belongs is shown. */
  lemma WrittenIsShown(files: Files, pair: Pair, id: nat)
    requires pair.access != pair.secret
    requires pair.file == "prod" || (pair.file == "common" && ("prod" in files ==>
               pair.access !in files["prod"] && pair.secret !in files["prod"]))
    ensures HasPair(Written(files, pair, id), pair)
  {
    assert "prod" != "common";
  }

  /** Every path but the node's own three is as it was. */
  ghost predicate SameBeyond(before: Files, after: Files, node: string) {
    forall path :: path != AccessKeyPath(node) && path != SecretKeyPath(node) && path != ResticPasswordPath(node)
      ==> SameAt(before, after, path)
  }

  lemma SameAtTransitive(a: Files, b: Files, c: Files, path: string)
    requires SameAt(a, b, path) && SameAt(b, c, path)
    ensures SameAt(a, c, path)
  {
  }

  lemma NodePairIsPlaced(files: Files, node: string, id: nat)
    ensures Placed(files) ==> Placed(Written(files, NodePair(node), id))
  {
    assert "prod" != "common";
    PathsApart(node, node);
    forall other
      ensures ResticPasswordPath(other) != AccessKeyPath(node) && ResticPasswordPath(other) != SecretKeyPath(node)
    {
      PathsApart(node, other);
    }
  }

  lemma WatcherPairIsPlaced(files: Files, id: nat)
    ensures Placed(files) ==> Placed(Written(files, WATCHER_PAIR, id))
  {
    assert "prod" != "common";
    forall node
      ensures AccessKeyPath(node) != WATCHER_ACCESS_KEY_PATH && AccessKeyPath(node) != WATCHER_SECRET_KEY_PATH
      ensures SecretKeyPath(node) != WATCHER_ACCESS_KEY_PATH && SecretKeyPath(node) != WATCHER_SECRET_KEY_PATH
    {
      PathsApart(node, node);
    }
  }

  // ---------------------------------------------------------------- one node's turn

  /** What a node's mint means: only its pair's paths change, and success means the pair is shown. */
  lemma PairMeans(s: State, granted: Grant, node: string, otherBucket: string, rotate: bool)
    requires Sound(s)
    ensures var (minted, t) := Mint(s, granted, PairJob(node, otherBucket, rotate));
            && Sound(t) && Halts(s.trace, t.trace, minted == Raised) && Tried(s.trace, t.trace, AccessKeyPath(node))
            && (forall path :: path != AccessKeyPath(node) && path != SecretKeyPath(node)
                  ==> SameAt(s.files, t.files, path))
            && (!rotate ==> s.tokens.Keys <= t.tokens.Keys)
            && (!rotate && HasPair(s.files, NodePair(node)) ==>
                  t.files == s.files || SomeReadFailed(s.trace, t.trace))
            && (minted == Minted || minted == Rotated ==> HasPair(t.files, NodePair(node)))
            && (Placed(s.files) ==> Placed(t.files) && (minted == Kept ==> HasPair(t.files, NodePair(node))))
            && (s.weather == [] ==> t.weather == [])
  {
    PathsApart(node, node);
    var job := PairJob(node, otherBucket, rotate);
    MintKeeps(s, granted, job);
    WrittenIsShown(s.files, NodePair(node), s.nextId);
    NodePairIsPlaced(s.files, node, s.nextId);
    if !rotate && HasPair(s.files, NodePair(node)) {
      WholePairsStay(s, granted, job);
    }
    if Mint(s, granted, job).0 == Kept && Placed(s.files) {
      KeptPairIsThere(s, granted, job);
    }
    if s.weather == [] {
      SmoothMint(s, granted, job);
    }
  }

  /** A mint that replaces nothing works when nothing fails and the API grants what is asked. */
  lemma SmoothMint(s: State, granted: Grant, job: Job)
    requires s.weather == [] && job.readable != []
    ensures Mint(s, granted, job).1.weather == []
    ensures !job.rotate && job.refused !in job.readable && (forall n, asked :: granted(n, asked) == asked) ==>
      Mint(s, granted, job).0 == Kept || Mint(s, granted, job).0 == Minted
  {
    MintIsARun(s, granted, job);
    CalmMint(s, granted, job);
  }

  /** What a turn changes and leaves, whatever its calls come to. */
  ghost predicate Turned(s: State, r: Option<bool>, t: State, node: string, rotate: bool) {
    && Sound(t) && Halts(s.trace, t.trace, r == None) && Tried(s.trace, t.trace, AccessKeyPath(node))
    && SameBeyond(s.files, t.files, node)
    && (Shown(s.files, ResticPasswordPath(node)).Some? ==>
          SameAt(s.files, t.files, ResticPasswordPath(node)) || Replaces(s.trace, t.trace, node))
    && (!rotate && HasPair(s.files, NodePair(node)) ==>
          HasSamePair(s.files, t.files, node) || SomeReadFailed(s.trace, t.trace))
    && (!rotate ==> s.tokens.Keys <= t.tokens.Keys)
    && (Placed(s.files) ==> Placed(t.files) && (r == Some(true) ==> Equipped(t.files, node)))
    && (s.weather == [] ==> t.weather == [])
  }

  /** What one node's turn means. */
  lemma TurnMeans(s: State, granted: Grant, node: string, otherBucket: string, rotate: bool, password: string)
    requires Sound(s) && password != ""
    ensures var (r, t) := NodeTurn(s, granted, node, otherBucket, rotate, password);
            Turned(s, r, t, node, rotate)
  {
    var (minted, mid) := Mint(s, granted, PairJob(node, otherBucket, rotate));
    PairMeans(s, granted, node, otherBucket, rotate);
    PathsApart(node, node);
    if minted != Failed && minted != Raised {
      PasswordsTurn(s, minted, mid, node, rotate, password);
    }
  }

  /** The pair was minted or kept in `mid`, and the password has its turn. */
  lemma PasswordsTurn(s: State, minted: Outcome, mid: State, node: string, rotate: bool, password: string)
    requires password != "" && Sound(mid) && minted != Raised && minted != Failed
    requires Halts(s.trace, mid.trace, false) && Tried(s.trace, mid.trace, AccessKeyPath(node))
    requires forall path :: path != AccessKeyPath(node) && path != SecretKeyPath(node)
               ==> SameAt(s.files, mid.files, path)
    requires !rotate ==> s.tokens.Keys <= mid.tokens.Keys
    requires !rotate && HasPair(s.files, NodePair(node)) ==>
      mid.files == s.files || SomeReadFailed(s.trace, mid.trace)
    requires Placed(s.files) ==> Placed(mid.files) && HasPair(mid.files, NodePair(node))
    requires s.weather == [] ==> mid.weather == []
    ensures var (ensured, t) := Ensure(mid, node, password);
            Turned(s, if ensured == PasswordRaised then None else Some(ensured != PasswordFailed), t, node, rotate)
  {
    var (ensured, t) := Ensure(mid, node, password);
    EnsureKeeps(mid, node, password);
    EnsureLeavesOne(mid, node, password);
    EnsureSends(mid, node, password);
    TurnKeeps(s, mid, t, node, rotate);
    HaltsTogether(s.trace, mid.trace, t.trace, ensured == PasswordRaised);
    TriedAmong(s.trace, s.trace, mid.trace, t.trace, AccessKeyPath(node));
  }

  /** Both keys of a node are as they were. */
  ghost predicate HasSamePair(before: Files, after: Files, node: string) {
    SameAt(before, after, AccessKeyPath(node)) && SameAt(before, after, SecretKeyPath(node))
  }

  /** The two halves of a node's turn: the pair's to `mid`, the password's from there. */
  lemma TurnKeeps(before: State, mid: State, after: State, node: string, rotate: bool)
    requires before.trace <= mid.trace <= after.trace
    requires forall path :: path != AccessKeyPath(node) && path != SecretKeyPath(node)
               ==> SameAt(before.files, mid.files, path)
    requires forall path :: path != ResticPasswordPath(node) ==> SameAt(mid.files, after.files, path)
    requires Shown(mid.files, ResticPasswordPath(node)).Some? ==>
      after.files == mid.files || Replaces(mid.trace, after.trace, node)
    ensures SameBeyond(before.files, after.files, node)
    ensures HasSamePair(mid.files, after.files, node)
    ensures Shown(before.files, ResticPasswordPath(node)).Some? ==>
      SameAt(before.files, after.files, ResticPasswordPath(node)) || Replaces(before.trace, after.trace, node)
    ensures Shown(after.files, AccessKeyPath(node)) == Shown(mid.files, AccessKeyPath(node))
    ensures Shown(after.files, SecretKeyPath(node)) == Shown(mid.files, SecretKeyPath(node))
    ensures SomeReadFailed(before.trace, mid.trace) ==> SomeReadFailed(before.trace, after.trace)
  {
    PathsApart(node, node);
    forall path | path != AccessKeyPath(node) && path != SecretKeyPath(node) && path != ResticPasswordPath(node)
      ensures SameAt(before.files, after.files, path)
    {
      SameAtTransitive(before.files, mid.files, after.files, path);
    }
    SameAtShown(before.files, mid.files, ResticPasswordPath(node));
    SameAtShown(mid.files, after.files, AccessKeyPath(node));
    SameAtShown(mid.files, after.files, SecretKeyPath(node));
    ReplacesAmong(before.trace, mid.trace, after.trace, after.trace, node);
    ReplacesAmong(before.trace, before.trace, mid.trace, after.trace, node);
  }

  lemma EquippedStays(before: Files, after: Files, node: string, other: string)
    requires node != other && Equipped(before, node)
    requires SameBeyond(before, after, other)
    ensures Equipped(after, node)
  {
    PathsApart(node, other);
    PathsApart(other, node);
    SameAtShown(before, after, AccessKeyPath(node));
    SameAtShown(before, after, SecretKeyPath(node));
    SameAtShown(before, after, ResticPasswordPath(node));
  }

  // ---------------------------------------------------------------- everything

  /** What holds of a password at any point of a run that started with `files` and `trace`. */
  ghost predicate PasswordsKept(files: Files, trace: seq<Event>, now: Files, sent: seq<Event>) {
    forall node :: Shown(files, ResticPasswordPath(node)).Some? ==>
      Shown(now, ResticPasswordPath(node)) == Shown(files, ResticPasswordPath(node)) || Replaces(trace, sent, node)
  }

  /** And of a whole pair when no rotation was asked for. */
  ghost predicate PairsKept(files: Files, trace: seq<Event>, now: Files, sent: seq<Event>) {
    SomeReadFailed(trace, sent) || forall node :: HasPair(files, NodePair(node)) ==> HasSamePair(files, now, node)
  }

  /** One node's turn keeps both. */
  lemma TurnKeepsAll(files: Files, trace: seq<Event>, before: Files, sofar: seq<Event>, after: Files, sent: seq<Event>,
                     node: string)
    requires trace <= sofar <= sent && SameBeyond(before, after, node)
    requires Shown(before, ResticPasswordPath(node)).Some? ==>
      SameAt(before, after, ResticPasswordPath(node)) || Replaces(sofar, sent, node)
    ensures PasswordsKept(files, trace, before, sofar) ==> PasswordsKept(files, trace, after, sent)
    ensures PairsKept(files, trace, before, sofar)
            && (HasPair(before, NodePair(node)) ==> HasSamePair(before, after, node) || SomeReadFailed(sofar, sent)) ==>
      PairsKept(files, trace, after, sent)
  {
    forall other
      ensures Replaces(trace, sofar, other) ==> Replaces(trace, sent, other)
      ensures SomeReadFailed(trace, sofar) ==> SomeReadFailed(trace, sent)
      ensures Shown(before, ResticPasswordPath(other)).Some? ==>
        Shown(after, ResticPasswordPath(other)) == Shown(before, ResticPasswordPath(other))
        || (other == node && Replaces(sofar, sent, node))
    {
      ReplacesAmong(trace, trace, sofar, sent, other);
      PathsApart(node, other);
      if other != node || SameAt(before, after, ResticPasswordPath(node)) {
        SameAtShown(before, after, ResticPasswordPath(other));
      }
    }
    ReplacesAmong(trace, sofar, sent, sent, node);
    forall other | HasPair(files, NodePair(other)) && HasSamePair(files, before, other)
      ensures HasPair(before, NodePair(other))
      ensures other != node || HasSamePair(before, after, node) ==> HasSamePair(files, after, other)
    {
      SameAtShown(files, before, AccessKeyPath(other));
      SameAtShown(files, before, SecretKeyPath(other));
      PathsApart(other, node);
      PathsApart(node, other);
      if other != node {
        assert HasSamePair(before, after, other);
      }
      if HasSamePair(before, after, other) {
        SameAtTransitive(files, before, after, AccessKeyPath(other));
        SameAtTransitive(files, before, after, SecretKeyPath(other));
      }
    }
  }

  /** What was asked for makes sense: known nodes, complete settings, and a bucket to prove the watcher by. */
  ghost predicate MakesSense(nodes: seq<string>, only: Option<string>, watcherOnly: bool, r2: Settings, outside: string)
  {
    && (only.Some? ==> only.value in nodes && !watcherOnly) && (only == None ==> outside != "")
    && r2.account.Some? && r2.endpoint.Some? && r2.bucket.Some?
  }

  /** The minter's own token was read. */
  ghost predicate MinterRead(before: seq<Event>, after: seq<Event>) {
    exists k :: && |before| <= k < |after| && after[k].KeyShown?
                && after[k].path == "cloudflare.r2_token_minter" && after[k].value.Some?
  }

  /** It goes on exactly if what was asked for makes sense and the minter's token was read. */
  lemma PreflightMeans(s: State, nodes: seq<string>, only: Option<string>, watcherOnly: bool, r2: Settings,
                       outside: string)
    ensures var (end, t) := PreflightStep(s, nodes, only, watcherOnly, r2, outside);
            && (end == None <==> MakesSense(nodes, only, watcherOnly, r2, outside) && MinterRead(s.trace, t.trace))
            && t == s.(weather := t.weather, trace := t.trace) && Halts(s.trace, t.trace, end == Some(None))
            && end != Some(Some(true))
            && (s.weather == [] ==>
                  && t.weather == []
                  && (end == None <==>
                        MakesSense(nodes, only, watcherOnly, r2, outside) && Shown(s.files, MINTER_KEY).Some?))
  {
    var (loaded, s1) := LoadStep(s);
    ShowMeans(s1, MINTER_KEY);
    if loaded.Loaded? {
      var t := ShowStep(s1, MINTER_KEY).1;
      assert t.trace == s.trace + [t.trace[|s.trace|]];
    }
  }

  /** What is kept since a later start is kept since an earlier one, if nothing changed between. */
  lemma SinceStart(files: Files, earlier: seq<Event>, trace: seq<Event>, now: Files, sent: seq<Event>)
    requires earlier <= trace <= sent
    ensures PasswordsKept(files, trace, now, sent) ==> PasswordsKept(files, earlier, now, sent)
    ensures PairsKept(files, trace, now, sent) ==> PairsKept(files, earlier, now, sent)
  {
    forall node
      ensures Replaces(trace, sent, node) ==> Replaces(earlier, sent, node)
      ensures SomeReadFailed(trace, sent) ==> SomeReadFailed(earlier, sent)
    {
      ReplacesAmong(earlier, trace, sent, sent, node);
    }
  }

  /** The first `n` have what they need. */
  ghost predicate EquippedUpTo(files: Files, targets: seq<string>, n: nat)
    requires n <= |targets|
  {
    forall k :: 0 <= k < n ==> Equipped(files, targets[k])
  }

  lemma EquippedOneMore(before: Files, after: Files, targets: seq<string>, n: nat)
    requires n < |targets| && Distinct(targets) && SameBeyond(before, after, targets[n])
    ensures EquippedUpTo(before, targets, n) && Equipped(after, targets[n]) ==> EquippedUpTo(after, targets, n + 1)
  {
    forall k | 0 <= k < n && Equipped(before, targets[k])
      ensures Equipped(after, targets[k])
    {
      EquippedStays(before, after, targets[k], targets[n]);
    }
  }

  ghost predicate WatcherDid(s: State, minted: Outcome, t: State, rotate: bool) {
    && Sound(t) && Halts(s.trace, t.trace, minted == Raised) && Tried(s.trace, t.trace, WATCHER_ACCESS_KEY_PATH)
    && ((minted == Kept || minted == Minted || minted == Rotated) && Placed(s.files) ==>
          HasPair(t.files, WATCHER_PAIR))
    && NodesAsTheyWere(s.files, t.files) && (!rotate ==> s.tokens.Keys <= t.tokens.Keys)
  }

  /** What the watcher's mint means: what the nodes have stays as it is. */
  lemma WatcherMeans(s: State, granted: Grant, nodes: seq<string>, legacy: string, outside: string, rotate: bool)
    requires Sound(s)
    ensures var (minted, t) := Mint(s, granted, WatcherJob(nodes, legacy, outside, rotate));
            WatcherDid(s, minted, t, rotate)
  {
    PathsApart("", "");
    var job := WatcherJob(nodes, legacy, outside, rotate);
    var (minted, t) := Mint(s, granted, job);
    MintKeeps(s, granted, job);
    if Placed(s.files) {
      WrittenIsShown(s.files, WATCHER_PAIR, s.nextId);
      if minted == Kept {
        KeptPairIsThere(s, granted, job);
      }
    }
    NodesStay(s.files, t.files);
  }

  /** No node's key or password is touched. */
  ghost predicate NodesAsTheyWere(before: Files, after: Files) {
    forall node :: HasSamePair(before, after, node) && SameAt(before, after, ResticPasswordPath(node))
  }

  lemma NodesStay(before: Files, after: Files)
    requires forall path :: path != WATCHER_PAIR.access && path != WATCHER_PAIR.secret ==> SameAt(before, after, path)
    ensures NodesAsTheyWere(before, after)
  {
    forall node
      ensures HasSamePair(before, after, node) && SameAt(before, after, ResticPasswordPath(node))
    {
      PathsApart(node, node);
    }
  }

  /** So the watcher's turn keeps what a run has kept. */
  lemma WatcherKeepsAll(files: Files, trace: seq<Event>, before: Files, sofar: seq<Event>, after: Files,
                        sent: seq<Event>)
    requires trace <= sofar <= sent && NodesAsTheyWere(before, after)
    ensures PasswordsKept(files, trace, before, sofar) ==> PasswordsKept(files, trace, after, sent)
    ensures PairsKept(files, trace, before, sofar) ==> PairsKept(files, trace, after, sent)
    ensures forall node :: Equipped(before, node) ==> Equipped(after, node)
  {
    forall node
      ensures Replaces(trace, sofar, node) ==> Replaces(trace, sent, node)
      ensures SomeReadFailed(trace, sofar) ==> SomeReadFailed(trace, sent)
      ensures Shown(after, ResticPasswordPath(node)) == Shown(before, ResticPasswordPath(node))
      ensures Equipped(before, node) ==> Equipped(after, node)
      ensures HasSamePair(files, before, node) ==> HasSamePair(files, after, node)
    {
      assert HasSamePair(before, after, node) && SameAt(before, after, ResticPasswordPath(node));
      ReplacesAmong(trace, trace, sofar, sent, node);
      SameAtShown(before, after, ResticPasswordPath(node));
      SameAtShown(before, after, AccessKeyPath(node));
      SameAtShown(before, after, SecretKeyPath(node));
      if HasSamePair(files, before, node) {
        SameAtTransitive(files, before, after, AccessKeyPath(node));
        SameAtTransitive(files, before, after, SecretKeyPath(node));
      }
    }
  }

  // ---------------------------------------------------------------- what a run means

  /** Each of the first `n` targets had its turn: its id was read. */
  ghost predicate AllTried(before: seq<Event>, after: seq<Event>, targets: seq<string>, n: nat)
    requires n <= |targets|
  {
    forall k :: 0 <= k < n ==> Tried(before, after, AccessKeyPath(targets[k]))
  }

  /** What `n` turns have done. */
  ghost predicate TurnsDid(s: State, r: Option<bool>, t: State, targets: seq<string>, n: nat, rotate: bool)
    requires n <= |targets|
  {
    && Sound(t) && Halts(s.trace, t.trace, r == None) && (r.Some? ==> AllTried(s.trace, t.trace, targets, n))
    && PasswordsKept(s.files, s.trace, t.files, t.trace)
    && (!rotate ==> PairsKept(s.files, s.trace, t.files, t.trace) && s.tokens.Keys <= t.tokens.Keys)
    && (Placed(s.files) ==> Placed(t.files) && (r == Some(true) ==> EquippedUpTo(t.files, targets, n)))
    && (s.weather == [] ==> t.weather == [])
  }

  lemma TurnsDidOneMore(s: State, s1: State, ok: bool, done: Option<bool>, t: State, targets: seq<string>, n: nat,
                        rotate: bool)
    requires n < |targets| && Distinct(targets)
    requires TurnsDid(s, Some(ok), s1, targets, n, rotate) && Turned(s1, done, t, targets[n], rotate)
    ensures TurnsDid(s, if done == None then None else Some(ok && done.value), t, targets, n + 1, rotate)
  {
    HaltsTogether(s.trace, s1.trace, t.trace, done == None);
    TurnKeepsAll(s.files, s.trace, s1.files, s1.trace, t.files, t.trace, targets[n]);
    EquippedOneMore(s1.files, t.files, targets, n);
    forall k | 0 <= k <= n
      ensures Tried(s.trace, t.trace, AccessKeyPath(targets[k]))
    {
      TriedAmong(s.trace, s.trace, s1.trace, t.trace, AccessKeyPath(targets[k]));
      TriedAmong(s.trace, s1.trace, t.trace, t.trace, AccessKeyPath(targets[k]));
    }
  }

  lemma NothingDone(s: State, targets: seq<string>, rotate: bool)
    requires Sound(s)
    ensures TurnsDid(s, Some(true), s, targets, 0, rotate)
  {
  }

  /** What `n` turns have done, or those up to one that raised. */
  ghost predicate TurnsDone(s: State, r: Option<bool>, t: State, targets: seq<string>, n: nat, rotate: bool)
    requires n <= |targets|
  {
    if r.Some? then TurnsDid(s, r, t, targets, n, rotate)
    else exists m: nat :: m <= n && TurnsDid(s, r, t, targets, m, rotate)
  }

  /** Every turn is a turn of its target, whatever the state it starts from. */
  ghost predicate TakesTurns(turn: Turner, targets: seq<string>, rotate: bool) {
    forall s: State, k: nat {:trigger turn(s, k)} ::
      Sound(s) && k < |targets| ==> Turned(s, turn(s, k).0, turn(s, k).1, targets[k], rotate)
  }

  lemma TurnsAreTaken(granted: Grant, nodes: seq<string>, targets: seq<string>, legacy: string, rotate: bool,
                      passwords: nat -> string, turn: Turner)
    requires GivesTurns(turn, granted, nodes, targets, legacy, rotate, passwords)
    requires forall k :: passwords(k) != ""
    ensures TakesTurns(turn, targets, rotate)
  {
    forall s: State, k: nat | Sound(s) && k < |targets|
      ensures Turned(s, turn(s, k).0, turn(s, k).1, targets[k], rotate)
    {
      TurnMeans(s, granted, targets[k], OtherBucket(nodes, targets[k], legacy), rotate, passwords(k));
    }
  }

  lemma NextTurnDone(s: State, turn: Turner, targets: seq<string>, n: nat, rotate: bool, r: Option<bool>, s1: State)
    returns (later: Option<bool>, t: State)
    requires n < |targets| && Distinct(targets) && TakesTurns(turn, targets, rotate)
    requires Turns(s, turn, n) == (r, s1) && TurnsDone(s, r, s1, targets, n, rotate)
    ensures Turns(s, turn, n + 1) == (later, t) && TurnsDone(s, later, t, targets, n + 1, rotate)
  {
    if r == None {
      later, t := None, s1;
    } else {
      var done;
      done, t := OneTurn(s1, turn, targets, n, rotate);
      TurnsNext(s, turn, n, r.value, s1, done, t);
      TurnsDidOneMore(s, s1, r.value, done, t, targets, n, rotate);
      later := if done == None then None else Some(r.value && done.value);
    }
  }

  lemma OneTurn(s: State, turn: Turner, targets: seq<string>, k: nat, rotate: bool)
    returns (done: Option<bool>, t: State)
    requires k < |targets| && Sound(s) && TakesTurns(turn, targets, rotate)
    ensures turn(s, k) == (done, t) && Turned(s, done, t, targets[k], rotate)
  {
    var next := turn(s, k);
    done, t := next.0, next.1;
    assert Turned(s, turn(s, k).0, turn(s, k).1, targets[k], rotate);
  }

  /** What the turns mean: whatever became of one, the others had theirs, unless a call raised. */
  lemma {:induction false} TurnsMean(s: State, turn: Turner, targets: seq<string>, n: nat, rotate: bool)
    returns (r: Option<bool>, t: State)
    requires n <= |targets| && Distinct(targets) && Sound(s) && TakesTurns(turn, targets, rotate)
    ensures Turns(s, turn, n) == (r, t) && TurnsDone(s, r, t, targets, n, rotate)
  {
    if n == 0 {
      NothingDone(s, targets, rotate);
      r, t := Some(true), s;
    } else {
      r, t := TurnsMean(s, turn, targets, n - 1, rotate);
      r, t := NextTurnDone(s, turn, targets, n - 1, rotate, r, t);
    }
  }

  /** What holds of a whole run, whatever its calls come to. */
  ghost predicate AllDid(s: State, r: Option<bool>, t: State, rotate: bool) {
    && Sound(t) && Halts(s.trace, t.trace, r == None)
    && PasswordsKept(s.files, s.trace, t.files, t.trace)
    && (!rotate ==> PairsKept(s.files, s.trace, t.files, t.trace) && s.tokens.Keys <= t.tokens.Keys)
  }

  /** Everyone who was to have a turn had it: their id was read. */
  ghost predicate EveryoneTried(s: State, t: State, nodes: seq<string>, only: Option<string>, watcherOnly: bool) {
    && (only == None ==> Tried(s.trace, t.trace, "backup.r2.watcher.access_key_id"))
    && ((only == None && !watcherOnly) || only == Some("") ==>
          forall node :: node in nodes ==> Tried(s.trace, t.trace, "backup.r2.nodes." + node + ".access_key_id"))
    && (only.Some? && only.value != "" ==>
          Tried(s.trace, t.trace, "backup.r2.nodes." + only.value + ".access_key_id"))
  }

  /** And has what was asked for. */
  ghost predicate EveryoneEquipped(t: State, nodes: seq<string>, only: Option<string>, watcherOnly: bool) {
    && (only == None ==> HasPair(t.files, WATCHER_PAIR))
    && ((only == None && !watcherOnly) || only == Some("") ==> forall node :: node in nodes ==> Equipped(t.files, node))
    && (only.Some? ==> Equipped(t.files, only.value))
  }

  /**
   * The whole run, for every outcome of every call. Nothing is sent after a call that raised. A password
   * that was there is replaced only after a read of it that failed; without `rotate` no token that lived
   * is deleted, and no whole pair of a node is written over in a run in which no read failed. If what was
   * asked for makes sense and the minter's token was read, everyone has their turn, whoever failed before,
   * unless a call raised; else nothing is done. True only if everything asked for is in SOPS.
   */
  lemma AllMeans(s: State, granted: Grant, nodes: seq<string>, only: Option<string>, watcherOnly: bool, r2: Settings,
                 outside: string, rotate: bool, passwords: nat -> string)
    requires Sound(s) && Distinct(nodes) && forall k :: passwords(k) != ""
    ensures var (r, t) := All(s, granted, nodes, only, watcherOnly, r2, outside, rotate, passwords);
            && AllDid(s, r, t, rotate)
            && (if MakesSense(nodes, only, watcherOnly, r2, outside) && MinterRead(s.trace, t.trace)
                then r.Some? ==> EveryoneTried(s, t, nodes, only, watcherOnly)
                else r != Some(true) && t.files == s.files && t.tokens == s.tokens)
            && (r == Some(true) && Placed(s.files) ==> EveryoneEquipped(t, nodes, only, watcherOnly))
  {
    var (end, s1) := PreflightStep(s, nodes, only, watcherOnly, r2, outside);
    PreflightMeans(s, nodes, only, watcherOnly, r2, outside);
    if end == None {
      var targets := TargetsOf(nodes, only, watcherOnly);
      var turn := TurnOf(granted, nodes, targets, r2.bucket.value, rotate, passwords);
      TurnsAreTaken(granted, nodes, targets, r2.bucket.value, rotate, passwords, turn);
      var _, _ := GoesOn(s, s1, granted, nodes, only, watcherOnly, r2.bucket.value, outside, rotate, turn);
    }
  }

  /** One node asked for, and nothing of any other changes; the watcher alone, and nothing of the nodes. */
  lemma OnlyWhatWasAsked(s: State, granted: Grant, nodes: seq<string>, only: Option<string>, watcherOnly: bool,
                         r2: Settings, outside: string, rotate: bool, passwords: nat -> string)
    requires Sound(s) && forall k :: passwords(k) != ""
    ensures var t := All(s, granted, nodes, only, watcherOnly, r2, outside, rotate, passwords).1;
            && (only.Some? && only.value != "" ==> SameBeyond(s.files, t.files, only.value))
            && (watcherOnly ==> NodesAsTheyWere(s.files, t.files))
  {
    var (end, s1) := PreflightStep(s, nodes, only, watcherOnly, r2, outside);
    PreflightMeans(s, nodes, only, watcherOnly, r2, outside);
    if end == None {
      var targets := TargetsOf(nodes, only, watcherOnly);
      var turn := TurnOf(granted, nodes, targets, r2.bucket.value, rotate, passwords);
      TurnsAreTaken(granted, nodes, targets, r2.bucket.value, rotate, passwords, turn);
      if only.Some? && only.value != "" {
        TheOneTurn(s1, turn, only.value, rotate);
      } else if watcherOnly {
        NoTurn(s1, turn);
        var _, _ := WatchersTurn(s1, granted, nodes, r2.bucket.value, outside, rotate);
      }
    }
  }

  lemma TheOneTurn(s: State, turn: Turner, node: string, rotate: bool)
    requires Sound(s) && TakesTurns(turn, [node], rotate)
    ensures SameBeyond(s.files, Turns(s, turn, 1).1.files, node)
  {
    NoTurn(s, turn);
    var done, t := OneTurn(s, turn, [node], 0, rotate);
    TurnsNext(s, turn, 0, true, s, done, t);
  }

  lemma NoTurn(s: State, turn: Turner)
    ensures Turns(s, turn, 0) == (Some(true), s)
  {
  }

  lemma GoesOn(s: State, s1: State, granted: Grant, nodes: seq<string>, only: Option<string>, watcherOnly: bool,
               legacy: string, outside: string, rotate: bool, turn: Turner)
    returns (r: Option<bool>, t: State)
    requires Sound(s) && Distinct(nodes) && s1 == s.(weather := s1.weather, trace := s1.trace)
    requires Halts(s.trace, s1.trace, false) && MinterRead(s.trace, s1.trace)
    requires only.Some? ==> only.value in nodes && !watcherOnly
    requires TakesTurns(turn, TargetsOf(nodes, only, watcherOnly), rotate)
    ensures GoOn(s1, granted, nodes, only, watcherOnly, legacy, outside, rotate, turn) == (r, t)
    ensures AllDid(s, r, t, rotate) && MinterRead(s.trace, t.trace)
    ensures r.Some? ==> EveryoneTried(s, t, nodes, only, watcherOnly)
    ensures r == Some(true) && Placed(s.files) ==> EveryoneEquipped(t, nodes, only, watcherOnly)
  {
    var targets := TargetsOf(nodes, only, watcherOnly);
    r, t := TurnsMean(s1, turn, targets, |targets|, rotate);
    TurnsAreAll(s, s1, r, t, nodes, only, watcherOnly, rotate);
    if r.Some? && only == None {
      var ok, s2 := r.value, t;
      var minted;
      minted, t := WatchersTurn(s2, granted, nodes, legacy, outside, rotate);
      WatcherIsLast(s, s1, ok, s2, minted, t, nodes, watcherOnly, rotate);
      r := if minted == Raised then None else if minted == Failed then Some(false) else Some(ok);
    }
    MinterReadStays(s.trace, s1.trace, t.trace);
  }

  lemma MinterReadStays(a: seq<Event>, b: seq<Event>, c: seq<Event>)
    requires MinterRead(a, b) && b <= c
    ensures MinterRead(a, c)
  {
    var k :| |a| <= k < |b| && b[k].KeyShown? && b[k].path == "cloudflare.r2_token_minter" && b[k].value.Some?;
    assert c[k] == b[k];
  }

  lemma WatchersTurn(s: State, granted: Grant, nodes: seq<string>, legacy: string, outside: string, rotate: bool)
    returns (minted: Outcome, t: State)
    requires Sound(s)
    ensures Mint(s, granted, WatcherJob(nodes, legacy, outside, rotate)) == (minted, t)
    ensures WatcherDid(s, minted, t, rotate)
  {
    WatcherMeans(s, granted, nodes, legacy, outside, rotate);
    var mint := Mint(s, granted, WatcherJob(nodes, legacy, outside, rotate));
    minted, t := mint.0, mint.1;
  }

  /** From after the preflight to the end of the turns. */
  lemma TurnsAreAll(s: State, s1: State, r: Option<bool>, t: State, nodes: seq<string>, only: Option<string>,
                    watcherOnly: bool, rotate: bool)
    requires s1 == s.(weather := s1.weather, trace := s1.trace) && Halts(s.trace, s1.trace, false)
    requires only.Some? ==> only.value in nodes && !watcherOnly
    requires var targets := TargetsOf(nodes, only, watcherOnly);
             TurnsDone(s1, r, t, targets, |targets|, rotate)
    ensures AllDid(s, r, t, rotate)
    ensures r.Some? ==>
      forall node :: node in TargetsOf(nodes, only, watcherOnly) ==> Tried(s.trace, t.trace, AccessKeyPath(node))
    ensures r == Some(true) && Placed(s.files) ==>
      Placed(t.files) && forall node :: node in TargetsOf(nodes, only, watcherOnly) ==> Equipped(t.files, node)
    ensures r.Some? && Placed(s.files) ==> Placed(t.files)
    ensures s1.trace <= t.trace
  {
    var targets := TargetsOf(nodes, only, watcherOnly);
    HaltsTogether(s.trace, s1.trace, t.trace, r == None);
    SinceStart(s.files, s.trace, s1.trace, t.files, t.trace);
    forall node | node in targets && r.Some?
      ensures Tried(s.trace, t.trace, AccessKeyPath(node))
    {
      TriedAmong(s.trace, s1.trace, t.trace, t.trace, AccessKeyPath(node));
    }
  }

  /** And the watcher's turn, which comes last. */
  lemma WatcherIsLast(s: State, s1: State, ok: bool, s2: State, minted: Outcome, t: State, nodes: seq<string>,
                      watcherOnly: bool, rotate: bool)
    requires s1 == s.(weather := s1.weather, trace := s1.trace) && Halts(s.trace, s1.trace, false)
    requires var targets := TargetsOf(nodes, None, watcherOnly);
             TurnsDid(s1, Some(ok), s2, targets, |targets|, rotate)
    requires WatcherDid(s2, minted, t, rotate)
    ensures var r := if minted == Raised then None else if minted == Failed then Some(false) else Some(ok);
            && AllDid(s, r, t, rotate)
            && (r.Some? ==> EveryoneTried(s, t, nodes, None, watcherOnly))
            && (r == Some(true) && Placed(s.files) ==> EveryoneEquipped(t, nodes, None, watcherOnly))
  {
    TurnsAreAll(s, s1, Some(ok), s2, nodes, None, watcherOnly, rotate);
    HaltsTogether(s.trace, s2.trace, t.trace, minted == Raised);
    WatcherKeepsAll(s.files, s.trace, s2.files, s2.trace, t.files, t.trace);
    TriedAmong(s.trace, s2.trace, t.trace, t.trace, WATCHER_ACCESS_KEY_PATH);
    forall node | node in TargetsOf(nodes, None, watcherOnly)
      ensures Tried(s.trace, t.trace, AccessKeyPath(node))
    {
      TriedAmong(s.trace, s.trace, s2.trace, t.trace, AccessKeyPath(node));
    }
  }

  // ---------------------------------------------------------------- whose own calls do not fail

  lemma EnsureTwin(s: State, node: string, password: string)
    ensures Twin(s, Ensure(s, node, password), Ensure(Calm(s), node, password))
  {
    var path := ResticPasswordPath(node);
    ShowTwin(s, path);
    var (read, s1) := ShowStep(s, path);
    if read == Got(None) {
      WriteTwin(s1, "common", map[path := Text(password)]);
      ShorterTwice(s, s1, WriteStep(s1, "common", map[path := Text(password)]).1);
    }
  }

  lemma TurnTwin(s: State, granted: Grant, node: string, otherBucket: string, rotate: bool, password: string)
    ensures Twin(s, NodeTurn(s, granted, node, otherBucket, rotate, password),
                 NodeTurn(Calm(s), granted, node, otherBucket, rotate, password))
  {
    MintTwin(s, granted, PairJob(node, otherBucket, rotate));
    var mint := Mint(s, granted, PairJob(node, otherBucket, rotate));
    HalvesTwin(s, mint, Mint(Calm(s), granted, PairJob(node, otherBucket, rotate)), node, password);
  }

  lemma HalvesTwin(s: State, mint: (Outcome, State), calm: (Outcome, State), node: string, password: string)
    requires Twin(s, mint, calm)
    ensures Twin(s, RestOfTurn(mint, node, password), RestOfTurn(calm, node, password))
  {
    if mint.0 != Failed && mint.0 != Raised {
      EnsureTwin(mint.1, node, password);
      ShorterTwice(s, mint.1, Ensure(mint.1, node, password).1);
    }
  }

  /** With nothing to fail, scopes granted as asked and no rotation, a turn succeeds. */
  lemma CalmTurn(s: State, granted: Grant, node: string, otherBucket: string, password: string)
    requires Sound(s) && s.weather == [] && otherBucket != NodeBucket(node) && password != ""
    requires forall n, asked :: granted(n, asked) == asked
    ensures NodeTurn(s, granted, node, otherBucket, false, password).0 == Some(true)
  {
    var job := PairJob(node, otherBucket, false);
    SmoothMint(s, granted, job);
    EnsureSends(Mint(s, granted, job).1, node, password);
  }

  lemma TurnSucceeds(s: State, granted: Grant, node: string, otherBucket: string, password: string)
    requires Sound(s) && otherBucket != NodeBucket(node) && password != ""
    requires forall n, asked :: granted(n, asked) == asked
    requires AllClear(s, NodeTurn(s, granted, node, otherBucket, false, password).1)
    ensures NodeTurn(s, granted, node, otherBucket, false, password).0 == Some(true)
  {
    TurnTwin(s, granted, node, otherBucket, false, password);
    CalmTurn(Calm(s), granted, node, otherBucket, password);
  }

  lemma OneMoreStays(s: State, turn: Turner, targets: seq<string>, i: nat, n: nat, r: Option<bool>, s1: State)
    returns (later: Option<bool>, t: State)
    requires i < n < |targets| && Distinct(targets) && TakesTurns(turn, targets, false)
    requires Turns(s, turn, n) == (r, s1) && Sound(s1) && Equipped(s1.files, targets[i])
    ensures Turns(s, turn, n + 1) == (later, t) && Sound(t) && Equipped(t.files, targets[i])
  {
    if r == None {
      later, t := None, s1;
    } else {
      var done;
      done, t := OneTurn(s1, turn, targets, n, false);
      TurnsNext(s, turn, n, r.value, s1, done, t);
      EquippedStays(s1.files, t.files, targets[i], targets[n]);
      later := if done == None then None else Some(r.value && done.value);
    }
  }

  /** What a node has after its turn it has after every later one. */
  lemma {:induction false} StaysEquipped(s: State, turn: Turner, targets: seq<string>, i: nat, from: nat, n: nat,
                                         r: Option<bool>, s1: State)
    returns (later: Option<bool>, t: State)
    requires i < from <= n <= |targets| && Distinct(targets) && TakesTurns(turn, targets, false)
    requires Turns(s, turn, from) == (r, s1) && Sound(s1) && Equipped(s1.files, targets[i])
    ensures Turns(s, turn, n) == (later, t) && Sound(t) && Equipped(t.files, targets[i])
  {
    if n == from {
      later, t := r, s1;
    } else {
      later, t := StaysEquipped(s, turn, targets, i, from, n - 1, r, s1);
      later, t := OneMoreStays(s, turn, targets, i, n - 1, later, t);
    }
  }

  lemma StaysFromItsTurn(s: State, turn: Turner, targets: seq<string>, i: nat, ok: bool, before: State)
    requires i < |targets| && Distinct(targets) && TakesTurns(turn, targets, false)
    requires Turns(s, turn, i) == (Some(ok), before) && Sound(before) && Placed(before.files)
    requires turn(before, i).0 == Some(true)
    ensures Equipped(Turns(s, turn, |targets|).1.files, targets[i])
  {
    var done, after := OneTurn(before, turn, targets, i, false);
    TurnsNext(s, turn, i, ok, before, done, after);
    var _, _ := StaysEquipped(s, turn, targets, i, i + 1, |targets|, Some(ok), after);
  }

  /** A node whose turn succeeded has its pair and its password at the end, whatever became of the others. */
  lemma SuccessStays(s: State, turn: Turner, targets: seq<string>, i: nat)
    requires i < |targets| && Distinct(targets) && Sound(s) && Placed(s.files) && TakesTurns(turn, targets, false)
    requires Turns(s, turn, |targets|).0.Some? && turn(Turns(s, turn, i).1, i).0 == Some(true)
    ensures Equipped(Turns(s, turn, |targets|).1.files, targets[i])
  {
    var r, before := TurnsMean(s, turn, targets, i, false);
    if r == None {
      TurnsStop(s, turn, i, |targets|);
      assert false;
    }
    StaysFromItsTurn(s, turn, targets, i, r.value, before);
  }

  /**
   * So a node none of whose own calls fails has them at the end, whatever became of the others, when scopes
   * are granted as asked and no rotation is; `before` is the state its turn starts from.
   */
  lemma OthersDoNotMatter(s: State, granted: Grant, nodes: seq<string>, targets: seq<string>, i: nat, legacy: string,
                          passwords: nat -> string, turn: Turner, before: State)
    requires i < |targets| && Distinct(targets) && Sound(s) && Placed(s.files) && forall k :: passwords(k) != ""
    requires (forall n, asked :: granted(n, asked) == asked) && legacy != NodeBucket(targets[i])
    requires GivesTurns(turn, granted, nodes, targets, legacy, false, passwords)
    requires Turns(s, turn, |targets|).0.Some? && before == Turns(s, turn, i).1
    requires AllClear(before, NodeTurn(before, granted, targets[i], OtherBucket(nodes, targets[i], legacy), false,
                                       passwords(i)).1)
    ensures Equipped(Turns(s, turn, |targets|).1.files, targets[i])
  {
    TurnsAreTaken(granted, nodes, targets, legacy, false, passwords, turn);
    var _, _ := TurnsMean(s, turn, targets, i, false);
    if Turns(s, turn, i).0 == None {
      TurnsStop(s, turn, i, |targets|);
      assert false;
    }
    TurnSucceeds(before, granted, targets[i], OtherBucket(nodes, targets[i], legacy), passwords(i));
    SuccessStays(s, turn, targets, i);
  }

  // ---------------------------------------------------------------- when no call fails at all

  lemma {:induction false} CalmTurns(s: State, turn: Turner, targets: seq<string>, n: nat)
    returns (t: State)
    requires n <= |targets| && Sound(s) && s.weather == [] && TakesTurns(turn, targets, false)
    requires forall x: State, k: nat {:trigger turn(x, k)} ::
      Sound(x) && x.weather == [] && k < |targets| ==> turn(x, k).0 == Some(true)
    ensures Turns(s, turn, n) == (Some(true), t) && Sound(t) && t.weather == []
  {
    if n == 0 {
      t := s;
    } else {
      var s1 := CalmTurns(s, turn, targets, n - 1);
      var done;
      done, t := OneTurn(s1, turn, targets, n - 1, false);
      TurnsNext(s, turn, n - 1, true, s1, done, t);
    }
  }

  /**
   * When no call fails, scopes are granted as asked and nothing is replaced, everything asked for is minted,
   * if the minter's token is there and no bucket that must be refused is among those to be read.
   */
  lemma CalmAll(s: State, granted: Grant, nodes: seq<string>, only: Option<string>, watcherOnly: bool, r2: Settings,
                outside: string, passwords: nat -> string)
    requires Sound(s) && Distinct(nodes) && s.weather == [] && forall k :: passwords(k) != ""
    requires forall n, asked :: granted(n, asked) == asked
    requires MakesSense(nodes, only, watcherOnly, r2, outside) && Shown(s.files, MINTER_KEY).Some?
    requires forall node :: node in nodes ==> r2.bucket.value != NodeBucket(node)
    requires only == None ==> outside !in NodeBuckets(nodes) + [r2.bucket.value]
    ensures All(s, granted, nodes, only, watcherOnly, r2, outside, false, passwords).0 == Some(true)
  {
    var s1 := PreflightStep(s, nodes, only, watcherOnly, r2, outside).1;
    PreflightMeans(s, nodes, only, watcherOnly, r2, outside);
    var targets := TargetsOf(nodes, only, watcherOnly);
    var turn := TurnOf(granted, nodes, targets, r2.bucket.value, false, passwords);
    TurnsAreTaken(granted, nodes, targets, r2.bucket.value, false, passwords, turn);
    forall x: State, k: nat | Sound(x) && x.weather == [] && k < |targets|
      ensures turn(x, k).0 == Some(true)
    {
      CalmTurn(x, granted, targets[k], OtherBucket(nodes, targets[k], r2.bucket.value), passwords(k));
    }
    CalmGoOn(s1, granted, nodes, only, watcherOnly, r2.bucket.value, outside, turn);
  }

  lemma CalmGoOn(s: State, granted: Grant, nodes: seq<string>, only: Option<string>, watcherOnly: bool, legacy: string,
                 outside: string, turn: Turner)
    requires Sound(s) && s.weather == [] && TakesTurns(turn, TargetsOf(nodes, only, watcherOnly), false)
    requires forall n, asked :: granted(n, asked) == asked
    requires only == None ==> outside !in NodeBuckets(nodes) + [legacy]
    requires forall x: State, k: nat {:trigger turn(x, k)} ::
      Sound(x) && x.weather == [] && k < |TargetsOf(nodes, only, watcherOnly)| ==> turn(x, k).0 == Some(true)
    ensures GoOn(s, granted, nodes, only, watcherOnly, legacy, outside, false, turn).0 == Some(true)
  {
    var targets := TargetsOf(nodes, only, watcherOnly);
    var s1 := CalmTurns(s, turn, targets, |targets|);
    SmoothMint(s1, granted, WatcherJob(nodes, legacy, outside, false));
  }
}
