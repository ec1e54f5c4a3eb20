/**
 * Minting one R2 token: toolkit/features/backup_node_credentials.py, _scope_error and _mint_token.
 * A token is created, proved by consequence to reach its buckets and no other, stored in SOPS, and
 * only then may the token it replaces be deleted. Every call may come out in any way, the reads of
 * SOPS included: there a file that cannot be opened reads as one without the key.
 */
module TokenMint {
  import opened Prelude
  import opened World

  const SCOPE_ATTEMPTS := 4

  // ---------------------------------------------------------------- paths and files

  function AccessKeyPath(node: string): string {
    "backup.r2.nodes." + node + ".access_key_id"
  }

  function SecretKeyPath(node: string): string {
    "backup.r2.nodes." + node + ".secret_access_key"
  }

  function ResticPasswordPath(node: string): string {
    "backup.nodes." + node + ".restic_password"
  }

  const WATCHER_ACCESS_KEY_PATH := "backup.r2.watcher.access_key_id"
  const WATCHER_SECRET_KEY_PATH := "backup.r2.watcher.secret_access_key"

  /** The SOPS file a minted key goes to; any other path is a ValueError. */
  function SopsFileFor(path: string): Option<string> {
    if "backup.r2.nodes." <= path then Some("prod")
    else if "backup.nodes." <= path || "backup.r2.watcher." <= path then Some("common")
    else None
  }

  function NodeBucket(node: string): string {
    "kubelab-backup-" + node
  }

  // ---------------------------------------------------------------- the scope of a new token

  datatype Problem =
    | CannotList(bucket: string)  // one it was minted for
    | Reaches                     // the one it must not reach
    | Unproven                    // the listing of that one failed without AccessDenied

  /** `Broken`: a listing raised, a time-out or a missing CLI, and nothing here handles it. */
  datatype Verdict = Passed | Refused(problem: Problem) | Broken

  /** Up to `left` listings of one bucket, until one works or raises. */
  function TryList(s: State, id: Value, bucket: string, left: nat): (Listing, State)
    decreases left
  {
    var (listing, s1) := ListStep(s, id, bucket);
    if listing == Listed || listing == ListRaised || left <= 1 then (listing, s1)
    else TryList(s1, id, bucket, left - 1)
  }

  /** The check by consequence, from the i-th bucket on. */
  function Scope(s: State, id: Value, readable: seq<string>, refused: string, i: nat): (Verdict, State)
    requires i <= |readable|
    decreases |readable| - i
  {
    if i < |readable| then
      var (listing, s1) := TryList(s, id, readable[i], SCOPE_ATTEMPTS);
      if listing == Listed then Scope(s1, id, readable, refused, i + 1)
      else (if listing == ListRaised then Broken else Refused(CannotList(readable[i])), s1)
    else
      var (listing, s1) := ListStep(s, id, refused);
      (match listing
       case Listed => Refused(Reaches)
       case ListError => Refused(Unproven)
       case Denied => Passed
       case ListRaised => Broken, s1)
  }

  /** One bucket's listings, with a sleep between two. */
  method TryBucket(w: World, id: Value, bucket: string) returns (listing: Listing, ghost sleeps: nat)
    modifies w`weather, w`trace, w`settled
    ensures (listing, w.Full()) == TryList(old(w.Full()), id, bucket, SCOPE_ATTEMPTS)
    ensures |w.trace| == |old(w.trace)| + sleeps + 1 && sleeps < 4
    ensures listing != Listed && listing != ListRaised ==> sleeps == 3
  {
    sleeps := 0;
    listing := w.ListBucket(id, bucket);
    var attempt := 1;
    while attempt < SCOPE_ATTEMPTS && listing != Listed && listing != ListRaised
      invariant 1 <= attempt <= SCOPE_ATTEMPTS && sleeps == attempt - 1 && |w.trace| == |old(w.trace)| + attempt
      invariant TryList(old(w.Full()), id, bucket, SCOPE_ATTEMPTS)
                == if listing == Listed || listing == ListRaised || attempt == SCOPE_ATTEMPTS then (listing, w.Full())
                   else TryList(w.Full(), id, bucket, SCOPE_ATTEMPTS - attempt)
    {
      sleeps := sleeps + 1;
      listing := w.ListBucket(id, bucket);
      attempt := attempt + 1;
    }
  }

  method ScopeError(w: World, id: Value, readable: seq<string>, refused: string) returns (verdict: Verdict)
    modifies w`weather, w`trace, w`settled
    ensures (verdict, w.Full()) == Scope(old(w.Full()), id, readable, refused, 0)
  {
    for i := 0 to |readable|
      invariant Scope(old(w.Full()), id, readable, refused, 0) == Scope(w.Full(), id, readable, refused, i)
    {
      var listing, _ := TryBucket(w, id, readable[i]);
      if listing != Listed {
        return if listing == ListRaised then Broken else Refused(CannotList(readable[i]));
      }
    }
    var listing := w.ListBucket(id, refused);
    verdict := match listing
      case Listed => Refused(Reaches)
      case ListError => Refused(Unproven)
      case Denied => Passed
      case ListRaised => Broken;
  }

  /** The token reaches every bucket of `readable`, and not `refused`. */
  ghost predicate Proven(scope: set<string>, readable: seq<string>, refused: string) {
    (forall bucket :: bucket in readable ==> bucket in scope) && refused !in scope
  }

  /**
   * At least one listing with this token was sent from `s` to `t`, and nothing else; none but perhaps
   * the last one raised. They change nothing but whether R2 has heard of the token.
   */
  ghost predicate OnlyListed(s: State, t: State, id: Value) {
    && |s.trace| < |t.trace| && s.trace <= t.trace
    && (forall k :: |s.trace| <= k < |t.trace| ==> t.trace[k].BucketListed? && t.trace[k].id == id)
    && (forall k :: |s.trace| <= k < |t.trace| - 1 ==> t.trace[k].listing != ListRaised)
    && t.tokens == s.tokens && t.files == s.files && t.nextId == s.nextId
    && s.settled <= t.settled <= s.settled + {id}
    && (s.weather == [] ==> t.weather == [])
  }

  function Last(s: State): Event
    requires s.trace != []
  {
    s.trace[|s.trace| - 1]
  }

  lemma OnlyListedTwice(s: State, u: State, t: State, id: Value)
    requires OnlyListed(s, u, id) && OnlyListed(u, t, id) && Last(u).listing != ListRaised
    ensures OnlyListed(s, t, id)
  {
    forall k | |s.trace| <= k < |u.trace|
      ensures t.trace[k] == u.trace[k] && t.trace[k].BucketListed? && t.trace[k].listing != ListRaised
    {
    }
  }

  lemma ListStepMeans(s: State, id: Value, bucket: string)
    requires id in s.tokens
    ensures var (listing, t) := ListStep(s, id, bucket);
            && OnlyListed(s, t, id) && Last(t) == BucketListed(id, bucket, listing)
            && (listing == Listed ==> bucket in s.tokens[id] && id in t.settled)
            && (listing == Denied && id in s.settled ==> bucket !in s.tokens[id])
            && (s.weather == [] ==> listing == if bucket in s.tokens[id] then Listed else Denied)
  {
  }

  lemma {:induction false} TryListMeans(s: State, id: Value, bucket: string, left: nat)
    requires id in s.tokens
    ensures var (listing, t) := TryList(s, id, bucket, left);
            && OnlyListed(s, t, id) && Last(t) == BucketListed(id, bucket, listing)
            && (listing == Listed ==> bucket in s.tokens[id] && id in t.settled)
            && (listing != Listed && listing != ListRaised ==> |t.trace| >= |s.trace| + left)
            && (s.weather == [] ==> listing != ListRaised && (listing == Listed <==> bucket in s.tokens[id]))
    decreases left
  {
    ListStepMeans(s, id, bucket);
    var (listing, s1) := ListStep(s, id, bucket);
    if !(listing == Listed || listing == ListRaised || left <= 1) {
      TryListMeans(s1, id, bucket, left - 1);
      OnlyListedTwice(s, s1, TryList(s1, id, bucket, left - 1).1, id);
    }
  }

  /**
   * What each verdict means, from the i-th bucket on. It passes only if the token reaches every bucket
   * it was minted for and not the other: a new token R2 has not heard of is denied everything, so the
   * denial counts because a listing came before it. The verdict is `Broken` exactly if a listing raised.
   */
  ghost predicate Verifies(s: State, t: State, id: Value, readable: seq<string>, refused: string, v: Verdict, i: nat)
    requires id in s.tokens
  {
    && OnlyListed(s, t, id)
    && (v == Broken <==> Last(t).listing == ListRaised)
    && (v == Passed ==> Last(t) == BucketListed(id, refused, Denied))
    && (v == Refused(Reaches) <==> Last(t).listing == Listed) && (v == Refused(Reaches) ==> refused in s.tokens[id])
    && (v == Refused(Unproven) ==> Last(t) == BucketListed(id, refused, ListError))
    && (v.Refused? && v.problem.CannotList? ==>
          v.problem.bucket in readable && |t.trace| >= |s.trace| + 4)
    && (v == Passed && (i > 0 || readable != []) ==> Proven(s.tokens[id], readable, refused))
    && (s.weather == [] ==> v != Broken && (v == Passed <==> Proven(s.tokens[id], readable, refused)))
  }

  lemma LastListingMeans(s: State, id: Value, readable: seq<string>, refused: string)
    requires id in s.tokens && (readable != [] ==> id in s.settled)
    requires forall bucket :: bucket in readable ==> bucket in s.tokens[id]
    ensures var (v, t) := Scope(s, id, readable, refused, |readable|);
            Verifies(s, t, id, readable, refused, v, |readable|)
  {
    ListStepMeans(s, id, refused);
  }

  lemma {:induction false} ScopeMeans(s: State, id: Value, readable: seq<string>, refused: string, i: nat)
    requires i <= |readable| && id in s.tokens
    requires i > 0 ==> id in s.settled
    requires forall j :: 0 <= j < i ==> readable[j] in s.tokens[id]
    ensures var (v, t) := Scope(s, id, readable, refused, i);
            Verifies(s, t, id, readable, refused, v, i)
    decreases |readable| - i
  {
    if i == |readable| {
      LastListingMeans(s, id, readable, refused);
    } else {
      TryListMeans(s, id, readable[i], SCOPE_ATTEMPTS);
      var (listing, s1) := TryList(s, id, readable[i], SCOPE_ATTEMPTS);
      assert readable[i] in readable;
      if listing == Listed {
        ScopeMeans(s1, id, readable, refused, i + 1);
        OnlyListedTwice(s, s1, Scope(s1, id, readable, refused, i + 1).1, id);
      }
    }
  }

  // ---------------------------------------------------------------- one token

  /** `Raised`: an exception that is no MintError left the function, wherever it was. */
  datatype Outcome = Kept | Minted | Rotated | Failed | Raised

  /** One pair's two keys and the file they are written to. */
  datatype Pair = Pair(file: string, access: string, secret: string)

  /** One mint: the pair to fill, the buckets its token must list, one it must not, and whether to replace. */
  datatype Job = Job(pair: Pair, readable: seq<string>, refused: string, rotate: bool)

  function PairOf(id: nat, pair: Pair): Keys {
    map[pair.access := Id(id), pair.secret := SecretOf(id)]
  }

  predicate HasPair(files: Files, pair: Pair) {
    Shown(files, pair.access).Some? && Shown(files, pair.secret).Some?
  }

  /** `files` with the pair of token `id` written. */
  function Written(files: Files, pair: Pair, id: nat): Files {
    Merged(files, pair.file, PairOf(id, pair))
  }

  /** The buckets a token is asked for. */
  function Asked(readable: seq<string>): set<string> {
    set bucket | bucket in readable
  }

  /** The new token's DELETE, after a refusal; it ends in a MintError unless it raises another kind. */
  function Undo(s: State, id: nat): (Outcome, State) {
    var (reply, t) := DeleteStep(s, Id(id));
    (if reply == Uncaught then Raised else Failed, t)
  }

  /** The replaced token's DELETE, when a rotation was asked for. */
  function Replace(s: State, oldId: Option<Value>, rotate: bool): (Outcome, State) {
    if rotate && oldId.Some? then
      var (reply, t) := DeleteStep(s, oldId.value);
      (if reply == Done then Rotated else if reply == Uncaught then Raised else Failed, t)
    else (Minted, s)
  }

  /** From the end of the check on: the write, and the DELETE that may follow. */
  function Finish(s: State, verdict: Verdict, id: nat, pair: Pair, oldId: Option<Value>, rotate: bool)
    : (Outcome, State)
  {
    match verdict
    case Broken => (Raised, s)
    case Refused(_) => Undo(s, id)
    case Passed =>
      var (told, t) := WriteStep(s, pair.file, PairOf(id, pair));
      match told
      case Yes => Replace(t, oldId, rotate)
      case No => Undo(t, id)
      case Thrown => (Raised, t)
  }

  /** What the two reads of a pair say: whole, or lacking a key, with the id if that was read. */
  datatype Looked = Whole(id: Value) | Lacks(oldId: Option<Value>) | LookRaised

  /** The id first; the secret only when there is an id. */
  function Look(s: State, pair: Pair): (Looked, State) {
    var (first, s1) := ShowStep(s, pair.access);
    if first.ReadRaised? then (LookRaised, s1)
    else if first.value == None then (Lacks(None), s1)
    else
      var (second, s2) := ShowStep(s1, pair.secret);
      (if second.ReadRaised? then LookRaised
       else if second.value.Some? then Whole(first.value.value) else Lacks(first.value), s2)
  }

  function OldId(look: Looked): Option<Value> {
    match look
    case Whole(id) => Some(id)
    case Lacks(oldId) => oldId
    case LookRaised => None
  }

  /** Nothing to do, or nothing that can be known. */
  predicate Ends(look: Looked, rotate: bool) {
    look.LookRaised? || (look.Whole? && !rotate)
  }

  /** Mint, verify, store, and with `rotate` revoke what was replaced. */
  function Mint(s: State, granted: Grant, job: Job): (Outcome, State) {
    var (look, s1) := Look(s, job.pair);
    if Ends(look, job.rotate) then (if look.LookRaised? then Raised else Kept, s1)
    else MintOver(s1, granted, job, OldId(look))
  }

  /** The mint once it is decided: `oldId` is what was read of the token to replace. */
  function MintOver(s: State, granted: Grant, job: Job, oldId: Option<Value>): (Outcome, State) {
    var (grouped, s1) := GroupStep(s);
    if grouped != Yes then (if grouped == Thrown then Raised else Failed, s1)
    else
      var (told, s2) := CreateStep(s1, granted, Asked(job.readable));
      if told != Yes then (if told == Thrown then Raised else Failed, s2)
      else
        var (verdict, s3) := Scope(s2, Id(s.nextId), job.readable, job.refused, 0);
        Finish(s3, verdict, s.nextId, job.pair, oldId, job.rotate)
  }

  method LookUp(w: World, pair: Pair) returns (look: Looked)
    modifies w`weather, w`trace
    ensures (look, w.Full()) == Look(old(w.Full()), pair)
  {
    var first := w.ShowKey(pair.access);
    if first.ReadRaised? {
      return LookRaised;
    }
    if first.value == None {
      return Lacks(None);
    }
    var second := w.ShowKey(pair.secret);
    look := if second.ReadRaised? then LookRaised
    else if second.value.Some? then Whole(first.value.value) else Lacks(first.value);
  }

  method MintToken(w: World, job: Job) returns (r: Outcome)
    modifies w`weather, w`trace, w`tokens, w`settled, w`nextId, w`files
    ensures (r, w.Full()) == Mint(old(w.Full()), w.granted, job)
  {
    var look := LookUp(w, job.pair);
    if look.LookRaised? {
      return Raised;
    }
    if look.Whole? && !job.rotate {
      return Kept;
    }
    var oldId := OldId(look);
    r := MintAndStore(w, job, oldId);
  }

  method MintAndStore(w: World, job: Job, oldId: Option<Value>) returns (r: Outcome)
    modifies w`weather, w`trace, w`tokens, w`settled, w`nextId, w`files
    ensures (r, w.Full()) == MintOver(old(w.Full()), w.granted, job, oldId)
  {
    var told := w.FindGroup();
    if told != Yes {
      return if told == Thrown then Raised else Failed;
    }
    var id;
    told, id := w.CreateToken(Asked(job.readable));
    if told != Yes {
      return if told == Thrown then Raised else Failed;
    }
    var verdict := ScopeError(w, Id(id), job.readable, job.refused);
    if verdict == Broken {
      return Raised;
    }
    var stored := No;
    if verdict == Passed {
      stored := w.WriteKeys(job.pair.file, PairOf(id, job.pair));
    }
    if stored == Thrown {
      return Raised;
    }
    if stored == No {
      var undone := w.DeleteToken(Id(id));
      return if undone == Uncaught then Raised else Failed;
    }
    if job.rotate && oldId.Some? {
      var reply := w.DeleteToken(oldId.value);
      return if reply == Done then Rotated else if reply == Uncaught then Raised else Failed;
    }
    r := Minted;
  }
}
