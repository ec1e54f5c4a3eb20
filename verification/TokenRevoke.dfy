/**
 * Retiring an R2 pair: toolkit/features/backup_token_revoke.py.
 * The id of a live token is written nowhere but in SOPS, so it may be unset only once the account
 * no longer knows the token. The command is a function from state to state, which its methods compute;
 * `RevokeRuns` is about that function.
 */
module TokenRevoke {
  import opened Prelude
  import opened World

  /** The SOPS files a pair can live in. */
  const SOPS_FILES: seq<string> := ["common", "staging", "prod"]

  // ---------------------------------------------------------------- the two key paths

  predicate EndsWith(s: string, c: char) {
    s != "" && s[|s| - 1] == c
  }

  /** The Access Key ID's path (which is the token id) and the Secret Access Key's. */
  function PairPaths(prefix: string): (string, string) {
    var sep := if EndsWith(prefix, '_') || EndsWith(prefix, '.') then "" else ".";
    (prefix + sep + "access_key_id", prefix + sep + "secret_access_key")
  }

  function Bare(prefix: string): (bare: string)
    ensures bare <= prefix
    ensures !EndsWith(bare, '.') && !EndsWith(bare, '_')
  {
    if EndsWith(prefix, '.') || EndsWith(prefix, '_') then Bare(prefix[..|prefix| - 1]) else prefix
  }

  function OtherSpelling(prefix: string): string {
    if EndsWith(prefix, '_') then Bare(prefix) else Bare(prefix) + "_"
  }

  lemma PathsDiffer(prefix: string)
    ensures PairPaths(prefix).0 != PairPaths(prefix).1
  {
  }

  /** A name proper: its last character, if it has one, is neither of the two that are stripped. */
  predicate IsName(name: string) {
    name != "" ==> name[|name| - 1] != '.' && name[|name| - 1] != '_'
  }

  /** What may follow it in a prefix: any run of the two. */
  predicate IsTail(tail: string) {
    forall k :: 0 <= k < |tail| ==> tail[k] == '.' || tail[k] == '_'
  }

  lemma {:induction false} BareOf(name: string, tail: string)
    requires IsName(name) && IsTail(tail)
    ensures Bare(name + tail) == name
  {
    if tail == "" {
      assert name + tail == name;
    } else {
      assert (name + tail)[..|name + tail| - 1] == name + tail[..|tail| - 1];
      BareOf(name, tail[..|tail| - 1]);
    }
  }

  /** Every prefix is a name and such a run, so the next lemmas are about every prefix. */
  lemma {:induction false} EveryPrefixIsOne(prefix: string) returns (name: string, tail: string)
    ensures prefix == name + tail && IsName(name) && IsTail(tail)
  {
    if IsName(prefix) {
      name, tail := prefix, "";
    } else {
      name, tail := EveryPrefixIsOne(prefix[..|prefix| - 1]);
      tail := tail + [prefix[|prefix| - 1]];
      assert name + tail == prefix;
    }
  }

  /** The other spelling of a name and a run: the bare name if the run ends in `_`, else the name and `_`. */
  lemma OtherSpellingIs(name: string, tail: string)
    requires IsName(name) && IsTail(tail)
    ensures OtherSpelling(name + tail) == if tail != "" && tail[|tail| - 1] == '_' then name else name + "_"
  {
    BareOf(name, tail);
    if tail == "" {
      assert name + tail == name;
    } else {
      assert (name + tail)[|name + tail| - 1] == tail[|tail| - 1];
    }
  }

  /** Where a pair is: a dot between the name and the key, unless the prefix brings a run of its own. */
  lemma PairPathsAre(name: string, tail: string)
    requires IsName(name) && IsTail(tail)
    ensures PairPaths(name + tail).0 == name + (if tail == "" then "." else tail) + "access_key_id"
    ensures PairPaths(name + tail).1 == name + (if tail == "" then "." else tail) + "secret_access_key"
  {
    if tail == "" {
      assert name + tail == name;
    } else {
      assert (name + tail)[|name + tail| - 1] == tail[|tail| - 1];
      assert name + tail + "" == name + tail;
    }
  }

  /** The two spellings of a name are each other's other spelling. */
  lemma SpellingsSwap(name: string)
    requires IsName(name)
    ensures OtherSpelling(name) == name + "_" && OtherSpelling(name + "_") == name
    ensures OtherSpelling(name + ".") == name + "_"
  {
    OtherSpellingIs(name, "");
    OtherSpellingIs(name, "_");
    OtherSpellingIs(name, ".");
    assert name + "" == name;
  }

  /** They name four different paths, so looking for both finds the pair however it was written down. */
  lemma SpellingsDiffer(name: string)
    requires IsName(name)
    ensures PairPaths(name).0 != PairPaths(name + "_").0 && PairPaths(name).1 != PairPaths(name + "_").1
  {
    var bare, under := PairPaths(name), PairPaths(name + "_");
    assert under.0[|name|] == '_' && bare.0[|name|] == '.';
    assert under.1[|name|] == '_' && bare.1[|name|] == '.';
  }

  // ---------------------------------------------------------------- what the files hold

  /** The files among `envs` that hold `path`, in order. */
  function Holding(files: Files, path: string, envs: seq<string> := SOPS_FILES): (r: seq<string>)
    ensures forall env :: env in r <==> env in envs && Show(files, env, path).Some?
  {
    if envs == [] then []
    else
      var rest := Holding(files, path, envs[1..]);
      if Show(files, envs[0], path).Some? then [envs[0]] + rest else rest
  }

  lemma HoldingNone(files: Files, path: string, envs: seq<string>)
    requires forall env :: env in envs ==> Show(files, env, path) == None
    ensures Holding(files, path, envs) == []
  {
  }

  lemma HoldingSame(files: Files, data: Files, path: string, envs: seq<string>)
    requires forall env :: env in envs ==> Show(files, env, path) == Show(data, env, path)
    ensures Holding(files, path, envs) == Holding(data, path, envs)
  {
  }

  lemma HoldingDistinct(files: Files, path: string, envs: seq<string>)
    requires Distinct(envs)
    ensures Distinct(Holding(files, path, envs))
  {
  }

  lemma HoldingIsThere(files: Files, path: string)
    ensures forall env :: env in Holding(files, path) ==> env in files && path in files[env]
  {
  }

  predicate Held(files: Files, path: string) {
    Holding(files, path) != []
  }

  /** A nonempty value stands at `path` in one of the three files. */
  ghost predicate Stands(files: Files, path: string) {
    StandsIn(files, "common", path) || StandsIn(files, "staging", path) || StandsIn(files, "prod", path)
  }

  predicate StandsIn(files: Files, env: string, path: string) {
    env in files && path in files[env] && files[env][path] != Text("")
  }

  lemma HeldIffStands(files: Files, path: string)
    ensures Held(files, path) <==> Stands(files, path)
  {
    forall env
      ensures env in SOPS_FILES <==> env == "common" || env == "staging" || env == "prod"
      ensures env in Holding(files, path) <==> env in SOPS_FILES && StandsIn(files, env, path)
    {
      assert SOPS_FILES[0] in SOPS_FILES && SOPS_FILES[1] in SOPS_FILES && SOPS_FILES[2] in SOPS_FILES;
    }
    SomeMember(Holding(files, path));
  }

  /** Every file holding the id holds the same one. */
  ghost predicate Agreed(files: Files, access: string, id: Value) {
    Held(files, access) && forall env :: env in Holding(files, access) ==> Show(files, env, access) == Some(id)
  }

  // ---------------------------------------------------------------- what a run answers

  datatype Outcome = Absent | Planned | Revoked | Forgotten | Refused(why: Refusal)

  datatype Refusal =
    | Catalogued
    | OtherSpellingHeld
    | IdMissing
    | IdsDiffer
    | ReadFailed
    | TokenUnknown
    | DeleteFailed
    | CheckFailed
    | StillThere
    | UnsetFailed
    | Undecryptable
    | StillInSops

  /** Refused before any request, because of what the files hold. */
  predicate Early(why: Refusal) {
    why == Catalogued || why == OtherSpellingHeld || why == IdMissing || why == IdsDiffer
  }

  /** Refused after a DELETE was sent, with every key still in place. */
  predicate Middle(why: Refusal) {
    why == DeleteFailed || why == CheckFailed || why == StillThere
  }

  /** Refused after the unsets began. */
  predicate Late(why: Refusal) {
    why == UnsetFailed || why == Undecryptable || why == StillInSops
  }

  // ---------------------------------------------------------------- what is judged before any request

  ghost predicate Uncatalogued(catalog: set<string>, prefix: string) {
    PairPaths(prefix).0 !in catalog && PairPaths(prefix).1 !in catalog
  }

  /** Before any request: the answer given without one, or the id to ask the account about. */
  datatype Preflight = Stop(outcome: Outcome) | Ask(id: Value)

  function Judge(files: Files, prefix: string, catalog: set<string>): (r: Preflight)
    ensures r.Ask? ==> Uncatalogued(catalog, prefix) && Agreed(files, PairPaths(prefix).0, r.id)
    ensures r.Stop? ==> r.outcome == Absent || (r.outcome.Refused? && Early(r.outcome.why))
  {
    var (access, secret) := PairPaths(prefix);
    var holdAccess := Holding(files, access);
    if access in catalog || secret in catalog then Stop(Refused(Catalogued))
    else if holdAccess == [] && !Held(files, secret) then
      Stop(if PairHeld(files, OtherSpelling(prefix)) then Refused(OtherSpellingHeld) else Absent)
    else if holdAccess == [] then Stop(Refused(IdMissing))
    else
      var id := Show(files, holdAccess[0], access).value;
      assert holdAccess[0] in holdAccess;
      if forall env | env in holdAccess :: Show(files, env, access) == Some(id) then
        Ask(id)
      else Stop(Refused(IdsDiffer))
  }

  /**
   * When a run ends without a request, and with which answer: `absent` only when neither spelling of
   * the pair is in any file, and a request only about the one id every file agrees on.
   */
  lemma JudgeMeans(files: Files, prefix: string, catalog: set<string>)
    ensures var r := Judge(files, prefix, catalog);
            var unheld := Uncatalogued(catalog, prefix) && !PairHeld(files, prefix);
            && (r == Stop(Refused(Catalogued)) <==> !Uncatalogued(catalog, prefix))
            && (r == Stop(Absent) <==> unheld && !PairHeld(files, OtherSpelling(prefix)))
            && (r == Stop(Refused(OtherSpellingHeld)) <==> unheld && PairHeld(files, OtherSpelling(prefix)))
            && (r == Stop(Refused(IdMissing)) <==>
                  && Uncatalogued(catalog, prefix)
                  && !Held(files, PairPaths(prefix).0) && Held(files, PairPaths(prefix).1))
            && (r == Stop(Refused(IdsDiffer)) <==>
                  && Uncatalogued(catalog, prefix) && Held(files, PairPaths(prefix).0)
                  && !exists id :: Agreed(files, PairPaths(prefix).0, id))
            && (forall id :: r == Ask(id) <==>
                  Uncatalogued(catalog, prefix) && Agreed(files, PairPaths(prefix).0, id))
  {
  }

  predicate PairHeld(files: Files, prefix: string) {
    Held(files, PairPaths(prefix).0) || Held(files, PairPaths(prefix).1)
  }

  lemma JudgeSame(files: Files, data: Files, prefix: string, catalog: set<string>)
    requires forall env :: env in SOPS_FILES ==>
      (env in data <==> env in files) && (env in data ==> data[env] == files[env])
    ensures Judge(files, prefix, catalog) == Judge(data, prefix, catalog)
  {
    var (access, secret) := PairPaths(prefix);
    var (access', secret') := PairPaths(OtherSpelling(prefix));
    forall path | path in {access, secret, access', secret'}
      ensures Holding(files, path) == Holding(data, path)
    {
      HoldingSame(files, data, path, SOPS_FILES);
    }
    forall env | env in Holding(files, access)
      ensures Show(files, env, access) == Show(data, env, access)
    {
      assert env in SOPS_FILES;
    }
  }

  // ---------------------------------------------------------------- the run

  /** Reads one file. False is the exception raised for a file that cannot be decrypted. */
  function ReadFile(s: State, env: string): (bool, State) {
    if env in s.files then (Opens(Now(s)), Later(s)) else (true, s)
  }

  /** The first `n` files read, up to one that cannot be. */
  function OpenFirst(s: State, n: nat): (bool, State)
    requires n <= |SOPS_FILES|
  {
    if n == 0 then (true, s)
    else
      var (ok, s1) := OpenFirst(s, n - 1);
      if ok then ReadFile(s1, SOPS_FILES[n - 1]) else (false, s1)
  }

  /** One unset, then its file read again: its answer, or None when the file could not be read. */
  function UnsetOne(s: State, env: string, path: string): (Option<bool>, State)
    requires env in s.files
  {
    var (ok, s1) := UnsetStep(s, env, path);
    var (read, s2) := ReadFile(s1, env);
    (if read then Some(ok) else None, s2)
  }

  function Refusing(answer: Option<bool>): Option<Refusal> {
    match answer
    case Some(true) => None
    case Some(false) => Some(UnsetFailed)
    case None => Some(Undecryptable)
  }

  /** `path` unset from the first `n` of `envs`, up to one that fails. */
  function UnsetFirst(s: State, path: string, envs: seq<string>, n: nat): (r: (Option<Refusal>, State))
    requires n <= |envs| && forall env :: env in envs ==> env in s.files
    ensures r.1.files.Keys == s.files.Keys
  {
    if n == 0 then (None, s)
    else
      var (refusal, s1) := UnsetFirst(s, path, envs, n - 1);
      if refusal.Some? then (refusal, s1)
      else
        var (answer, s2) := UnsetOne(s1, envs[n - 1], path);
        (Refusing(answer), s2)
  }

  function UnsetEach(s: State, path: string, envs: seq<string>): (Option<Refusal>, State)
    requires forall env :: env in envs ==> env in s.files
  {
    UnsetFirst(s, path, envs, |envs|)
  }

  /** The forgetting half: the secret from every file, then the id from every file, then a last look. */
  function Forget(s: State, access: string, secret: string): (Option<Refusal>, State) {
    HoldingIsThere(s.files, secret);
    HoldingIsThere(s.files, access);
    var (early, s1) := UnsetEach(s, secret, Holding(s.files, secret));
    if early.Some? then (early, s1)
    else
      var (late, t) := UnsetEach(s1, access, Holding(s.files, access));
      (if late.Some? then late
       else if Held(t.files, access) || Held(t.files, secret) then Some(StillInSops) else None, t)
  }

  /**
   * DELETE, then proof that the account no longer knows the token. Only a proven 404 is no refusal:
   * a DELETE that was reported as done and was not is caught here.
   */
  function Revoke(s: State, id: Value): (Option<Refusal>, State) {
    var (reply, s1) := DeleteStep(s, id);
    if reply != Done then (Some(DeleteFailed), s1)
    else
      var (again, t) := GetStep(s1, id);
      (match again
       case NotFound => None
       case Done => Some(StillThere)
       case _ => Some(CheckFailed), t)
  }

  /** The run from its first request on. */
  function RetireId(s: State, access: string, secret: string, id: Value, apply: bool, forget: bool): (Outcome, State) {
    var (reply, s1) := GetStep(s, id);
    if reply != Done && reply != NotFound then (Refused(ReadFailed), s1)
    else if reply == NotFound && !forget then (Refused(TokenUnknown), s1)
    else if !apply then (Planned, s1)
    else
      var (refusal, s2) := if reply == Done then Revoke(s1, id) else (None, s1);
      if refusal.Some? then (Refused(refusal.value), s2)
      else
        var (late, t) := Forget(s2, access, secret);
        (if late.Some? then Refused(late.value) else if reply == Done then Revoked else Forgotten, t)
  }

  /** The retirement of a pair, from files that could all be read. */
  function RetirePair(s: State, prefix: string, catalog: set<string>, apply: bool, forget: bool): (Outcome, State) {
    match Judge(s.files, prefix, catalog)
    case Stop(outcome) => (outcome, s)
    case Ask(id) => RetireId(s, PairPaths(prefix).0, PairPaths(prefix).1, id, apply, forget)
  }

  /** One command: the files decrypted, then the run. */
  function Retired(s: State, prefix: string, catalog: set<string>, apply: bool, forget: bool): (Outcome, State) {
    var (ok, s1) := OpenFirst(s, |SOPS_FILES|);
    if ok then RetirePair(s1, prefix, catalog, apply, forget) else (Refused(Undecryptable), s1)
  }

  // ---------------------------------------------------------------- the store

  /** Every SOPS file decrypted up front; an unset reads its file again. */
  class SopsPairStore {
    const w: World
    var data: Files

    constructor (w: World)
      ensures this.w == w && data == map[]
    {
      this.w := w;
      data := map[];
    }

    /** What was decrypted is what is on disk. */
    ghost predicate Synced()
      reads this, w
    {
      forall env :: env in SOPS_FILES ==> SyncedAt(env)
    }

    ghost predicate SyncedAt(env: string)
      reads this, w
    {
      (env in data <==> env in w.files) && (env in data ==> data[env] == w.files[env])
    }

    lemma SyncedHolding(path: string)
      requires Synced()
      ensures Holding(data, path) == Holding(w.files, path)
    {
      forall env | env in SOPS_FILES
        ensures Show(w.files, env, path) == Show(data, env, path)
      {
        assert SyncedAt(env);
      }
      HoldingSame(w.files, data, path, SOPS_FILES);
    }

    method Load(env: string) returns (ok: bool)
      modifies this`data, w`weather
      ensures (ok, w.Full()) == ReadFile(old(w.Full()), env)
      ensures forall e :: e != env ==> (SyncedAt(e) <==> old(SyncedAt(e)))
      ensures ok ==> SyncedAt(env)
      ensures !ok ==> data == old(data)
    {
      ok := true;
      if env in w.files {
        ok := w.Decrypt();
      }
      if ok {
        data := if env in w.files then data[env := w.files[env]] else data - {env};
      }
    }

    method Open() returns (ok: bool)
      modifies this`data, w`weather
      ensures (ok, w.Full()) == OpenFirst(old(w.Full()), |SOPS_FILES|)
      ensures ok ==> Synced()
    {
      ok := true;
      for i := 0 to |SOPS_FILES|
        invariant ok && OpenFirst(old(w.Full()), i) == (true, w.Full())
        invariant forall env :: env in SOPS_FILES[..i] ==> SyncedAt(env)
      {
        ok := Load(SOPS_FILES[i]);
        if !ok {
          OpenStops(old(w.Full()), i + 1);
          return;
        }
      }
    }

    /** One unset, then its file read again. */
    method Unset(env: string, path: string) returns (r: Option<bool>)
      requires env in w.files && Synced()
      modifies this`data, w`weather, w`files, w`trace
      ensures (r, w.Full()) == UnsetOne(old(w.Full()), env, path)
      ensures r.Some? ==> Synced()
    {
      var ok := w.UnsetKey(env, path);
      var loaded := Load(env);
      r := if loaded then Some(ok) else None;
    }
  }

  lemma {:induction false} OpenStops(s: State, n: nat)
    requires n <= |SOPS_FILES| && !OpenFirst(s, n).0
    ensures OpenFirst(s, |SOPS_FILES|) == OpenFirst(s, n)
    decreases |SOPS_FILES| - n
  {
    if n < |SOPS_FILES| {
      assert OpenFirst(s, n + 1) == OpenFirst(s, n);
      OpenStops(s, n + 1);
    }
  }

  lemma {:induction false} UnsetStops(s: State, path: string, envs: seq<string>, n: nat)
    requires n <= |envs| && forall env :: env in envs ==> env in s.files
    requires UnsetFirst(s, path, envs, n).0.Some?
    ensures UnsetEach(s, path, envs) == UnsetFirst(s, path, envs, n)
    decreases |envs| - n
  {
    if n < |envs| {
      StopsThere(s, path, envs, n);
      UnsetStops(s, path, envs, n + 1);
    }
  }

  lemma StopsThere(s: State, path: string, envs: seq<string>, n: nat)
    requires n < |envs| && forall env :: env in envs ==> env in s.files
    requires UnsetFirst(s, path, envs, n).0.Some?
    ensures UnsetFirst(s, path, envs, n + 1) == UnsetFirst(s, path, envs, n)
  {
  }

  method UnsetAll(store: SopsPairStore, path: string, envs: seq<string>) returns (refusal: Option<Refusal>)
    requires store.Synced()
    requires forall env :: env in envs ==> env in store.w.files
    modifies store`data, store.w`weather, store.w`files, store.w`trace
    ensures (refusal, store.w.Full()) == UnsetEach(old(store.w.Full()), path, envs)
    ensures refusal == None ==> store.Synced()
  {
    var w := store.w;
    ghost var start := w.Full();
    for i := 0 to |envs|
      invariant w.files.Keys == start.files.Keys
      invariant store.Synced() && UnsetFirst(start, path, envs, i) == (None, w.Full())
    {
      ghost var before := w.Full();
      var answer := store.Unset(envs[i], path);
      UnsetNext(start, path, envs, i, before);
      refusal := Refusing(answer);
      if refusal.Some? {
        UnsetStops(start, path, envs, i + 1);
        return;
      }
    }
    refusal := None;
  }

  lemma UnsetNext(s: State, path: string, envs: seq<string>, n: nat, s1: State)
    requires n < |envs| && forall env :: env in envs ==> env in s.files
    requires UnsetFirst(s, path, envs, n) == (None, s1)
    ensures var (answer, s2) := UnsetOne(s1, envs[n], path);
            UnsetFirst(s, path, envs, n + 1) == (Refusing(answer), s2)
  {
  }

  method ForgetPair(w: World, store: SopsPairStore, access: string, secret: string) returns (refusal: Option<Refusal>)
    requires store.w == w && store.Synced()
    modifies store`data, w`weather, w`files, w`trace
    ensures (refusal, w.Full()) == Forget(old(w.Full()), access, secret)
  {
    var holdAccess, holdSecret := Holding(store.data, access), Holding(store.data, secret);
    store.SyncedHolding(access);
    store.SyncedHolding(secret);
    HoldingIsThere(w.files, secret);
    HoldingIsThere(w.files, access);
    refusal := UnsetAll(store, secret, holdSecret);
    if refusal == None {
      refusal := UnsetAll(store, access, holdAccess);
    }
    if refusal.Some? {
      return;
    }
    store.SyncedHolding(access);
    store.SyncedHolding(secret);
    if Held(store.data, access) || Held(store.data, secret) {
      refusal := Some(StillInSops);
    }
  }

  method RevokeToken(w: World, id: Value) returns (refusal: Option<Refusal>)
    modifies w`weather, w`trace, w`tokens
    ensures (refusal, w.Full()) == Revoke(old(w.Full()), id)
  {
    var reply := w.DeleteToken(id);
    if reply != Done {
      return Some(DeleteFailed);
    }
    reply := w.GetToken(id);
    refusal := match reply
      case NotFound => None
      case Done => Some(StillThere)
      case _ => Some(CheckFailed);
  }

  method RetireToken(w: World, store: SopsPairStore, access: string, secret: string, id: Value, apply: bool,
                     forget: bool)
    returns (r: Outcome)
    requires store.w == w && store.Synced()
    modifies store`data, w`weather, w`trace, w`files, w`tokens
    ensures (r, w.Full()) == RetireId(old(w.Full()), access, secret, id, apply, forget)
  {
    var reply := w.GetToken(id);
    if reply != Done && reply != NotFound {
      return Refused(ReadFailed);
    }
    if reply == NotFound && !forget {
      return Refused(TokenUnknown);
    }
    if !apply {
      return Planned;
    }
    if reply == Done {
      var refusal := RevokeToken(w, id);
      if refusal.Some? {
        return Refused(refusal.value);
      }
    }
    var refusal := ForgetPair(w, store, access, secret);
    r := if refusal.Some? then Refused(refusal.value) else if reply == Done then Revoked else Forgotten;
  }

  /** The retirement itself, on a store that has just been opened. */
  method RevokePair(w: World, store: SopsPairStore, prefix: string, catalog: set<string>, apply: bool, forget: bool)
    returns (r: Outcome)
    requires store.w == w && store.Synced()
    modifies store`data, w`weather, w`trace, w`files, w`tokens
    ensures (r, w.Full()) == RetirePair(old(w.Full()), prefix, catalog, apply, forget)
  {
    var (access, secret) := PairPaths(prefix);
    assert forall env :: env in SOPS_FILES ==> store.SyncedAt(env);
    JudgeSame(w.files, store.data, prefix, catalog);
    var judged := Judge(store.data, prefix, catalog);
    match judged
    case Stop(outcome) =>
      r := outcome;
    case Ask(id) =>
      r := RetireToken(w, store, access, secret, id, apply, forget);
  }

  method Retire(w: World, prefix: string, catalog: set<string>, apply: bool, forget: bool) returns (r: Outcome)
    modifies w`weather, w`trace, w`files, w`tokens
    ensures (r, w.Full()) == Retired(old(w.Full()), prefix, catalog, apply, forget)
  {
    var store := new SopsPairStore(w);
    var ok := store.Open();
    if ok {
      r := RevokePair(w, store, prefix, catalog, apply, forget);
    } else {
      r := Refused(Undecryptable);
    }
  }
}
