/**
 * What the credential tools act on: the token account, the R2 endpoint and the SOPS files.
 * Every call consumes one entry of `weather`, which decides whether it works, fails, fails after
 * it landed, claims a success it did not have, or raises what its caller does not handle. A contract
 * proved for a World therefore holds for every sequence of outcomes; an empty `weather` is a run in
 * which nothing fails.
 * The calls are functions from state to state (`ListStep` and so on); a method of the class does what
 * its function says.
 */
module World {
  import opened Prelude

  /** A SOPS value. Token ids are never reused; SHA-256 of a token's value is modelled as injective. */
  datatype Value = Id(n: nat) | SecretOf(n: nat) | Text(s: string)

  type Keys = map<string, Value>
  type Files = map<string, Keys>

  /** The empty string is the one value Python reads as absent. */
  predicate Truthy(v: Value) {
    v != Text("")
  }

  function Show(files: Files, env: string, path: string): Option<Value> {
    if env in files && path in files[env] && Truthy(files[env][path]) then Some(files[env][path]) else None
  }

  /**
   * The merged config, of the files that could be opened: prod's value, even an empty one, hides
   * common's, and a file that cannot be opened reads as one without the key.
   */
  function ShownIf(files: Files, path: string, common: bool, prod: bool): Option<Value> {
    if prod && "prod" in files && path in files["prod"] then Show(files, "prod", path)
    else if common then Show(files, "common", path)
    else None
  }

  function Shown(files: Files, path: string): Option<Value> {
    ShownIf(files, path, true, true)
  }

  datatype Weather =
    | Clear
    | Http(landed: bool)   // an HTTP error, or a non-zero exit, that may have taken effect
    | Net(landed: bool)    // no answer at all, and the call may have taken effect
    | Raise(landed: bool)  // an exception of a kind the caller does not handle, a time-out among them
    | Pretend              // a DELETE or an unset reported as done that was not; a listing R2 is not ready for

  datatype Reply = Done | NotFound | HttpError | NetError | Uncaught

  datatype Listing = Listed | Denied | ListError | ListRaised

  /** What a call that answers true or false comes back with. */
  datatype Told = Yes | No | Thrown

  /** What a read of a key comes back with, unless it raises. */
  datatype Read = Got(value: Option<Value>) | ReadRaised

  /** The two files of the merged config, each opened or not. */
  datatype Loaded = Loaded(common: bool, prod: bool) | LoadRaised

  /** What was sent, and what it did. */
  datatype Event =
    | KeyShown(path: string, common: bool, prod: bool, value: Option<Value>)  // which files could be opened
    | ShowRaised(path: string)
    | TokenRead(id: Value, reply: Reply)
    | TokenDeleted(id: Value, landed: bool)
    | TokenCreated(id: Value, answered: bool)
    | BucketListed(id: Value, bucket: string, listing: Listing)
    | KeysWritten(env: string, told: Told, landed: bool)
    | KeyUnset(env: string, path: string, ok: bool, landed: bool)

  /** The account and the files at one moment. */
  datatype Snapshot = Snapshot(tokens: map<Value, set<string>>, files: Files)

  /** Everything at one moment: `weather` is what is to come, and `trace` what was sent. */
  datatype State = State(tokens: map<Value, set<string>>, settled: set<Value>, nextId: nat, files: Files,
                         weather: seq<Weather>, trace: seq<Event>)

  /** Ids in use, live or written down, are all below the next one. */
  ghost predicate Sound(s: State) {
    && (forall n: nat :: Id(n) in s.tokens ==> n < s.nextId)
    && (forall n: nat :: Id(n) in s.settled ==> n < s.nextId)
    && (forall env, path :: env in s.files && path in s.files[env] && s.files[env][path].Id? ==>
          s.files[env][path].n < s.nextId)
  }

  // ---------------------------------------------------------------- the calls

  /** What the API lets the n-th token reach, of what it was asked for. */
  type Grant = (nat, set<string>) -> set<string>

  function Now(s: State): Weather {
    if s.weather == [] then Clear else s.weather[0]
  }

  function Later(s: State): State {
    if s.weather == [] then s else s.(weather := s.weather[1..])
  }

  function Noted(s: State, event: Event): State {
    s.(trace := s.trace + [event])
  }

  /** `sops -d` of one file: false when it cannot be read. */
  predicate Opens(w: Weather) {
    w == Clear || w == Pretend
  }

  /** The merged config: common's file, then prod's. One that `sops -d` fails on is no error. */
  function LoadStep(s: State): (Loaded, State) {
    var s1 := Later(s);
    if Now(s).Raise? then (LoadRaised, s1)
    else if Now(s1).Raise? then (LoadRaised, Later(s1))
    else (Loaded(Opens(Now(s)), Opens(Now(s1))), Later(s1))
  }

  /** A key of the merged config, which is loaded again for every one. */
  function ShowStep(s: State, path: string): (Read, State) {
    var (loaded, s1) := LoadStep(s);
    match loaded
    case LoadRaised => (ReadRaised, Noted(s1, ShowRaised(path)))
    case Loaded(common, prod) =>
      var value := ShownIf(s.files, path, common, prod);
      (Got(value), Noted(s1, KeyShown(path, common, prod, value)))
  }

  /** GET of one token. A 404 is honest about account tokens and blind to user tokens. */
  function GetStep(s: State, id: Value): (Reply, State) {
    var reply := match Now(s)
      case Http(_) => HttpError
      case Net(_) => NetError
      case Raise(_) => Uncaught
      case _ => if id in s.tokens then Done else NotFound;
    (reply, Noted(Later(s), TokenRead(id, reply)))
  }

  /** `sops unset` of one key; false when it failed or raised. */
  function UnsetStep(s: State, env: string, path: string): (bool, State)
    requires env in s.files
  {
    var landed := match Now(s) case Clear => true case Pretend => false case _ => Now(s).landed;
    var files := if landed then s.files[env := s.files[env] - {path}] else s.files;
    var ok := Opens(Now(s));
    (ok, Noted(Later(s).(files := files), KeyUnset(env, path, ok, path !in files[env])))
  }

  /** GET of the permission groups a token is asked for with. */
  function GroupStep(s: State): (Told, State) {
    (if Now(s) == Clear then Yes else if Now(s).Raise? then Thrown else No, Later(s))
  }

  /** POST of a token for some buckets. It may exist without an answer having told its id. */
  function CreateStep(s: State, granted: Grant, asked: set<string>): (Told, State) {
    var told := match Now(s) case Clear => Yes case Pretend => Yes case Raise(_) => Thrown case _ => No;
    if told == Yes || Now(s).landed then
      (told, Noted(Later(s).(tokens := s.tokens[Id(s.nextId) := granted(s.nextId, asked)], nextId := s.nextId + 1),
                   TokenCreated(Id(s.nextId), told == Yes)))
    else (told, Later(s))
  }

  /**
   * One listing with a token's pair. R2 lists only what the token's scope covers. Until it has heard
   * of a new token it denies everything, and once it has listed with it, it has heard of it.
   */
  function ListStep(s: State, id: Value, bucket: string): (Listing, State) {
    var reachable := id in s.tokens && bucket in s.tokens[id];
    var listing := match Now(s)
      case Http(_) => ListError
      case Net(_) => ListError
      case Raise(_) => ListRaised
      case _ => if reachable && (Now(s) == Clear || id in s.settled) then Listed else Denied;
    var s' := Noted(Later(s), BucketListed(id, bucket, listing));
    (listing, if listing == Listed then s'.(settled := s.settled + {id}) else s')
  }

  /** One SOPS file rewritten with `keys`, in one encrypt: all of them land or none does. */
  function WriteStep(s: State, env: string, keys: Keys): (Told, State) {
    var told := match Now(s) case Clear => Yes case Pretend => Yes case Raise(_) => Thrown case _ => No;
    var landed := told == Yes || Now(s).landed;
    var s' := Noted(Later(s), KeysWritten(env, told, landed));
    (told, if landed then s'.(files := Merged(s.files, env, keys)) else s')
  }

  function Merged(files: Files, env: string, keys: Keys): Files {
    files[env := (if env in files then files[env] else map[]) + keys]
  }

  /** DELETE of one token: whatever it answers, it landed or it did not. */
  function DeleteStep(s: State, id: Value): (Reply, State) {
    var reply := match Now(s)
      case Clear => if id in s.tokens then Done else NotFound
      case Pretend => Done
      case Http(_) => HttpError
      case Net(_) => NetError
      case Raise(_) => Uncaught;
    var landed := match Now(s) case Clear => true case Pretend => false case _ => Now(s).landed;
    var tokens := if landed then s.tokens - {id} else s.tokens;
    (reply, Noted(Later(s).(tokens := tokens), TokenDeleted(id, id !in tokens)))
  }

  class World {
    /** The account tokens, each with the buckets the API granted it. */
    var tokens: map<Value, set<string>>
    /** The tokens R2 is known to have heard of. */
    var settled: set<Value>
    var nextId: nat
    var files: Files
    var weather: seq<Weather>
    ghost var trace: seq<Event>
    const granted: Grant

    /** Every token is granted what it was asked for. */
    ghost predicate GrantsAsAsked() {
      forall n, asked :: granted(n, asked) == asked
    }

    ghost function Full(): State
      reads this
    {
      State(tokens, settled, nextId, files, weather, trace)
    }

    ghost predicate Valid()
      reads this
    {
      Sound(Full())
    }

    method Next() returns (now: Weather)
      modifies this`weather
      ensures now == if old(weather) == [] then Clear else old(weather)[0]
      ensures weather == if old(weather) == [] then [] else old(weather)[1..]
    {
      if weather == [] {
        now := Clear;
      } else {
        now, weather := weather[0], weather[1..];
      }
    }

    method GetToken(id: Value) returns (reply: Reply)
      modifies this`weather, this`trace
      ensures (reply, Full()) == GetStep(old(Full()), id)
    {
      var now := Next();
      reply := match now
      case Http(_) => HttpError
      case Net(_) => NetError
      case Raise(_) => Uncaught
      case _ => if id in tokens then Done else NotFound;
      trace := trace + [TokenRead(id, reply)];
    }

    /** DELETE of one token: whatever it answers, it landed or it did not. */
    method DeleteToken(id: Value) returns (reply: Reply)
      modifies this`weather, this`trace, this`tokens
      ensures (reply, Full()) == DeleteStep(old(Full()), id)
    {
      var now := Next();
      var landed := match now case Clear => true case Pretend => false case _ => now.landed;
      reply := match now
      case Clear => if id in tokens then Done else NotFound
      case Pretend => Done
      case Http(_) => HttpError
      case Net(_) => NetError
      case Raise(_) => Uncaught;
      if landed {
        tokens := tokens - {id};
      }
      trace := trace + [TokenDeleted(id, id !in tokens)];
    }

    method FindGroup() returns (told: Told)
      modifies this`weather
      ensures (told, Full()) == GroupStep(old(Full()))
    {
      var now := Next();
      told := if now == Clear then Yes else if now.Raise? then Thrown else No;
    }

    /** The id, when the answer came. */
    method CreateToken(asked: set<string>) returns (told: Told, id: nat)
      modifies this`weather, this`trace, this`tokens, this`nextId
      ensures (told, Full()) == CreateStep(old(Full()), granted, asked) && id == old(nextId)
    {
      var now := Next();
      id := nextId;
      told := match now case Clear => Yes case Pretend => Yes case Raise(_) => Thrown case _ => No;
      if told == Yes || now.landed {
        tokens := tokens[Id(nextId) := granted(nextId, asked)];
        trace := trace + [TokenCreated(Id(nextId), told == Yes)];
        nextId := nextId + 1;
      }
    }

    method ListBucket(id: Value, bucket: string) returns (listing: Listing)
      modifies this`weather, this`trace, this`settled
      ensures (listing, Full()) == ListStep(old(Full()), id, bucket)
    {
      var now := Next();
      var reachable := id in tokens && bucket in tokens[id];
      if now.Http? || now.Net? {
        listing := ListError;
      } else if now.Raise? {
        listing := ListRaised;
      } else if reachable && (now == Clear || id in settled) {
        listing := Listed;
        settled := settled + {id};
      } else {
        listing := Denied;
      }
      trace := trace + [BucketListed(id, bucket, listing)];
    }

    /** `sops -d` of one file. */
    method Decrypt() returns (ok: bool)
      modifies this`weather
      ensures ok == Opens(Now(old(Full()))) && Full() == Later(old(Full()))
    {
      var now := Next();
      ok := Opens(now);
    }

    method LoadConfig() returns (loaded: Loaded)
      modifies this`weather
      ensures (loaded, Full()) == LoadStep(old(Full()))
    {
      var first := Next();
      if first.Raise? {
        return LoadRaised;
      }
      var second := Next();
      if second.Raise? {
        return LoadRaised;
      }
      loaded := Loaded(Opens(first), Opens(second));
    }

    method ShowKey(path: string) returns (read: Read)
      modifies this`weather, this`trace
      ensures (read, Full()) == ShowStep(old(Full()), path)
    {
      var loaded := LoadConfig();
      if loaded.LoadRaised? {
        trace := trace + [ShowRaised(path)];
        return ReadRaised;
      }
      var value := ShownIf(files, path, loaded.common, loaded.prod);
      trace := trace + [KeyShown(path, loaded.common, loaded.prod, value)];
      read := Got(value);
    }

    method UnsetKey(env: string, path: string) returns (ok: bool)
      requires env in files
      modifies this`weather, this`files, this`trace
      ensures (ok, Full()) == UnsetStep(old(Full()), env, path)
    {
      var now := Next();
      ok := Opens(now);
      if now == Clear || (now != Pretend && now.landed) {
        files := files[env := files[env] - {path}];
      }
      trace := trace + [KeyUnset(env, path, ok, path !in files[env])];
    }

    method WriteKeys(env: string, keys: Keys) returns (told: Told)
      modifies this`weather, this`trace, this`files
      ensures (told, Full()) == WriteStep(old(Full()), env, keys)
    {
      var now := Next();
      told := match now case Clear => Yes case Pretend => Yes case Raise(_) => Thrown case _ => No;
      var landed := told == Yes || now.landed;
      if landed {
        files := Merged(files, env, keys);
      }
      trace := trace + [KeysWritten(env, told, landed)];
    }
  }
}
