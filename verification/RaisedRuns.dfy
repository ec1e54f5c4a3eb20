/**
 * When a run ends with an exception that nothing handles: exactly if a call it made raised one.
 */
module RaisedRuns {
  import opened Prelude
  import opened World
  import opened TokenMint
  import opened CalmRuns
  import opened FleetMint

  /** A call between the two raised. */
  ghost predicate SomeRaised(s: State, t: State) {
    exists k :: 0 <= k < |s.weather| - |t.weather| && s.weather[k].Raise?
  }

  /** `raised` says whether one did. */
  ghost predicate Tells(s: State, t: State, raised: bool) {
    Shorter(s, t) && (raised <==> SomeRaised(s, t))
  }

  lemma TellsOneCall(s: State, t: State, raised: bool)
    requires t.weather == Later(s).weather && (raised <==> Now(s).Raise?)
    ensures Tells(s, t, raised)
  {
    OneCall(s);
    if s.weather != [] && raised {
      assert s.weather[0].Raise?;
    }
  }

  lemma TellsNoCall(s: State, t: State)
    requires t.weather == s.weather
    ensures Tells(s, t, false)
  {
  }

  /** Calls that none raised, and more after them. */
  lemma TellsTwice(s: State, u: State, t: State, raised: bool)
    requires Tells(s, u, false) && Tells(u, t, raised)
    ensures Tells(s, t, raised)
  {
    ShorterTwice(s, u, t);
    var n := |s.weather| - |u.weather|;
    assert forall k :: 0 <= k < |u.weather| ==> u.weather[k] == s.weather[n + k];
    if raised {
      var k :| 0 <= k < |u.weather| - |t.weather| && u.weather[k].Raise?;
      assert s.weather[n + k].Raise?;
    }
  }

  lemma LoadTells(s: State)
    ensures Tells(s, LoadStep(s).1, LoadStep(s).0.LoadRaised?)
  {
    var s1 := Later(s);
    TellsOneCall(s, s1, Now(s).Raise?);
    TellsOneCall(s1, Later(s1), Now(s1).Raise?);
    if !Now(s).Raise? {
      TellsTwice(s, s1, Later(s1), Now(s1).Raise?);
    }
  }

  lemma ShowTells(s: State, path: string)
    ensures Tells(s, ShowStep(s, path).1, ShowStep(s, path).0.ReadRaised?)
  {
    LoadTells(s);
  }

  lemma LookTells(s: State, pair: Pair)
    ensures Tells(s, Look(s, pair).1, Look(s, pair).0.LookRaised?)
  {
    ShowTells(s, pair.access);
    var (first, s1) := ShowStep(s, pair.access);
    if first.Got? && first.value.Some? {
      var (second, s2) := ShowStep(s1, pair.secret);
      ShowTells(s1, pair.secret);
      TellsTwice(s, s1, s2, second.ReadRaised?);
    }
  }

  lemma {:induction false} TryListTells(s: State, id: Value, bucket: string, left: nat)
    ensures var (listing, t) := TryList(s, id, bucket, left); Tells(s, t, listing == ListRaised)
    decreases left
  {
    var (listing, s1) := ListStep(s, id, bucket);
    TellsOneCall(s, s1, listing == ListRaised);
    if !(listing == Listed || listing == ListRaised || left <= 1) {
      TryListTells(s1, id, bucket, left - 1);
      var (last, t) := TryList(s1, id, bucket, left - 1);
      TellsTwice(s, s1, t, last == ListRaised);
    }
  }

  lemma {:induction false} ScopeTells(s: State, id: Value, readable: seq<string>, refused: string, i: nat)
    requires i <= |readable|
    ensures var (verdict, t) := Scope(s, id, readable, refused, i); Tells(s, t, verdict == Broken)
    decreases |readable| - i
  {
    if i < |readable| {
      TryListTells(s, id, readable[i], SCOPE_ATTEMPTS);
      var (listing, s1) := TryList(s, id, readable[i], SCOPE_ATTEMPTS);
      if listing == Listed {
        ScopeTells(s1, id, readable, refused, i + 1);
        var (verdict, t) := Scope(s1, id, readable, refused, i + 1);
        TellsTwice(s, s1, t, verdict == Broken);
      }
    } else {
      var (listing, s1) := ListStep(s, id, refused);
      TellsOneCall(s, s1, listing == ListRaised);
    }
  }

  lemma FinishTells(s: State, verdict: Verdict, id: nat, pair: Pair, oldId: Option<Value>, rotate: bool)
    requires verdict != Broken
    ensures var (r, t) := Finish(s, verdict, id, pair, oldId, rotate); Tells(s, t, r == Raised)
  {
    if verdict.Refused? {
      var (r, t) := Undo(s, id);
      TellsOneCall(s, t, r == Raised);
    } else {
      StoreTells(s, id, pair, oldId, rotate);
    }
  }

  lemma StoreTells(s: State, id: nat, pair: Pair, oldId: Option<Value>, rotate: bool)
    ensures var (r, t) := Finish(s, Passed, id, pair, oldId, rotate); Tells(s, t, r == Raised)
  {
    var (told, mid) := WriteStep(s, pair.file, PairOf(id, pair));
    TellsOneCall(s, mid, told == Thrown);
    if told == No {
      var (r, t) := Undo(mid, id);
      TellsOneCall(mid, t, r == Raised);
      TellsTwice(s, mid, t, r == Raised);
    } else if told == Yes && rotate && oldId.Some? {
      var (r, t) := Replace(mid, oldId, rotate);
      TellsOneCall(mid, t, r == Raised);
      TellsTwice(s, mid, t, r == Raised);
    }
  }

  lemma OverTells(s: State, granted: Grant, job: Job, oldId: Option<Value>)
    ensures var (r, t) := MintOver(s, granted, job, oldId); Tells(s, t, r == Raised)
  {
    var (grouped, s1) := GroupStep(s);
    TellsOneCall(s, s1, grouped == Thrown);
    if grouped == Yes {
      var (told, s2) := CreateStep(s1, granted, Asked(job.readable));
      TellsOneCall(s1, s2, told == Thrown);
      TellsTwice(s, s1, s2, told == Thrown);
      if told == Yes {
        CheckTells(s, s2, s.nextId, job, oldId);
      }
    }
  }

  /** The check and what follows it. */
  lemma CheckTells(s: State, made: State, id: nat, job: Job, oldId: Option<Value>)
    requires Tells(s, made, false)
    ensures var (verdict, s3) := Scope(made, Id(id), job.readable, job.refused, 0);
            var (r, t) := Finish(s3, verdict, id, job.pair, oldId, job.rotate);
            Tells(s, t, r == Raised)
  {
    var (verdict, s3) := Scope(made, Id(id), job.readable, job.refused, 0);
    ScopeTells(made, Id(id), job.readable, job.refused, 0);
    TellsTwice(s, made, s3, verdict == Broken);
    if verdict != Broken {
      var (r, t) := Finish(s3, verdict, id, job.pair, oldId, job.rotate);
      FinishTells(s3, verdict, id, job.pair, oldId, job.rotate);
      TellsTwice(s, s3, t, r == Raised);
    }
  }

  /** One mint. */
  lemma MintTells(s: State, granted: Grant, job: Job)
    ensures var (r, t) := Mint(s, granted, job); Tells(s, t, r == Raised)
  {
    var (look, s1) := Look(s, job.pair);
    LookTells(s, job.pair);
    if !Ends(look, job.rotate) {
      var (r, t) := MintOver(s1, granted, job, OldId(look));
      OverTells(s1, granted, job, OldId(look));
      TellsTwice(s, s1, t, r == Raised);
    }
  }

  // ---------------------------------------------------------------- the fleet

  lemma EnsureTells(s: State, node: string, password: string)
    ensures var (r, t) := Ensure(s, node, password); Tells(s, t, r == PasswordRaised)
  {
    var path := ResticPasswordPath(node);
    ShowTells(s, path);
    var (read, s1) := ShowStep(s, path);
    if read == Got(None) {
      var (told, t) := WriteStep(s1, "common", map[path := Text(password)]);
      TellsOneCall(s1, t, told == Thrown);
      TellsTwice(s, s1, t, told == Thrown);
    }
  }

  lemma TurnTells(s: State, granted: Grant, node: string, otherBucket: string, rotate: bool, password: string)
    ensures var (done, t) := NodeTurn(s, granted, node, otherBucket, rotate, password); Tells(s, t, done == None)
  {
    var (minted, mid) := Mint(s, granted, PairJob(node, otherBucket, rotate));
    MintTells(s, granted, PairJob(node, otherBucket, rotate));
    if minted != Failed && minted != Raised {
      EnsureTells(mid, node, password);
      var (ensured, t) := Ensure(mid, node, password);
      TellsTwice(s, mid, t, ensured == PasswordRaised);
    }
  }

  ghost predicate TurnsTell(turn: Turner, n: nat) {
    forall s: State, k: nat {:trigger turn(s, k)} :: k < n ==> Tells(s, turn(s, k).1, turn(s, k).0 == None)
  }

  lemma TurnsAreTold(granted: Grant, nodes: seq<string>, targets: seq<string>, legacy: string, rotate: bool,
                     passwords: nat -> string, turn: Turner)
    requires GivesTurns(turn, granted, nodes, targets, legacy, rotate, passwords)
    ensures TurnsTell(turn, |targets|)
  {
    forall s: State, k: nat | k < |targets|
      ensures Tells(s, turn(s, k).1, turn(s, k).0 == None)
    {
      TurnTells(s, granted, targets[k], OtherBucket(nodes, targets[k], legacy), rotate, passwords(k));
    }
  }

  lemma {:induction false} AllTurnsTell(s: State, turn: Turner, n: nat, total: nat)
    returns (r: Option<bool>, t: State)
    requires n <= total && TurnsTell(turn, total)
    ensures Turns(s, turn, n) == (r, t) && Tells(s, t, r == None)
  {
    if n == 0 {
      TellsNoCall(s, s);
      r, t := Some(true), s;
    } else {
      var mid;
      r, mid := AllTurnsTell(s, turn, n - 1, total);
      if r == None {
        t := mid;
      } else {
        var next := turn(mid, n - 1);
        t := next.1;
        assert Tells(mid, turn(mid, n - 1).1, turn(mid, n - 1).0 == None);
        TellsTwice(s, mid, t, next.0 == None);
        TurnsNext(s, turn, n - 1, r.value, mid, next.0, t);
        r := if next.0 == None then None else Some(r.value && next.0.value);
      }
    }
  }

  lemma PreflightTells(s: State, nodes: seq<string>, only: Option<string>, watcherOnly: bool, r2: Settings,
                       outside: string)
    ensures var (end, t) := PreflightStep(s, nodes, only, watcherOnly, r2, outside); Tells(s, t, end == Some(None))
  {
    LoadTells(s);
    var (loaded, s1) := LoadStep(s);
    if loaded.Loaded? {
      ShowTells(s1, MINTER_KEY);
      var (minter, t) := ShowStep(s1, MINTER_KEY);
      TellsTwice(s, s1, t, minter.ReadRaised?);
    }
  }

  lemma GoOnTells(s: State, granted: Grant, nodes: seq<string>, only: Option<string>, watcherOnly: bool,
                  legacy: string, outside: string, rotate: bool, turn: Turner)
    returns (r: Option<bool>, t: State)
    requires TurnsTell(turn, |TargetsOf(nodes, only, watcherOnly)|)
    ensures GoOn(s, granted, nodes, only, watcherOnly, legacy, outside, rotate, turn) == (r, t)
    ensures Tells(s, t, r == None)
  {
    var n := |TargetsOf(nodes, only, watcherOnly)|;
    r, t := AllTurnsTell(s, turn, n, n);
    if r.Some? && only == None {
      var mid, ok, job := t, r.value, WatcherJob(nodes, legacy, outside, rotate);
      MintTells(mid, granted, job);
      var mint := Mint(mid, granted, job);
      TellsTwice(s, mid, mint.1, mint.0 == Raised);
      r, t := if mint.0 == Raised then None else if mint.0 == Failed then Some(false) else Some(ok), mint.1;
    }
  }

  lemma AllTells(s: State, granted: Grant, nodes: seq<string>, only: Option<string>, watcherOnly: bool, r2: Settings,
                 outside: string, rotate: bool, passwords: nat -> string)
    returns (r: Option<bool>, t: State)
    ensures All(s, granted, nodes, only, watcherOnly, r2, outside, rotate, passwords) == (r, t)
    ensures Tells(s, t, r == None)
  {
    var preflight := PreflightStep(s, nodes, only, watcherOnly, r2, outside);
    var end, s1 := preflight.0, preflight.1;
    PreflightTells(s, nodes, only, watcherOnly, r2, outside);
    if end == None && r2.bucket.Some? {
      var targets := TargetsOf(nodes, only, watcherOnly);
      var turn := TurnOf(granted, nodes, targets, r2.bucket.value, rotate, passwords);
      TurnsAreTold(granted, nodes, targets, r2.bucket.value, rotate, passwords, turn);
      r, t := GoOnTells(s1, granted, nodes, only, watcherOnly, r2.bucket.value, outside, rotate, turn);
      TellsTwice(s, s1, t, r == None);
    } else {
      r, t := if end.Some? then end.value else Some(false), s1;
    }
  }

  /**
   * The whole run ends with an exception if and only if a call it made raised one: a failure of any other
   * kind, wherever it is, is remembered, and the run goes on.
   */
  lemma AnExceptionWasRaised(s: State, granted: Grant, nodes: seq<string>, only: Option<string>, watcherOnly: bool,
                             r2: Settings, outside: string, rotate: bool, passwords: nat -> string)
    ensures var (r, t) := All(s, granted, nodes, only, watcherOnly, r2, outside, rotate, passwords);
            r == None <==> exists k :: 0 <= k < |s.weather| - |t.weather| && s.weather[k].Raise?
  {
    var _, _ := AllTells(s, granted, nodes, only, watcherOnly, r2, outside, rotate, passwords);
  }
}
