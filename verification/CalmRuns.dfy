/**
 * A mint none of whose own calls fails, whatever is to come after it, does what it does when nothing
 * ever fails.
 */
module CalmRuns {
  import opened Prelude
  import opened World
  import opened TokenMint

  /** The same state with nothing left that could fail. */
  function Calm(s: State): State {
    s.(weather := [])
  }

  /** Calls only ever take from the front of what is to come. */
  ghost predicate Shorter(s: State, t: State) {
    |t.weather| <= |s.weather| && s.weather[|s.weather| - |t.weather|..] == t.weather
  }

  /** And none of what was taken was a failure. */
  ghost predicate AllClear(s: State, t: State) {
    Shorter(s, t) && forall k :: 0 <= k < |s.weather| - |t.weather| ==> s.weather[k] == Clear
  }

  lemma ShorterTwice(s: State, u: State, t: State)
    requires Shorter(s, u) && Shorter(u, t)
    ensures Shorter(s, t)
    ensures AllClear(s, t) ==> AllClear(s, u) && AllClear(u, t)
  {
    var n, m := |s.weather| - |u.weather|, |u.weather| - |t.weather|;
    assert forall k :: 0 <= k < |u.weather| ==> u.weather[k] == s.weather[n + k];
    assert forall k :: 0 <= k < |t.weather| ==> t.weather[k] == u.weather[m + k];
    assert s.weather[|s.weather| - |t.weather|..] == t.weather;
  }

  /** `(x, t)` from `s` is what `(y, u)` is from the calm state, if none of the calls on the way failed. */
  ghost predicate Twin<T(!new)>(s: State, a: (T, State), calm: (T, State)) {
    Shorter(s, a.1) && (AllClear(s, a.1) ==> calm == (a.0, Calm(a.1)))
  }

  lemma OneCall(s: State)
    ensures Shorter(s, Later(s))
    ensures AllClear(s, Later(s)) ==> Now(s) == Clear
  {
  }

  lemma LoadTwin(s: State)
    ensures Twin(s, LoadStep(s), LoadStep(Calm(s)))
  {
    OneCall(s);
    OneCall(Later(s));
    ShorterTwice(s, Later(s), Later(Later(s)));
  }

  lemma ShowTwin(s: State, path: string)
    ensures Twin(s, ShowStep(s, path), ShowStep(Calm(s), path))
  {
    LoadTwin(s);
  }

  lemma GroupTwin(s: State)
    ensures Twin(s, GroupStep(s), GroupStep(Calm(s)))
  {
    OneCall(s);
  }

  lemma CreateTwin(s: State, granted: Grant, asked: set<string>)
    ensures Twin(s, CreateStep(s, granted, asked), CreateStep(Calm(s), granted, asked))
  {
    OneCall(s);
    var t := CreateStep(s, granted, asked).1;
    assert t.weather == Later(s).weather;
    if AllClear(s, t) {
      assert AllClear(s, Later(s)) && Now(s) == Clear == Now(Calm(s));
    }
  }

  lemma ListTwin(s: State, id: Value, bucket: string)
    ensures Twin(s, ListStep(s, id, bucket), ListStep(Calm(s), id, bucket))
  {
    OneCall(s);
    var t := ListStep(s, id, bucket).1;
    assert t.weather == Later(s).weather;
    if AllClear(s, t) {
      assert AllClear(s, Later(s)) && Now(s) == Clear == Now(Calm(s));
    }
  }

  lemma WriteTwin(s: State, env: string, keys: Keys)
    ensures Twin(s, WriteStep(s, env, keys), WriteStep(Calm(s), env, keys))
  {
    OneCall(s);
    var t := WriteStep(s, env, keys).1;
    assert t.weather == Later(s).weather;
    if AllClear(s, t) {
      assert AllClear(s, Later(s)) && Now(s) == Clear == Now(Calm(s));
    }
  }

  lemma DeleteTwin(s: State, id: Value)
    ensures Twin(s, DeleteStep(s, id), DeleteStep(Calm(s), id))
  {
    OneCall(s);
    var t := DeleteStep(s, id).1;
    assert t.weather == Later(s).weather;
    if AllClear(s, t) {
      assert AllClear(s, Later(s)) && Now(s) == Clear == Now(Calm(s));
    }
  }

  lemma {:induction false} TryListTwin(s: State, id: Value, bucket: string, left: nat)
    ensures Twin(s, TryList(s, id, bucket, left), TryList(Calm(s), id, bucket, left))
    decreases left
  {
    ListTwin(s, id, bucket);
    var (listing, s1) := ListStep(s, id, bucket);
    if !(listing == Listed || listing == ListRaised || left <= 1) {
      TryListTwin(s1, id, bucket, left - 1);
      ShorterTwice(s, s1, TryList(s1, id, bucket, left - 1).1);
    }
  }

  lemma {:induction false} ScopeTwin(s: State, id: Value, readable: seq<string>, refused: string, i: nat)
    requires i <= |readable|
    ensures Twin(s, Scope(s, id, readable, refused, i), Scope(Calm(s), id, readable, refused, i))
    decreases |readable| - i
  {
    if i < |readable| {
      TryListTwin(s, id, readable[i], SCOPE_ATTEMPTS);
      var (listing, s1) := TryList(s, id, readable[i], SCOPE_ATTEMPTS);
      if listing == Listed {
        ScopeTwin(s1, id, readable, refused, i + 1);
        ShorterTwice(s, s1, Scope(s1, id, readable, refused, i + 1).1);
      }
    } else {
      ListTwin(s, id, refused);
    }
  }

  lemma UndoTwin(s: State, id: nat)
    ensures Twin(s, Undo(s, id), Undo(Calm(s), id))
  {
    DeleteTwin(s, Id(id));
  }

  lemma ReplaceTwin(s: State, oldId: Option<Value>, rotate: bool)
    ensures Twin(s, Replace(s, oldId, rotate), Replace(Calm(s), oldId, rotate))
  {
    if rotate && oldId.Some? {
      DeleteTwin(s, oldId.value);
    }
  }

  lemma FinishTwin(s: State, verdict: Verdict, id: nat, pair: Pair, oldId: Option<Value>, rotate: bool)
    ensures Twin(s, Finish(s, verdict, id, pair, oldId, rotate), Finish(Calm(s), verdict, id, pair, oldId, rotate))
  {
    match verdict
    case Broken =>
    case Refused(_) =>
      UndoTwin(s, id);
    case Passed =>
      StoreTwin(s, id, pair, oldId, rotate);
  }

  lemma StoreTwin(s: State, id: nat, pair: Pair, oldId: Option<Value>, rotate: bool)
    ensures Twin(s, Finish(s, Passed, id, pair, oldId, rotate), Finish(Calm(s), Passed, id, pair, oldId, rotate))
  {
    WriteTwin(s, pair.file, PairOf(id, pair));
    var (told, t) := WriteStep(s, pair.file, PairOf(id, pair));
    if told == Yes {
      ReplaceTwin(t, oldId, rotate);
      ShorterTwice(s, t, Replace(t, oldId, rotate).1);
    } else if told == No {
      UndoTwin(t, id);
      ShorterTwice(s, t, Undo(t, id).1);
    }
  }

  lemma OverTwin(s: State, granted: Grant, job: Job, oldId: Option<Value>)
    ensures Twin(s, MintOver(s, granted, job, oldId), MintOver(Calm(s), granted, job, oldId))
  {
    GroupTwin(s);
    var (grouped, s1) := GroupStep(s);
    if grouped == Yes {
      CreateTwin(s1, granted, Asked(job.readable));
      var (told, s2) := CreateStep(s1, granted, Asked(job.readable));
      ShorterTwice(s, s1, s2);
      if told == Yes {
        MadeTwin(s, s1, s2, granted, job, oldId);
      }
    }
  }

  /** From the answer to the POST on. */
  lemma MadeTwin(s: State, s1: State, s2: State, granted: Grant, job: Job, oldId: Option<Value>)
    requires GroupStep(s) == (Yes, s1) && CreateStep(s1, granted, Asked(job.readable)) == (Yes, s2)
    requires Shorter(s, s2)
    requires AllClear(s, s2) ==> CreateStep(GroupStep(Calm(s)).1, granted, Asked(job.readable)) == (Yes, Calm(s2))
    requires AllClear(s, s2) ==> GroupStep(Calm(s)).0 == Yes
    ensures Twin(s, MintOver(s, granted, job, oldId), MintOver(Calm(s), granted, job, oldId))
  {
    CheckedTwin(s2, s.nextId, job, oldId);
    var (verdict, s3) := Scope(s2, Id(s.nextId), job.readable, job.refused, 0);
    ShorterTwice(s, s2, Finish(s3, verdict, s.nextId, job.pair, oldId, job.rotate).1);
  }

  /** The check and what follows it. */
  lemma CheckedTwin(s: State, id: nat, job: Job, oldId: Option<Value>)
    ensures var (verdict, s1) := Scope(s, Id(id), job.readable, job.refused, 0);
            var (calmly, calm1) := Scope(Calm(s), Id(id), job.readable, job.refused, 0);
            Twin(s, Finish(s1, verdict, id, job.pair, oldId, job.rotate),
                 Finish(calm1, calmly, id, job.pair, oldId, job.rotate))
  {
    ScopeTwin(s, Id(id), job.readable, job.refused, 0);
    var (verdict, s1) := Scope(s, Id(id), job.readable, job.refused, 0);
    FinishTwin(s1, verdict, id, job.pair, oldId, job.rotate);
    ShorterTwice(s, s1, Finish(s1, verdict, id, job.pair, oldId, job.rotate).1);
  }

  lemma LookTwin(s: State, pair: Pair)
    ensures Twin(s, Look(s, pair), Look(Calm(s), pair))
  {
    ShowTwin(s, pair.access);
    var (first, s1) := ShowStep(s, pair.access);
    ShowTwin(s1, pair.secret);
    ShorterTwice(s, s1, ShowStep(s1, pair.secret).1);
  }

  /** One mint. */
  lemma MintTwin(s: State, granted: Grant, job: Job)
    ensures Twin(s, Mint(s, granted, job), Mint(Calm(s), granted, job))
  {
    LookTwin(s, job.pair);
    var (look, s1) := Look(s, job.pair);
    if !Ends(look, job.rotate) {
      OverTwin(s1, granted, job, OldId(look));
      ShorterTwice(s, s1, MintOver(s1, granted, job, OldId(look)).1);
    }
  }
}
