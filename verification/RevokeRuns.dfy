/**
 * What retiring a pair keeps, for every outcome of every call: a run may stop after any of them. A run
 * is told by what it sent: calls to the account, unsets of the secret, unsets of the id.
 */
module RevokeRuns {
  import opened Prelude
  import opened World
  import opened TokenRevoke

  /** `id` is written down at some key other than this pair's secret. */
  ghost predicate Named(files: Files, secret: string, id: Value) {
    exists env, path :: env in files && path in files[env] && path != secret && files[env][path] == id
  }

  // ---------------------------------------------------------------- what one run may do

  /** The calls one run made: to the account, then unsets of the secret, then unsets of the id it asked about. */
  datatype Steps = Steps(calls: seq<Event>, secrets: seq<Event>, ids: seq<Event>, id: Value)

  function Sent(run: Steps): seq<Event> {
    run.calls + run.secrets + run.ids
  }

  /** The last thing the account was asked is `id`, and it answered 404; nothing but unsets came after. */
  ghost predicate AnsweredGone(trace: seq<Event>, id: Value) {
    && trace != []
    && var last := trace[|trace| - 1];
       if last.KeyUnset? then AnsweredGone(trace[..|trace| - 1], id) else last == TokenRead(id, NotFound)
  }

  /** The files after the unsets of `events`: each takes its key out of its file if it landed. */
  function Unset(files: Files, events: seq<Event>): Files {
    if events == [] then files
    else
      var before, e := Unset(files, events[..|events| - 1]), events[|events| - 1];
      if e.KeyUnset? && e.landed && e.env in before then before[e.env := before[e.env] - {e.path}] else before
  }

  /** `path` was unset from the first of `envs`, in order, and only the last of the unsets may have failed. */
  ghost predicate UnsetFrom(events: seq<Event>, path: string, envs: seq<string>) {
    && |events| <= |envs|
    && (forall k :: 0 <= k < |events| ==>
          events[k].KeyUnset? && events[k].path == path && events[k].env == envs[k])
    && (forall k :: 0 <= k < |events| - 1 ==> events[k].ok)
  }

  /** `path` was unset from the first `n` of them, and every unset answered true. */
  ghost predicate UnsetFromFirst(events: seq<Event>, path: string, envs: seq<string>, n: nat) {
    UnsetFrom(events, path, envs) && |events| == n && forall k :: 0 <= k < n ==> events[k].ok
  }

  ghost predicate UnsetFromAll(events: seq<Event>, path: string, envs: seq<string>) {
    UnsetFromFirst(events, path, envs, |envs|)
  }

  /** No unset that answered true left its key in place. */
  ghost predicate Honest(events: seq<Event>) {
    forall e :: e in events && e.KeyUnset? && e.ok ==> e.landed
  }

  /** `after` is `before` with `path` gone from some of the files of `done`, and nothing else changed. */
  ghost predicate Dropped(before: Files, after: Files, path: string, done: seq<string>) {
    && after.Keys == before.Keys
    && forall env :: env in before ==>
         after[env] == before[env] || (env in done && after[env] == before[env] - {path})
  }

  lemma {:induction false} UnsetDrops(files: Files, events: seq<Event>, path: string, envs: seq<string>)
    requires UnsetFrom(events, path, envs) && forall env :: env in envs ==> env in files
    ensures Dropped(files, Unset(files, events), path, envs)
    ensures forall k :: 0 <= k < |events| && events[k].landed ==> path !in Unset(files, events)[envs[k]]
  {
    if events != [] {
      UnsetDrops(files, events[..|events| - 1], path, envs);
    }
  }

  /**
   * The unsets: the id's begin in no file before the secret's has answered true for every file that
   * holds it, and the files are what the unsets made of them.
   */
  ghost predicate Forgets(before: Files, after: Files, secrets: seq<Event>, ids: seq<Event>, access: string,
                          secret: string)
  {
    && UnsetFrom(secrets, secret, Holding(before, secret))
    && UnsetFrom(ids, access, Holding(before, access))
    && (ids != [] ==> UnsetFromAll(secrets, secret, Holding(before, secret)))
    && after == Unset(Unset(before, secrets), ids)
  }

  /**
   * What every run keeps, whatever its calls answered, told by what it sent. Unsetting starts only
   * after the account answered 404 for the id all files agree on, and no other token is touched.
   */
  ghost predicate Orderly(before: Snapshot, after: Snapshot, run: Steps, access: string, secret: string) {
    && (forall e :: e in run.calls ==> e.TokenRead? || e.TokenDeleted?)
    && Forgets(before.files, after.files, run.secrets, run.ids, access, secret)
    && (run.secrets + run.ids != [] ==>
          AnsweredGone(run.calls, run.id) && run.id !in after.tokens)
    && (after.tokens == before.tokens || after.tokens == before.tokens - {run.id})
    && (run.calls != [] ==> Agreed(before.files, access, run.id))
  }

  lemma OnlyCalls(before: Snapshot, after: Snapshot, calls: seq<Event>, id: Value, access: string, secret: string)
    requires (forall e :: e in calls ==> e.TokenRead? || e.TokenDeleted?) && after.files == before.files
    requires after.tokens == before.tokens || after.tokens == before.tokens - {id}
    requires Agreed(before.files, access, id)
    ensures Orderly(before, after, Steps(calls, [], [], id), access, secret) && Honest(calls)
    ensures Sent(Steps(calls, [], [], id)) == calls
  {
  }

  lemma OrderlyDrops(before: Snapshot, after: Snapshot, run: Steps, access: string, secret: string)
    requires Orderly(before, after, run, access, secret)
    ensures var between := Unset(before.files, run.secrets);
            && Dropped(before.files, between, secret, Holding(before.files, secret))
            && Dropped(between, after.files, access, Holding(before.files, access))
            && (run.ids == [] ==> after.files == between)
  {
    HoldingIsThere(before.files, secret);
    HoldingIsThere(before.files, access);
    UnsetDrops(before.files, run.secrets, secret, Holding(before.files, secret));
    UnsetDrops(Unset(before.files, run.secrets), run.ids, access, Holding(before.files, access));
  }

  /**
   * The order, read off the trace alone: before any unset of the id, the account's last answer was a
   * 404 for it, and every file that held the secret has had it unset with the answer true.
   */
  lemma IdIsUnsetLast(before: Snapshot, after: Snapshot, run: Steps, access: string, secret: string, k: nat)
    requires access != secret && Orderly(before, after, run, access, secret)
    requires k < |Sent(run)| && Sent(run)[k].KeyUnset? && Sent(run)[k].path == access
    ensures AnsweredGone(Sent(run)[..k], run.id)
    ensures forall env :: env in Holding(before.files, secret) ==>
      exists j :: 0 <= j < k && Sent(run)[j].KeyUnset? && Sent(run)[j].env == env
                  && Sent(run)[j].path == secret && Sent(run)[j].ok
  {
    var sent, n, m := Sent(run), |run.calls|, |run.calls| + |run.secrets|;
    assert forall i :: 0 <= i < n ==> sent[i] == run.calls[i] && run.calls[i] in run.calls;
    assert forall i :: n <= i < m ==> sent[i] == run.secrets[i - n];
    assert k >= m && run.ids != [];
    forall env | env in Holding(before.files, secret)
      ensures exists j :: 0 <= j < k && sent[j].KeyUnset? && sent[j].env == env && sent[j].path == secret && sent[j].ok
    {
      var i :| 0 <= i < |run.secrets| && Holding(before.files, secret)[i] == env;
      assert sent[n + i] == run.secrets[i];
    }
    assert sent[..n] == run.calls;
    GoneStays(sent, n, k, run.id);
  }

  lemma {:induction false} GoneStays(trace: seq<Event>, n: nat, k: nat, id: Value)
    requires n <= k <= |trace| && AnsweredGone(trace[..n], id)
    requires forall i :: n <= i < k ==> trace[i].KeyUnset?
    ensures AnsweredGone(trace[..k], id)
  {
    if n < k {
      GoneStays(trace, n, k - 1, id);
      assert trace[..k][..k - 1] == trace[..k - 1];
    }
  }

  /** Where no unset claims what it did not do, the secret is in no file when the id's unsets begin. */
  lemma SecretIsGoneFirst(before: Snapshot, after: Snapshot, run: Steps, access: string, secret: string)
    requires Orderly(before, after, run, access, secret) && Honest(run.secrets) && run.ids != []
    ensures !Held(Unset(before.files, run.secrets), secret)
  {
    AllGone(before.files, run.secrets, secret);
  }

  /** The point of the order: no token that is still alive has lost its last written id. */
  lemma NoTokenIsOrphaned(before: Snapshot, after: Snapshot, run: Steps, access: string, secret: string, id: Value)
    requires Orderly(before, after, run, access, secret)
    requires Named(before.files, secret, id) && id in after.tokens
    ensures Named(after.files, secret, id)
  {
    var env, path :| env in before.files && path in before.files[env] && path != secret
                     && before.files[env][path] == id;
    OrderlyDrops(before, after, run, access, secret);
    var between := Unset(before.files, run.secrets);
    assert path in between[env] && between[env][path] == id;
    if path !in after.files[env] {
      assert false;
    }
    assert after.files[env][path] == id;
  }

  /** Every entry that is neither key of the pair is as it was, in every file. */
  lemma OnlyThePairChanges(before: Snapshot, after: Snapshot, run: Steps, access: string, secret: string,
                           env: string, path: string)
    requires Orderly(before, after, run, access, secret)
    requires env in before.files && path != access && path != secret
    ensures env in after.files && (path in after.files[env] <==> path in before.files[env])
    ensures path in before.files[env] ==> after.files[env][path] == before.files[env][path]
  {
    OrderlyDrops(before, after, run, access, secret);
  }

  /** A state from which the id can still be read, or nothing is left to retire. */
  ghost predicate Recoverable(files: Files, access: string, secret: string) {
    Held(files, access) || !Held(files, secret)
  }

  /** Nothing was called and nothing changed: the refusals and answers given before the first request. */
  ghost predicate Untouched(before: Snapshot, after: Snapshot, run: Steps) {
    after == before && run.calls == [] && run.secrets == [] && run.ids == []
  }

  // ---------------------------------------------------------------- what the unsets do

  lemma GoneEverywhere(before: Files, after: Files, path: string)
    requires Dropped(before, after, path, Holding(before, path))
    requires forall env :: env in Holding(before, path) ==> path !in after[env]
    ensures !Held(after, path)
  {
    forall env | env in SOPS_FILES
      ensures Show(after, env, path) == None
    {
      assert env in Holding(before, path) <==> Show(before, env, path).Some?;
    }
    HoldingNone(after, path, SOPS_FILES);
  }

  lemma StaysGone(before: Files, after: Files, path: string, dropped: string, done: seq<string>)
    requires Dropped(before, after, dropped, done) && !Held(before, path)
    ensures !Held(after, path)
  {
    forall env | env in SOPS_FILES
      ensures Show(after, env, path) == None
    {
      assert env in Holding(before, path) <==> Show(before, env, path).Some?;
    }
    HoldingNone(after, path, SOPS_FILES);
  }

  lemma UnsetFromOneMore(events: seq<Event>, e: Event, path: string, envs: seq<string>)
    requires UnsetFromFirst(events, path, envs, |events|) && |events| < |envs|
    requires e.KeyUnset? && e.path == path && e.env == envs[|events|]
    ensures UnsetFrom(events + [e], path, envs)
    ensures e.ok ==> UnsetFromFirst(events + [e], path, envs, |events| + 1)
  {
  }

  /** Where no unset claims what it did not do, the id is readable until both keys are gone. */
  lemma HonestForgets(before: Files, after: Files, secrets: seq<Event>, ids: seq<Event>, access: string, secret: string)
    requires access != secret && Held(before, access)
    requires Forgets(before, after, secrets, ids, access, secret)
    ensures Honest(secrets + ids) ==> Recoverable(after, access, secret)
    ensures (&& Honest(secrets + ids) && UnsetFromAll(secrets, secret, Holding(before, secret))
             && UnsetFromAll(ids, access, Holding(before, access))) ==>
      !Held(after, access) && !Held(after, secret)
  {
    var between, holdSecret, holdAccess := Unset(before, secrets), Holding(before, secret), Holding(before, access);
    HoldingIsThere(before, secret);
    HoldingIsThere(before, access);
    UnsetDrops(before, secrets, secret, holdSecret);
    UnsetDrops(between, ids, access, holdAccess);
    HoldingSame(before, between, access, SOPS_FILES);
    if Honest(secrets + ids) && UnsetFromAll(secrets, secret, holdSecret) {
      AllGone(before, secrets, secret);
      StaysGone(between, after, secret, access, holdAccess);
      if UnsetFromAll(ids, access, holdAccess) {
        AllGone(between, ids, access);
      }
    }
  }

  /** Unset from every file that held it, honestly: no file holds it. */
  lemma AllGone(files: Files, events: seq<Event>, path: string)
    requires UnsetFromAll(events, path, Holding(files, path)) && Honest(events)
    ensures !Held(Unset(files, events), path)
  {
    var envs := Holding(files, path);
    HoldingIsThere(files, path);
    UnsetDrops(files, events, path, envs);
    forall env | env in envs
      ensures path !in Unset(files, events)[env]
    {
      var i :| 0 <= i < |envs| && envs[i] == env;
      assert events[i].landed;
    }
    GoneEverywhere(files, Unset(files, events), path);
  }

  // ---------------------------------------------------------------- what the run does

  function Snap(s: State): Snapshot {
    Snapshot(s.tokens, s.files)
  }

  /** What was sent between two states. */
  function Since(s: State, t: State): seq<Event> {
    if |s.trace| <= |t.trace| then t.trace[|s.trace|..] else []
  }

  /** No call claims a success it does not have. */
  predicate NoPretence(s: State) {
    Pretend !in s.weather
  }

  lemma ReadFileMeans(s: State, env: string)
    ensures var (ok, t) := ReadFile(s, env);
            && t == s.(weather := t.weather) && (NoPretence(s) ==> NoPretence(t))
            && (s.weather == [] ==> t.weather == [] && ok)
  {
  }

  lemma {:induction false} OpenMeans(s: State, n: nat)
    requires n <= |SOPS_FILES|
    ensures var (ok, t) := OpenFirst(s, n);
            && t == s.(weather := t.weather) && (NoPretence(s) ==> NoPretence(t))
            && (s.weather == [] ==> t.weather == [] && ok)
  {
    if n > 0 {
      OpenMeans(s, n - 1);
      ReadFileMeans(OpenFirst(s, n - 1).1, SOPS_FILES[n - 1]);
    }
  }

  /** One unset is in the trace with what it did, which is all that happens to the files. */
  lemma UnsetOneMeans(s: State, env: string, path: string)
    requires env in s.files
    ensures Since(s, UnsetOne(s, env, path).1) == [UnsetEvent(s, env, path)]
    ensures var (answer, t) := UnsetOne(s, env, path);
            var e := UnsetEvent(s, env, path);
            && t.trace == s.trace + [e] && e.env == env && e.path == path
            && t.files == (if e.landed then s.files[env := s.files[env] - {path}] else s.files)
            && t.tokens == s.tokens
            && (answer == Some(true) ==> e.ok) && (NoPretence(s) ==> NoPretence(t) && (e.ok ==> e.landed))
            && (s.weather == [] ==> t.weather == [] && answer == Some(true))
  {
    var (ok, s1) := UnsetStep(s, env, path);
    ReadFileMeans(s1, env);
    assert path !in s.files[env] ==> s.files[env] - {path} == s.files[env];
  }

  function UnsetEvent(s: State, env: string, path: string): (e: Event)
    requires env in s.files
    ensures e.KeyUnset?
  {
    var (ok, t) := UnsetStep(s, env, path);
    KeyUnset(env, path, ok, path !in t.files[env])
  }

  /** Why an unset ends the run: its file could not be read again, or else its own answer was false. */
  lemma WhyAnUnsetRefuses(s: State, env: string, path: string)
    requires env in s.files
    ensures var refusal := Refusing(UnsetOne(s, env, path).0);
            && (refusal == Some(Undecryptable) <==> !Opens(Now(Later(s))))
            && (refusal == Some(UnsetFailed) <==> Opens(Now(Later(s))) && !Opens(Now(s)))
            && (refusal == None <==> Opens(Now(Later(s))) && Opens(Now(s)))
  {
  }

  /** What the unsets of the first `n` files send, and what they make of the files. */
  ghost predicate Unsets(s: State, refusal: Option<Refusal>, t: State, path: string, envs: seq<string>, n: nat) {
    var sent := Since(s, t);
    && t.trace == s.trace + sent && t.files == Unset(s.files, sent) && t.tokens == s.tokens
    && t.files.Keys == s.files.Keys
    && UnsetFrom(sent, path, envs) && (refusal == None ==> UnsetFromFirst(sent, path, envs, n))
    && (refusal.Some? ==> refusal.value == UnsetFailed || refusal.value == Undecryptable)
    && (NoPretence(s) ==> NoPretence(t) && Honest(sent))
    && (s.weather == [] ==> t.weather == [] && refusal == None)
  }

  lemma UnsetsOneMore(s: State, s1: State, t: State, path: string, envs: seq<string>, n: nat, answer: Option<bool>)
    requires n < |envs| && Unsets(s, None, s1, path, envs, n) && envs[n] in s1.files
    requires UnsetOne(s1, envs[n], path) == (answer, t)
    ensures Unsets(s, Refusing(answer), t, path, envs, n + 1)
  {
    UnsetOneMeans(s1, envs[n], path);
    var e := UnsetEvent(s1, envs[n], path);
    UnsetFromOneMore(Since(s, s1), e, path, envs);
    Assoc(s.trace, Since(s, s1), [e]);
    assert Since(s, t) == Since(s, s1) + [e];
    assert (Since(s, s1) + [e])[..n] == Since(s, s1);
  }

  lemma NothingUnset(s: State, path: string, envs: seq<string>)
    returns (refusal: Option<Refusal>, t: State)
    requires forall env :: env in envs ==> env in s.files
    ensures UnsetFirst(s, path, envs, 0) == (refusal, t) && Unsets(s, refusal, t, path, envs, 0)
  {
    assert s.trace + [] == s.trace;
    refusal, t := None, s;
  }

  lemma UnsetsStay(s: State, refusal: Option<Refusal>, t: State, path: string, envs: seq<string>, n: nat)
    requires Unsets(s, refusal, t, path, envs, n) && refusal.Some?
    ensures Unsets(s, refusal, t, path, envs, n + 1)
  {
  }

  lemma UnsetsStep(s: State, path: string, envs: seq<string>, n: nat, refusal: Option<Refusal>, s1: State)
    returns (later: Option<Refusal>, t: State)
    requires n < |envs| && forall env :: env in envs ==> env in s.files
    requires UnsetFirst(s, path, envs, n) == (refusal, s1) && Unsets(s, refusal, s1, path, envs, n)
    ensures UnsetFirst(s, path, envs, n + 1) == (later, t) && Unsets(s, later, t, path, envs, n + 1)
  {
    if refusal == None {
      assert envs[n] in envs;
      var (answer, s2) := UnsetOne(s1, envs[n], path);
      UnsetNext(s, path, envs, n, s1);
      UnsetsOneMore(s, s1, s2, path, envs, n, answer);
      later, t := Refusing(answer), s2;
    } else {
      UnsetsStay(s, refusal, s1, path, envs, n);
      later, t := refusal, s1;
    }
  }

  lemma {:induction false} UnsetsMean(s: State, path: string, envs: seq<string>, n: nat)
    returns (refusal: Option<Refusal>, t: State)
    requires n <= |envs| && forall env :: env in envs ==> env in s.files
    ensures UnsetFirst(s, path, envs, n) == (refusal, t) && Unsets(s, refusal, t, path, envs, n)
  {
    if n == 0 {
      refusal, t := NothingUnset(s, path, envs);
    } else {
      refusal, t := UnsetsMean(s, path, envs, n - 1);
      refusal, t := UnsetsStep(s, path, envs, n - 1, refusal, t);
    }
  }

  /** The unsets of the secret and of the id that `Forget` sends. */
  function ForgetSteps(s: State, access: string, secret: string): (seq<Event>, seq<Event>) {
    HoldingIsThere(s.files, secret);
    var (early, s1) := UnsetEach(s, secret, Holding(s.files, secret));
    (Since(s, s1), if early.Some? then [] else Since(s1, Forget(s, access, secret).1))
  }

  /** What the forgetting half does. */
  ghost predicate Forgot(s: State, refusal: Option<Refusal>, t: State, secrets: seq<Event>, ids: seq<Event>,
                         access: string, secret: string)
  {
    && t.trace == s.trace + secrets + ids && t.tokens == s.tokens
    && Forgets(s.files, t.files, secrets, ids, access, secret)
    && (refusal == None ==> !Held(t.files, access) && !Held(t.files, secret))
    && (refusal.Some? ==> Late(refusal.value))
    && (NoPretence(s) ==> NoPretence(t) && Honest(secrets + ids) && Recoverable(t.files, access, secret))
    && (s.weather == [] ==> t.weather == [] && refusal == None)
  }

  lemma ForgetMeans(s: State, access: string, secret: string)
    requires access != secret && Held(s.files, access)
    ensures var (refusal, t) := Forget(s, access, secret);
            var (secrets, ids) := ForgetSteps(s, access, secret);
            Forgot(s, refusal, t, secrets, ids, access, secret)
  {
    var holdAccess, holdSecret := Holding(s.files, access), Holding(s.files, secret);
    HoldingIsThere(s.files, secret);
    HoldingIsThere(s.files, access);
    var (early, s1) := UnsetEach(s, secret, holdSecret);
    var _, _ := UnsetsMean(s, secret, holdSecret, |holdSecret|);
    if early.Some? {
      EarlyForgets(s, early, s1, access, secret);
    } else {
      var (late, t) := UnsetEach(s1, access, holdAccess);
      var _, _ := UnsetsMean(s1, access, holdAccess, |holdAccess|);
      LateForgets(s, s1, late, t, access, secret);
    }
  }

  /** An unset of the secret failed, so none of the id was sent. */
  lemma EarlyForgets(s: State, refusal: Option<Refusal>, t: State, access: string, secret: string)
    requires access != secret && Held(s.files, access) && refusal.Some?
    requires Unsets(s, refusal, t, secret, Holding(s.files, secret), |Holding(s.files, secret)|)
    ensures Forgot(s, refusal, t, Since(s, t), [], access, secret)
  {
    HonestForgets(s.files, t.files, Since(s, t), [], access, secret);
    assert Since(s, t) + [] == Since(s, t);
    assert s.trace + Since(s, t) + [] == s.trace + Since(s, t);
  }

  /** Every unset of the secret answered true, so those of the id were sent. */
  lemma LateForgets(s: State, s1: State, late: Option<Refusal>, t: State, access: string, secret: string)
    requires access != secret && Held(s.files, access)
    requires Unsets(s, None, s1, secret, Holding(s.files, secret), |Holding(s.files, secret)|)
    requires Unsets(s1, late, t, access, Holding(s.files, access), |Holding(s.files, access)|)
    ensures var held := Held(t.files, access) || Held(t.files, secret);
            Forgot(s, if late.Some? then late else if held then Some(StillInSops) else None, t,
                   Since(s, s1), Since(s1, t), access, secret)
  {
    HonestForgets(s.files, t.files, Since(s, s1), Since(s1, t), access, secret);
    assert NoPretence(s) ==> Honest(Since(s, s1) + Since(s1, t));
  }

  /** What DELETE and proof do: calls about one token, and a proven 404 or a refusal. */
  lemma RevokeMeans(s: State, id: Value)
    ensures var (refusal, t) := Revoke(s, id);
            var calls := Since(s, t);
            && t.trace == s.trace + calls && (forall e :: e in calls ==> e.TokenRead? || e.TokenDeleted?)
            && t.files == s.files && (t.tokens == s.tokens || t.tokens == s.tokens - {id})
            && (refusal == None ==> id !in t.tokens && calls != [] && calls[|calls| - 1] == TokenRead(id, NotFound))
            && (refusal.Some? ==> Middle(refusal.value)) && (refusal == Some(StillThere) ==> id in t.tokens)
            && (NoPretence(s) ==> NoPretence(t))
            && (s.weather == [] && id in s.tokens ==> t.weather == [] && refusal == None)
  {
    var (reply, s1) := DeleteStep(s, id);
    var t := Revoke(s, id).1;
    assert id !in s.tokens ==> s.tokens - {id} == s.tokens;
    if reply != Done {
      assert Since(s, t) == [TokenDeleted(id, id !in s1.tokens)];
    } else {
      var again := GetStep(s1, id).0;
      Assoc(s.trace, [TokenDeleted(id, id !in s1.tokens)], [TokenRead(id, again)]);
      assert Since(s, t) == [TokenDeleted(id, id !in s1.tokens), TokenRead(id, again)];
    }
  }

  /**
   * What a run that asked about `id` answers, and what it leaves. `calm`: nothing fails; `honest`: no
   * call claims a success it did not have.
   */
  ghost predicate Settled(before: Snapshot, after: Snapshot, calm: bool, honest: bool, r: Outcome, id: Value,
                          access: string, secret: string, apply: bool, forget: bool)
  {
    && r != Absent && (r.Refused? ==> !Early(r.why))
    && (r == Planned ==> !apply)
    && (r == Refused(TokenUnknown) ==> !forget && id !in after.tokens)
    && (r.Revoked? || r.Forgotten? ==>
          apply && id !in after.tokens && !Held(after.files, access) && !Held(after.files, secret))
    && (r.Revoked? ==> id in before.tokens)
    && (r.Forgotten? ==> id !in before.tokens && forget)
    && (!apply || r == Refused(ReadFailed) || r == Refused(TokenUnknown) ==> after == before)
    && (r.Refused? && !Late(r.why) ==> after.files == before.files)
    && (honest ==> Recoverable(after.files, access, secret))
    && (!forget && id !in before.tokens ==> after == before)
    && (calm && apply ==>
          r == if id in before.tokens then Revoked else if forget then Forgotten else Refused(TokenUnknown))
  }

  lemma SettledAsItWas(before: Snapshot, calm: bool, honest: bool, r: Outcome, id: Value, access: string,
                       secret: string, apply: bool, forget: bool)
    requires Agreed(before.files, access, id)
    requires (r == Planned && !apply) || (r == Refused(ReadFailed) && !calm)
             || (r == Refused(TokenUnknown) && !forget && id !in before.tokens)
    requires r == Planned && !forget ==> id in before.tokens
    ensures Settled(before, before, calm, honest, r, id, access, secret, apply, forget)
  {
  }

  /** The calls a run makes, half by half. */
  function StepsOf(s: State, access: string, secret: string, id: Value, apply: bool, forget: bool): Steps {
    var (reply, s1) := GetStep(s, id);
    if (reply != Done && reply != NotFound) || (reply == NotFound && !forget) || !apply then
      Steps([TokenRead(id, reply)], [], [], id)
    else
      var (refusal, s2) := if reply == Done then Revoke(s1, id) else (None, s1);
      var (secrets, ids) := if refusal.Some? then ([], []) else ForgetSteps(s2, access, secret);
      Steps(Since(s, s2), secrets, ids, id)
  }

  /** Everything a run that asked about `id` did. */
  ghost predicate Ran(s: State, r: Outcome, t: State, run: Steps, access: string, secret: string) {
    && Orderly(Snap(s), Snap(t), run, access, secret) && t.trace == s.trace + Sent(run)
    && (NoPretence(s) ==> NoPretence(t) && Honest(Sent(run)))
  }

  lemma RetireIdMeans(s: State, access: string, secret: string, id: Value, apply: bool, forget: bool)
    requires access != secret && Agreed(s.files, access, id)
    ensures var (r, t) := RetireId(s, access, secret, id, apply, forget);
            && Ran(s, r, t, StepsOf(s, access, secret, id, apply, forget), access, secret)
            && Settled(Snap(s), Snap(t), s.weather == [], NoPretence(s), r, id, access, secret, apply, forget)
  {
    var (reply, s1) := GetStep(s, id);
    var (r, t) := RetireId(s, access, secret, id, apply, forget);
    if (reply != Done && reply != NotFound) || (reply == NotFound && !forget) || !apply {
      OnlyCalls(Snap(s), Snap(t), [TokenRead(id, reply)], id, access, secret);
      SettledAsItWas(Snap(s), s.weather == [], NoPretence(s), r, id, access, secret, apply, forget);
    } else if reply == Done {
      KnownIsRetired(s, s1, access, secret, id, forget);
    } else {
      UnknownIsForgotten(s, access, secret, id);
    }
  }

  /** With the token unknown the run is the forgetting, and its steps are those. */
  lemma UnknownSteps(s: State, access: string, secret: string, id: Value)
    requires GetStep(s, id).0 == NotFound
    ensures var s1 := GetStep(s, id).1;
            var (late, t) := Forget(s1, access, secret);
            && RetireId(s, access, secret, id, true, true)
               == (if late.Some? then Refused(late.value) else Forgotten, t)
            && StepsOf(s, access, secret, id, true, true)
               == Steps(Since(s, s1), ForgetSteps(s1, access, secret).0, ForgetSteps(s1, access, secret).1, id)
  {
  }

  lemma UnknownIsForgotten(s: State, access: string, secret: string, id: Value)
    requires access != secret && Agreed(s.files, access, id) && GetStep(s, id).0 == NotFound
    ensures var (r, t) := RetireId(s, access, secret, id, true, true);
            && Ran(s, r, t, StepsOf(s, access, secret, id, true, true), access, secret)
            && Settled(Snap(s), Snap(t), s.weather == [], NoPretence(s), r, id, access, secret, true, true)
  {
    var s1 := GetStep(s, id).1;
    assert Since(s, s1) == [TokenRead(id, NotFound)];
    UnknownSteps(s, access, secret, id);
    ForgetMeans(s1, access, secret);
    var forgotten, steps := Forget(s1, access, secret), ForgetSteps(s1, access, secret);
    GoneIsForgotten(s, s1, forgotten.0, forgotten.1, steps.0, steps.1, access, secret, id, true, Forgotten);
  }

  /** The account knew the token: DELETE, proof, and the forgetting if the proof came. */
  lemma KnownIsRetired(s: State, s1: State, access: string, secret: string, id: Value, forget: bool)
    requires access != secret && Agreed(s.files, access, id) && GetStep(s, id) == (Done, s1)
    ensures var (r, t) := RetireId(s, access, secret, id, true, forget);
            && Ran(s, r, t, StepsOf(s, access, secret, id, true, forget), access, secret)
            && Settled(Snap(s), Snap(t), s.weather == [], NoPretence(s), r, id, access, secret, true, forget)
  {
    var (refusal, s2) := Revoke(s1, id);
    CallsTogether(s, s1, s2, id, refusal);
    if refusal.Some? {
      MiddleIsSettled(s, s2, refusal.value, Since(s, s2), id, access, secret, forget);
    } else {
      ForgetMeans(s2, access, secret);
      var (secrets, ids) := ForgetSteps(s2, access, secret);
      var (late, t) := Forget(s2, access, secret);
      GoneIsForgotten(s, s2, late, t, secrets, ids, access, secret, id, forget, Revoked);
    }
  }

  /** The first read and the DELETE with its proof. */
  lemma CallsTogether(s: State, s1: State, s2: State, id: Value, refusal: Option<Refusal>)
    requires GetStep(s, id) == (Done, s1) && Revoke(s1, id) == (refusal, s2)
    ensures Called(s, s2, id, refusal == None)
    ensures id in s.tokens && (refusal.Some? ==> Middle(refusal.value) && s.weather != [])
  {
    RevokeMeans(s1, id);
    Assoc(s.trace, [TokenRead(id, Done)], Since(s1, s2));
    assert Since(s, s2) == [TokenRead(id, Done)] + Since(s1, s2);
  }

  /** Calls about one token were sent and nothing was unset. `gone`: the last answer was a 404. */
  ghost predicate Called(s: State, t: State, id: Value, gone: bool) {
    var calls := Since(s, t);
    && t.trace == s.trace + calls && (forall e :: e in calls ==> e.TokenRead? || e.TokenDeleted?)
    && t.files == s.files && (t.tokens == s.tokens || t.tokens == s.tokens - {id})
    && (gone ==> id !in t.tokens && calls != [] && calls[|calls| - 1] == TokenRead(id, NotFound))
    && (NoPretence(s) ==> NoPretence(t)) && (gone && s.weather == [] ==> t.weather == [])
  }

  lemma MiddleIsSettled(s: State, t: State, why: Refusal, calls: seq<Event>, id: Value, access: string, secret: string,
                        forget: bool)
    requires Agreed(s.files, access, id) && id in s.tokens && s.weather != [] && Middle(why)
    requires Called(s, t, id, false) && calls == Since(s, t)
    ensures Ran(s, Refused(why), t, Steps(calls, [], [], id), access, secret)
    ensures Settled(Snap(s), Snap(t), s.weather == [], NoPretence(s), Refused(why), id, access, secret, true, forget)
  {
    OnlyCalls(Snap(s), Snap(t), calls, id, access, secret);
  }

  /** From a proven 404 on: the forgetting, put together with the calls before it. */
  lemma GoneIsForgotten(s: State, s2: State, late: Option<Refusal>, t: State, secrets: seq<Event>, ids: seq<Event>,
                        access: string, secret: string, id: Value, forget: bool, done: Outcome)
    requires access != secret && Agreed(s.files, access, id)
    requires Called(s, s2, id, true)
    requires Forgot(s2, late, t, secrets, ids, access, secret)
    requires done == (if id in s.tokens then Revoked else Forgotten) && (id in s.tokens || forget)
    ensures var run := Steps(Since(s, s2), secrets, ids, id);
            var r := if late.Some? then Refused(late.value) else done;
            Ran(s, r, t, run, access, secret)
            && Settled(Snap(s), Snap(t), s.weather == [], NoPretence(s), r, id, access, secret, true, forget)
  {
    var calls := Since(s, s2);
    assert AnsweredGone(calls, id);
    Assoc(s.trace, calls, secrets);
    Assoc(s.trace, calls + secrets, ids);
  }

  /** The calls of one command. */
  function CommandSteps(s: State, prefix: string, catalog: set<string>, apply: bool, forget: bool): Steps {
    var (ok, s1) := OpenFirst(s, |SOPS_FILES|);
    if !ok then Steps([], [], [], Text(""))
    else match Judge(s.files, prefix, catalog)
      case Stop(_) => Steps([], [], [], Text(""))
      case Ask(id) => StepsOf(s1, PairPaths(prefix).0, PairPaths(prefix).1, id, apply, forget)
  }

  /**
   * The whole command, for every outcome of every call: what it sends, what it leaves, and what it
   * answers. An unreadable file stops it before any request.
   */
  lemma RetiredMeans(s: State, prefix: string, catalog: set<string>, apply: bool, forget: bool)
    ensures var (r, t) := Retired(s, prefix, catalog, apply, forget);
            Ran(s, r, t, CommandSteps(s, prefix, catalog, apply, forget), PairPaths(prefix).0, PairPaths(prefix).1)
    ensures var (r, t) := Retired(s, prefix, catalog, apply, forget);
            var run := CommandSteps(s, prefix, catalog, apply, forget);
            (r == Refused(Undecryptable) && s.weather != [] && Untouched(Snap(s), Snap(t), run))
            || match Judge(s.files, prefix, catalog)
               case Stop(outcome) =>
                 r == outcome && Untouched(Snap(s), Snap(t), run)
               case Ask(id) =>
                 Settled(Snap(s), Snap(t), s.weather == [], NoPretence(s), r, id,
                         PairPaths(prefix).0, PairPaths(prefix).1, apply, forget)
  {
    var (ok, s1) := OpenFirst(s, |SOPS_FILES|);
    OpenMeans(s, |SOPS_FILES|);
    PathsDiffer(prefix);
    var judged := Judge(s.files, prefix, catalog);
    if ok && judged.Ask? {
      RetireIdMeans(s1, PairPaths(prefix).0, PairPaths(prefix).1, judged.id, apply, forget);
      var (r, t) := RetireId(s1, PairPaths(prefix).0, PairPaths(prefix).1, judged.id, apply, forget);
      Weaker(s, s1, r, t, judged.id, PairPaths(prefix).0, PairPaths(prefix).1, apply, forget);
    } else {
      assert s.trace + [] == s.trace;
    }
  }

  /** What is settled of a run with less to come in it is settled of one with more. */
  lemma Weaker(s: State, s1: State, r: Outcome, t: State, id: Value, access: string, secret: string, apply: bool,
               forget: bool)
    requires s1 == s.(weather := s1.weather) && (s.weather == [] ==> s1.weather == [])
    requires NoPretence(s) ==> NoPretence(s1)
    requires Settled(Snap(s1), Snap(t), s1.weather == [], NoPretence(s1), r, id, access, secret, apply, forget)
    ensures Settled(Snap(s), Snap(t), s.weather == [], NoPretence(s), r, id, access, secret, apply, forget)
  {
  }

  // ---------------------------------------------------------------- after a failure

  /** An unset path is gone from exactly the files whose unset landed. */
  lemma {:induction false} UnsetExactly(files: Files, events: seq<Event>, path: string, envs: seq<string>)
    requires UnsetFrom(events, path, envs) && Distinct(envs)
    requires forall env :: env in envs ==> env in files && path in files[env]
    ensures Unset(files, events).Keys == files.Keys
    ensures forall k :: 0 <= k < |envs| ==>
      (path in Unset(files, events)[envs[k]] <==> !(k < |events| && events[k].landed))
  {
    if events != [] {
      UnsetExactly(files, events[..|events| - 1], path, envs);
    }
  }

  lemma HeldMeans(files: Files, path: string)
    ensures Held(files, path) <==> exists env :: env in SOPS_FILES && Show(files, env, path).Some?
  {
    if Held(files, path) {
      assert Holding(files, path)[0] in Holding(files, path);
    }
  }

  /** Every file's unset landed, of those that held the path. */
  ghost predicate AllLanded(files: Files, events: seq<Event>, path: string) {
    |events| == |Holding(files, path)| && forall k :: 0 <= k < |events| ==> events[k].KeyUnset? && events[k].landed
  }

  /** So the key is held on exactly if the unset of some file was not sent or did not land. */
  lemma HeldOn(files: Files, events: seq<Event>, path: string)
    requires UnsetFrom(events, path, Holding(files, path))
    ensures Held(Unset(files, events), path) <==> !AllLanded(files, events, path)
  {
    var envs, after := Holding(files, path), Unset(files, events);
    HoldingIsThere(files, path);
    HoldingDistinct(files, path, SOPS_FILES);
    UnsetExactly(files, events, path, envs);
    UnsetDrops(files, events, path, envs);
    HeldMeans(after, path);
    if AllLanded(files, events, path) {
      GoneEverywhere(files, after, path);
    } else {
      var k :| 0 <= k < |envs| && !(k < |events| && events[k].landed);
      assert envs[k] in envs && after[envs[k]] == files[envs[k]];
    }
  }

  /**
   * A rerun is stuck exactly if the id was unset for good from every file while an unset of the secret
   * answered true and left it.
   */
  lemma WhenARerunIsStuck(before: Snapshot, after: Snapshot, run: Steps, access: string, secret: string)
    requires access != secret && Orderly(before, after, run, access, secret) && Held(before.files, access)
    ensures !Recoverable(after.files, access, secret) <==>
      && AllLanded(before.files, run.ids, access)
      && exists k :: 0 <= k < |run.secrets| && run.secrets[k].ok && !run.secrets[k].landed
  {
    WhenFilesAreStuck(before.files, after.files, run.secrets, run.ids, access, secret);
  }

  lemma IdHeldAfter(before: Files, between: Files, secrets: seq<Event>, ids: seq<Event>, access: string, secret: string)
    requires access != secret && between == Unset(before, secrets)
    requires UnsetFrom(secrets, secret, Holding(before, secret)) && UnsetFrom(ids, access, Holding(before, access))
    ensures UnsetFrom(ids, access, Holding(between, access))
    ensures Held(Unset(between, ids), access) <==> !AllLanded(before, ids, access)
  {
    HoldingIsThere(before, secret);
    UnsetDrops(before, secrets, secret, Holding(before, secret));
    HoldingSame(before, between, access, SOPS_FILES);
    HeldOn(between, ids, access);
  }

  lemma SecretHeldAfter(before: Files, between: Files, secrets: seq<Event>, ids: seq<Event>, access: string,
                        secret: string)
    requires access != secret && between == Unset(before, secrets)
    requires UnsetFrom(secrets, secret, Holding(before, secret)) && UnsetFrom(ids, access, Holding(between, access))
    ensures Held(Unset(between, ids), secret) <==> !AllLanded(before, secrets, secret)
  {
    HeldOn(before, secrets, secret);
    HoldingIsThere(between, access);
    UnsetDrops(between, ids, access, Holding(between, access));
    HoldingSame(between, Unset(between, ids), secret, SOPS_FILES);
  }

  lemma WhenFilesAreStuck(before: Files, after: Files, secrets: seq<Event>, ids: seq<Event>, access: string,
                          secret: string)
    requires access != secret && Forgets(before, after, secrets, ids, access, secret) && Held(before, access)
    ensures !Recoverable(after, access, secret) <==>
      && AllLanded(before, ids, access)
      && exists k :: 0 <= k < |secrets| && secrets[k].ok && !secrets[k].landed
  {
    var between := Unset(before, secrets);
    IdHeldAfter(before, between, secrets, ids, access, secret);
    SecretHeldAfter(before, between, secrets, ids, access, secret);
  }

  lemma AgreedStays(before: Snapshot, after: Snapshot, run: Steps, access: string, secret: string, id: Value)
    requires access != secret
    requires Orderly(before, after, run, access, secret) && Agreed(before.files, access, id)
    ensures Held(after.files, access) ==> Agreed(after.files, access, id)
    ensures !Held(after.files, access) ==> id !in after.tokens
  {
    OrderlyDrops(before, after, run, access, secret);
    forall env | env in Holding(after.files, access)
      ensures Show(after.files, env, access) == Some(id)
    {
      assert Show(before.files, env, access) == Show(after.files, env, access);
      assert env in Holding(before.files, access);
    }
    if run.ids == [] {
      HoldingSame(before.files, after.files, access, SOPS_FILES);
    } else {
      assert run.ids[0].env in Holding(before.files, access);
    }
  }

  /**
   * A run that may fail anywhere, then a rerun in which nothing fails. The rerun finishes exactly when
   * the first run left the id readable or left nothing, and every run does that in which no call
   * claimed a success it did not have: that is what unsetting the id last is for.
   */
  lemma RetireThenRerun(s: State, prefix: string, catalog: set<string>, apply: bool, forget: bool, id: Value)
    requires Uncatalogued(catalog, prefix) && Agreed(s.files, PairPaths(prefix).0, id)
    ensures var between := Retired(s, prefix, catalog, apply, forget).1;
            var (second, t) := Retired(between.(weather := []), prefix, catalog, true, true);
            var recoverable := Recoverable(between.files, PairPaths(prefix).0, PairPaths(prefix).1);
            && (NoPretence(s) ==> recoverable)
            && (!PairHeld(t.files, prefix) <==> recoverable)
            && (recoverable ==> id !in t.tokens)
            && (!recoverable ==> second == Refused(IdMissing))
  {
    var (access, secret) := PairPaths(prefix);
    var between := Retired(s, prefix, catalog, apply, forget).1;
    PathsDiffer(prefix);
    JudgeMeans(s.files, prefix, catalog);
    RetiredMeans(s, prefix, catalog, apply, forget);
    AgreedStays(Snap(s), Snap(between), CommandSteps(s, prefix, catalog, apply, forget), access, secret, id);
    CalmRerun(between.(weather := []), prefix, catalog, id);
  }

  /** The rerun: where a copy of the id is left it is the one, and where none is the token is dead. */
  lemma CalmRerun(s: State, prefix: string, catalog: set<string>, id: Value)
    requires s.weather == [] && Uncatalogued(catalog, prefix)
    requires Held(s.files, PairPaths(prefix).0) ==> Agreed(s.files, PairPaths(prefix).0, id)
    requires !Held(s.files, PairPaths(prefix).0) ==> id !in s.tokens
    ensures var (r, t) := Retired(s, prefix, catalog, true, true);
            var recoverable := Recoverable(s.files, PairPaths(prefix).0, PairPaths(prefix).1);
            && (!PairHeld(t.files, prefix) <==> recoverable)
            && (recoverable ==> id !in t.tokens)
            && (!recoverable ==> r == Refused(IdMissing))
  {
    JudgeMeans(s.files, prefix, catalog);
    RetiredMeans(s, prefix, catalog, true, true);
  }

  /**
   * The one way to lose the handle on a live credential, known to the code's own message: the account
   * endpoint answers 404 for a user token, so forgetting one unsets the id while the token lives. It
   * happens exactly when the id is a user token's and `forget` was passed.
   */
  lemma OnlyAForgottenUserTokenIsLost(before: Snapshot, after: Snapshot, run: Steps, r: Outcome,
                                      calm: bool, honest: bool, hidden: set<Value>, id: Value,
                                      access: string, secret: string, apply: bool, forget: bool)
    requires access != secret && before.tokens.Keys !! hidden
    requires Agreed(before.files, access, id)
    requires Orderly(before, after, run, access, secret)
    requires Settled(before, after, calm, honest, r, id, access, secret, apply, forget)
    ensures !Held(after.files, access) && id in after.tokens.Keys + hidden ==> id in hidden && apply && forget
    ensures calm && apply ==>
      (!Held(after.files, access) && id in after.tokens.Keys + hidden <==> id in hidden && forget)
  {
    AgreedStays(before, after, run, access, secret, id);
  }

  // ---------------------------------------------------------------- the prefix in the wrong spelling

  /** What stands between the name and the key, in the spelling that was not passed. */
  function OtherRun(tail: string): string {
    if tail != "" && tail[|tail| - 1] == '_' then "." else "_"
  }

  /** The key of a pair, from the name and what stands between. */
  function KeyAt(name: string, run: string, key: string): string {
    name + run + key
  }

  /** What was passed, between the name and the key. */
  function OwnRun(tail: string): string {
    if tail == "" then "." else tail
  }

  /** The two paths of each spelling. */
  lemma PathsOfBoth(name: string, tail: string)
    requires IsName(name) && IsTail(tail)
    ensures PairPaths(name + tail) == (KeyAt(name, OwnRun(tail), "access_key_id"),
                                       KeyAt(name, OwnRun(tail), "secret_access_key"))
    ensures PairPaths(OtherSpelling(name + tail)) == (KeyAt(name, OtherRun(tail), "access_key_id"),
                                                      KeyAt(name, OtherRun(tail), "secret_access_key"))
  {
    PairPathsAre(name, tail);
    OtherSpellingIs(name, tail);
    if OtherRun(tail) == "." {
      PairPathsAre(name, "");
      assert name + "" == name;
    } else {
      PairPathsAre(name, "_");
    }
  }

  lemma PairStands(files: Files, prefix: string)
    ensures PairHeld(files, prefix) <==>
      Stands(files, PairPaths(prefix).0) || Stands(files, PairPaths(prefix).1)
  {
    HeldIffStands(files, PairPaths(prefix).0);
    HeldIffStands(files, PairPaths(prefix).1);
  }

  lemma JudgedAbsent(files: Files, name: string, tail: string, catalog: set<string>)
    requires IsName(name) && IsTail(tail)
    requires KeyAt(name, OwnRun(tail), "access_key_id") !in catalog
    requires KeyAt(name, OwnRun(tail), "secret_access_key") !in catalog
    requires !Stands(files, KeyAt(name, OwnRun(tail), "access_key_id"))
    requires !Stands(files, KeyAt(name, OwnRun(tail), "secret_access_key"))
    ensures var elsewhere := Stands(files, KeyAt(name, OtherRun(tail), "access_key_id"))
                             || Stands(files, KeyAt(name, OtherRun(tail), "secret_access_key"));
            Judge(files, name + tail, catalog) == Stop(if elsewhere then Refused(OtherSpellingHeld) else Absent)
  {
    PathsOfBoth(name, tail);
    PairStands(files, name + tail);
    PairStands(files, OtherSpelling(name + tail));
    JudgeMeans(files, name + tail, catalog);
  }

  /**
   * Where no key of the pair stands as it was spelled: `absent` exactly if none stands in the other
   * spelling either, and otherwise a refusal that says so; nothing is sent and nothing changes.
   */
  lemma WhenAPairIsAbsent(s: State, name: string, tail: string, catalog: set<string>, apply: bool, forget: bool)
    requires IsName(name) && IsTail(tail)
    requires KeyAt(name, OwnRun(tail), "access_key_id") !in catalog
    requires KeyAt(name, OwnRun(tail), "secret_access_key") !in catalog
    requires !Stands(s.files, KeyAt(name, OwnRun(tail), "access_key_id"))
    requires !Stands(s.files, KeyAt(name, OwnRun(tail), "secret_access_key"))
    ensures var (r, t) := Retired(s, name + tail, catalog, apply, forget);
            var elsewhere := Stands(s.files, KeyAt(name, OtherRun(tail), "access_key_id"))
                             || Stands(s.files, KeyAt(name, OtherRun(tail), "secret_access_key"));
            && (r == (if elsewhere then Refused(OtherSpellingHeld) else Absent)
                || (r == Refused(Undecryptable) && s.weather != []))
            && t.files == s.files && t.tokens == s.tokens && t.trace == s.trace
  {
    JudgedAbsent(s.files, name, tail, catalog);
    OpenMeans(s, |SOPS_FILES|);
  }

  /** The prefix `a.b` where only `a.b_access_key_id` stands, as the documentation of the two spellings warns. */
  lemma AWrongSpelling(s: State)
    requires s.weather == [] && s.files == map["common" := map["a.b_access_key_id" := Id(0)]]
    ensures Retired(s, "a.b", {}, true, true).0 == Refused(OtherSpellingHeld)
  {
    ThreeKeys();
    assert StandsIn(s.files, "common", KeyAt("a.b", "_", "access_key_id"));
    WhenAPairIsAbsent(s, "a.b", "", {}, true, true);
  }

  lemma ThreeKeys()
    ensures KeyAt("a.b", "_", "access_key_id") == "a.b_access_key_id" && "a.b" + "" == "a.b"
    ensures KeyAt("a.b", ".", "access_key_id") != "a.b_access_key_id"
    ensures KeyAt("a.b", ".", "secret_access_key") != "a.b_access_key_id"
    ensures "common" != "staging" && "common" != "prod"
  {
    assert KeyAt("a.b", ".", "access_key_id")[3] == '.' && KeyAt("a.b", ".", "secret_access_key")[3] == '.';
    assert "a.b_access_key_id"[3] == '_' && "common"[0] == 'c' && "staging"[0] == 's' && "prod"[0] == 'p';
  }

  // ---------------------------------------------------------------- a run of each kind

  /** Any user token, forgotten with nothing failing: the account has none of that id, and the id is unset. */
  lemma AForgottenUserToken(s: State, prefix: string, catalog: set<string>, id: Value)
    requires s.weather == [] && Uncatalogued(catalog, prefix)
    requires Agreed(s.files, PairPaths(prefix).0, id) && id !in s.tokens
    ensures var (r, t) := Retired(s, prefix, catalog, true, true);
            && r == Forgotten && t.tokens == s.tokens && !PairHeld(t.files, prefix)
  {
    JudgeMeans(s.files, prefix, catalog);
    RetiredMeans(s, prefix, catalog, true, true);
    assert s.tokens - {id} == s.tokens;
  }

  /** A state in which common's is the one file. */
  function OneFile(keys: Keys, tokens: map<Value, set<string>>, weather: seq<Weather>): State {
    State(tokens, {}, 1, map["common" := keys], weather, [])
  }

  lemma OnlyInCommon(keys: Keys, path: string)
    ensures Holding(map["common" := keys], path)
         == if path in keys && Truthy(keys[path]) then ["common"] else []
  {
    var files := map["common" := keys];
    assert SOPS_FILES[1..] == ["staging", "prod"] && SOPS_FILES[1..][1..] == ["prod"] && ["prod"][1..] == [];
    assert "common"[0] == 'c' && "staging"[0] == 's' && "prod"[0] == 'p';
    assert Holding(files, path, ["prod"]) == [] && Holding(files, path, ["staging", "prod"]) == [];
  }

  /**
   * The unset of the secret answers true and does nothing, and the rest works: the id is gone, the secret
   * stands, and a rerun is refused for the missing id.
   */
  lemma AStuckRun(prefix: string, catalog: set<string>)
    requires Uncatalogued(catalog, prefix)
    ensures var (access, secret) := PairPaths(prefix);
            var s := OneFile(map[access := Id(0), secret := SecretOf(0)], map[], [Clear, Clear, Pretend]);
            var (r, t) := Retired(s, prefix, catalog, true, true);
            && r == Refused(StillInSops) && t.files == map["common" := map[secret := SecretOf(0)]]
            && t.trace == [TokenRead(Id(0), NotFound), KeyUnset("common", secret, true, false),
                           KeyUnset("common", access, true, true)]
            && Retired(t, prefix, catalog, true, true).0 == Refused(IdMissing)
  {
    var (access, secret) := PairPaths(prefix);
    PathsDiffer(prefix);
    var s := OneFile(map[access := Id(0), secret := SecretOf(0)], map[], [Clear, Clear, Pretend]);
    assert s.weather[1..] == [Clear, Pretend];
    OpensCommon(s);
    StuckPair(Later(s), prefix, catalog);
    var t := Retired(s, prefix, catalog, true, true).1;
    assert t.trace == [TokenRead(Id(0), NotFound), KeyUnset("common", secret, true, false),
                       KeyUnset("common", access, true, true)];
    OpensCommon(t);
    JudgedInCommon(map[secret := SecretOf(0)], prefix, catalog);
  }

  lemma StuckPair(s: State, prefix: string, catalog: set<string>)
    requires Uncatalogued(catalog, prefix) && s.weather == [Clear, Pretend] && s.tokens == map[]
    requires s.files == map["common" := map[PairPaths(prefix).0 := Id(0), PairPaths(prefix).1 := SecretOf(0)]]
    ensures var (access, secret) := PairPaths(prefix);
            RetirePair(s, prefix, catalog, true, true)
            == (Refused(StillInSops),
                s.(files := map["common" := map[secret := SecretOf(0)]], weather := [],
                   trace := s.trace + [TokenRead(Id(0), NotFound)] + [KeyUnset("common", secret, true, false)]
                            + [KeyUnset("common", access, true, true)]))
  {
    var (access, secret) := PairPaths(prefix);
    PathsDiffer(prefix);
    JudgedInCommon(s.files["common"], prefix, catalog);
    StuckId(s, access, secret);
  }

  lemma StuckId(s: State, access: string, secret: string)
    requires access != secret && s.weather == [Clear, Pretend] && s.tokens == map[]
    requires s.files == map["common" := map[access := Id(0), secret := SecretOf(0)]]
    ensures RetireId(s, access, secret, Id(0), true, true)
            == (Refused(StillInSops),
                s.(files := map["common" := map[secret := SecretOf(0)]], weather := [],
                   trace := s.trace + [TokenRead(Id(0), NotFound)] + [KeyUnset("common", secret, true, false)]
                            + [KeyUnset("common", access, true, true)]))
  {
    var (reply, s1) := GetStep(s, Id(0));
    assert reply == NotFound && s.weather[1..] == [Pretend];
    StuckUnsets(s1, access, secret);
  }

  lemma OpensCommon(s: State)
    requires s.files.Keys == {"common"} && Opens(Now(s))
    ensures OpenFirst(s, |SOPS_FILES|) == (true, Later(s))
  {
    assert "common"[0] == 'c' && "staging"[0] == 's' && "prod"[0] == 'p';
    assert OpenFirst(s, 0) == (true, s);
    assert OpenFirst(s, 1) == (true, Later(s));
    assert OpenFirst(s, 2) == (true, Later(s));
  }

  lemma JudgedInCommon(keys: Keys, prefix: string, catalog: set<string>)
    requires Uncatalogued(catalog, prefix)
    ensures var (access, secret) := PairPaths(prefix);
            && (access in keys && Truthy(keys[access]) ==>
                  Judge(map["common" := keys], prefix, catalog) == Ask(keys[access]))
            && (access !in keys && secret in keys && Truthy(keys[secret]) ==>
                  Judge(map["common" := keys], prefix, catalog) == Stop(Refused(IdMissing)))
  {
    var (access, secret) := PairPaths(prefix);
    OnlyInCommon(keys, access);
    OnlyInCommon(keys, secret);
    JudgeMeans(map["common" := keys], prefix, catalog);
  }

  lemma StuckSecretUnset(s: State, access: string, secret: string)
    requires access != secret && s.files == map["common" := map[access := Id(0), secret := SecretOf(0)]]
    requires s.weather == [Pretend]
    ensures UnsetEach(s, secret, ["common"])
         == (None, s.(weather := [], trace := s.trace + [KeyUnset("common", secret, true, false)]))
  {
    assert s.weather[1..] == [];
    assert UnsetFirst(s, secret, ["common"], 0) == (None, s);
  }

  lemma StuckIdUnset(s: State, access: string, secret: string)
    requires access != secret && s.files == map["common" := map[access := Id(0), secret := SecretOf(0)]]
    requires s.weather == []
    ensures UnsetEach(s, access, ["common"])
         == (None, s.(files := map["common" := map[secret := SecretOf(0)]],
                      trace := s.trace + [KeyUnset("common", access, true, true)]))
  {
    assert s.files["common"] - {access} == map[secret := SecretOf(0)];
    assert s.files["common" := map[secret := SecretOf(0)]] == map["common" := map[secret := SecretOf(0)]];
    assert UnsetFirst(s, access, ["common"], 0) == (None, s);
  }

  lemma StuckUnsets(s: State, access: string, secret: string)
    requires access != secret && s.files == map["common" := map[access := Id(0), secret := SecretOf(0)]]
    requires s.weather == [Pretend]
    ensures Forget(s, access, secret)
         == (Some(StillInSops),
             s.(files := map["common" := map[secret := SecretOf(0)]], weather := [],
                trace := s.trace + [KeyUnset("common", secret, true, false)]
                         + [KeyUnset("common", access, true, true)]))
  {
    var all, left := map[access := Id(0), secret := SecretOf(0)], map[secret := SecretOf(0)];
    OnlyInCommon(all, access);
    OnlyInCommon(all, secret);
    OnlyInCommon(left, access);
    OnlyInCommon(left, secret);
    StuckSecretUnset(s, access, secret);
    var s1 := s.(weather := [], trace := s.trace + [KeyUnset("common", secret, true, false)]);
    var t := s1.(files := map["common" := left], trace := s1.trace + [KeyUnset("common", access, true, true)]);
    StuckIdUnset(s1, access, secret);
    assert !Held(t.files, access) && Held(t.files, secret);
    assert UnsetEach(s1, access, ["common"]) == (None, t);
  }
}
