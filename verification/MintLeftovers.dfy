/**
 * What one mint can leave behind, and when: for each thing that must not happen, exactly the runs in
 * which it does. A run is told by its trace alone.
 */
module MintLeftovers {
  import opened Prelude
  import opened World
  import opened TokenMint
  import opened MintRuns
  import opened CalmRuns

  // ---------------------------------------------------------------- the trace tells the run

  /** Whether a run sent `e`, told by how far it came. */
  predicate SentBy(run: Run, new_: Value, file: string, e: Event) {
    match e
    case KeyShown(_, _, _, _) => e in run.looks
    case ShowRaised(_) => e in run.looks
    case TokenCreated(id, answered) => id == new_ && if answered then Answered(run.end) else run.end.Unanswered?
    case BucketListed(_, _, _) => Answered(run.end) && e in run.end.listings
    case KeysWritten(f, Yes, landed) => f == file && run.end.Stored? && landed
    case KeysWritten(f, No, landed) => f == file && run.end.WriteRefused? && run.end.landed == landed
    case KeysWritten(f, Thrown, landed) => f == file && run.end.WriteRaised? && run.end.landed == landed
    case TokenDeleted(id, gone) =>
      || (id == new_ && (run.end.ProofFailed? || run.end.WriteRefused?) && run.end.gone == gone)
      || (IdRead(run) == Some(id) && run.end.Stored? && run.end.replaced == Some(gone))
    case _ => false
  }

  predicate IsRead(e: Event) {
    e.KeyShown? || e.ShowRaised?
  }

  lemma BodyTells(run: Run, new_: Value, file: string, e: Event)
    requires Answered(run.end) ==> forall e :: e in run.end.listings ==> e.BucketListed?
    ensures e in Body(run.end, new_, IdRead(run), file) <==> SentBy(run, new_, file, e) && !IsRead(e)
  {
    if Answered(run.end) {
      assert e in Body(run.end, new_, IdRead(run), file) <==>
        e == TokenCreated(new_, true) || e in run.end.listings || e in Tail(run.end, new_, IdRead(run), file);
    }
  }

  /** What a run adds to the trace is what it sent, each call of it and nothing else. */
  ghost predicate Tells(sent: seq<Event>, run: Run, new_: Value, file: string) {
    forall e :: e in sent <==> SentBy(run, new_, file, e)
  }

  lemma TraceTells(s: State, r: Outcome, t: State, run: Run, granted: Grant, job: Job)
    requires Ran(s, r, t, run, granted, job)
    ensures Tells(t.trace[|s.trace|..], run, Id(s.nextId), job.pair.file)
  {
    var new_, file := Id(s.nextId), job.pair.file;
    var body := Body(run.end, new_, IdRead(run), file);
    assert t.trace[|s.trace|..] == run.looks + body;
    forall e
      ensures e in run.looks + body <==> SentBy(run, new_, file, e)
    {
      BodyTells(run, new_, file, e);
      assert e in run.looks ==> IsRead(e);
    }
  }

  // ---------------------------------------------------------------- what is live, and what is named

  /** `x` is written down at some key. */
  ghost predicate Named(files: Files, x: Value) {
    exists file, path :: file in files && path in files[file] && files[file][path] == x
  }

  lemma FreshIsUnnamed(s: State)
    requires Sound(s)
    ensures !Named(s.files, Id(s.nextId)) && Id(s.nextId) !in s.tokens
  {
  }

  predicate Undone(end: End) {
    (end.ProofFailed? || end.WriteRefused?) && end.gone
  }

  predicate ReplacedIt(run: Run, x: Value) {
    run.end.Stored? && run.end.replaced == Some(true) && IdRead(run) == Some(x)
  }

  /** Which tokens live after a run. */
  lemma LivesAfter(s: State, r: Outcome, t: State, run: Run, granted: Grant, job: Job, x: Value)
    requires Sound(s) && Did(s, r, t, run.end, IdRead(run), granted, job)
    ensures x == Id(s.nextId) && IdRead(run) != Some(x) ==> (x in t.tokens <==> !run.end.Stopped? && !Undone(run.end))
    ensures x in s.tokens ==> x != Id(s.nextId) && (x in t.tokens <==> !ReplacedIt(run, x))
  {
    FreshIsUnnamed(s);
  }

  /** An id that was read is written down, and so is no new one. */
  lemma ReadIsNamed(files: Files, run: Run, pair: Pair)
    requires LooksUp(run.looks, files, pair)
    ensures IdRead(run).Some? ==> Named(files, IdRead(run).value)
  {
  }

  /** The new pair is in its file, and names the new token. */
  ghost predicate PairNames(files: Files, pair: Pair, x: Value) {
    && pair.file in files && pair.access in files[pair.file] && files[pair.file][pair.access] == x
  }

  lemma NamedIffWrote(s: State, t: State, end: End, pair: Pair)
    requires Sound(s) && pair.access != pair.secret
    requires t.files == if Wrote(end) then Written(s.files, pair, s.nextId) else s.files
    ensures PairNames(t.files, pair, Id(s.nextId)) <==> Wrote(end)
    ensures Named(t.files, Id(s.nextId)) <==> Wrote(end)
  {
    FreshIsUnnamed(s);
    if Wrote(end) {
      assert t.files[pair.file][pair.access] == Id(s.nextId);
    }
  }

  /** The new token after a run: whether it lives, and whether it is written down. */
  lemma NewToken(s: State, r: Outcome, t: State, run: Run, granted: Grant, job: Job)
    requires Sound(s) && job.pair.access != job.pair.secret && Ran(s, r, t, run, granted, job)
    ensures Id(s.nextId) in t.tokens <==> !run.end.Stopped? && !Undone(run.end)
    ensures PairNames(t.files, job.pair, Id(s.nextId)) <==> Wrote(run.end)
    ensures Named(t.files, Id(s.nextId)) <==> Wrote(run.end)
  {
    NamedIffWrote(s, t, run.end, job.pair);
    ReadIsNamed(s.files, run, job.pair);
    FreshIsUnnamed(s);
    LivesAfter(s, r, t, run, granted, job, Id(s.nextId));
  }

  // Each of the results below is about every run of `MintIsARun`, and `sent` is what that run added to the trace.

  /**
   * The pair that was minted names a dead token exactly if a write that answered false had landed and
   * the DELETE that followed it took effect.
   */
  lemma WhenADeadTokenIsNamed(s: State, r: Outcome, t: State, run: Run, granted: Grant, job: Job)
    requires Sound(s) && job.pair.access != job.pair.secret && Ran(s, r, t, run, granted, job)
    ensures var new_, sent := Id(s.nextId), t.trace[|s.trace|..];
            PairNames(t.files, job.pair, new_) && new_ !in t.tokens <==>
            KeysWritten(job.pair.file, No, true) in sent && TokenDeleted(new_, true) in sent
  {
    NewToken(s, r, t, run, granted, job);
    TraceTells(s, r, t, run, granted, job);
    DeadTells(t.trace[|s.trace|..], run, Id(s.nextId), job.pair.file);
  }

  lemma DeadTells(sent: seq<Event>, run: Run, new_: Value, file: string)
    requires Tells(sent, run, new_, file)
    ensures KeysWritten(file, No, true) in sent && TokenDeleted(new_, true) in sent <==>
            run.end.WriteRefused? && run.end.landed && run.end.gone
  {
  }

  predicate Strands(end: End) {
    || end.Unanswered? || end.ListingRaised? || (end.WriteRaised? && !end.landed)
    || (end.ProofFailed? && !end.gone) || (end.WriteRefused? && !end.landed && !end.gone)
  }

  /** The trace of a run that leaves its token live and unnamed. */
  ghost predicate StrandsBy(sent: seq<Event>, new_: Value, file: string) {
    || TokenCreated(new_, false) in sent
    || (TokenDeleted(new_, false) in sent && KeysWritten(file, No, true) !in sent)
    || (exists bucket :: BucketListed(new_, bucket, ListRaised) in sent)
    || KeysWritten(file, Thrown, false) in sent
  }

  lemma ListingRaisedTells(sent: seq<Event>, run: Run, new_: Value, scope: set<string>, job: Job)
    requires Tells(sent, run, new_, job.pair.file) && Checked(run.end, new_, scope, job.readable, job.refused)
    ensures (exists bucket :: BucketListed(new_, bucket, ListRaised) in sent) <==> run.end.ListingRaised?
  {
    if run.end.ListingRaised? {
      var last := run.end.listings[|run.end.listings| - 1];
      assert last in run.end.listings && last == BucketListed(new_, last.bucket, ListRaised);
      assert SentBy(run, new_, job.pair.file, last);
    }
  }

  lemma StrandsTells(sent: seq<Event>, run: Run, new_: Value, scope: set<string>, job: Job)
    requires Tells(sent, run, new_, job.pair.file) && Checked(run.end, new_, scope, job.readable, job.refused)
    requires IdRead(run) != Some(new_)
    ensures StrandsBy(sent, new_, job.pair.file) <==> Strands(run.end)
  {
    ListingRaisedTells(sent, run, new_, scope, job);
  }

  /**
   * A live token is named nowhere exactly if its POST was never answered, or nothing was written and
   * its DELETE did not take effect, or a listing raised, or the write raised without landing.
   */
  lemma WhenALiveTokenIsUnnamed(s: State, r: Outcome, t: State, run: Run, granted: Grant, job: Job)
    requires Sound(s) && job.pair.access != job.pair.secret && Ran(s, r, t, run, granted, job)
    ensures Id(s.nextId) in t.tokens && !Named(t.files, Id(s.nextId)) <==>
            StrandsBy(t.trace[|s.trace|..], Id(s.nextId), job.pair.file)
  {
    NewToken(s, r, t, run, granted, job);
    TraceTells(s, r, t, run, granted, job);
    ReadIsNamed(s.files, run, job.pair);
    FreshIsUnnamed(s);
    StrandsTells(t.trace[|s.trace|..], run, Id(s.nextId), granted(s.nextId, Asked(job.readable)), job);
  }

  /** After a listing or a write that raised no DELETE is sent at all, and the exception is the outcome. */
  lemma NothingIsDeletedAfterARaise(s: State, r: Outcome, t: State, run: Run, granted: Grant, job: Job)
    requires Ran(s, r, t, run, granted, job)
    ensures var sent := t.trace[|s.trace|..];
            (exists bucket :: BucketListed(Id(s.nextId), bucket, ListRaised) in sent)
            || (exists landed :: KeysWritten(job.pair.file, Thrown, landed) in sent) ==>
            r == Raised && forall x, gone :: TokenDeleted(x, gone) !in sent
  {
    TraceTells(s, r, t, run, granted, job);
    ListingRaisedTells(t.trace[|s.trace|..], run, Id(s.nextId), granted(s.nextId, Asked(job.readable)), job);
  }

  // ---------------------------------------------------------------- the token that is replaced

  /** A read of the id answered it. */
  ghost predicate ReadId(sent: seq<Event>, pair: Pair, id: Value) {
    exists common, prod :: KeyShown(pair.access, common, prod, Some(id)) in sent
  }

  lemma ReadIdTells(sent: seq<Event>, run: Run, new_: Value, files: Files, pair: Pair, id: Value)
    requires Tells(sent, run, new_, pair.file) && LooksUp(run.looks, files, pair) && pair.access != pair.secret
    ensures ReadId(sent, pair, id) <==> IdRead(run) == Some(id)
  {
    var first := run.looks[0];
    assert first in run.looks && SentBy(run, new_, pair.file, first);
    forall common, prod
      ensures KeyShown(pair.access, common, prod, Some(id)) in sent ==> IdRead(run) == Some(id)
    {
      assert KeyShown(pair.access, common, prod, Some(id)) in sent ==>
        SentBy(run, new_, pair.file, KeyShown(pair.access, common, prod, Some(id)));
    }
  }

  /**
   * A token whose place in SOPS was taken lives on exactly if its DELETE was not sent or did not take
   * effect; and it is sent exactly if a rotation was asked for, the write answered true, and the read
   * of the id answered it. So the id of a half pair is overwritten without a revoke, and so is one
   * that could not be read.
   */
  lemma WhenAReplacedTokenLives(s: State, r: Outcome, t: State, run: Run, granted: Grant, job: Job, oldId: Value)
    requires Sound(s) && job.pair.access != job.pair.secret && Ran(s, r, t, run, granted, job) && oldId in s.tokens
    ensures var sent := t.trace[|s.trace|..];
            && (oldId in t.tokens <==> TokenDeleted(oldId, true) !in sent)
            && (TokenDeleted(oldId, true) in sent || TokenDeleted(oldId, false) in sent <==>
                  && job.rotate && KeysWritten(job.pair.file, Yes, true) in sent
                  && ReadId(sent, job.pair, oldId))
            && (job.rotate && KeysWritten(job.pair.file, Yes, true) in sent ==>
                  (oldId in t.tokens <==> !ReadId(sent, job.pair, oldId) || TokenDeleted(oldId, false) in sent))
  {
    LivesAfter(s, r, t, run, granted, job, oldId);
    TraceTells(s, r, t, run, granted, job);
    ReadIdTells(t.trace[|s.trace|..], run, Id(s.nextId), s.files, job.pair, oldId);
    ReplacedTells(t.trace[|s.trace|..], r, run, Id(s.nextId), job, oldId);
  }

  lemma ReplacedTells(sent: seq<Event>, r: Outcome, run: Run, new_: Value, job: Job, oldId: Value)
    requires Tells(sent, run, new_, job.pair.file) && Reported(r, run.end, job.rotate, IdRead(run)) && oldId != new_
    ensures TokenDeleted(oldId, true) in sent <==> ReplacedIt(run, oldId)
    ensures TokenDeleted(oldId, true) in sent || TokenDeleted(oldId, false) in sent <==>
            job.rotate && KeysWritten(job.pair.file, Yes, true) in sent && IdRead(run) == Some(oldId)
  {
    if run.end.Stored? && run.end.replaced.Some? {
      assert run.end.replaced == if run.end.replaced.value then Some(true) else Some(false);
    }
  }

  // ---------------------------------------------------------------- what `rotated` promises

  /** The replaced token's DELETE: `Rotated` exactly if it answered a success, and then it took effect or pretended. */
  lemma ReplaceAnswers(s: State, oldId: Value)
    ensures var (r, t) := Replace(s, Some(oldId), true);
            && (r == Rotated <==> (Now(s) == Clear && oldId in s.tokens) || Now(s) == Pretend)
            && (r == Raised <==> Now(s).Raise?) && (r == Rotated || r == Raised || r == Failed)
            && t.trace == s.trace + [TokenDeleted(oldId, oldId !in t.tokens)]
            && (Now(s) != Pretend && r == Rotated ==> oldId !in t.tokens)
  {
  }

  lemma StillToCome(s: State, t: State)
    requires Shorter(s, t) && Pretend !in s.weather
    ensures Pretend !in t.weather && Now(t) != Pretend
  {
  }

  lemma FinishRotates(s: State, verdict: Verdict, id: nat, pair: Pair, oldId: Option<Value>, rotate: bool)
    requires Pretend !in s.weather
    ensures var (r, t) := Finish(s, verdict, id, pair, oldId, rotate);
            r == Rotated ==> rotate && oldId.Some? && verdict == Passed && oldId.value !in t.tokens
  {
    if verdict == Passed {
      WriteTwin(s, pair.file, PairOf(id, pair));
      StillToCome(s, WriteStep(s, pair.file, PairOf(id, pair)).1);
    }
  }

  lemma OverRotates(s: State, granted: Grant, job: Job, oldId: Option<Value>)
    requires Pretend !in s.weather
    ensures var (r, t) := MintOver(s, granted, job, oldId);
            r == Rotated ==> job.rotate && oldId.Some? && oldId.value !in t.tokens
  {
    var (grouped, s1) := GroupStep(s);
    var (told, s2) := CreateStep(s1, granted, Asked(job.readable));
    GroupTwin(s);
    CreateTwin(s1, granted, Asked(job.readable));
    StillToCome(s, s1);
    StillToCome(s1, s2);
    if grouped == Yes && told == Yes {
      var (verdict, s3) := Scope(s2, Id(s.nextId), job.readable, job.refused, 0);
      ScopeTwin(s2, Id(s.nextId), job.readable, job.refused, 0);
      StillToCome(s2, s3);
      FinishRotates(s3, verdict, s.nextId, job.pair, oldId, job.rotate);
    }
  }

  lemma RotatedIsDead(s: State, granted: Grant, job: Job)
    requires Pretend !in s.weather
    ensures var (r, t) := Mint(s, granted, job);
            var oldId := OldId(Look(s, job.pair).0);
            r == Rotated ==> job.rotate && oldId.Some? && oldId.value !in t.tokens
  {
    var (look, s1) := Look(s, job.pair);
    LookTwin(s, job.pair);
    StillToCome(s, s1);
    OverRotates(s1, granted, job, OldId(look));
  }

  lemma RotatedRan(s: State, r: Outcome, t: State, run: Run, granted: Grant, job: Job)
    requires Ran(s, r, t, run, granted, job) && r == Rotated
    ensures t.files == Written(s.files, job.pair, s.nextId) && IdRead(run).Some?
    ensures t.trace != [] && Last(t).TokenDeleted? && Last(t).id == IdRead(run).value
  {
    var tail := Tail(run.end, Id(s.nextId), IdRead(run), job.pair.file);
    assert run.end.Stored? && tail[|tail| - 1] == TokenDeleted(IdRead(run).value, run.end.replaced.value);
  }

  /**
   * Unless a call claims what it did not do, a mint that answers `Rotated` stored the new pair, and the
   * token it read of the old one is dead: its DELETE was the last call.
   */
  lemma ARotationIsARevocation(s: State, granted: Grant, job: Job)
    requires job.readable != [] && Pretend !in s.weather
    ensures var (r, t) := Mint(s, granted, job);
            var id := IdRead(RunOf(s, granted, job));
            r == Rotated ==>
              && t.files == Written(s.files, job.pair, s.nextId)
              && id.Some? && id.value !in t.tokens
              && t.trace != [] && Last(t).TokenDeleted? && Last(t).id == id.value
  {
    MintIsARun(s, granted, job);
    LookMeans(s, job.pair);
    RotatedIsDead(s, granted, job);
    var mint := Mint(s, granted, job);
    if mint.0 == Rotated {
      RotatedRan(s, mint.0, mint.1, RunOf(s, granted, job), granted, job);
    }
  }

  // ---------------------------------------------------------------- what the reads decide

  /** A key that is there reads as absent exactly if no file that shows it could be opened. */
  lemma WhenAReadIsEmpty(files: Files, path: string, common: bool, prod: bool)
    requires Shown(files, path).Some?
    ensures ShownIf(files, path, common, prod) == None <==>
      && (common ==> Show(files, "common", path) == None)
      && (prod ==> Show(files, "prod", path) == None)
  {
  }

  /** One of the pair's keys was answered with nothing. */
  ghost predicate Missed(sent: seq<Event>, pair: Pair) {
    || (exists common, prod :: KeyShown(pair.access, common, prod, None) in sent)
    || (exists common, prod :: KeyShown(pair.secret, common, prod, None) in sent)
  }

  ghost predicate ReadBroke(sent: seq<Event>) {
    exists path :: ShowRaised(path) in sent
  }

  lemma ReadsTell(sent: seq<Event>, run: Run, new_: Value, files: Files, pair: Pair)
    requires Tells(sent, run, new_, pair.file) && LooksUp(run.looks, files, pair)
    ensures ReadBroke(sent) <==> LastRead(run).ShowRaised?
    ensures Missed(sent, pair) <==> LastRead(run).KeyShown? && LastRead(run).value == None
  {
    var last := LastRead(run);
    assert last in run.looks && SentBy(run, new_, pair.file, last);
    assert forall e :: e in run.looks ==> e == run.looks[0] || e == last;
    if ReadBroke(sent) {
      var path :| ShowRaised(path) in sent;
      assert SentBy(run, new_, pair.file, ShowRaised(path));
    }
    forall path, common, prod | KeyShown(path, common, prod, None) in sent
      ensures last == KeyShown(path, common, prod, None)
    {
      assert SentBy(run, new_, pair.file, KeyShown(path, common, prod, None));
    }
    if last.KeyShown? && last.value == None {
      assert KeyShown(last.path, last.common, last.prod, None) in sent;
    }
  }

  /** Kept exactly if both keys were read and no rotation was asked for; then nothing else is done. */
  lemma WhenAPairIsKept(s: State, r: Outcome, t: State, run: Run, granted: Grant, job: Job)
    requires Ran(s, r, t, run, granted, job)
    ensures var sent := t.trace[|s.trace|..];
            && (r == Kept <==> !Missed(sent, job.pair) && !ReadBroke(sent) && !job.rotate)
            && (r == Kept ==> t.files == s.files && t.tokens == s.tokens)
  {
    TraceTells(s, r, t, run, granted, job);
    ReadsTell(t.trace[|s.trace|..], run, Id(s.nextId), s.files, job.pair);
  }

  /**
   * A whole pair is minted over without a rotation exactly if a read of it failed and the write landed.
   * No DELETE of the token it named is sent, so that one lives on.
   */
  lemma WhenAWholePairIsMintedOver(s: State, r: Outcome, t: State, run: Run, granted: Grant, job: Job)
    requires Sound(s) && job.pair.access != job.pair.secret && Ran(s, r, t, run, granted, job)
    requires HasPair(s.files, job.pair) && !job.rotate
    ensures var sent := t.trace[|s.trace|..];
            && (PairNames(t.files, job.pair, Id(s.nextId)) <==>
                  Missed(sent, job.pair) && exists told :: KeysWritten(job.pair.file, told, true) in sent)
            && (Missed(sent, job.pair) ==> exists e :: e in sent && ReadFailed(e))
            && s.tokens.Keys <= t.tokens.Keys
  {
    var sent := t.trace[|s.trace|..];
    NewToken(s, r, t, run, granted, job);
    TraceTells(s, r, t, run, granted, job);
    ReadsTell(sent, run, Id(s.nextId), s.files, job.pair);
    WroteTells(sent, run, Id(s.nextId), job.pair.file);
    MissedMeansFailed(sent, run, Id(s.nextId), s.files, job.pair);
    RanKeeps(s, r, t, run, granted, job);
  }

  /** A read for which one of the files could not be opened. */
  predicate ReadFailed(e: Event) {
    e.KeyShown? && !(e.common && e.prod)
  }

  lemma MissedMeansFailed(sent: seq<Event>, run: Run, new_: Value, files: Files, pair: Pair)
    requires Tells(sent, run, new_, pair.file) && LooksUp(run.looks, files, pair) && HasPair(files, pair)
    ensures Missed(sent, pair) ==> exists e :: e in sent && ReadFailed(e)
  {
    ReadsTell(sent, run, new_, files, pair);
    assert SentBy(run, new_, pair.file, LastRead(run));
  }

  lemma WroteTells(sent: seq<Event>, run: Run, new_: Value, file: string)
    requires Tells(sent, run, new_, file)
    ensures (exists told :: KeysWritten(file, told, true) in sent) <==> Wrote(run.end)
  {
    forall told
      ensures KeysWritten(file, told, true) in sent ==> Wrote(run.end)
    {
      assert KeysWritten(file, told, true) in sent ==> SentBy(run, new_, file, KeysWritten(file, told, true));
    }
    if Wrote(run.end) {
      var told := if run.end.Stored? then Yes else if run.end.WriteRefused? then No else Thrown;
      assert SentBy(run, new_, file, KeysWritten(file, told, true));
    }
  }

  /** Where every file could be opened, the reads say what the files say. */
  lemma WhereEveryReadOpens(s: State, r: Outcome, t: State, run: Run, granted: Grant, job: Job)
    requires Ran(s, r, t, run, granted, job)
    requires forall e :: e in t.trace[|s.trace|..] ==> !ReadFailed(e) && !e.ShowRaised?
    ensures IdRead(run) == Shown(s.files, job.pair.access)
    ensures r == Kept <==> HasPair(s.files, job.pair) && !job.rotate
  {
    TraceTells(s, r, t, run, granted, job);
    forall e | e in run.looks
      ensures e.KeyShown? && e.common && e.prod
    {
      assert IsRead(e) && SentBy(run, Id(s.nextId), job.pair.file, e);
    }
    assert run.looks[0] in run.looks && LastRead(run) in run.looks;
  }

  // ---------------------------------------------------------------- every key, and the net effect

  lemma KeyAfter(s: State, t: State, end: End, pair: Pair, file: string, path: string)
    requires pair.access != pair.secret
    requires t.files == if Wrote(end) then Written(s.files, pair, s.nextId) else s.files
    requires file in s.files && path in s.files[file] && !(file == pair.file && path == pair.secret)
    ensures file in t.files && path in t.files[file]
    ensures t.files[file][path] == if file == pair.file && path == pair.access && Wrote(end) then Id(s.nextId)
                                   else s.files[file][path]
  {
  }

  /**
   * What becomes of any key that named a live token. It names one still, except this pair when a write
   * that answered false had landed and its token was deleted, and except a second copy of the id that
   * a rotation deleted.
   */
  lemma LivePairsStayLive(s: State, r: Outcome, t: State, run: Run, granted: Grant, job: Job, file: string,
                          path: string)
    requires Sound(s) && job.pair.access != job.pair.secret && Ran(s, r, t, run, granted, job)
    requires file in s.files && path in s.files[file] && s.files[file][path] in s.tokens
    requires !(file == job.pair.file && path == job.pair.secret)
    ensures file in t.files && path in t.files[file]
    ensures var sent, own := t.trace[|s.trace|..], file == job.pair.file && path == job.pair.access;
            t.files[file][path] !in t.tokens <==>
            || (own && KeysWritten(file, No, true) in sent && TokenDeleted(Id(s.nextId), true) in sent)
            || (!own && TokenDeleted(s.files[file][path], true) in sent)
  {
    var new_, value := Id(s.nextId), s.files[file][path];
    KeyAfter(s, t, run.end, job.pair, file, path);
    LivesAfter(s, r, t, run, granted, job, value);
    NewToken(s, r, t, run, granted, job);
    TraceTells(s, r, t, run, granted, job);
    DeadTells(t.trace[|s.trace|..], run, new_, job.pair.file);
    ReplacedTells(t.trace[|s.trace|..], r, run, new_, job, value);
  }

  /**
   * The net effect that is meant: nothing; or, unless the pair is whole and to be kept, one new stored
   * token, which with `rotate` is in the place of the one the pair named.
   */
  ghost predicate NetEffectIsMeant(s: State, t: State, job: Job, scope: set<string>) {
    var new_, oldId := Id(s.nextId), Shown(s.files, job.pair.access);
    || (t.files == s.files && t.tokens == s.tokens)
    || (&& !(HasPair(s.files, job.pair) && !job.rotate)
        && t.files == Written(s.files, job.pair, s.nextId)
        && t.tokens == if job.rotate && oldId.Some? then s.tokens[new_ := scope] - {oldId.value}
                       else s.tokens[new_ := scope])
  }

  /** No live token was deleted but the one a rotation was to delete, and that one was. */
  ghost predicate ReplacedOnlyIt(s: State, run: Run, job: Job) {
    forall x :: x in s.tokens ==> (ReplacedIt(run, x) <==> job.rotate && Shown(s.files, job.pair.access) == Some(x))
  }

  /** What is left of the tokens is `made` without `dropped` exactly if the run deleted `dropped` and no other. */
  lemma LeftIsMeant(tokens: map<Value, set<string>>, new_: Value, scope: set<string>, run: Run, dropped: Option<Value>)
    requires Wrote(run.end) && new_ !in tokens && IdRead(run) != Some(new_) && dropped != Some(new_)
    ensures var made := tokens[new_ := scope];
            Left(made, run.end, new_, IdRead(run)) == (if dropped.Some? then made - {dropped.value} else made) <==>
            !Undone(run.end) && forall x :: x in tokens ==> (ReplacedIt(run, x) <==> dropped == Some(x))
  {
    var made := tokens[new_ := scope];
    var left, meant := Left(made, run.end, new_, IdRead(run)), if dropped.Some? then made - {dropped.value} else made;
    forall x
      ensures x in tokens ==> x != new_ && (x in left <==> !ReplacedIt(run, x)) && (x in meant <==> dropped != Some(x))
      ensures x == new_ ==> x in meant && (x in left <==> !Undone(run.end))
    {
    }
    assert forall x :: x in made <==> x in tokens || x == new_;
    if !Undone(run.end) && forall x :: x in tokens ==> (ReplacedIt(run, x) <==> dropped == Some(x)) {
      assert left.Keys == meant.Keys;
    }
    if left == meant {
      assert new_ in left;
    }
  }

  lemma NetEffectWritten(s: State, r: Outcome, t: State, run: Run, granted: Grant, job: Job)
    requires Sound(s) && job.pair.access != job.pair.secret && Ran(s, r, t, run, granted, job) && Wrote(run.end)
    ensures NetEffectIsMeant(s, t, job, granted(s.nextId, Asked(job.readable))) <==>
            !Undone(run.end) && !(HasPair(s.files, job.pair) && !job.rotate) && ReplacedOnlyIt(s, run, job)
  {
    var scope, oldId := granted(s.nextId, Asked(job.readable)), Shown(s.files, job.pair.access);
    FreshIsUnnamed(s);
    ReadIsNamed(s.files, run, job.pair);
    NamedIffWrote(s, t, run.end, job.pair);
    LeftIsMeant(s.tokens, Id(s.nextId), scope, run, if job.rotate then oldId else None);
  }

  /** And when it is: which runs leave nothing else behind. */
  lemma NetEffect(s: State, r: Outcome, t: State, run: Run, granted: Grant, job: Job)
    requires Sound(s) && job.pair.access != job.pair.secret && Ran(s, r, t, run, granted, job)
    ensures NetEffectIsMeant(s, t, job, granted(s.nextId, Asked(job.readable))) <==>
            if Wrote(run.end) then
              !Undone(run.end) && !(HasPair(s.files, job.pair) && !job.rotate) && ReplacedOnlyIt(s, run, job)
            else run.end.Stopped? || Undone(run.end)
  {
    if Wrote(run.end) {
      NetEffectWritten(s, r, t, run, granted, job);
    } else {
      NewToken(s, r, t, run, granted, job);
      FreshIsUnnamed(s);
      assert PairNames(Written(s.files, job.pair, s.nextId), job.pair, Id(s.nextId));
    }
  }

  // ---------------------------------------------------------------- when nothing fails after the reads

  /** The pair is stored exactly if the API granted the scope that is needed. */
  lemma CalmOver(s: State, granted: Grant, job: Job, oldId: Option<Value>)
    requires job.readable != [] && s.weather == []
    ensures var (r, t) := MintOver(s, granted, job, oldId);
            var end := EndOf(s, granted, job, oldId);
            && t.weather == [] && r != Raised && r != Kept
            && (end.Stored? <==> Proven(granted(s.nextId, Asked(job.readable)), job.readable, job.refused))
            && (r == Failed && end.Stored? ==>
                  job.rotate && oldId.Some? && oldId.value !in s.tokens[Id(s.nextId) := {}])
            && (!end.Stored? ==> end.ProofFailed? && end.gone)
            && (end.Stored? ==> end.replaced != Some(false))
  {
    var s2 := CreateStep(s, granted, Asked(job.readable)).1;
    ScopeMeans(s2, Id(s.nextId), job.readable, job.refused, 0);
    var (verdict, s3) := Scope(s2, Id(s.nextId), job.readable, job.refused, 0);
    FinishCalm(s3, verdict, s3.trace[|s2.trace|..], s.nextId, job.pair, oldId, job.rotate);
  }

  /** When no call fails at all: kept, or stored exactly if the scope is the one needed, or nothing is left. */
  lemma CalmMint(s: State, granted: Grant, job: Job)
    requires job.readable != [] && s.weather == []
    ensures var (r, t) := Mint(s, granted, job);
            var end := RunOf(s, granted, job).end;
            && t.weather == [] && r != Raised && (r == Kept <==> HasPair(s.files, job.pair) && !job.rotate)
            && (r != Kept ==>
                  (end.Stored? <==> Proven(granted(s.nextId, Asked(job.readable)), job.readable, job.refused)))
            && (r == Failed && end.Stored? ==>
                  && job.rotate && Shown(s.files, job.pair.access).Some?
                  && Shown(s.files, job.pair.access).value !in s.tokens[Id(s.nextId) := {}])
            && (r == Failed && !end.Stored? ==> end.ProofFailed? && end.gone)
  {
    var (look, s1) := Look(s, job.pair);
    LookMeans(s, job.pair);
    if !Ends(look, job.rotate) {
      CalmOver(s1, granted, job, OldId(look));
    }
  }

  // ---------------------------------------------------------------- a run of each kind

  function NewState(files: Files, nextId: nat, tokens: map<Value, set<string>>, weather: seq<Weather>): State {
    State(tokens, {}, nextId, files, weather, [])
  }

  const JOB := Job(Pair("prod", "id", "key"), ["mine"], "other", false)

  /** The files are empty, and the one read finds nothing. */
  lemma NothingThere(weather: seq<Weather>)
    ensures var s := NewState(map[], 0, map[], [Clear, Clear] + weather);
            Look(s, JOB.pair) == (Lacks(None), s.(weather := weather, trace := [KeyShown("id", true, true, None)]))
  {
    var all := [Clear, Clear] + weather;
    assert all[1..] == [Clear] + weather && all[1..][1..] == weather;
    var s := NewState(map[], 0, map[], all);
    assert LoadStep(s) == (Loaded(true, true), s.(weather := weather));
    assert s.trace + [KeyShown("id", true, true, None)] == [KeyShown("id", true, true, None)];
  }

  /** The first listing hangs: the new token lives, is named nowhere, and no DELETE was sent. */
  lemma AHungListing(granted: Grant)
    ensures var (r, t) := Mint(NewState(map[], 0, map[], [Clear, Clear] + [Clear, Clear, Raise(false)]), granted, JOB);
            && r == Raised && t.files == map[] && Id(0) in t.tokens
            && t.trace == [KeyShown("id", true, true, None), TokenCreated(Id(0), true),
                           BucketListed(Id(0), "mine", ListRaised)]
  {
    var s := NewState(map[], 0, map[], [Clear, Clear] + [Clear, Clear, Raise(false)]);
    NothingThere([Clear, Clear, Raise(false)]);
    var s1 := Look(s, JOB.pair).1;
    var s2 := CreateStep(GroupStep(s1).1, granted, Asked(JOB.readable)).1;
    assert s2.weather == [Raise(false)];
  }

  /** The write answers false and had landed, and the DELETE works: SOPS names a dead token. */
  lemma ALiedWrite()
    ensures var (r, t) := Mint(NewState(map[], 0, map[], [Clear, Clear] + [Clear, Clear, Clear, Clear, Http(true)]),
                               (n, asked) => asked, JOB);
            && r == Failed && t.tokens == map[]
            && PairNames(t.files, JOB.pair, Id(0)) && Id(0) !in t.tokens
  {
    var s := NewState(map[], 0, map[], [Clear, Clear] + [Clear, Clear, Clear, Clear, Http(true)]);
    var granted: Grant := (n, asked) => asked;
    NothingThere([Clear, Clear, Clear, Clear, Http(true)]);
    var s1 := Look(s, JOB.pair).1;
    var s2 := CreateStep(GroupStep(s1).1, granted, Asked(JOB.readable)).1;
    assert s2.weather == [Clear, Clear, Http(true)];
    assert "mine"[0] != "other"[0] && "mine" in Asked(["mine"]);
    AClearCheck(s2, Http(true));
    ALiedFinish(Scope(s2, Id(0), ["mine"], "other", 0).1);
  }

  lemma ALiedFinish(s: State)
    requires s.weather == [Http(true)] && s.files == map[] && s.tokens.Keys == {Id(0)}
    ensures var (r, t) := Finish(s, Passed, 0, JOB.pair, None, false);
            r == Failed && t.tokens == map[] && PairNames(t.files, JOB.pair, Id(0))
  {
    var (told, s1) := WriteStep(s, JOB.pair.file, PairOf(0, JOB.pair));
    assert told == No && s1.weather == [] && s1.tokens == s.tokens;
  }

  lemma AClearCheck(s: State, next: Weather)
    requires s.weather == [Clear, Clear, next]
    requires Id(0) in s.tokens && "mine" in s.tokens[Id(0)] && "other" !in s.tokens[Id(0)]
    ensures var (verdict, t) := Scope(s, Id(0), ["mine"], "other", 0);
            verdict == Passed && t.weather == [next] && t.tokens == s.tokens && t.files == s.files
  {
    var (first, s1) := TryList(s, Id(0), "mine", SCOPE_ATTEMPTS);
    assert first == Listed && s1.weather == [Clear, next] && s1.tokens == s.tokens;
    assert Scope(s1, Id(0), ["mine"], "other", 1) == Scope(s, Id(0), ["mine"], "other", 0);
  }

  /** What a mint needs to succeed once it is decided. */
  ghost predicate Grantable(s: State, granted: Grant, job: Job) {
    && Sound(s) && job.readable != [] && job.pair.access != job.pair.secret
    && Proven(granted(s.nextId, Asked(job.readable)), job.readable, job.refused)
  }

  /** Any half pair, without a rotation and with nothing failing: its id is overwritten, and its token lives. */
  lemma AHalfPair(s: State, granted: Grant, job: Job, oldId: Value)
    requires Grantable(s, granted, job) && s.weather == [] && !job.rotate
    requires Shown(s.files, job.pair.access) == Some(oldId) && oldId in s.tokens
    requires Shown(s.files, job.pair.secret) == None
    ensures var (r, t) := Mint(s, granted, job);
            r == Minted && oldId in t.tokens && PairNames(t.files, job.pair, Id(s.nextId))
  {
    var (look, s1) := Look(s, job.pair);
    LookMeans(s, job.pair);
    CalmOver(s1, granted, job, OldId(look));
    UnrotatedIsMinted(s, granted, job, oldId);
  }

  lemma UnrotatedIsMinted(s: State, granted: Grant, job: Job, oldId: Value)
    requires Sound(s) && job.readable != [] && job.pair.access != job.pair.secret && !job.rotate
    requires oldId in s.tokens && RunOf(s, granted, job).end.Stored?
    ensures var (r, t) := Mint(s, granted, job);
            r == Minted && oldId in t.tokens && PairNames(t.files, job.pair, Id(s.nextId))
  {
    var (r, t) := Mint(s, granted, job);
    var run := RunOf(s, granted, job);
    MintIsARun(s, granted, job);
    NewToken(s, r, t, run, granted, job);
    LivesAfter(s, r, t, run, granted, job, oldId);
  }

  /**
   * Any whole pair in prod's file, without a rotation: `sops -d` fails on that file once, when the id is
   * read, and nothing else fails. The pair is minted over, and the token it named lives on.
   */
  lemma AnUnreadPair(s: State, granted: Grant, job: Job, oldId: Value)
    requires Grantable(s, granted, job) && s.weather == [Clear, Http(false)] && !job.rotate
    requires HasPair(s.files, job.pair) && Show(s.files, "prod", job.pair.access) == Some(oldId) && oldId in s.tokens
    requires Show(s.files, "common", job.pair.access) == None
    ensures var (r, t) := Mint(s, granted, job);
            r == Minted && oldId in t.tokens && PairNames(t.files, job.pair, Id(s.nextId))
  {
    AnUnreadId(s, job.pair);
    CalmOver(Look(s, job.pair).1, granted, job, None);
    UnrotatedIsMinted(s, granted, job, oldId);
  }

  lemma AnUnreadId(s: State, pair: Pair)
    requires s.weather == [Clear, Http(false)] && Show(s.files, "common", pair.access) == None
    ensures Look(s, pair)
         == (Lacks(None), s.(weather := [], trace := s.trace + [KeyShown(pair.access, true, false, None)]))
  {
    assert s.weather[1..] == [Http(false)] && s.weather[1..][1..] == [];
  }

  /** The same with a rotation: the old id is never read, so its token is never deleted. */
  lemma AnUnreadRotation(s: State, granted: Grant, job: Job, oldId: Value)
    requires Grantable(s, granted, job) && s.weather == [Clear, Http(false)] && job.rotate
    requires Show(s.files, "prod", job.pair.access) == Some(oldId) && oldId in s.tokens
    requires Show(s.files, "common", job.pair.access) == None
    ensures var (r, t) := Mint(s, granted, job);
            r == Minted && oldId in t.tokens && PairNames(t.files, job.pair, Id(s.nextId))
  {
    var (r, t) := Mint(s, granted, job);
    var run := RunOf(s, granted, job);
    AnUnreadId(s, job.pair);
    CalmOver(Look(s, job.pair).1, granted, job, None);
    MintIsARun(s, granted, job);
    assert run.looks == [KeyShown(job.pair.access, true, false, None)];
    NewToken(s, r, t, run, granted, job);
    LivesAfter(s, r, t, run, granted, job, oldId);
  }

  // ---------------------------------------------------------------- what callers need to know

  /** Nothing about `path` differs, in any file. */
  ghost predicate SameAt(before: Files, after: Files, path: string) {
    forall file ::
      && (file in before && path in before[file] <==> file in after && path in after[file])
      && (file in before && path in before[file] ==> after[file][path] == before[file][path])
  }

  /** A read, a listing or a write that raised. */
  predicate Hangs(e: Event) {
    || e.ShowRaised? || (e.BucketListed? && e.listing == ListRaised) || (e.KeysWritten? && e.told == Thrown)
  }

  /** What was sent since `before`: nothing comes after a call that raised, and then `raised` is the answer. */
  ghost predicate Halts(before: seq<Event>, after: seq<Event>, raised: bool) {
    && before <= after
    && forall k :: |before| <= k < |after| && Hangs(after[k]) ==> raised && k == |after| - 1
  }

  lemma HaltsTogether(a: seq<Event>, b: seq<Event>, c: seq<Event>, raised: bool)
    requires Halts(a, b, false) && Halts(b, c, raised)
    ensures Halts(a, c, raised)
  {
  }

  lemma BodyHalts(end: End, new_: Value, scope: set<string>, oldId: Option<Value>, r: Outcome, job: Job)
    requires Checked(end, new_, scope, job.readable, job.refused) && Reported(r, end, job.rotate, oldId)
    ensures Halts([], Body(end, new_, oldId, job.pair.file), r == Raised)
  {
    var body := Body(end, new_, oldId, job.pair.file);
    if Answered(end) {
      var tail, n := Tail(end, new_, oldId, job.pair.file), |end.listings|;
      assert body[0] == TokenCreated(new_, true);
      forall k | 1 <= k < |body| && Hangs(body[k])
        ensures r == Raised && k == |body| - 1
      {
        assert body[k] == if k <= n then end.listings[k - 1] else tail[k - 1 - n];
        if k <= n {
          assert end.listings[k - 1].listing == ListRaised;
        }
      }
    }
  }

  /** A mint ends at its first call that raises. */
  lemma RaiseIsLast(s: State, r: Outcome, t: State, run: Run, granted: Grant, job: Job)
    requires Ran(s, r, t, run, granted, job)
    ensures Halts(s.trace, t.trace, r == Raised)
  {
    var body := Body(run.end, Id(s.nextId), IdRead(run), job.pair.file);
    BodyHalts(run.end, Id(s.nextId), granted(s.nextId, Asked(job.readable)), IdRead(run), r, job);
    var sent := run.looks + body;
    forall k | 0 <= k < |sent| && Hangs(sent[k])
      ensures r == Raised && k == |sent| - 1
    {
      assert sent[k] == if k < |run.looks| then run.looks[k] else body[k - |run.looks|];
    }
  }

  /** No id is ever used twice. */
  lemma RanIsSound(s: State, r: Outcome, t: State, run: Run, granted: Grant, job: Job)
    requires Sound(s) && Did(s, r, t, run.end, IdRead(run), granted, job)
    ensures Sound(t)
  {
  }

  /** Whatever became of a mint: no other path changed, and without a rotation no token that lived is gone. */
  lemma RanKeeps(s: State, r: Outcome, t: State, run: Run, granted: Grant, job: Job)
    requires Sound(s) && Did(s, r, t, run.end, IdRead(run), granted, job)
    ensures forall path :: path != job.pair.access && path != job.pair.secret ==> SameAt(s.files, t.files, path)
    ensures !job.rotate ==> s.tokens.Keys <= t.tokens.Keys
    ensures r == Minted || r == Rotated ==> t.files == Written(s.files, job.pair, s.nextId)
  {
    FreshIsUnnamed(s);
  }

  /** A pair that is kept was read, so unless prod's file hides it with an empty value it is there. */
  lemma KeptIsThere(s: State, r: Outcome, t: State, run: Run, granted: Grant, job: Job)
    requires Ran(s, r, t, run, granted, job) && r == Kept
    requires Show(s.files, "common", job.pair.access) == Show(s.files, "common", job.pair.secret) == None
             || ("prod" in s.files ==> job.pair.access !in s.files["prod"] && job.pair.secret !in s.files["prod"])
    ensures HasPair(t.files, job.pair)
  {
  }
}
