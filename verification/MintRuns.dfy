/**
 * Every run of `TokenMint.Mint`, told by what it read of SOPS, how far it came, and what took effect.
 */
module MintRuns {
  import opened Prelude
  import opened World
  import opened TokenMint

  // ---------------------------------------------------------------- a run

  /** How far a mint came after its reads: each call's fate that matters to what is left. */
  datatype End =
    | Stopped                                                       // before anything was created
    | Unanswered                                                    // the POST took effect, its answer was lost
    | ListingRaised(listings: seq<Event>)                           // no DELETE follows
    | ProofFailed(listings: seq<Event>, gone: bool)                 // `gone`: the DELETE took effect
    | WriteRaised(listings: seq<Event>, landed: bool)               // no DELETE follows
    | WriteRefused(listings: seq<Event>, landed: bool, gone: bool)  // the write answered false
    | Stored(listings: seq<Event>, replaced: Option<bool>)          // and the old token's DELETE, if one was sent

  datatype Run = Run(looks: seq<Event>, end: End)

  /** The answer to a read; None too when it raised. */
  function Answer(e: Event): Option<Value> {
    if e.KeyShown? then e.value else None
  }

  /** What was read of the id that is to be replaced. */
  function IdRead(run: Run): Option<Value> {
    if run.looks == [] then None else Answer(run.looks[0])
  }

  function LastRead(run: Run): Event
    requires run.looks != []
  {
    run.looks[|run.looks| - 1]
  }

  predicate Answered(end: End) {
    !end.Stopped? && !end.Unanswered?
  }

  /** What is sent after the reads, call by call. */
  function Body(end: End, new_: Value, oldId: Option<Value>, file: string): seq<Event> {
    match end
    case Stopped => []
    case Unanswered => [TokenCreated(new_, false)]
    case _ => [TokenCreated(new_, true)] + end.listings + Tail(end, new_, oldId, file)
  }

  /** What is sent once the check is over. */
  function Tail(end: End, new_: Value, oldId: Option<Value>, file: string): seq<Event> {
    match end
    case ProofFailed(_, gone) => [TokenDeleted(new_, gone)]
    case WriteRaised(_, landed) => [KeysWritten(file, Thrown, landed)]
    case WriteRefused(_, landed, gone) => [KeysWritten(file, No, landed), TokenDeleted(new_, gone)]
    case Stored(_, replaced) =>
      if replaced.Some? && oldId.Some? then [KeysWritten(file, Yes, true), TokenDeleted(oldId.value, replaced.value)]
      else [KeysWritten(file, Yes, true)]
    case _ => []
  }

  /** The pair is in its file. */
  predicate Wrote(end: End) {
    end.Stored? || (end.WriteRefused? && end.landed) || (end.WriteRaised? && end.landed)
  }

  /** The tokens left of those there were once the new one was made. */
  function Left(made: map<Value, set<string>>, end: End, new_: Value, oldId: Option<Value>): map<Value, set<string>> {
    match end
    case ProofFailed(_, true) => made - {new_}
    case WriteRefused(_, _, true) => made - {new_}
    case Stored(_, Some(true)) => if oldId.Some? then made - {oldId.value} else made
    case _ => made
  }

  /** A read of `path`: what it says is what the files that could be opened say. */
  ghost predicate Reads(e: Event, files: Files, path: string) {
    || e == ShowRaised(path)
    || (e.KeyShown? && e.path == path && e.value == ShownIf(files, path, e.common, e.prod))
  }

  /** The id is read, and the secret if there was an id. */
  ghost predicate LooksUp(looks: seq<Event>, files: Files, pair: Pair) {
    && 1 <= |looks| <= 2 && Reads(looks[0], files, pair.access)
    && (|looks| == 2 <==> Answer(looks[0]).Some?) && (|looks| == 2 ==> Reads(looks[1], files, pair.secret))
  }

  /** Whether the reads call for a mint: none raised, and one found nothing or a rotation was asked for. */
  predicate CallsForAMint(run: Run, rotate: bool) {
    run.looks != [] && LastRead(run).KeyShown? && (rotate || LastRead(run).value == None)
  }

  /** The listings are of the new token; one raised, the last, exactly if the run ended there; else what they prove. */
  ghost predicate Checked(end: End, new_: Value, scope: set<string>, readable: seq<string>, refused: string) {
    Answered(end) ==>
      && end.listings != [] && (forall e :: e in end.listings ==> e.BucketListed? && e.id == new_)
      && (forall k :: 0 <= k < |end.listings| - 1 ==> end.listings[k].listing != ListRaised)
      && (end.ListingRaised? <==> end.listings[|end.listings| - 1].listing == ListRaised)
      && (end.WriteRaised? || end.WriteRefused? || end.Stored? ==>
            end.listings[|end.listings| - 1] == BucketListed(new_, refused, Denied) && Proven(scope, readable, refused))
  }

  /** What the caller is told. */
  ghost predicate Reported(r: Outcome, end: End, rotate: bool, oldId: Option<Value>) {
    match end
    case ListingRaised(_) => r == Raised
    case WriteRaised(_, _) => r == Raised
    case Stored(_, replaced) =>
      && (replaced.Some? <==> rotate && oldId.Some?)
      && (r == Minted <==> replaced == None)
      && r != Kept
    case _ => r == Failed || r == Raised || (r == Kept && end.Stopped?)
  }

  /** What a mint did to the world, apart from what it had read before. */
  ghost predicate Did(s: State, r: Outcome, t: State, end: End, oldId: Option<Value>, granted: Grant, job: Job) {
    var new_, scope := Id(s.nextId), granted(s.nextId, Asked(job.readable));
    && t.files == (if Wrote(end) then Written(s.files, job.pair, s.nextId) else s.files)
    && t.tokens == (if end.Stopped? then s.tokens else Left(s.tokens[new_ := scope], end, new_, oldId))
    && t.nextId == (if end.Stopped? then s.nextId else s.nextId + 1)
    && t.settled <= (if end.Stopped? || end.Unanswered? then s.settled else s.settled + {new_})
    && Checked(end, new_, scope, job.readable, job.refused)
    && Reported(r, end, job.rotate, oldId)
  }

  /** Everything a run did: what it read, what it sent, what it left, and what it answered. */
  ghost predicate Ran(s: State, r: Outcome, t: State, run: Run, granted: Grant, job: Job) {
    && LooksUp(run.looks, s.files, job.pair)
    && t.trace == s.trace + (run.looks + Body(run.end, Id(s.nextId), IdRead(run), job.pair.file))
    && Did(s, r, t, run.end, IdRead(run), granted, job)
    && (CallsForAMint(run, job.rotate) || run.end.Stopped?)
    && (r == Kept <==> LastRead(run).KeyShown? && LastRead(run).value.Some? && !job.rotate)
    && (LastRead(run).ShowRaised? ==> r == Raised)
  }

  // ---------------------------------------------------------------- every mint is such a run

  /** Which end it is, from the end of the check on. */
  function EndFrom(s: State, verdict: Verdict, listings: seq<Event>, id: nat, pair: Pair, oldId: Option<Value>,
                   rotate: bool): End
  {
    match verdict
    case Broken => ListingRaised(listings)
    case Refused(_) => ProofFailed(listings, Gone(s, Id(id)))
    case Passed =>
      var (told, t) := WriteStep(s, pair.file, PairOf(id, pair));
      var landed := WriteLands(s);
      match told
      case Thrown => WriteRaised(listings, landed)
      case No => WriteRefused(listings, landed, Gone(t, Id(id)))
      case Yes => Stored(listings, if rotate && oldId.Some? then Some(Gone(t, oldId.value)) else None)
  }

  /** Whether a DELETE sent now leaves the token dead. */
  predicate Gone(s: State, id: Value) {
    id !in DeleteStep(s, id).1.tokens
  }

  /** A DELETE is in the trace with what it left, and leaves everything else. */
  lemma DeleteMeans(s: State, id: Value)
    ensures var (reply, t) := DeleteStep(s, id);
            && t.trace == s.trace + [TokenDeleted(id, Gone(s, id))]
            && t.tokens == (if Gone(s, id) then s.tokens - {id} else s.tokens)
            && t.files == s.files && t.nextId == s.nextId && t.settled == s.settled
            && (s.weather == [] ==>
                  t.weather == [] && Gone(s, id) && reply == if id in s.tokens then Done else NotFound)
  {
    assert id !in s.tokens ==> s.tokens - {id} == s.tokens;
  }

  lemma WriteMeans(s: State, id: nat, pair: Pair)
    ensures var (told, t) := WriteStep(s, pair.file, PairOf(id, pair));
            && t.trace == s.trace + [KeysWritten(pair.file, told, WriteLands(s))]
            && t.files == (if WriteLands(s) then Written(s.files, pair, id) else s.files)
            && t.tokens == s.tokens && t.nextId == s.nextId && t.settled == s.settled
            && (told == Yes ==> WriteLands(s))
            && (s.weather == [] ==> t.weather == [] && told == Yes)
  {
  }

  predicate WriteLands(s: State) {
    Now(s) == Clear || Now(s) == Pretend || Now(s).landed
  }

  /** What a state after the check has become. */
  ghost predicate Finished(s: State, r: Outcome, t: State, end: End, id: nat, pair: Pair, oldId: Option<Value>,
                           rotate: bool)
  {
    && t.trace == s.trace + Tail(end, Id(id), oldId, pair.file)
    && t.files == (if Wrote(end) then Written(s.files, pair, id) else s.files)
    && t.tokens == Left(s.tokens, end, Id(id), oldId) && t.nextId == s.nextId && t.settled == s.settled
    && Reported(r, end, rotate, oldId) && r != Kept
  }

  lemma FinishRuns(s: State, verdict: Verdict, listings: seq<Event>, id: nat, pair: Pair, oldId: Option<Value>,
                   rotate: bool)
    ensures var (r, t) := Finish(s, verdict, id, pair, oldId, rotate);
            Finished(s, r, t, EndFrom(s, verdict, listings, id, pair, oldId, rotate), id, pair, oldId, rotate)
  {
    if verdict == Passed {
      StoreRuns(s, listings, id, pair, oldId, rotate);
    } else if verdict.Refused? {
      DeleteMeans(s, Id(id));
    }
  }

  lemma StoreRuns(s: State, listings: seq<Event>, id: nat, pair: Pair, oldId: Option<Value>, rotate: bool)
    ensures var (r, t) := Finish(s, Passed, id, pair, oldId, rotate);
            Finished(s, r, t, EndFrom(s, Passed, listings, id, pair, oldId, rotate), id, pair, oldId, rotate)
  {
    WriteMeans(s, id, pair);
    var (told, t) := WriteStep(s, pair.file, PairOf(id, pair));
    if told == No {
      DeleteMeans(t, Id(id));
    } else if told == Yes && oldId.Some? {
      DeleteMeans(t, oldId.value);
    }
  }

  lemma FinishCalm(s: State, verdict: Verdict, listings: seq<Event>, id: nat, pair: Pair, oldId: Option<Value>,
                   rotate: bool)
    requires s.weather == [] && verdict != Broken
    ensures var (r, t) := Finish(s, verdict, id, pair, oldId, rotate);
            var end := EndFrom(s, verdict, listings, id, pair, oldId, rotate);
            && t.weather == [] && r != Raised && r != Kept
            && (verdict != Passed ==> end == ProofFailed(listings, true))
            && (verdict == Passed ==>
                  && end.Stored? && end.replaced != Some(false)
                  && (r == Failed ==> rotate && oldId.Some? && oldId.value !in s.tokens))
  {
  }

  /** How a mint ends that was decided in `s`. */
  ghost function EndOf(s: State, granted: Grant, job: Job, oldId: Option<Value>): End {
    var (grouped, s1) := GroupStep(s);
    var (told, s2) := CreateStep(s1, granted, Asked(job.readable));
    if grouped != Yes then Stopped
    else if told != Yes then (if s2.nextId > s1.nextId then Unanswered else Stopped)
    else
      ScopeMeans(s2, Id(s.nextId), job.readable, job.refused, 0);
      var (verdict, s3) := Scope(s2, Id(s.nextId), job.readable, job.refused, 0);
      EndFrom(s3, verdict, s3.trace[|s2.trace|..], s.nextId, job.pair, oldId, job.rotate)
  }

  /** A token was made and its id is known, and nothing else happened that is kept. */
  ghost predicate Created(s: State, made: State, scope: set<string>) {
    && made.files == s.files && made.nextId == s.nextId + 1 && made.settled == s.settled
    && made.tokens == s.tokens[Id(s.nextId) := scope] && made.trace == s.trace + [TokenCreated(Id(s.nextId), true)]
  }

  lemma CreateMeans(s: State, granted: Grant, asked: set<string>)
    ensures var (told, made) := CreateStep(GroupStep(s).1, granted, asked);
            told == Yes ==> Created(s, made, granted(s.nextId, asked))
  {
  }

  lemma EndFromTheCheck(s: State, verdict: Verdict, listings: seq<Event>, id: nat, pair: Pair, oldId: Option<Value>,
                        rotate: bool)
    ensures var end := EndFrom(s, verdict, listings, id, pair, oldId, rotate);
            Answered(end) && end.listings == listings
  {
  }

  /** The parts put together, once a token was made. */
  lemma MadeRuns(s: State, made: State, s3: State, r: Outcome, t: State, end: End, granted: Grant, job: Job,
                 oldId: Option<Value>)
    requires Created(s, made, granted(s.nextId, Asked(job.readable)))
    requires OnlyListed(made, s3, Id(s.nextId)) && Finished(s3, r, t, end, s.nextId, job.pair, oldId, job.rotate)
    requires Answered(end) && end.listings == s3.trace[|made.trace|..]
    requires Checked(end, Id(s.nextId), made.tokens[Id(s.nextId)], job.readable, job.refused)
    ensures Did(s, r, t, end, oldId, granted, job)
    ensures t.trace == s.trace + Body(end, Id(s.nextId), oldId, job.pair.file)
  {
    var new_ := Id(s.nextId);
    Joined(s.trace, [TokenCreated(new_, true)], end.listings, Tail(end, new_, oldId, job.pair.file));
    assert s3.trace == made.trace + end.listings;
  }

  lemma Joined(a: seq<Event>, b: seq<Event>, c: seq<Event>, d: seq<Event>)
    ensures a + b + c + d == a + (b + c + d)
  {
  }

  /** The listings of a check are what `Checked` says of the run it belongs to. */
  lemma CheckShows(s: State, t: State, verdict: Verdict, id: nat, job: Job, oldId: Option<Value>)
    requires Id(id) in s.tokens && job.readable != []
    requires Verifies(s, t, Id(id), job.readable, job.refused, verdict, 0)
    ensures Checked(EndFrom(t, verdict, t.trace[|s.trace|..], id, job.pair, oldId, job.rotate), Id(id),
                    s.tokens[Id(id)], job.readable, job.refused)
  {
    var listings := t.trace[|s.trace|..];
    assert Last(t) == listings[|listings| - 1];
  }

  lemma AnsweredRuns(s: State, s2: State, granted: Grant, job: Job, oldId: Option<Value>)
    requires job.readable != []
    requires CreateStep(GroupStep(s).1, granted, Asked(job.readable)) == (Yes, s2)
    ensures var (verdict, s3) := Scope(s2, Id(s.nextId), job.readable, job.refused, 0);
            var (r, t) := Finish(s3, verdict, s.nextId, job.pair, oldId, job.rotate);
            && |s2.trace| <= |s3.trace| && r != Kept
            && var end := EndFrom(s3, verdict, s3.trace[|s2.trace|..], s.nextId, job.pair, oldId, job.rotate);
               Did(s, r, t, end, oldId, granted, job)
               && t.trace == s.trace + Body(end, Id(s.nextId), oldId, job.pair.file)
  {
    ScopeMeans(s2, Id(s.nextId), job.readable, job.refused, 0);
    var (verdict, s3) := Scope(s2, Id(s.nextId), job.readable, job.refused, 0);
    var (r, t) := Finish(s3, verdict, s.nextId, job.pair, oldId, job.rotate);
    var listings := s3.trace[|s2.trace|..];
    CreateMeans(s, granted, Asked(job.readable));
    FinishRuns(s3, verdict, listings, s.nextId, job.pair, oldId, job.rotate);
    EndFromTheCheck(s3, verdict, listings, s.nextId, job.pair, oldId, job.rotate);
    CheckShows(s2, s3, verdict, s.nextId, job, oldId);
    MadeRuns(s, s2, s3, r, t, EndFrom(s3, verdict, listings, s.nextId, job.pair, oldId, job.rotate), granted, job,
             oldId);
  }

  /** What a mint does once it is decided. */
  lemma OverRuns(s: State, granted: Grant, job: Job, oldId: Option<Value>)
    requires job.readable != []
    ensures var (r, t) := MintOver(s, granted, job, oldId);
            var end := EndOf(s, granted, job, oldId);
            && r != Kept && Did(s, r, t, end, oldId, granted, job)
            && t.trace == s.trace + Body(end, Id(s.nextId), oldId, job.pair.file)
  {
    var (grouped, s1) := GroupStep(s);
    var (told, s2) := CreateStep(s1, granted, Asked(job.readable));
    if grouped == Yes && told == Yes {
      AnsweredRuns(s, s2, granted, job, oldId);
    }
  }

  /** What the reads change: what was sent, and what is to come. */
  ghost predicate OnlyRead(s: State, t: State, looks: seq<Event>) {
    && t.tokens == s.tokens && t.files == s.files && t.nextId == s.nextId && t.settled == s.settled
    && t.trace == s.trace + looks
  }

  lemma ShowMeans(s: State, path: string)
    ensures var (read, t) := ShowStep(s, path);
            t.trace != [] && OnlyRead(s, t, [t.trace[|t.trace| - 1]])
    ensures var (read, t) := ShowStep(s, path);
            var e := t.trace[|t.trace| - 1];
            && Reads(e, s.files, path) && (read.ReadRaised? <==> e.ShowRaised?)
            && (read.Got? ==> read.value == Answer(e))
            && (s.weather == [] ==> t.weather == [] && read == Got(Shown(s.files, path)) && e.common && e.prod)
  {
  }

  /** The reads of a mint from `s`. */
  function ReadsOf(s: State, pair: Pair): seq<Event> {
    var t := Look(s, pair).1;
    if |s.trace| <= |t.trace| then t.trace[|s.trace|..] else []
  }

  lemma LookMeans(s: State, pair: Pair)
    ensures OnlyRead(s, Look(s, pair).1, ReadsOf(s, pair)) && LooksUp(ReadsOf(s, pair), s.files, pair)
    ensures var (look, t) := Look(s, pair);
            var looks := ReadsOf(s, pair);
            var last := looks[|looks| - 1];
            && (look.LookRaised? <==> last.ShowRaised?)
            && (look.Whole? <==> last.KeyShown? && last.value.Some?)
            && (!look.LookRaised? ==> OldId(look) == Answer(looks[0]))
            && (s.weather == [] ==> t.weather == [] && (look.Whole? <==> HasPair(s.files, pair)) && !look.LookRaised?
                                    && OldId(look) == Shown(s.files, pair.access))
  {
    var (first, s1) := ShowStep(s, pair.access);
    ShowMeans(s, pair.access);
    var e := s1.trace[|s1.trace| - 1];
    assert s1.trace[|s.trace|..] == [e];
    if first.Got? && first.value.Some? {
      var s2 := ShowStep(s1, pair.secret).1;
      ShowMeans(s1, pair.secret);
      var e2 := s2.trace[|s2.trace| - 1];
      Assoc(s.trace, [e], [e2]);
      assert s2.trace[|s.trace|..] == [e, e2];
    }
  }

  /** The run of a mint from `s`. */
  ghost function RunOf(s: State, granted: Grant, job: Job): Run {
    var (look, s1) := Look(s, job.pair);
    Run(ReadsOf(s, job.pair), if Ends(look, job.rotate) then Stopped else EndOf(s1, granted, job, OldId(look)))
  }

  lemma DidAfterReads(s: State, s1: State, looks: seq<Event>, r: Outcome, t: State, end: End, oldId: Option<Value>,
                      granted: Grant, job: Job)
    requires OnlyRead(s, s1, looks) && Did(s1, r, t, end, oldId, granted, job)
    requires t.trace == s1.trace + Body(end, Id(s1.nextId), oldId, job.pair.file)
    ensures Did(s, r, t, end, oldId, granted, job)
    ensures t.trace == s.trace + (looks + Body(end, Id(s.nextId), oldId, job.pair.file))
  {
    Assoc(s.trace, looks, Body(end, Id(s.nextId), oldId, job.pair.file));
  }

  /** A mint that ends with its reads. */
  lemma EndsWithItsReads(s: State, t: State, looks: seq<Event>, r: Outcome, granted: Grant, job: Job)
    requires OnlyRead(s, t, looks) && looks != [] && LooksUp(looks, s.files, job.pair)
    requires r == if looks[|looks| - 1].ShowRaised? then Raised else Kept
    requires r == Kept ==> looks[|looks| - 1].value.Some? && !job.rotate
    ensures Ran(s, r, t, Run(looks, Stopped), granted, job)
  {
    assert looks + [] == looks;
  }

  /** A mint that its reads called for. */
  lemma RunsAfterReads(s: State, s1: State, looks: seq<Event>, granted: Grant, job: Job)
    requires job.readable != [] && OnlyRead(s, s1, looks) && LooksUp(looks, s.files, job.pair)
    requires CallsForAMint(Run(looks, Stopped), job.rotate)
    ensures var oldId := Answer(looks[0]);
            var (r, t) := MintOver(s1, granted, job, oldId);
            Ran(s, r, t, Run(looks, EndOf(s1, granted, job, oldId)), granted, job)
  {
    var oldId := Answer(looks[0]);
    var over := MintOver(s1, granted, job, oldId);
    OverRuns(s1, granted, job, oldId);
    DidAfterReads(s, s1, looks, over.0, over.1, EndOf(s1, granted, job, oldId), oldId, granted, job);
  }

  /** Every mint is one of these runs. */
  lemma MintIsARun(s: State, granted: Grant, job: Job)
    requires job.readable != []
    ensures Ran(s, Mint(s, granted, job).0, Mint(s, granted, job).1, RunOf(s, granted, job), granted, job)
  {
    var (look, s1) := Look(s, job.pair);
    var looks := ReadsOf(s, job.pair);
    LookMeans(s, job.pair);
    if Ends(look, job.rotate) {
      EndsWithItsReads(s, s1, looks, if look.LookRaised? then Raised else Kept, granted, job);
    } else {
      RunsAfterReads(s, s1, looks, granted, job);
    }
  }
}
