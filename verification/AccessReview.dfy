/**
 * The access review: toolkit/features/access_review.py.
 * The live tier of every account is compared with the declared one, and with `apply` corrected and
 * read back. The break-glass account, undeclared accounts and users whose groups the identity
 * provider has not caught up with are never touched.
 */
module AccessReview {
  import opened Prelude

  datatype Tier = Admin | Operator | Viewer

  datatype Status = Ok | Drift | Undeclared | Fixed | Failed | Refused | Bounded

  /** One account's finding: the tier declared for it in the app's own words, and the live one. */
  datatype Finding = Finding(declared: Option<string>, live: string, status: Status)

  /** What becomes of one correction: its answer if there is one, and whether the tier reads changed after. */
  datatype Fate = Answers(accepted: bool, changed: bool) | Raises(changed: bool)

  /** What becomes of a read: the accounts, the ReviewError of an app that refuses, or any other error. */
  datatype Answer = Served | Unserved | NoAnswer

  /** The i-th of the coming reads; after those listed every read is served. */
  function At(answers: seq<Answer>, i: nat): Answer {
    if i < |answers| then answers[i] else Served
  }

  datatype Reading = Accounts(tiers: map<string, string>) | ReviewError | OtherError

  function ReadAs(answer: Answer, tiers: map<string, string>): Reading {
    match answer
    case Served => Accounts(tiers)
    case Unserved => ReviewError
    case NoAnswer => OtherError
  }

  datatype Write = Write(user: string, tier: string)

  /** An app's accounts, and its own name for each tier. */
  class App {
    const tierMap: Tier -> string
    /** The stored tier changes at the account's next login, not when the correction answers. */
    const settlesOnNextLogin: bool
    var tiers: map<string, string>
    var answers: seq<Answer>
    /** The corrections sent so far; `fates` says what becomes of each. */
    var writes: seq<Write>
    const fates: nat -> Fate

    method Read() returns (r: Reading)
      modifies this`answers
      ensures r == ReadAs(At(old(answers), 0), tiers)
      ensures old(answers) == [] ==> r == Accounts(tiers)
      ensures answers == if old(answers) == [] then [] else old(answers)[1..]
    {
      r := ReadAs(At(answers, 0), tiers);
      if answers != [] {
        answers := answers[1..];
      }
    }

    /** None: an error the review does not catch, with the tier changed or not. */
    method SetTier(user: string, tier: string) returns (accepted: Option<bool>)
      requires user in tiers
      modifies this`tiers, this`writes
      ensures var fate := fates(|old(writes)|);
              && accepted == (if fate.Raises? then None else Some(fate.accepted))
              && tiers == if fate.changed then old(tiers)[user := tier] else old(tiers)
      ensures writes == old(writes) + [Write(user, tier)]
    {
      var fate := fates(|writes|);
      accepted := if fate.Raises? then None else Some(fate.accepted);
      if fate.changed {
        tiers := tiers[user := tier];
      }
      writes := writes + [Write(user, tier)];
    }
  }

  // ---------------------------------------------------------------- judging

  /** The declaration, with the break-glass account in the admin tier unless it says otherwise. */
  function Declared(declared: map<string, Tier>, protected: string): map<string, Tier> {
    if protected != "" then map[protected := Admin] + declared else declared
  }

  function Judge(declared: map<string, Tier>, tierMap: Tier -> string, user: string, live: string): Finding {
    if user !in declared then Finding(None, live, Undeclared)
    else
      var want := tierMap(declared[user]);
      Finding(Some(want), live, if live == want then Ok else Drift)
  }

  /** After the hold-back: the break-glass account's drift is refused, and never anything else. */
  function Held(declared: map<string, Tier>, tierMap: Tier -> string, protected: string, user: string, live: string)
    : Finding
  {
    var f := Judge(declared, tierMap, user, live);
    if f.status == Drift && user == protected then f.(status := Refused) else f
  }

  /** The accounts a review may correct: live, declared, not held back, and in another tier. */
  function Editable(declared: map<string, Tier>, tierMap: Tier -> string, tiers: map<string, string>,
                    protected: string, stale: set<string>): set<string>
  {
    set user | user in tiers && user in declared && user != protected && user !in stale
               && tiers[user] != tierMap(declared[user])
  }

  /** The loop of `review`, and of the hold-back that follows it. */
  method Review(declared: map<string, Tier>, tierMap: Tier -> string, protected: string, accounts: map<string, string>)
    returns (findings: map<string, Finding>)
    ensures HeldBack(findings, declared, tierMap, accounts, protected)
  {
    findings := map[];
    var todo := accounts.Keys;
    while todo != {}
      invariant todo <= accounts.Keys && findings.Keys == accounts.Keys - todo
      invariant forall user :: user in findings ==>
        findings[user] == Held(declared, tierMap, protected, user, accounts[user])
      decreases todo
    {
      var user :| user in todo;
      todo := todo - {user};
      var f := Finding(None, accounts[user], Undeclared);
      if user in declared {
        var want := tierMap(declared[user]);
        f := Finding(Some(want), accounts[user], if accounts[user] == want then Ok else Drift);
      }
      if f.status == Drift && user == protected {
        f := f.(status := Refused);
      }
      findings := findings[user := f];
    }
  }

  /** What one corrected drift became, judged by the tier read back and never by the write's answer. */
  function ReadBack(f: Finding, after: map<string, string>, user: string, bounded: bool): Finding {
    if user in after && Some(after[user]) == f.declared then f.(live := after[user], status := Fixed)
    else f.(live := if user in after then after[user] else "?", status := if bounded then Bounded else Failed)
  }

  // ---------------------------------------------------------------- reconciling one app

  /** The corrections of the first `n` of `users`, in that order, each to its declared tier. */
  ghost function WritesUpTo(users: seq<string>, n: nat, declared: map<string, Tier>, tierMap: Tier -> string)
    : seq<Write>
    requires n <= |users|
  {
    if n == 0 then []
    else
      var user := users[n - 1];
      WritesUpTo(users, n - 1, declared, tierMap)
      + [Write(user, if user in declared then tierMap(declared[user]) else "")]
  }

  ghost function WritesFor(users: seq<string>, declared: map<string, Tier>, tierMap: Tier -> string): seq<Write> {
    WritesUpTo(users, |users|, declared, tierMap)
  }

  lemma {:induction false} WritesOfPrefix(users: seq<string>, m: nat, n: nat, declared: map<string, Tier>,
                                          tierMap: Tier -> string)
    requires n <= m <= |users|
    ensures WritesUpTo(users[..m], n, declared, tierMap) == WritesUpTo(users, n, declared, tierMap)
  {
    if n > 0 {
      WritesOfPrefix(users, m, n - 1, declared, tierMap);
    }
  }

  /** One more correction sent, after those of the first `n`. */
  lemma OneMoreWrite(base: seq<Write>, writes: seq<Write>, write: Write, users: seq<string>, n: nat,
                     declared: map<string, Tier>, tierMap: Tier -> string)
    requires n < |users| && users[n] in declared && write == Write(users[n], tierMap(declared[users[n]]))
    requires writes == base + WritesUpTo(users, n, declared, tierMap) && |writes| == |base| + n
    ensures writes + [write] == base + WritesUpTo(users, n + 1, declared, tierMap)
    ensures |writes + [write]| == |base| + n + 1
  {
    var sent := WritesUpTo(users, n, declared, tierMap);
    assert base + sent + [write] == base + (sent + [write]);
  }

  /** One correction did what its fate says: answered so, and moved the tier to the declared one or not. */
  ghost predicate Obeys(user: string, fate: Fate, accepted: bool, declared: map<string, Tier>,
                        tierMap: Tier -> string, before: map<string, string>, after: map<string, string>)
  {
    && (accepted <==> fate.Answers? && fate.accepted)
    && user in before && user in after && user in declared
    && after[user] == if fate.changed then tierMap(declared[user]) else before[user]
  }

  /** The first `n` corrections of `order` did what their fates say; `fates(from)` is the first one's. */
  ghost predicate Obeyed(order: seq<string>, n: nat, fates: nat -> Fate, from: nat, accepted: set<string>,
                         declared: map<string, Tier>, tierMap: Tier -> string,
                         before: map<string, string>, after: map<string, string>)
    requires n <= |order|
  {
    forall k :: 0 <= k < n ==>
      Obeys(order[k], fates(from + k), order[k] in accepted, declared, tierMap, before, after)
  }

  /** Nobody but the first `n` of `order` was edited. */
  ghost predicate Untouched(order: seq<string>, n: nat, accepted: set<string>,
                            before: map<string, string>, after: map<string, string>)
    requires n <= |order|
  {
    && before.Keys == after.Keys
    && (forall k :: n <= k < |order| ==> AsItWas(order[k], accepted, before, after))
    && (forall user :: user !in order ==> AsItWas(user, accepted, before, after))
  }

  ghost predicate AsItWas(user: string, accepted: set<string>, before: map<string, string>, after: map<string, string>)
  {
    user !in accepted && (user in before ==> user in after && after[user] == before[user])
  }

  lemma OneMoreObeyed(order: seq<string>, n: nat, fates: nat -> Fate, from: nat, sofar: set<string>,
                      accepted: set<string>, declared: map<string, Tier>, tierMap: Tier -> string,
                      before: map<string, string>, mid: map<string, string>, after: map<string, string>)
    requires n < |order| && Distinct(order) && order[n] in declared && order[n] in before && order[n] !in sofar
    requires before.Keys == mid.Keys && mid[order[n]] == before[order[n]]
    requires Obeyed(order, n, fates, from, sofar, declared, tierMap, before, mid)
    requires accepted == if fates(from + n).Answers? && fates(from + n).accepted then sofar + {order[n]} else sofar
    requires after == if fates(from + n).changed then mid[order[n] := tierMap(declared[order[n]])] else mid
    ensures Obeyed(order, n + 1, fates, from, accepted, declared, tierMap, before, after)
  {
    forall k | 0 <= k < n
      ensures Obeys(order[k], fates(from + k), order[k] in accepted, declared, tierMap, before, after)
    {
      assert order[k] != order[n];
    }
  }

  lemma OneMoreUntouched(order: seq<string>, n: nat, sofar: set<string>, accepted: set<string>,
                         before: map<string, string>, mid: map<string, string>, after: map<string, string>)
    requires n < |order| && Distinct(order) && Untouched(order, n, sofar, before, mid)
    requires accepted <= sofar + {order[n]} && after.Keys == mid.Keys
    requires forall user :: user in mid && user != order[n] ==> after[user] == mid[user]
    ensures Untouched(order, n + 1, accepted, before, after)
  {
    forall user | user != order[n] && AsItWas(user, sofar, before, mid)
      ensures AsItWas(user, accepted, before, after)
    {
    }
  }

  /** The corrections from `from` on, before `to`, all answer. */
  ghost predicate AllAnswer(fates: nat -> Fate, from: nat, to: int) {
    forall k: nat :: from <= k < to ==> fates(k).Answers?
  }

  /** The first `n` of `order` are edited, in order, as their fates say, and nobody else is. */
  ghost predicate Sofar(order: seq<string>, n: nat, fates: nat -> Fate, declared: map<string, Tier>,
                        tierMap: Tier -> string, earlier: seq<Write>, writes: seq<Write>,
                        before: map<string, string>, after: map<string, string>, accepted: set<string>)
    requires n <= |order|
  {
    && writes == earlier + WritesUpTo(order, n, declared, tierMap) && |writes| == |earlier| + n
    && Obeyed(order, n, fates, |earlier|, accepted, declared, tierMap, before, after)
    && Untouched(order, n, accepted, before, after)
  }

  /** One edit, the n-th. `raised`: it ends the loop. */
  method CorrectOne(app: App, declared: map<string, Tier>, ghost order: seq<string>, ghost n: nat, user: string,
                    ghost earlier: seq<Write>, sofar: set<string>, ghost before: map<string, string>)
    returns (accepted: set<string>, raised: bool)
    requires n < |order| && user == order[n] && Distinct(order) && user in declared && user in before
    requires Sofar(order, n, app.fates, declared, app.tierMap, earlier, app.writes, before, app.tiers, sofar)
    modifies app`tiers, app`writes
    ensures raised == app.fates(|earlier| + n).Raises?
    ensures Sofar(order, n + 1, app.fates, declared, app.tierMap, earlier, app.writes, before, app.tiers, accepted)
  {
    accepted := sofar;
    ghost var writes, tiers, from := app.writes, app.tiers, |earlier|;
    var ok := app.SetTier(user, app.tierMap(declared[user]));
    raised := ok == None;
    if ok == Some(true) {
      accepted := accepted + {user};
    }
    assert AsItWas(user, sofar, before, tiers);
    OneMoreObeyed(order, n, app.fates, from, sofar, accepted, declared, app.tierMap, before, tiers, app.tiers);
    OneMoreUntouched(order, n, sofar, accepted, before, tiers, app.tiers);
    OneMoreWrite(earlier, writes, app.writes[|writes|], order, n, declared, app.tierMap);
  }

  /**
   * The edits, one account at a time, up to the first that raises; the first `sent` of `order` were
   * then edited, that one included, and everyone else's tier is left as it is.
   */
  method Correct(app: App, declared: map<string, Tier>, order: seq<string>)
    returns (accepted: set<string>, raised: bool, ghost sent: nat)
    requires Distinct(order)
    requires forall user :: user in order ==> user in app.tiers && user in declared
    modifies app`tiers, app`writes
    ensures sent <= |order|
    ensures Sofar(order, sent, app.fates, declared, app.tierMap, old(app.writes), app.writes, old(app.tiers),
                  app.tiers, accepted)
    ensures !raised ==> sent == |order| && AllAnswer(app.fates, |old(app.writes)|, |old(app.writes)| + sent)
    ensures raised ==>
      && sent > 0 && app.fates(|old(app.writes)| + sent - 1).Raises?
      && AllAnswer(app.fates, |old(app.writes)|, |old(app.writes)| + sent - 1)
  {
    accepted, raised, sent := {}, false, 0;
    for i := 0 to |order|
      invariant sent == i && !raised
      invariant AllAnswer(app.fates, |old(app.writes)|, |old(app.writes)| + i)
      invariant Sofar(order, i, app.fates, declared, app.tierMap, old(app.writes), app.writes, old(app.tiers),
                      app.tiers, accepted)
    {
      accepted, raised := CorrectOne(app, declared, order, i, order[i], old(app.writes), accepted, old(app.tiers));
      sent := i + 1;
      if raised {
        return;
      }
    }
  }

  /** The members of a set, in some order. */
  method Listed(users: set<string>) returns (order: seq<string>)
    ensures Distinct(order) && forall user :: user in order <==> user in users
  {
    order := [];
    var todo := users;
    while todo != {}
      invariant todo <= users
      invariant Distinct(order) && forall user :: user in order <==> user in users - todo
      decreases todo
    {
      var user :| user in todo;
      assert user !in order;
      todo := todo - {user};
      order := order + [user];
    }
  }

  /** `Escaped`: an error the review does not catch ended it, with nothing reported. */
  datatype Outcome = Unreadable | Escaped | Reviewed(findings: map<string, Finding>)

  /**
   * One account's finding after a run that left its tier at `after`. `bounded`: the app only changes a
   * tier at the next login, and it accepted the correction.
   */
  ghost predicate Reports(f: Finding, edited: bool, held: Finding, after: string, bounded: bool) {
    if edited then
      && f.declared == held.declared && f.live == after
      && (f.status == Fixed || f.status == Bounded || f.status == Failed)
      && (f.status == Fixed <==> Some(after) == held.declared)
      && (f.status == Bounded <==> Some(after) != held.declared && bounded)
    else f == held && after == held.live
  }

  /** Every account of the app is reported, the edited ones by what was read back. */
  ghost predicate AllReported(findings: map<string, Finding>, held: map<string, Finding>, order: seq<string>,
                              tiers: map<string, string>, bounded: set<string>)
  {
    && findings.Keys == held.Keys == tiers.Keys
    && forall user :: user in tiers ==>
         Reports(findings[user], user in order, held[user], tiers[user], user in bounded)
  }

  /** The findings before any edit. */
  ghost predicate HeldBack(held: map<string, Finding>, full: map<string, Tier>, tierMap: Tier -> string,
                           tiers: map<string, string>, protected: string)
  {
    && held.Keys == tiers.Keys
    && forall user :: user in held ==> held[user] == Held(full, tierMap, protected, user, tiers[user])
  }

  /** The k-th correction is bounded exactly when it was accepted by an app that settles at the next login. */
  ghost predicate Follows(order: seq<string>, bounded: set<string>, fates: nat -> Fate, from: nat, settles: bool) {
    forall k :: 0 <= k < |order| ==>
      (order[k] in bounded <==> settles && fates(from + k).Answers? && fates(from + k).accepted)
  }

  /** The k-th correction moved its account to the declared tier, or left it. */
  ghost predicate Moved(order: seq<string>, fates: nat -> Fate, from: nat, full: map<string, Tier>,
                        tierMap: Tier -> string, before: map<string, string>, after: map<string, string>)
  {
    forall k :: 0 <= k < |order| ==>
      && order[k] in before && order[k] in after && order[k] in full
      && after[order[k]] == if fates(from + k).changed then tierMap(full[order[k]]) else before[order[k]]
  }

  /** The last correction sent raised, and no other. */
  ghost predicate CutShort(order: seq<string>, fates: nat -> Fate, from: nat) {
    order != [] && fates(from + |order| - 1).Raises?
  }

  /** No correction after one that raised. */
  ghost predicate StopsAtARaise(order: seq<string>, fates: nat -> Fate, from: nat) {
    AllAnswer(fates, from, from + |order| - 1)
  }

  /**
   * What the corrections sent, to `order`, did to the app: only those accounts moved, as their fates say,
   * and none was sent after one that raised.
   */
  ghost predicate Edited(order: seq<string>, app: App, from: nat, full: map<string, Tier>, before: map<string, string>,
                         after: map<string, string>)
  {
    && Distinct(order) && before.Keys == after.Keys
    && Moved(order, app.fates, from, full, app.tierMap, before, after)
    && (forall user :: user in after && user !in order ==> after[user] == before[user])
    && StopsAtARaise(order, app.fates, from)
  }

  /** Every account of `editable`, once each, or those up to a raise; which corrections are bounded. */
  method EditAll(app: App, full: map<string, Tier>, editable: set<string>)
    returns (bounded: set<string>, raised: bool, ghost order: seq<string>)
    requires editable <= app.tiers.Keys && editable <= full.Keys
    modifies app`tiers, app`writes
    ensures forall user :: user in order ==> user in editable
    ensures raised == CutShort(order, app.fates, |old(app.writes)|)
    ensures !raised ==> forall user :: user in editable ==> user in order
    ensures app.writes == old(app.writes) + WritesFor(order, full, app.tierMap)
    ensures Edited(order, app, |old(app.writes)|, full, old(app.tiers), app.tiers)
    ensures Follows(order, bounded, app.fates, |old(app.writes)|, app.settlesOnNextLogin)
  {
    var users := Listed(editable);
    var accepted;
    ghost var sent;
    accepted, raised, sent := Correct(app, full, users);
    order := users[..sent];
    bounded := if app.settlesOnNextLogin then accepted else {};
    WritesOfPrefix(users, sent, sent, full, app.tierMap);
    forall k | 0 <= k < |order|
      ensures order[k] in bounded <==> app.settlesOnNextLogin && app.fates(|old(app.writes)| + k).Answers?
                                       && app.fates(|old(app.writes)| + k).accepted
      ensures Obeys(order[k], app.fates(|old(app.writes)| + k), order[k] in accepted, full, app.tierMap,
                    old(app.tiers), app.tiers)
    {
      assert Obeys(users[k], app.fates(|old(app.writes)| + k), users[k] in accepted, full, app.tierMap,
                   old(app.tiers), app.tiers);
    }
    OthersAsTheyWere(users, sent, accepted, old(app.tiers), app.tiers);
  }

  lemma OthersAsTheyWere(users: seq<string>, sent: nat, accepted: set<string>,
                         before: map<string, string>, after: map<string, string>)
    requires sent <= |users| && Untouched(users, sent, accepted, before, after)
    ensures forall user :: user in after && user !in users[..sent] ==> after[user] == before[user]
  {
    forall user | user in after && user !in users[..sent]
      ensures after[user] == before[user]
    {
      assert users == users[..sent] + users[sent..];
      assert AsItWas(user, accepted, before, after);
    }
  }

  /** The correcting half: edit, read again, and judge by what was read. */
  method CorrectAndReadBack(app: App, full: map<string, Tier>, held: map<string, Finding>, editable: set<string>)
    returns (r: Outcome, ghost order: seq<string>, ghost bounded: set<string>)
    requires held.Keys == app.tiers.Keys && editable <= held.Keys && editable <= full.Keys
    requires forall user :: user in held ==> held[user].live == app.tiers[user]
    requires forall user :: user in editable ==> held[user].declared == Some(app.tierMap(full[user]))
    modifies app`tiers, app`writes, app`answers
    ensures forall user :: user in order ==> user in editable
    ensures var raised := CutShort(order, app.fates, |old(app.writes)|);
            && (!raised ==> forall user :: user in editable ==> user in order)
            && (r.Reviewed? <==> !raised && At(old(app.answers), 0) == Served)
            && (r.Unreadable? <==> !raised && At(old(app.answers), 0) == Unserved)
    ensures app.writes == old(app.writes) + WritesFor(order, full, app.tierMap)
    ensures Edited(order, app, |old(app.writes)|, full, old(app.tiers), app.tiers)
    ensures r.Reviewed? ==> AllReported(r.findings, held, order, app.tiers, bounded)
    ensures Follows(order, bounded, app.fates, |old(app.writes)|, app.settlesOnNextLogin)
  {
    var settled, raised;
    settled, raised, order := EditAll(app, full, editable);
    bounded := settled;
    if raised {
      return Escaped, order, bounded;
    }
    var after := app.Read();
    r := if after.ReviewError? then Unreadable
         else if after.OtherError? then Escaped
         else Reviewed(map user | user in held ::
           if user in editable
           then ReadBack(held[user], after.tiers, user, user in settled)
           else held[user]);
  }

  /** The first read, judged and held back, and the accounts that may be corrected. */
  method ReadAndReview(app: App, full: map<string, Tier>, protected: string, stale: set<string>)
    returns (r: Outcome, editable: set<string>)
    modifies app`answers
    ensures r.Reviewed? <==> At(old(app.answers), 0) == Served
    ensures r.Unreadable? <==> At(old(app.answers), 0) == Unserved
    ensures app.answers == if old(app.answers) == [] then [] else old(app.answers)[1..]
    ensures r.Reviewed? ==>
      && HeldBack(r.findings, full, app.tierMap, app.tiers, protected)
      && editable == Editable(full, app.tierMap, app.tiers, protected, stale)
  {
    var accounts := app.Read();
    match accounts
    case ReviewError =>
      return Unreadable, {};
    case OtherError =>
      return Escaped, {};
    case Accounts(tiers) =>
      var findings := Review(full, app.tierMap, protected, tiers);
      editable := set user | user in findings && findings[user].status == Drift && user !in stale;
      r := Reviewed(findings);
  }

  /**
   * How a run ends: reviewed when both reads are served, or the first when nothing is edited, and no
   * edit raises; unreadable when a read is refused; escaped at any other error.
   */
  ghost predicate Ends(r: Outcome, order: seq<string>, fates: nat -> Fate, from: nat, answers: seq<Answer>) {
    && (r.Reviewed? <==>
          At(answers, 0) == Served
          && (order == [] || (!CutShort(order, fates, from) && At(answers, 1) == Served)))
    && (r.Unreadable? <==>
          At(answers, 0) == Unserved
          || (At(answers, 0) == Served && order != [] && !CutShort(order, fates, from) && At(answers, 1) == Unserved))
  }

  /** Whom a run edits: nobody it may not, and everybody it may unless an edit raises. */
  ghost predicate Covers(order: seq<string>, editable: set<string>, apply: bool, fates: nat -> Fate, from: nat,
                         answers: seq<Answer>)
  {
    && (forall user :: user in order ==> apply && user in editable)
    && (At(answers, 0) != Served ==> order == [])
    && (apply && At(answers, 0) == Served && !CutShort(order, fates, from) ==>
          forall user :: user in editable ==> user in order)
  }

  /** Review one app against the merged declaration. */
  method ReconcileMerged(app: App, full: map<string, Tier>, apply: bool, protected: string, stale: set<string>)
    returns (r: Outcome, ghost held: map<string, Finding>, ghost order: seq<string>, ghost bounded: set<string>)
    modifies app`tiers, app`writes, app`answers
    ensures Covers(order, Editable(full, app.tierMap, old(app.tiers), protected, stale), apply, app.fates,
                   |old(app.writes)|, old(app.answers))
    ensures app.writes == old(app.writes) + WritesFor(order, full, app.tierMap)
    ensures Edited(order, app, |old(app.writes)|, full, old(app.tiers), app.tiers)
    ensures Ends(r, order, app.fates, |old(app.writes)|, old(app.answers))
    ensures r.Reviewed? ==> HeldBack(held, full, app.tierMap, old(app.tiers), protected)
    ensures r.Reviewed? ==> AllReported(r.findings, held, order, app.tiers, bounded)
    ensures Follows(order, bounded, app.fates, |old(app.writes)|, app.settlesOnNextLogin)
  {
    held, order, bounded := map[], [], {};
    var editable;
    r, editable := ReadAndReview(app, full, protected, stale);
    if !r.Reviewed? {
      return;
    }
    held := r.findings;
    if apply && editable != {} {
      r, order, bounded := CorrectAndReadBack(app, full, r.findings, editable);
    }
  }

  /**
   * Review one app and, with `apply`, correct exactly the drifts it may, once each, and read them back.
   * The break-glass account, undeclared and stale users keep the tier they had. An edit that raises
   * ends the run there: the accounts before it are edited, it may be, the rest are not, and nothing
   * is reported.
   */
  method Reconcile(app: App, declared: map<string, Tier>, apply: bool, protected: string, stale: set<string>)
    returns (r: Outcome, ghost held: map<string, Finding>, ghost order: seq<string>, ghost bounded: set<string>)
    modifies app`tiers, app`writes, app`answers
    ensures var full := Declared(declared, protected);
            && Covers(order, Editable(full, app.tierMap, old(app.tiers), protected, stale), apply, app.fates,
                      |old(app.writes)|, old(app.answers))
            && app.writes == old(app.writes) + WritesFor(order, full, app.tierMap)
            && Edited(order, app, |old(app.writes)|, full, old(app.tiers), app.tiers)
            && (r.Reviewed? ==> HeldBack(held, full, app.tierMap, old(app.tiers), protected))
    ensures Ends(r, order, app.fates, |old(app.writes)|, old(app.answers))
    ensures r.Reviewed? ==> AllReported(r.findings, held, order, app.tiers, bounded)
    ensures Follows(order, bounded, app.fates, |old(app.writes)|, app.settlesOnNextLogin)
  {
    r, held, order, bounded := ReconcileMerged(app, Declared(declared, protected), apply, protected, stale);
  }

  // ---------------------------------------------------------------- what a run means

  /** No finding says more than the declaration, the hold-backs and the tier read. */
  lemma HeldBackMeans(full: map<string, Tier>, tierMap: Tier -> string, tiers: map<string, string>,
                      protected: string, stale: set<string>, user: string)
    requires user in tiers
    ensures var f := Held(full, tierMap, protected, user, tiers[user]);
            && (user in Editable(full, tierMap, tiers, protected, stale) <==> f.status == Drift && user !in stale)
            && (f.status == Undeclared <==> user !in full)
            && (f.status == Refused <==>
                  user == protected && user in full && tiers[user] != tierMap(full[user]))
            && (f.status == Ok <==> user in full && tiers[user] == tierMap(full[user]))
  {
  }

  /** The break-glass account is always judged, as an admin unless the declaration gives it a tier. */
  lemma ProtectedIsDeclared(declared: map<string, Tier>, protected: string)
    requires protected != ""
    ensures protected in Declared(declared, protected)
    ensures Declared(declared, protected)[protected] == if protected in declared then declared[protected] else Admin
    ensures forall user :: user != protected ==>
      (user in Declared(declared, protected) <==> user in declared)
      && (user in declared ==> Declared(declared, protected)[user] == declared[user])
  {
  }

  /**
   * What is left to do after a run is what it did not report fixed: a second run edits exactly those
   * accounts, and after an all-`fixed` run it edits none.
   */
  lemma SecondRunEditsTheUnfixed(full: map<string, Tier>, tierMap: Tier -> string, before: map<string, string>,
                                 after: map<string, string>, protected: string, stale: set<string>,
                                 held: map<string, Finding>, findings: map<string, Finding>, order: seq<string>,
                                 bounded: set<string>)
    requires before.Keys == after.Keys
    requires forall user :: user in order <==> user in Editable(full, tierMap, before, protected, stale)
    requires HeldBack(held, full, tierMap, before, protected)
    requires AllReported(findings, held, order, after, bounded)
    ensures Editable(full, tierMap, after, protected, stale)
            == set user | user in order && findings[user].status != Fixed
  {
  }

  /** The run did not move the account: it sent no correction for it, or one that changed nothing. */
  ghost predicate Unmoved(user: string, order: seq<string>, fates: nat -> Fate, from: nat) {
    forall k :: 0 <= k < |order| && order[k] == user ==> !fates(from + k).changed
  }

  /** However a run ends, a rerun is left with exactly the accounts it did not move. */
  lemma RerunEditsTheRest(app: App, full: map<string, Tier>, before: map<string, string>, after: map<string, string>,
                          protected: string, stale: set<string>, order: seq<string>, from: nat)
    requires Edited(order, app, from, full, before, after)
    requires forall user :: user in order ==> user in Editable(full, app.tierMap, before, protected, stale)
    ensures forall user ::
      user in Editable(full, app.tierMap, after, protected, stale) <==>
      user in Editable(full, app.tierMap, before, protected, stale) && Unmoved(user, order, app.fates, from)
  {
  }

  /** No edit of the run failed, and none waits for a login. */
  ghost predicate AllFixed(r: Outcome) {
    r.Reviewed? && forall user :: user in r.findings ==>
      r.findings[user].status != Bounded && r.findings[user].status != Failed
  }

  /**
   * After a run, even one an edit's error ended, a second edits nobody but the accounts the first did
   * not move, and all of them if none of its own edits raises. After a run that fixed everything it
   * edited it writes nothing.
   */
  method ReconcileTwice(app: App, declared: map<string, Tier>, protected: string, stale: set<string>)
    returns (first: Outcome, second: Outcome, ghost order: seq<string>, ghost again: seq<string>)
    modifies app`tiers, app`writes, app`answers
    ensures var full := Declared(declared, protected);
            app.writes == old(app.writes) + WritesFor(order, full, app.tierMap) + WritesFor(again, full, app.tierMap)
    ensures var full := Declared(declared, protected);
            var editable := Editable(full, app.tierMap, old(app.tiers), protected, stale);
            && (forall user :: user in again ==>
                  user in editable && Unmoved(user, order, app.fates, |old(app.writes)|))
            && (second.Reviewed? ==>
                  forall user :: user in editable && Unmoved(user, order, app.fates, |old(app.writes)|) ==>
                    user in again)
    ensures AllFixed(first) ==> again == []
  {
    ghost var full := Declared(declared, protected);
    ghost var before, from := app.tiers, |app.writes|;
    ghost var held, bounded;
    first, held, order, bounded := Reconcile(app, declared, true, protected, stale);
    RerunEditsTheRest(app, full, before, app.tiers, protected, stale, order, from);
    if AllFixed(first) {
      NothingIsLeft(full, app.tierMap, before, app.tiers, protected, stale, held, first.findings, order, bounded);
    }
    second, held, again, bounded := Reconcile(app, declared, true, protected, stale);
  }

  lemma NothingIsLeft(full: map<string, Tier>, tierMap: Tier -> string, before: map<string, string>,
                      after: map<string, string>, protected: string, stale: set<string>,
                      held: map<string, Finding>, findings: map<string, Finding>, order: seq<string>,
                      bounded: set<string>)
    requires before.Keys == after.Keys && AllFixed(Reviewed(findings))
    requires forall user :: user in order <==> user in Editable(full, tierMap, before, protected, stale)
    requires HeldBack(held, full, tierMap, before, protected)
    requires AllReported(findings, held, order, after, bounded)
    ensures Editable(full, tierMap, after, protected, stale) == {}
  {
  }

  // ---------------------------------------------------------------- Gitea's paged list

  const PAGE_SIZE := 50

  /** The server's p-th page, counted from 1: it serves at most `cap` users a page, whatever is asked. */
  function Page<T>(all: seq<T>, cap: nat, p: nat): seq<T>
    requires p >= 1
  {
    var size := if cap < PAGE_SIZE then cap else PAGE_SIZE;
    var from := size * (p - 1);
    if from >= |all| then [] else if from + size >= |all| then all[from..] else all[from..from + size]
  }

  /**
   * Pages until a short one. `broken(p)`: page p did not answer 200 with a list. The list is whole
   * exactly when the server serves pages of the size asked for, or everything fits in its first page:
   * a smaller page reads as the last one.
   */
  method ReadPages<T>(all: seq<T>, cap: nat, broken: nat -> bool) returns (users: Option<seq<T>>, pages: nat)
    requires cap >= 1
    ensures users == None <==> exists p :: 1 <= p <= pages && broken(p)
    ensures users.Some? ==> users.value == if cap >= 50 || |all| <= cap then all else all[..cap]
    ensures users.Some? ==> (users.value == all <==> cap >= 50 || |all| <= cap)
  {
    var sofar: seq<T> := [];
    pages := 1;
    while true
      invariant pages >= 1 && (pages > 1 ==> cap >= PAGE_SIZE)
      invariant PAGE_SIZE * (pages - 1) <= |all| && sofar == all[..PAGE_SIZE * (pages - 1)]
      invariant forall p :: 1 <= p < pages ==> !broken(p)
      decreases |all| - PAGE_SIZE * (pages - 1)
    {
      if broken(pages) {
        return None, pages;
      }
      var body := Page(all, cap, pages);
      sofar := sofar + body;
      if |body| < PAGE_SIZE {
        return Some(sofar), pages;
      }
      pages := pages + 1;
    }
  }

  // ---------------------------------------------------------------- the identity provider's groups

  /** One user of the database Authelia runs. */
  datatype IdpUser = IdpUser(name: string, groups: set<string>, email: Option<string>)

  function Names(db: seq<IdpUser>): set<string> {
    set k | 0 <= k < |db| :: db[k].name
  }

  function GroupsOf(db: seq<IdpUser>, name: string): Option<set<string>> {
    if db == [] then None
    else if db[|db| - 1].name == name then Some(db[|db| - 1].groups)
    else GroupsOf(db[..|db| - 1], name)
  }

  /** Email to username; the last user of an address has it. */
  function Logins(db: seq<IdpUser>): map<string, string> {
    if db == [] then map[]
    else
      var last := db[|db| - 1];
      var before := Logins(db[..|db| - 1]);
      if last.email.Some? then before[last.email.value := last.name] else before
  }

  /** The addresses the map knows `name` by; at most one, since a name is one key with one address. */
  function Known(logins: map<string, string>, name: string): set<string> {
    set email | email in logins && logins[email] == name
  }

  /** The k-th user has that name and that address, and no later user has the address. */
  ghost predicate Owns(db: seq<IdpUser>, k: nat, name: string, email: string) {
    && k < |db| && db[k].name == name && db[k].email == Some(email)
    && forall j :: k < j < |db| ==> db[j].email != Some(email)
  }

  /** So comparing the sets is comparing the one address each side knows the user by. */
  lemma {:induction false} KnownByTheirOwnAddress(db: seq<IdpUser>, name: string, email: string)
    ensures email in Known(Logins(db), name) <==> exists k: nat :: Owns(db, k, name, email)
  {
    if db != [] {
      var n := |db| - 1;
      KnownByTheirOwnAddress(db[..n], name, email);
      if db[n].email == Some(email) {
        assert db[n].name == name ==> Owns(db, n, name, email);
      } else {
        forall k: nat
          ensures Owns(db, k, name, email) <==> Owns(db[..n], k, name, email)
        {
          assert forall j :: 0 <= j < n ==> db[..n][j] == db[j];
        }
      }
    }
  }

  /** The users the review must not correct: the database Authelia serves differs on them. */
  predicate Lags(want: seq<IdpUser>, have: seq<IdpUser>, name: string) {
    || GroupsOf(want, name) == None || GroupsOf(have, name) == None
    || GroupsOf(want, name) != GroupsOf(have, name)
    || Known(Logins(want), name) != Known(Logins(have), name)
  }

  /** The k-th is the user's entry: the last of that name. A database that is a mapping has one a name. */
  ghost predicate IsEntry(db: seq<IdpUser>, k: nat, name: string) {
    k < |db| && db[k].name == name && forall j :: k < j < |db| ==> db[j].name != name
  }

  lemma EntriesAreUnique(db: seq<IdpUser>, j: nat, k: nat, name: string)
    requires IsEntry(db, j, name) && IsEntry(db, k, name)
    ensures j == k
  {
  }

  /** The groups are those of the user's own entry. */
  lemma {:induction false} GroupsOfNames(db: seq<IdpUser>, name: string)
    ensures GroupsOf(db, name).Some? <==> exists k :: 0 <= k < |db| && db[k].name == name
    ensures GroupsOf(db, name).Some? <==> exists k: nat :: IsEntry(db, k, name)
    ensures forall k: nat :: IsEntry(db, k, name) ==> GroupsOf(db, name) == Some(db[k].groups)
  {
    if db != [] {
      var n := |db| - 1;
      GroupsOfNames(db[..n], name);
      if db[n].name == name {
        assert IsEntry(db, n, name);
      } else {
        forall k: nat
          ensures IsEntry(db, k, name) <==> IsEntry(db[..n], k, name)
        {
          assert forall j :: 0 <= j < n ==> db[..n][j] == db[j];
        }
      }
    }
  }

  /**
   * What makes a user lag, read off the two databases: no entry in one of them, entries with different
   * groups, or an address that only one of them knows the user by.
   */
  ghost predicate LagsBehind(want: seq<IdpUser>, have: seq<IdpUser>, name: string) {
    || (forall k: nat :: !IsEntry(want, k, name)) || (forall k: nat :: !IsEntry(have, k, name))
    || (exists i: nat, j: nat :: IsEntry(want, i, name) && IsEntry(have, j, name) && want[i].groups != have[j].groups)
    || (exists email :: !(OwnsOne(want, name, email) <==> OwnsOne(have, name, email)))
  }

  ghost predicate OwnsOne(db: seq<IdpUser>, name: string, email: string) {
    exists k: nat :: Owns(db, k, name, email)
  }

  lemma LagsIffBehind(want: seq<IdpUser>, have: seq<IdpUser>, name: string)
    ensures Lags(want, have, name) <==> LagsBehind(want, have, name)
  {
    GroupsOfNames(want, name);
    GroupsOfNames(have, name);
    KnownAlike(want, have, name);
  }

  lemma KnownAlike(want: seq<IdpUser>, have: seq<IdpUser>, name: string)
    ensures Known(Logins(want), name) == Known(Logins(have), name) <==>
            forall email :: OwnsOne(want, name, email) <==> OwnsOne(have, name, email)
  {
    forall email
      ensures email in Known(Logins(want), name) <==> OwnsOne(want, name, email)
      ensures email in Known(Logins(have), name) <==> OwnsOne(have, name, email)
    {
      KnownByTheirOwnAddress(want, name, email);
      KnownByTheirOwnAddress(have, name, email);
    }
  }

  /** One finding per user of either database, and the users that lag. None: a side is unreadable. */
  method IdpGroupsDrift(rendered: Option<seq<IdpUser>>, live: Option<seq<IdpUser>>)
    returns (findings: Option<map<string, Status>>, stale: set<string>)
    ensures findings == None <==> rendered == None || live == None
    ensures findings == None ==> stale == {}
    ensures findings.Some? ==>
      && findings.value.Keys == Names(rendered.value) + Names(live.value)
      && stale <= findings.value.Keys
      && (forall user :: user in findings.value ==>
            && (user in stale <==> LagsBehind(rendered.value, live.value, user))
            && findings.value[user] == if user in stale then Drift else Ok)
  {
    stale := {};
    if rendered == None || live == None {
      return None, stale;
    }
    var want, have := rendered.value, live.value;
    var wantMail, haveMail := Logins(want), Logins(have);
    var users := Names(want) + Names(have);
    var found: map<string, Status> := map[];
    var todo := users;
    while todo != {}
      invariant todo <= users && found.Keys == users - todo && stale <= found.Keys
      invariant forall user :: user in found ==>
        (user in stale <==> Lags(want, have, user)) && found[user] == if user in stale then Drift else Ok
      decreases todo
    {
      var user :| user in todo;
      todo := todo - {user};
      GroupsOfNames(want, user);
      GroupsOfNames(have, user);
      var moved := user in Names(want) && user in Names(have) && Known(wantMail, user) != Known(haveMail, user);
      var same := user in Names(want) && user in Names(have) && GroupsOf(want, user) == GroupsOf(have, user) && !moved;
      if !same {
        stale := stale + {user};
      }
      found := found[user := if same then Ok else Drift];
    }
    forall user | user in found
      ensures Lags(want, have, user) <==> LagsBehind(want, have, user)
    {
      LagsIffBehind(want, have, user);
    }
    findings := Some(found);
  }

  /** Everyone known to either side whom the review must not correct. */
  function Lagging(want: seq<IdpUser>, have: seq<IdpUser>): set<string> {
    set user | user in Names(want) + Names(have) && Lags(want, have, user)
  }

  /**
   * The gate of review_env: the identity provider first, then the app. With its groups unread nothing is
   * corrected, and a user who lags is corrected in no app, since the next login would undo it.
   */
  method ReviewBehindIdp(app: App, declared: map<string, Tier>, apply: bool, protected: string,
                         rendered: Option<seq<IdpUser>>, live: Option<seq<IdpUser>>)
    returns (r: Outcome, ghost order: seq<string>)
    modifies app`tiers, app`writes, app`answers
    ensures var full := Declared(declared, protected);
            && app.writes == old(app.writes) + WritesFor(order, full, app.tierMap)
            && Edited(order, app, |old(app.writes)|, full, old(app.tiers), app.tiers)
            && (rendered.Some? && live.Some? ==>
                  Covers(order, Editable(full, app.tierMap, old(app.tiers), protected,
                                         Lagging(rendered.value, live.value)),
                         apply, app.fates, |old(app.writes)|, old(app.answers)))
    // nobody whom either database has and who lags is edited
    ensures rendered.Some? && live.Some? ==>
      forall user :: user in order && user in Names(rendered.value) + Names(live.value) ==>
        !LagsBehind(rendered.value, live.value, user)
    ensures rendered == None || live == None ==> order == []
    ensures Ends(r, order, app.fates, |old(app.writes)|, old(app.answers))
  {
    var findings, stale := IdpGroupsDrift(rendered, live);
    if findings.Some? {
      forall user
        ensures Lags(rendered.value, live.value, user) <==> LagsBehind(rendered.value, live.value, user)
      {
        LagsIffBehind(rendered.value, live.value, user);
      }
      assert stale == Lagging(rendered.value, live.value);
    }
    ghost var held, bounded;
    r, held, order, bounded := Reconcile(app, declared, apply && findings.Some?, protected, stale);
    if findings == None {
      Nobody(order);
    }
  }

  lemma Nobody(order: seq<string>)
    requires forall user :: user !in order
    ensures order == []
  {
    SomeMember(order);
  }
}
