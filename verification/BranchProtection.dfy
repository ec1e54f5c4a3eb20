/**
 * Branch protection: toolkit/features/branch_protection.py.
 * A PUT replaces the whole object and clears what it does not receive, and it takes another shape
 * than a GET answers. So the live object is read, the declaration overlaid, everything sent back, and
 * the object read again.
 */
module BranchProtection {
  import opened Prelude

  // ---------------------------------------------------------------- what a GET answers

  /** The eight fields a GET wraps as `{"enabled": bool}` and a PUT takes bare. */
  const ENABLED_WRAPPED: seq<string> := [
    "enforce_admins", "required_linear_history", "allow_force_pushes", "allow_deletions", "block_creations",
    "required_conversation_resolution", "lock_branch", "allow_fork_syncing"]

  /** Keys of a nested object that a PUT does not take. */
  const READ_ONLY_ON_PUT: seq<string> := ["url", "required_signatures", "contexts_url"]

  /** A user, team or app as a GET lists it; the empty string is a key it does not have. */
  datatype Entry = Entry(login: string, slug: string)

  datatype Restrictions<T> = Restrictions(users: seq<T>, teams: seq<T>, apps: seq<T>)

  /** A value inside the reviews: plain, or who may dismiss one or pass it by, as a GET lists them. */
  datatype Value = Plain(text: string) | People(listed: Restrictions<Entry>)

  /** The required checks: their names, and the app each may be pinned to. */
  datatype Checks = Checks(strict: bool, contexts: seq<string>, pins: map<string, nat>)

  datatype Protection = Protection(
    enabled: map<string, bool>,
    reviews: Option<map<string, Value>>,
    restrictions: Option<Restrictions<Entry>>,
    checks: Option<Checks>)

  datatype Declared = Declared(strict: bool, contexts: seq<string>)

  /** What a PUT carries. */
  datatype Body = Body(
    flags: map<string, bool>,
    reviews: Option<map<string, Value>>,
    restrictions: Option<Restrictions<string>>,
    strict: bool,
    contexts: seq<string>)

  function On(live: Protection, field: string): bool {
    field in live.enabled && live.enabled[field]
  }

  function Strict(live: Protection): bool {
    live.checks.Some? && live.checks.value.strict
  }

  function Contexts(live: Protection): seq<string> {
    if live.checks.Some? then live.checks.value.contexts else []
  }

  // ---------------------------------------------------------------- the single predicate

  datatype Change =
    | StrictChange(live: bool, declared: bool)
    | ContextsChange(liveNames: seq<string>, declaredNames: seq<string>)

  /** The live object says what is declared; the order of the contexts is no difference. */
  ghost predicate Agrees(live: Protection, declared: Declared) {
    Strict(live) == declared.strict && multiset(Contexts(live)) == multiset(declared.contexts)
  }

  method ProtectionChanges(live: Protection, declared: Declared) returns (changes: seq<Change>)
    ensures changes == [] <==> Agrees(live, declared)
    ensures changes == [] <==>
      && (live.checks.Some? && live.checks.value.strict) == declared.strict
      && multiset(if live.checks.Some? then live.checks.value.contexts else []) == multiset(declared.contexts)
    ensures StrictChange(Strict(live), declared.strict) in changes <==> Strict(live) != declared.strict
    ensures ContextsChange(Contexts(live), declared.contexts) in changes <==>
      multiset(Contexts(live)) != multiset(declared.contexts)
    ensures |changes| <= 2
  {
    changes := [];
    var liveStrict := Strict(live);
    if liveStrict != declared.strict {
      changes := changes + [StrictChange(liveStrict, declared.strict)];
    }
    var liveContexts := Contexts(live);
    if multiset(liveContexts) != multiset(declared.contexts) {
      changes := changes + [ContextsChange(liveContexts, declared.contexts)];
    }
  }

  // ---------------------------------------------------------------- the replace body

  function NameOf(entry: Entry): string {
    if entry.login != "" then entry.login else entry.slug
  }

  function Named(entries: seq<Entry>): seq<string> {
    seq(|entries|, i requires 0 <= i < |entries| => NameOf(entries[i]))
  }

  function NamesOf(r: Restrictions<Entry>): Restrictions<string> {
    Restrictions(Named(r.users), Named(r.teams), Named(r.apps))
  }

  function Writable(reviews: map<string, Value>): map<string, Value> {
    map k | k in reviews && k !in READ_ONLY_ON_PUT :: reviews[k]
  }

  /** A flag is on in both or in neither. */
  ghost predicate SameFlag(a: Protection, b: Protection, field: string) {
    (field in a.enabled && a.enabled[field]) <==> (field in b.enabled && b.enabled[field])
  }

  /** The people, teams or apps that a list names, by login or else by slug. */
  ghost predicate SameEntries(a: seq<Entry>, b: seq<Entry>) {
    && |a| == |b|
    && forall i :: 0 <= i < |a| ==>
         (if a[i].login != "" then a[i].login else a[i].slug) == if b[i].login != "" then b[i].login else b[i].slug
  }

  /**
   * Everything but the checks and three keys that have endpoints of their own is the same in both: the
   * eight flags, every other key of the reviews with its value, and who is named in the restrictions.
   */
  ghost predicate RestIsSame(a: Protection, b: Protection) {
    && SameFlag(a, b, "enforce_admins") && SameFlag(a, b, "required_linear_history")
    && SameFlag(a, b, "allow_force_pushes") && SameFlag(a, b, "allow_deletions")
    && SameFlag(a, b, "block_creations") && SameFlag(a, b, "required_conversation_resolution")
    && SameFlag(a, b, "lock_branch") && SameFlag(a, b, "allow_fork_syncing")
    && (a.reviews.Some? <==> b.reviews.Some?)
    && (a.reviews.Some? ==>
          forall k :: k != "url" && k != "required_signatures" && k != "contexts_url" ==>
            && (k in a.reviews.value <==> k in b.reviews.value)
            && (k in a.reviews.value ==> a.reviews.value[k] == b.reviews.value[k]))
    && (a.restrictions.Some? <==> b.restrictions.Some?)
    && (a.restrictions.Some? ==>
          && SameEntries(a.restrictions.value.users, b.restrictions.value.users)
          && SameEntries(a.restrictions.value.teams, b.restrictions.value.teams)
          && SameEntries(a.restrictions.value.apps, b.restrictions.value.apps))
  }

  /** What the object says about everything the declaration leaves alone. */
  ghost predicate SameElsewhere(a: Protection, b: Protection) {
    && (forall field :: field in ENABLED_WRAPPED ==> On(a, field) == On(b, field))
    && (a.reviews.Some? <==> b.reviews.Some?)
    && (a.reviews.Some? ==> Writable(a.reviews.value) == Writable(b.reviews.value))
    && (a.restrictions.Some? <==> b.restrictions.Some?)
    && (a.restrictions.Some? ==> NamesOf(a.restrictions.value) == NamesOf(b.restrictions.value))
  }

  /** The two are one: the constants and the names a body is made of are the ones spelled out above. */
  lemma SameElsewhereIsTheRest(a: Protection, b: Protection)
    ensures SameElsewhere(a, b) <==> RestIsSame(a, b)
  {
    FlagsAreTheEight(a, b);
    if a.reviews.Some? && b.reviews.Some? {
      ReviewsAreAllButThree(a.reviews.value, b.reviews.value);
    }
    if a.restrictions.Some? && b.restrictions.Some? {
      NamedAlike(a.restrictions.value.users, b.restrictions.value.users);
      NamedAlike(a.restrictions.value.teams, b.restrictions.value.teams);
      NamedAlike(a.restrictions.value.apps, b.restrictions.value.apps);
    }
  }

  lemma FlagsAreTheEight(a: Protection, b: Protection)
    ensures (forall field :: field in ENABLED_WRAPPED ==> On(a, field) == On(b, field)) <==>
      && SameFlag(a, b, "enforce_admins") && SameFlag(a, b, "required_linear_history")
      && SameFlag(a, b, "allow_force_pushes") && SameFlag(a, b, "allow_deletions")
      && SameFlag(a, b, "block_creations") && SameFlag(a, b, "required_conversation_resolution")
      && SameFlag(a, b, "lock_branch") && SameFlag(a, b, "allow_fork_syncing")
  {
    forall field | field in ENABLED_WRAPPED
      ensures On(a, field) == On(b, field) <==> SameFlag(a, b, field)
    {
    }
    TheEight();
  }

  lemma TheEight()
    ensures forall field :: field in ENABLED_WRAPPED <==>
      || field == "enforce_admins" || field == "required_linear_history" || field == "allow_force_pushes"
      || field == "allow_deletions" || field == "block_creations" || field == "required_conversation_resolution"
      || field == "lock_branch" || field == "allow_fork_syncing"
  {
    assert forall i :: 0 <= i < 8 ==> ENABLED_WRAPPED[i] in ENABLED_WRAPPED;
    assert ENABLED_WRAPPED[0] == "enforce_admins" && ENABLED_WRAPPED[1] == "required_linear_history";
    assert ENABLED_WRAPPED[2] == "allow_force_pushes" && ENABLED_WRAPPED[3] == "allow_deletions";
    assert ENABLED_WRAPPED[4] == "block_creations" && ENABLED_WRAPPED[5] == "required_conversation_resolution";
    assert ENABLED_WRAPPED[6] == "lock_branch" && ENABLED_WRAPPED[7] == "allow_fork_syncing";
  }

  lemma ReviewsAreAllButThree(a: map<string, Value>, b: map<string, Value>)
    ensures Writable(a) == Writable(b) <==>
      forall k :: k != "url" && k != "required_signatures" && k != "contexts_url" ==>
        (k in a <==> k in b) && (k in a ==> a[k] == b[k])
  {
    TheThree();
    if Writable(a) == Writable(b) {
      forall k | k != "url" && k != "required_signatures" && k != "contexts_url"
        ensures (k in a <==> k in b) && (k in a ==> a[k] == b[k])
      {
        assert k in a <==> k in Writable(a);
        assert k in b <==> k in Writable(b);
        assert k in a ==> a[k] == Writable(a)[k];
        assert k in b ==> b[k] == Writable(b)[k];
      }
    }
  }

  lemma TheThree()
    ensures forall k :: k in READ_ONLY_ON_PUT <==> k == "url" || k == "required_signatures" || k == "contexts_url"
  {
    assert READ_ONLY_ON_PUT[0] == "url" && READ_ONLY_ON_PUT[1] == "required_signatures";
    assert READ_ONLY_ON_PUT[2] == "contexts_url";
  }

  lemma NamedAlike(a: seq<Entry>, b: seq<Entry>)
    ensures Named(a) == Named(b) <==> SameEntries(a, b)
  {
    if Named(a) == Named(b) {
      forall i | 0 <= i < |a|
        ensures NameOf(a[i]) == NameOf(b[i])
      {
        assert Named(a)[i] == Named(b)[i];
      }
    }
  }

  /** The body for `live` with the declaration overlaid, as the spec of the method below. */
  ghost predicate Carries(body: Body, live: Protection, declared: Declared) {
    && body.flags.Keys == (set field | field in ENABLED_WRAPPED)
    && (forall field :: field in ENABLED_WRAPPED ==> body.flags[field] == On(live, field))
    && body.reviews == (if live.reviews.Some? then Some(Writable(live.reviews.value)) else None)
    && body.restrictions == (if live.restrictions.Some? then Some(NamesOf(live.restrictions.value)) else None)
    && body.strict == declared.strict && body.contexts == declared.contexts
  }

  method PutBody(live: Protection, declared: Declared) returns (body: Body)
    ensures Carries(body, live, declared)
    // all of the reviews but three keys, and everything else the write takes, as it was
    ensures body.reviews.Some? <==> live.reviews.Some?
    ensures live.reviews.Some? ==>
      forall k ::
        && (k in body.reviews.value <==>
              k in live.reviews.value && k != "url" && k != "required_signatures" && k != "contexts_url")
        && (k in body.reviews.value ==> body.reviews.value[k] == live.reviews.value[k])
    ensures RestIsSame(live, Replace(body)) && body.strict == declared.strict && body.contexts == declared.contexts
  {
    var flags: map<string, bool> := map[];
    for i := 0 to |ENABLED_WRAPPED|
      invariant flags.Keys == set field | field in ENABLED_WRAPPED[..i]
      invariant forall field :: field in ENABLED_WRAPPED[..i] ==> flags[field] == On(live, field)
    {
      flags := flags[ENABLED_WRAPPED[i] := On(live, ENABLED_WRAPPED[i])];
      assert ENABLED_WRAPPED[..i + 1] == ENABLED_WRAPPED[..i] + [ENABLED_WRAPPED[i]];
    }
    assert ENABLED_WRAPPED[..|ENABLED_WRAPPED|] == ENABLED_WRAPPED;
    var reviews := if live.reviews.Some? then Some(Writable(live.reviews.value)) else None;
    var restrictions := if live.restrictions.Some? then Some(NamesOf(live.restrictions.value)) else None;
    body := Body(flags, reviews, restrictions, declared.strict, declared.contexts);
    TheThree();
    ReplaceKeepsTheRest(live, declared, body);
  }

  /** Nothing in it is in the read shape: the reviews are passed on with whatever is nested in them. */
  ghost predicate InWriteShape(body: Body) {
    body.reviews.Some? ==> forall k :: k in body.reviews.value ==> body.reviews.value[k].Plain?
  }

  /** No one is listed inside the reviews that are sent back. */
  ghost predicate Unlisted(live: Protection) {
    live.reviews.Some? ==> forall k :: k in Writable(live.reviews.value) ==> live.reviews.value[k].Plain?
  }

  /** The translation is whole exactly when the live reviews name nobody who may dismiss or pass them. */
  lemma TranslatedIffUnlisted(live: Protection, declared: Declared, body: Body)
    requires Carries(body, live, declared)
    ensures InWriteShape(body) <==> Unlisted(live)
  {
  }

  // ---------------------------------------------------------------- a server that replaces

  function AsUser(name: string): Entry {
    Entry(name, "")
  }

  /** A team or an app is listed by its slug. */
  function AsSlug(name: string): Entry {
    Entry("", name)
  }

  /** The object after a PUT: what the body says, in the read shape, and nothing it did not carry. */
  function Replace(body: Body): Protection {
    Protection(
      body.flags,
      if body.reviews.Some? then Some(body.reviews.value["url" := Plain("https://api.github.com/")]) else None,
      if body.restrictions.Some? then
        var r := body.restrictions.value;
        Some(Restrictions(seq(|r.users|, i requires 0 <= i < |r.users| => AsUser(r.users[i])),
                          seq(|r.teams|, i requires 0 <= i < |r.teams| => AsSlug(r.teams[i])),
                          seq(|r.apps|, i requires 0 <= i < |r.apps| => AsSlug(r.apps[i]))))
      else None,
      Some(Checks(body.strict, body.contexts, map[])))
  }

  /**
   * The round trip across the two shapes: whatever the live object is, sending it back with the
   * declaration overlaid leaves the checks as declared and every other carried field as it was.
   */
  lemma ReplaceKeepsTheRest(live: Protection, declared: Declared, body: Body)
    requires Carries(body, live, declared)
    ensures var after := Replace(body);
            && RestIsSame(live, after) && Agrees(after, declared)
            && after.checks == Some(Checks(declared.strict, declared.contexts, map[]))
  {
    StoredIsSame(live, declared, body);
    SameElsewhereIsTheRest(live, Replace(body));
  }

  lemma StoredIsSame(live: Protection, declared: Declared, body: Body)
    requires Carries(body, live, declared)
    ensures SameElsewhere(live, Replace(body))
  {
  }

  /** A write keeps the rest of the object exactly when its body carries all of it, in the write shape. */
  lemma KeptIffCarried(live: Protection, body: Body)
    ensures RestIsSame(live, Replace(body)) <==>
      && (forall field :: field in ENABLED_WRAPPED ==>
            On(live, field) == (field in body.flags && body.flags[field]))
      && (live.reviews.Some? <==> body.reviews.Some?)
      && (live.reviews.Some? ==> Writable(live.reviews.value) == Writable(body.reviews.value))
      && body.restrictions == (if live.restrictions.Some? then Some(NamesOf(live.restrictions.value)) else None)
  {
    SameElsewhereIsTheRest(live, Replace(body));
    if body.restrictions.Some? {
      var r := body.restrictions.value;
      var stored := NamesOf(Replace(body).restrictions.value);
      assert stored.users == r.users && stored.teams == r.teams && stored.apps == r.apps;
    }
    if body.reviews.Some? {
      assert Writable(Replace(body).reviews.value) == Writable(body.reviews.value);
    }
  }

  /** The naive write, a body with only the checks, keeps the rest only of an object that had no more. */
  lemma NaiveWriteClears(live: Protection, declared: Declared)
    ensures RestIsSame(live, Replace(Body(map[], None, None, declared.strict, declared.contexts))) <==>
      && (forall field :: field in ENABLED_WRAPPED ==> !On(live, field))
      && live.reviews == None && live.restrictions == None
  {
    KeptIffCarried(live, Body(map[], None, None, declared.strict, declared.contexts));
  }

  // ---------------------------------------------------------------- read, replace, read back

  datatype Outcome =
    | InSync
    | Applied(changes: seq<Change>)
    | NotProtected
    | Vanished
    | StillDisagrees
    | AdminsChanged
    | ClientFailed

  /** The protected branch. `server` is what it makes of a PUT, whatever the PUT says it did. */
  class GitHub {
    var live: Option<Protection>
    const server: (Option<Protection>, Body) -> Option<Protection>
    /** The calls that fail, by their number, and the failed writes that took effect all the same. */
    const broken: nat -> bool
    const lands: nat -> bool
    var calls: nat
    ghost var puts: nat

    method GetProtection() returns (ok: bool, found: Option<Protection>)
      modifies this`calls
      ensures calls == old(calls) + 1 && ok == !broken(old(calls)) && (ok ==> found == live)
    {
      ok, found := !broken(calls), live;
      calls := calls + 1;
    }

    method PutProtection(body: Body) returns (ok: bool)
      modifies this`calls, this`live, this`puts
      ensures calls == old(calls) + 1 && ok == !broken(old(calls)) && puts == old(puts) + 1
      ensures live == if ok || lands(old(calls)) then server(old(live), body) else old(live)
    {
      ok := !broken(calls);
      if ok || lands(calls) {
        live := server(live, body);
      }
      calls := calls + 1;
      puts := puts + 1;
    }
  }

  /** The object is what the server made of a body that carries `before`. */
  ghost predicate SentIt(gh: GitHub, before: Protection, declared: Declared)
    reads gh
  {
    exists body :: Carries(body, before, declared) && gh.live == gh.server(Some(before), body)
  }

  /** A server that does what the endpoint's documentation says, with a body in the shape it takes. */
  ghost predicate Honest(server: (Option<Protection>, Body) -> Option<Protection>) {
    forall live, body :: InWriteShape(body) ==> server(live, body) == Some(Replace(body))
  }

  /** A call left the object alone, or as declared with the rest of it kept; a pinned check loses its pin. */
  ghost predicate Kept(before: Protection, after: Option<Protection>, declared: Declared) {
    || after == Some(before)
    || (after.Some? && RestIsSame(before, after.value) && Agrees(after.value, declared)
        && after.value.checks == Some(Checks(declared.strict, declared.contexts, map[])))
  }

  /**
   * Apply the declaration and read it back. Whatever the server does with the PUT, success is reported
   * only if the object then agrees and still enforces what it enforced on admins.
   */
  method EnsureProtection(gh: GitHub, declared: Declared) returns (r: Outcome)
    modifies gh`calls, gh`live, gh`puts
    ensures gh.puts <= old(gh.puts) + 1
    ensures gh.puts == old(gh.puts) ==> gh.live == old(gh.live)
    ensures gh.puts > old(gh.puts) ==> old(gh.live).Some? && !Agrees(old(gh.live).value, declared)
    ensures r == InSync ==>
      gh.puts == old(gh.puts) && old(gh.live).Some? && Agrees(old(gh.live).value, declared)
    ensures old(gh.live).Some? && Agrees(old(gh.live).value, declared) && !gh.broken(old(gh.calls)) ==> r == InSync
    ensures gh.broken(old(gh.calls)) ==> r == ClientFailed && gh.puts == old(gh.puts)
    ensures r == NotProtected <==> old(gh.live) == None && !gh.broken(old(gh.calls))
    ensures r.Applied? ==>
      && r.changes != [] && gh.puts == old(gh.puts) + 1
      && gh.live.Some? && Agrees(gh.live.value, declared)
      && SameFlag(old(gh.live).value, gh.live.value, "enforce_admins")
    // what was sent carries the live object, and the other answers say what was read back
    ensures gh.live == old(gh.live) || (old(gh.live).Some? && SentIt(gh, old(gh.live).value, declared))
    ensures r == Vanished ==> gh.live == None
    ensures r == StillDisagrees ==> gh.live.Some? && !Agrees(gh.live.value, declared)
    ensures r == AdminsChanged ==>
      && gh.live.Some? && Agrees(gh.live.value, declared)
      && !SameFlag(old(gh.live).value, gh.live.value, "enforce_admins")
    // against a server that replaces, nothing else can go wrong and nothing but pins changes, whatever failed
    ensures Honest(gh.server) && (old(gh.live).Some? ==> Unlisted(old(gh.live).value)) ==>
      && (r == InSync || r.Applied? || r == NotProtected || r == ClientFailed)
      && (old(gh.live).Some? ==> Kept(old(gh.live).value, gh.live, declared))
      && (old(gh.live).Some? && r.Applied? ==> gh.live != old(gh.live))
    ensures (forall k: nat :: !gh.broken(k)) ==> r != ClientFailed
  {
    var ok, live := gh.GetProtection();
    if !ok {
      return ClientFailed;
    }
    if live == None {
      return NotProtected;
    }
    var pending := ProtectionChanges(live.value, declared);
    if pending == [] {
      return InSync;
    }
    var body := PutBody(live.value, declared);
    ReplaceKeepsTheRest(live.value, declared, body);
    TranslatedIffUnlisted(live.value, declared, body);
    ok := gh.PutProtection(body);
    if !ok {
      return ClientFailed;
    }
    var after;
    ok, after := gh.GetProtection();
    if !ok {
      return ClientFailed;
    }
    if after == None {
      return Vanished;
    }
    var remaining := ProtectionChanges(after.value, declared);
    if remaining != [] {
      return StillDisagrees;
    }
    if On(after.value, "enforce_admins") != On(live.value, "enforce_admins") {
      return AdminsChanged;
    }
    r := Applied(pending);
  }

  lemma KeptTwice(a: Protection, b: Protection, c: Option<Protection>, declared: Declared)
    requires Kept(a, Some(b), declared) && Kept(b, c, declared) && Unlisted(a)
    ensures c.Some? && RestIsSame(a, c.value) && Unlisted(b)
  {
    SameElsewhereIsTheRest(a, b);
    SameElsewhereIsTheRest(b, c.value);
    SameElsewhereIsTheRest(a, c.value);
    if a.reviews.Some? {
      assert forall k :: k in Writable(b.reviews.value) ==> Writable(b.reviews.value)[k] == b.reviews.value[k];
    }
  }

  /**
   * Applied twice: after a first call that succeeded, or whose write took effect though it failed, the
   * second sends no PUT. Against a server that replaces, no failure on the way changes the rest.
   */
  method EnsureTwice(gh: GitHub, declared: Declared)
    returns (first: Outcome, second: Outcome, ghost between: Option<Protection>, ghost puts: nat)
    modifies gh`calls, gh`live, gh`puts
    ensures first.Applied? || first == InSync ==> between.Some? && Agrees(between.value, declared)
    ensures between.Some? && Agrees(between.value, declared) ==>
      && gh.puts == puts && gh.live == between && (second == InSync || second == ClientFailed)
    ensures first.Applied? || first == InSync ==> puts <= old(gh.puts) + 1
    ensures Honest(gh.server) && old(gh.live).Some? && Unlisted(old(gh.live).value) ==>
      && gh.live.Some? && RestIsSame(old(gh.live).value, gh.live.value)
      && (second == InSync || second.Applied? || second == ClientFailed)
      && (second != ClientFailed ==> Agrees(gh.live.value, declared))
      && (between != old(gh.live) ==> gh.puts == puts)
  {
    first := EnsureProtection(gh, declared);
    between, puts := gh.live, gh.puts;
    if Honest(gh.server) && old(gh.live).Some? && Unlisted(old(gh.live).value) {
      KeptTwice(old(gh.live).value, between.value, between, declared);
    }
    second := EnsureProtection(gh, declared);
    if Honest(gh.server) && old(gh.live).Some? && Unlisted(old(gh.live).value) {
      KeptTwice(old(gh.live).value, between.value, gh.live, declared);
    }
  }
}
