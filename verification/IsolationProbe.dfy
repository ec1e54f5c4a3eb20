/**
 * The backup isolation probe: toolkit/features/backup_isolation.py.
 * With every node's pair it makes the requests that must be refused, and passes only if each is
 * refused for the right reason. It must not destroy what it protects: one delete names a real object.
 */
module IsolationProbe {
  import opened Prelude
  import TokenMint

  /** Seconds the newest pack must be inside the retention, so no run outlives it. */
  const SAFETY_S: int := 86400
  const DATA := "data/"

  const PROBE_KEYS := "data/kubelab-isolation-probe-"

  function ProbeKey(node: string): (key: string)
    ensures key == "data/kubelab-isolation-probe-" + node
  {
    PROBE_KEYS + node
  }

  // ---------------------------------------------------------------- R2

  datatype Condition = Age(seconds: int) | Indefinite | Until(time: int)

  datatype Rule = Rule(enabled: bool, prefix: string, condition: Condition)

  datatype Reason = AccessDenied | ObjectLocked | OtherError

  /** `NoAnswer`: the call raised, a time-out or a missing CLI, and the probe handles neither. */
  datatype Answer = Accepted | Refused(reason: Reason) | NoAnswer

  /** When a request reaches R2, and what becomes of it. */
  datatype Fate =
    | Served(at: int)
    | Lost(at: int, landed: bool)          // an error without either code; it may have taken effect
    | Misreported(at: int, reason: Reason) // refused, for a reason that need not be the right one
    | Raises(at: int, landed: bool)        // never answered; it may have taken effect

  /** A request as R2 received it, and its answer. `held`: what the bucket had when the delete came. */
  datatype Event =
    | RulesRead(bucket: string, rules: Option<seq<Rule>>)
    | Listed(node: string, bucket: string, prefix: string, answer: Answer, contents: Objects)
    | Deleted(node: string, bucket: string, key: string, answer: Answer, held: Objects)

  type Objects = map<string, int>  // key -> last modified

  function ObjectsOf(buckets: map<string, Objects>, bucket: string): Objects {
    if bucket in buckets then buckets[bucket] else map[]
  }

  /** Whether a rule holds an object of that key and age. */
  predicate Holds(rule: Rule, key: string, modified: int, at: int) {
    && rule.enabled && rule.prefix <= key
    && match rule.condition
       case Age(seconds) => at - modified < seconds
       case Indefinite => true
       case Until(time) => at < time
  }

  class R2 {
    /** Which buckets each node's token reaches, whatever it was meant to reach. */
    const scopes: map<string, set<string>>
    const locks: map<string, seq<Rule>>
    var buckets: map<string, Objects>
    /** What becomes of the requests to come; once used up, every one is served at once. */
    var fates: seq<Fate>
    ghost var trace: seq<Event>

    predicate Locked(bucket: string, key: string, at: int)
      reads this
      requires bucket in buckets && key in buckets[bucket]
    {
      bucket in locks &&
      exists rule | rule in locks[bucket] :: Holds(rule, key, buckets[bucket][key], at)
    }

    /** What a node's own bucket holds. */
    function Of(node: string): Objects
      reads this
    {
      ObjectsOf(buckets, TokenMint.NodeBucket(node))
    }

    predicate InScope(node: string, bucket: string) {
      node in scopes && bucket in scopes[node]
    }

    method Next(now: int) returns (fate: Fate)
      modifies this`fates
      ensures fate == if old(fates) == [] then Served(now) else old(fates)[0]
      ensures fates == if old(fates) == [] then [] else old(fates)[1..]
    {
      if fates == [] {
        fate := Served(now);
      } else {
        fate, fates := fates[0], fates[1..];
      }
    }

    method List(node: string, bucket: string, prefix: string, now: int) returns (answer: Answer, contents: Objects)
      modifies this`fates, this`trace
      ensures trace == old(trace) + [Listed(node, bucket, prefix, answer, contents)]
      ensures answer != Accepted ==> contents == map[]
      ensures Timely(old(fates), now) ==> Timely(fates, now)
      ensures answer == Accepted ==> bucket in buckets && contents == Under(buckets[bucket], prefix)
      ensures old(fates) == [] ==>
        && fates == []
        && answer == (if !InScope(node, bucket) then Refused(AccessDenied)
                      else if bucket !in buckets then Refused(OtherError) else Accepted)
    {
      var fate := Next(now);
      contents := map[];
      if fate.Raises? {
        answer := NoAnswer;
      } else if fate.Misreported? {
        answer := Refused(fate.reason);
      } else if !InScope(node, bucket) {
        answer := Refused(AccessDenied);
      } else if fate.Lost? || bucket !in buckets {
        answer := Refused(OtherError);
      } else {
        answer, contents := Accepted, Under(buckets[bucket], prefix);
      }
      trace := trace + [Listed(node, bucket, prefix, answer, contents)];
    }

    /** S3 answers a delete of a key that does not exist with success. */
    method Delete(node: string, bucket: string, key: string, now: int) returns (answer: Answer)
      modifies this`fates, this`buckets, this`trace
      ensures trace == old(trace) + [Deleted(node, bucket, key, answer, ObjectsOf(old(buckets), bucket))]
      ensures Timely(old(fates), now) ==> Timely(fates, now)
      ensures !(bucket in old(buckets) && key in old(buckets)[bucket]) ==> buckets == old(buckets)
      ensures bucket in old(buckets) && key in old(buckets)[bucket] && Timely(old(fates), now) ==>
        buckets == old(buckets) || exists at :: at <= now + SAFETY_S && !old(Locked(bucket, key, at))
      ensures old(fates) == [] ==>
        && fates == []
        && answer == (if !InScope(node, bucket) then Refused(AccessDenied)
                      else if bucket !in old(buckets) then Refused(OtherError)
                      else if key in old(buckets)[bucket] && old(Locked(bucket, key, now)) then Refused(ObjectLocked)
                      else Accepted)
        && (answer != Accepted ==> buckets == old(buckets))
    {
      var fate := Next(now);
      ghost var held := ObjectsOf(buckets, bucket);
      answer := if fate.Raises? then NoAnswer
      else if fate.Misreported? then Refused(fate.reason)
      else if !InScope(node, bucket) then Refused(AccessDenied)
      else if bucket !in buckets then Refused(OtherError)
      else if key in buckets[bucket] && Locked(bucket, key, fate.at) then
        (if fate.Lost? then Refused(OtherError) else Refused(ObjectLocked))
      else if fate.Lost? then Refused(OtherError) else Accepted;
      if !fate.Misreported? && InScope(node, bucket) && bucket in buckets && key in buckets[bucket]
         && !Locked(bucket, key, fate.at) && (fate.Served? || fate.landed) {
        assert !old(Locked(bucket, key, fate.at));
        buckets := buckets[bucket := buckets[bucket] - {key}];
      }
      trace := trace + [Deleted(node, bucket, key, answer, held)];
    }

    /** The admin API's reading of the rules; None when it failed. */
    method LockRules(bucket: string, now: int) returns (rules: Option<seq<Rule>>)
      modifies this`fates, this`trace
      ensures trace == old(trace) + [RulesRead(bucket, rules)]
      ensures Timely(old(fates), now) ==> Timely(fates, now)
      ensures rules.Some? ==> rules.value == (if bucket in locks then locks[bucket] else [])
      ensures old(fates) == [] ==> fates == [] && rules.Some?
    {
      var fate := Next(now);
      rules := if fate.Served? then Some(if bucket in locks then locks[bucket] else []) else None;
      trace := trace + [RulesRead(bucket, rules)];
    }
  }

  /** No request reaches R2 later than the safety margin after `now`. */
  ghost predicate Timely(fates: seq<Fate>, now: int) {
    forall f :: f in fates ==> f.at <= now + SAFETY_S
  }

  function Under(objects: Objects, prefix: string): Objects {
    map key | key in objects && prefix <= key :: objects[key]
  }

  predicate Unanswered(e: Event) {
    !e.RulesRead? && e.answer == NoAnswer
  }

  /** Nothing is sent after a request that raised, and `raised` says whether one did. */
  ghost predicate Ends(events: seq<Event>, raised: bool) {
    && (forall k :: 0 <= k < |events| && Unanswered(events[k]) ==> raised && k == |events| - 1)
    && (raised ==> events != [] && Unanswered(events[|events| - 1]))
  }

  lemma EndsTogether(events: seq<Event>, more: seq<Event>, raised: bool)
    requires Ends(events, false) && Ends(more, raised)
    ensures Ends(events + more, raised)
  {
  }

  // ---------------------------------------------------------------- the guards of the own delete

  /** An enabled rule that holds `data/` by age for at least `retention`, as the probe reads it. */
  predicate Sufficient(rule: Rule, retention: int) {
    rule.enabled && rule.prefix == DATA && (if rule.condition.Age? then rule.condition.seconds else 0) >= retention
  }

  /** The search loop over the rules. */
  method MissingLock(rules: Option<seq<Rule>>, retention: int) returns (missing: bool)
    ensures missing <==> !Holding(rules, retention)
    ensures !missing <==>
      rules.Some? && exists k :: (
          && 0 <= k < |rules.value| && rules.value[k].enabled && rules.value[k].prefix == "data/"
          && if rules.value[k].condition.Age? then rules.value[k].condition.seconds >= retention else retention <= 0)
  {
    if rules == None {
      return true;
    }
    for i := 0 to |rules.value|
      invariant forall k :: 0 <= k < i ==> !Sufficient(rules.value[k], retention)
    {
      var rule := rules.value[i];
      var maxAge := if rule.condition.Age? then rule.condition.seconds else 0;
      if rule.enabled && rule.prefix == DATA && maxAge >= retention {
        assert Sufficient(rule, retention);
        return false;
      }
    }
    missing := true;
  }

  /** `key` is a newest object of `contents`, more than the margin inside the retention. */
  ghost predicate Safe(contents: Objects, key: string, now: int, retention: int) {
    && key in contents
    && (forall other :: other in contents ==> contents[other] <= contents[key])
    && now - contents[key] < retention - SAFETY_S
  }

  /** The newest object's key, or None when there is none or it is too old to prove the lock with. */
  method YoungestPack(contents: Objects, now: int, retention: int) returns (key: Option<string>)
    ensures key.Some? ==> Safe(contents, key.value, now, retention)
    ensures key == None <==> forall k :: k in contents ==> now - contents[k] >= retention - 24 * 3600
  {
    if contents == map[] {
      return None;
    }
    var newest :| newest in contents;
    var todo := contents.Keys - {newest};
    while todo != {}
      invariant newest in contents && todo <= contents.Keys
      invariant forall k :: k in contents.Keys - todo ==> contents[k] <= contents[newest]
      decreases todo
    {
      var k :| k in todo;
      todo := todo - {k};
      if contents[k] > contents[newest] {
        newest := k;
      }
    }
    key := if now - contents[newest] >= retention - SAFETY_S then None else Some(newest);
  }

  /** When a rule holds an object at every moment a request within the margin can arrive. */
  lemma WhenARuleHolds(rule: Rule, key: string, modified: int, now: int)
    ensures (forall at :: at <= now + 86400 ==> Holds(rule, key, modified, at)) <==>
      && rule.enabled && rule.prefix <= key
      && match rule.condition
         case Age(seconds) => now - modified < seconds - 86400
         case Indefinite => true
         case Until(time) => now + 86400 < time
  {
    assert Holds(rule, key, modified, now + 86400) ==> rule.enabled && rule.prefix <= key;
  }

  /** The arithmetic of harmlessness: an object this young is held at any moment a request can arrive. */
  lemma YoungObjectIsLocked(rule: Rule, key: string, modified: int, now: int, retention: int, at: int)
    requires Sufficient(rule, retention) && DATA <= key
    requires now - modified < retention - SAFETY_S && at <= now + SAFETY_S
    requires retention > 0 || modified <= now + SAFETY_S
    ensures Holds(rule, key, modified, at)
  {
  }

  // ---------------------------------------------------------------- the probe

  /** The stored objects that have a probe key's name. */
  ghost function ProbeKeysIn(buckets: map<string, Objects>): set<string> {
    set bucket, key | bucket in buckets && key in buckets[bucket] && PROBE_KEYS <= key :: key
  }

  ghost predicate NoProbeKeys(buckets: map<string, Objects>) {
    ProbeKeysIn(buckets) == {}
  }

  /** What must be true of the world for the probe to be harmless. */
  ghost predicate Premises(r2: R2, now: int, retention: int)
    reads r2
  {
    && Timely(r2.fates, now)
    && NoProbeKeys(r2.buckets)
    && (retention > 0 || forall bucket, key :: bucket in r2.buckets && key in r2.buckets[bucket] ==>
          r2.buckets[bucket][key] <= now + SAFETY_S)
  }

  /** Both requests of `other` against the owner's bucket were refused for want of scope. */
  ghost predicate CrossRefused(events: seq<Event>, owner: string, other: string) {
    var bucket := TokenMint.NodeBucket(owner);
    && Listed(other, bucket, "", Refused(AccessDenied), map[]) in events
    && exists held :: Deleted(other, bucket, ProbeKey(other), Refused(AccessDenied), held) in events
  }

  /** Both were sent, whatever became of them. */
  ghost predicate CrossAsked(events: seq<Event>, owner: string, other: string) {
    var bucket := TokenMint.NodeBucket(owner);
    && (exists answer, contents :: Listed(other, bucket, "", answer, contents) in events)
    && (exists answer, held :: Deleted(other, bucket, ProbeKey(other), answer, held) in events)
  }

  ghost predicate OwnRefused(events: seq<Event>, owner: string) {
    exists key, held :: Deleted(owner, TokenMint.NodeBucket(owner), key, Refused(ObjectLocked), held) in events
  }

  /** A rule that was read holds `data/` for the retention. */
  ghost predicate Holding(rules: Option<seq<Rule>>, retention: int) {
    rules.Some? && exists rule :: rule in rules.value && Sufficient(rule, retention)
  }

  ghost predicate Young(contents: Objects, now: int, retention: int) {
    exists key :: key in contents && now - contents[key] < retention - SAFETY_S
  }

  /**
   * A node's own turn, request by request: the rules; if they hold `data/`, a listing of it; if that
   * shows a pack young enough, one delete, of a newest one.
   */
  ghost predicate OwnTurn(events: seq<Event>, owner: string, now: int, retention: int) {
    var bucket := TokenMint.NodeBucket(owner);
    && events != [] && events[0].RulesRead? && events[0].bucket == bucket
    && if !Holding(events[0].rules, retention) then |events| == 1
       else
         && |events| >= 2 && events[1].Listed? && events[1].node == owner && events[1].bucket == bucket
         && events[1].prefix == DATA
         && if events[1].answer != Accepted || !Young(events[1].contents, now, retention) then |events| == 2
            else && |events| == 3 && events[2].Deleted? && events[2].node == owner && events[2].bucket == bucket
                 && Safe(events[1].contents, events[2].key, now, retention)
  }

  /** A node's own turn was taken. */
  ghost predicate OwnAsked(events: seq<Event>, owner: string, now: int, retention: int) {
    exists i, j :: 0 <= i <= j <= |events| && OwnTurn(events[i..j], owner, now, retention)
  }

  /** A node's bucket is locked, reachable by its own pair, and holds a pack young enough to prove it with. */
  ghost predicate Ready(r2: R2, buckets: map<string, Objects>, owner: string, now: int, retention: int) {
    var bucket := TokenMint.NodeBucket(owner);
    && owner in r2.scopes && bucket in r2.scopes[owner]
    && bucket in r2.locks && (exists rule :: rule in r2.locks[bucket] && Sufficient(rule, retention))
    && bucket in buckets
    && exists key :: && key in buckets[bucket] && DATA <= key && now - buckets[bucket][key] < retention - SAFETY_S
  }

  /** No token of the first `n` nodes, but its own, reaches the owner's bucket. */
  ghost predicate Walled(r2: R2, owner: string, paired: seq<string>, n: nat)
    requires n <= |paired|
  {
    forall k :: 0 <= k < n && paired[k] != owner ==> !r2.InScope(paired[k], TokenMint.NodeBucket(owner))
  }

  /** Deletes of probe keys only. */
  ghost predicate OnlyProbeKeys(events: seq<Event>) {
    forall e :: e in events && e.Deleted? ==> e.key == ProbeKey(e.node)
  }

  /** Both requests of one pair of nodes. */
  method ProbeCross(r2: R2, owner: string, other: string, now: int)
    returns (raised: bool, problems: nat, refused: nat, ghost events: seq<Event>)
    modifies r2`fates, r2`buckets, r2`trace
    ensures r2.trace == old(r2.trace) + events && OnlyProbeKeys(events) && Ends(events, raised)
    ensures !raised ==>
      && CrossTurn(events, owner, other) && problems + refused == 2
      && (problems == 0 <==> CrossRefused(events, owner, other))
    ensures Timely(old(r2.fates), now) ==> Timely(r2.fates, now)
    ensures NoProbeKeys(old(r2.buckets)) ==> r2.buckets == old(r2.buckets)
    ensures old(r2.fates) == [] ==>
      && !raised && r2.fates == [] && (problems == 0 <==> !r2.InScope(other, TokenMint.NodeBucket(owner)))
      && (problems == 0 ==> r2.buckets == old(r2.buckets))
  {
    raised, problems, refused := false, 0, 0;
    var bucket := TokenMint.NodeBucket(owner);
    var listed, contents := r2.List(other, bucket, "", now);
    events := [Listed(other, bucket, "", listed, contents)];
    if listed == NoAnswer {
      return true, 0, 0, events;
    }
    if listed == Refused(AccessDenied) {
      refused := refused + 1;
    } else {
      problems := problems + 1;
    }
    assert bucket in r2.buckets && ProbeKey(other) in r2.buckets[bucket] ==> ProbeKey(other) in ProbeKeysIn(r2.buckets);
    ghost var held := ObjectsOf(r2.buckets, bucket);
    var deleted := r2.Delete(other, bucket, ProbeKey(other), now);
    events := [Listed(other, bucket, "", listed, contents), Deleted(other, bucket, ProbeKey(other), deleted, held)];
    if deleted == NoAnswer {
      return true, problems, refused, events;
    }
    if deleted == Refused(AccessDenied) {
      refused := refused + 1;
    } else {
      problems := problems + 1;
    }
    assert events[0] in events && events[1] in events;
  }

  /** A pair's two requests against a bucket, in order. */
  ghost predicate CrossTurn(events: seq<Event>, owner: string, other: string) {
    var bucket := TokenMint.NodeBucket(owner);
    && |events| == 2
    && events[0].Listed? && events[0].node == other && events[0].bucket == bucket && events[0].prefix == ""
    && events[1].Deleted? && events[1].node == other && events[1].bucket == bucket && events[1].key == ProbeKey(other)
  }

  /** What a node's own turn does first: the rules, then the listing, then the choice of a pack. */
  method LookForPack(r2: R2, owner: string, now: int, retention: int)
    returns (raised: bool, key: Option<string>, ghost events: seq<Event>)
    modifies r2`fates, r2`trace
    ensures r2.trace == old(r2.trace) + events && Ends(events, raised) && (raised ==> key == None)
    ensures key == None ==> OwnTurn(events, owner, now, retention) && |events| < 3
    ensures key.Some? ==>
      && |events| == 2 && Guarded(r2.Of(owner), r2.locks, owner, key.value, now, retention)
      && forall answer, held ::
           OwnTurn(events + [Deleted(owner, TokenMint.NodeBucket(owner), key.value, answer, held)], owner, now,
                   retention)
    ensures Timely(old(r2.fates), now) ==> Timely(r2.fates, now)
    ensures old(r2.fates) == [] ==>
      !raised && r2.fates == [] && (key.Some? <==> Ready(r2, r2.buckets, owner, now, retention))
  {
    var bucket := TokenMint.NodeBucket(owner);
    var rules := r2.LockRules(bucket, now);
    events := [RulesRead(bucket, rules)];
    var missing := MissingLock(rules, retention);
    if missing {
      return false, None, events;
    }
    var answer, contents := r2.List(owner, bucket, DATA, now);
    events := [events[0], Listed(owner, bucket, DATA, answer, contents)];
    if answer != Accepted {
      return answer == NoAnswer, None, events;
    }
    raised := false;
    key := YoungestPack(contents, now, retention);
    assert forall k :: k in r2.buckets[bucket] && DATA <= k <==> k in contents;
  }

  /** A node's own delete of its youngest pack, attempted only where it can only be refused. */
  method ProbeOwn(r2: R2, owner: string, now: int, retention: int)
    returns (raised: bool, ok: bool, ghost events: seq<Event>)
    modifies r2`fates, r2`buckets, r2`trace
    ensures r2.trace == old(r2.trace) + events && OwnTurn(events, owner, now, retention) && Ends(events, raised)
    ensures ok <==> OwnRefused(events, owner)
    ensures AllGuarded(events, r2.locks, now, retention)
    ensures Timely(old(r2.fates), now) ==> Timely(r2.fates, now)
    ensures old(Premises(r2, now, retention)) ==> r2.buckets == old(r2.buckets)
    ensures old(r2.fates) == [] && retention > 0 ==>
      && !raised && r2.fates == [] && (ok <==> Ready(r2, old(r2.buckets), owner, now, retention))
      && (ok ==> r2.buckets == old(r2.buckets))
  {
    var key;
    raised, key, events := LookForPack(r2, owner, now, retention);
    ok := false;
    if key.Some? {
      ghost var e;
      raised, ok, e := DeleteOwn(r2, owner, key.value, now, retention);
      events := events + [e];
    }
    OwnTurnTells(events, owner, now, retention);
  }

  /** The delete of an object that the lock must hold. */
  method DeleteOwn(r2: R2, owner: string, key: string, now: int, retention: int)
    returns (raised: bool, ok: bool, ghost e: Event)
    requires Guarded(r2.Of(owner), r2.locks, owner, key, now, retention)
    modifies r2`fates, r2`buckets, r2`trace
    ensures r2.trace == old(r2.trace) + [e]
    ensures e.Deleted? && e == Deleted(owner, TokenMint.NodeBucket(owner), key, e.answer, old(r2.Of(owner)))
    ensures raised == (e.answer == NoAnswer) && ok == (e.answer == Refused(ObjectLocked))
    ensures Timely(old(r2.fates), now) ==> Timely(r2.fates, now)
    ensures old(Premises(r2, now, retention)) ==> r2.buckets == old(r2.buckets)
    ensures old(r2.fates) == [] && retention > 0 ==>
      && r2.fates == [] && (ok <==> r2.InScope(owner, TokenMint.NodeBucket(owner)))
      && (ok ==> r2.buckets == old(r2.buckets)) && !raised
  {
    if Premises(r2, now, retention) {
      AlwaysLocked(r2, owner, key, now, retention);
    }
    if retention > 0 {
      LockedNow(r2, owner, key, now, retention);
    }
    ghost var held := r2.Of(owner);
    var answer := r2.Delete(owner, TokenMint.NodeBucket(owner), key, now);
    e := Deleted(owner, TokenMint.NodeBucket(owner), key, answer, held);
    raised, ok := answer == NoAnswer, answer == Refused(ObjectLocked);
  }

  lemma LockedNow(r2: R2, owner: string, key: string, now: int, retention: int)
    requires retention > 0 && Guarded(r2.Of(owner), r2.locks, owner, key, now, retention)
    ensures r2.Locked(TokenMint.NodeBucket(owner), key, now)
  {
  }

  lemma OwnTurnTells(events: seq<Event>, owner: string, now: int, retention: int)
    requires OwnTurn(events, owner, now, retention)
    ensures OwnRefused(events, owner) <==> |events| == 3 && events[2].answer == Refused(ObjectLocked)
  {
    if |events| == 3 {
      assert events[2] in events;
    }
  }

  /**
   * What is known of a real object before a request names it: its bucket has an enabled rule holding
   * `data/` for the retention, and it is a youngest pack there, inside the retention by the margin.
   */
  ghost predicate Guarded(held: Objects, locks: map<string, seq<Rule>>, owner: string, key: string, now: int,
                          retention: int)
  {
    var bucket := TokenMint.NodeBucket(owner);
    && bucket in locks && (exists rule :: rule in locks[bucket] && Sufficient(rule, retention))
    && Safe(Under(held, DATA), key, now, retention)
  }

  lemma AlwaysLocked(r2: R2, owner: string, key: string, now: int, retention: int)
    requires Premises(r2, now, retention)
    requires Guarded(r2.Of(owner), r2.locks, owner, key, now, retention)
    ensures forall at :: at <= now + SAFETY_S ==> r2.Locked(TokenMint.NodeBucket(owner), key, at)
  {
  }

  /** Different nodes have different buckets. */
  lemma BucketsDiffer(a: string, b: string)
    ensures TokenMint.NodeBucket(a) == TokenMint.NodeBucket(b) ==> a == b
  {
    assert TokenMint.NodeBucket(a)[15..] == a && TokenMint.NodeBucket(b)[15..] == b;
  }

  /** Requests that are not this pair's against this bucket. */
  ghost predicate Elsewhere(events: seq<Event>, owner: string, node: string) {
    forall e :: e in events ==> e.RulesRead? || e.bucket != TokenMint.NodeBucket(owner) || e.node != node
  }

  lemma CrossAmong(events: seq<Event>, more: seq<Event>, owner: string, other: string)
    requires Elsewhere(more, owner, other)
    ensures CrossRefused(events + more, owner, other) <==> CrossRefused(events, owner, other)
    ensures CrossRefused(more + events, owner, other) <==> CrossRefused(events, owner, other)
  {
  }

  lemma OwnAmong(events: seq<Event>, more: seq<Event>, owner: string)
    requires Elsewhere(more, owner, owner)
    ensures OwnRefused(events + more, owner) <==> OwnRefused(events, owner)
    ensures OwnRefused(more + events, owner) <==> OwnRefused(events, owner)
  {
  }

  /** What was asked stays asked. */
  lemma AskedAmong(events: seq<Event>, more: seq<Event>, owner: string, other: string, now: int, retention: int)
    ensures CrossAsked(events, owner, other) ==>
      CrossAsked(events + more, owner, other) && CrossAsked(more + events, owner, other)
    ensures OwnAsked(events, owner, now, retention) ==>
      OwnAsked(events + more, owner, now, retention) && OwnAsked(more + events, owner, now, retention)
  {
    if OwnAsked(events, owner, now, retention) {
      var i, j :| 0 <= i <= j <= |events| && OwnTurn(events[i..j], owner, now, retention);
      assert (events + more)[i..j] == events[i..j];
      assert (more + events)[|more| + i..|more| + j] == events[i..j];
    }
  }

  /** Everything one bucket should refuse was refused. */
  ghost predicate OwnerPasses(events: seq<Event>, owner: string, paired: seq<string>) {
    CrossPasses(events, owner, paired, |paired|) && (owner in paired ==> OwnRefused(events, owner))
  }

  /** How many of the first `n` are not the owner. */
  function Others(paired: seq<string>, n: nat, owner: string): nat
    requires n <= |paired|
  {
    if n == 0 then 0 else Others(paired, n - 1, owner) + if paired[n - 1] == owner then 0 else 1
  }

  lemma {:induction false} OthersAreTheRest(paired: seq<string>, n: nat, owner: string)
    requires n <= |paired| && Distinct(paired)
    ensures Others(paired, n, owner) == n - if exists k :: 0 <= k < n && paired[k] == owner then 1 else 0
  {
    if n > 0 {
      OthersAreTheRest(paired, n - 1, owner);
    }
  }

  /** Both requests of each of the first `n` pairs but the owner's were refused. */
  ghost predicate CrossPasses(events: seq<Event>, owner: string, paired: seq<string>, n: nat)
    requires n <= |paired|
  {
    forall k :: 0 <= k < n && paired[k] != owner ==> CrossRefused(events, owner, paired[k])
  }

  /** And were sent, whatever became of them. */
  ghost predicate OthersAsked(events: seq<Event>, owner: string, paired: seq<string>, n: nat)
    requires n <= |paired|
  {
    forall k :: 0 <= k < n && paired[k] != owner ==> CrossAsked(events, owner, paired[k])
  }

  lemma CrossPassesAmong(events: seq<Event>, more: seq<Event>, owner: string, paired: seq<string>, n: nat)
    requires n <= |paired| && forall k :: 0 <= k < n && paired[k] != owner ==> Elsewhere(more, owner, paired[k])
    ensures CrossPasses(events + more, owner, paired, n) <==> CrossPasses(events, owner, paired, n)
    ensures CrossPasses(more + events, owner, paired, n) <==> CrossPasses(events, owner, paired, n)
  {
    forall k | 0 <= k < n && paired[k] != owner
      ensures CrossRefused(events + more, owner, paired[k]) <==> CrossRefused(events, owner, paired[k])
      ensures CrossRefused(more + events, owner, paired[k]) <==> CrossRefused(events, owner, paired[k])
    {
      CrossAmong(events, more, owner, paired[k]);
    }
  }

  /** Only cross requests against this bucket, with pairs of the first `n`, and deletes of probe keys. */
  ghost predicate OnlyOthers(events: seq<Event>, owner: string, paired: seq<string>, n: nat) {
    forall e :: e in events ==>
      && !e.RulesRead? && e.bucket == TokenMint.NodeBucket(owner) && e.node != owner
      && (e.Deleted? ==> e.key == ProbeKey(e.node))
      && forall k :: n <= k < |paired| ==> e.node != paired[k]
  }

  lemma OneMoreOther(events: seq<Event>, more: seq<Event>, owner: string, paired: seq<string>, n: nat)
    requires n < |paired| && Distinct(paired) && paired[n] != owner && OnlyOthers(events, owner, paired, n)
    requires CrossTurn(more, owner, paired[n])
    ensures OnlyOthers(events + more, owner, paired, n + 1)
    ensures CrossPasses(events + more, owner, paired, n + 1) <==>
      CrossPasses(events, owner, paired, n) && CrossRefused(more, owner, paired[n])
    ensures OthersAsked(events, owner, paired, n) ==> OthersAsked(events + more, owner, paired, n + 1)
  {
    assert forall e :: e in more ==> e == more[0] || e == more[1];
    CrossPassesAmong(events, more, owner, paired, n);
    CrossAmong(more, events, owner, paired[n]);
    assert more[0] in more && more[1] in more;
    forall k | 0 <= k <= n && paired[k] != owner && OthersAsked(events, owner, paired, n)
      ensures CrossAsked(events + more, owner, paired[k])
    {
      if k < n {
        AskedAmong(events, more, owner, paired[k], 0, 0);
      } else {
        assert CrossAsked(more, owner, paired[k]);
        AskedAmong(more, events, owner, paired[k], 0, 0);
      }
    }
  }

  /** The wall, one pair further. */
  lemma WallOneMore(r2: R2, owner: string, paired: seq<string>, n: nat)
    requires n < |paired|
    ensures Walled(r2, owner, paired, n + 1) <==>
      Walled(r2, owner, paired, n) && (paired[n] != owner ==> !r2.InScope(paired[n], TokenMint.NodeBucket(owner)))
  {
  }

  /** Every delete names a probe key, or was guarded as a node's own when it was sent. */
  ghost predicate AllGuarded(events: seq<Event>, locks: map<string, seq<Rule>>, now: int, retention: int) {
    forall e :: e in events && e.Deleted? && e.key != ProbeKey(e.node) ==>
      e.bucket == TokenMint.NodeBucket(e.node) && Guarded(e.held, locks, e.node, e.key, now, retention)
  }

  /** The inner loop: every other node's pair against this bucket. */
  method ProbeOthers(r2: R2, owner: string, paired: seq<string>, now: int)
    returns (raised: bool, problems: nat, refused: nat, ghost events: seq<Event>)
    requires Distinct(paired)
    modifies r2`fates, r2`buckets, r2`trace
    ensures r2.trace == old(r2.trace) + events
    ensures if raised then Broken(events) else Turn(events, owner, paired, |paired|, problems, refused)
    ensures Timely(old(r2.fates), now) ==> Timely(r2.fates, now)
    ensures NoProbeKeys(old(r2.buckets)) ==> r2.buckets == old(r2.buckets)
    ensures old(r2.fates) == [] ==> !raised && CalmTurn(r2, old(r2.buckets), owner, paired, |paired|, problems)
  {
    raised, problems, refused, events := false, 0, 0, [];
    ghost var start := r2.buckets;
    for j := 0 to |paired|
      invariant !raised && r2.trace == old(r2.trace) + events
      invariant Turn(events, owner, paired, j, problems, refused)
      invariant Timely(old(r2.fates), now) ==> Timely(r2.fates, now)
      invariant NoProbeKeys(start) ==> r2.buckets == start
      invariant old(r2.fates) == [] ==> CalmTurn(r2, start, owner, paired, j, problems)
    {
      ghost var more;
      raised, problems, refused, more := ProbeOther(r2, owner, paired, j, now, problems, refused, start, events);
      Assoc(old(r2.trace), events, more);
      events := events + more;
      if raised {
        return;
      }
    }
  }

  /** Deletes of probe keys only, the last request raised and no other did. */
  ghost predicate Broken(events: seq<Event>) {
    OnlyProbeKeys(events) && Ends(events, true)
  }

  /** While every request is served: no problem so far exactly if the first `n` are walled off, and nothing went. */
  ghost predicate CalmTurn(r2: R2, start: map<string, Objects>, owner: string, paired: seq<string>, n: nat,
                           problems: nat)
    requires n <= |paired|
    reads r2
  {
    r2.fates == [] && (problems == 0 <==> Walled(r2, owner, paired, n)) && (problems == 0 ==> r2.buckets == start)
  }

  /** The inner loop after the first `n` pairs. */
  ghost predicate Turn(events: seq<Event>, owner: string, paired: seq<string>, n: nat, problems: nat, refused: nat)
    requires n <= |paired|
  {
    && OnlyOthers(events, owner, paired, n) && OthersAsked(events, owner, paired, n) && Ends(events, false)
    && (problems == 0 <==> CrossPasses(events, owner, paired, n))
    && problems + refused == 2 * Others(paired, n, owner)
  }

  /** One step of the inner loop; `events` is what it has sent so far, and `p` and `r` its counts. */
  method ProbeOther(r2: R2, owner: string, paired: seq<string>, n: nat, now: int, p: nat, r: nat,
                    ghost start: map<string, Objects>, ghost events: seq<Event>)
    returns (raised: bool, problems: nat, refused: nat, ghost more: seq<Event>)
    requires n < |paired| && Distinct(paired) && Turn(events, owner, paired, n, p, r)
    modifies r2`fates, r2`buckets, r2`trace
    ensures r2.trace == old(r2.trace) + more
    ensures if raised then Broken(events + more) else Turn(events + more, owner, paired, n + 1, problems, refused)
    ensures Timely(old(r2.fates), now) ==> Timely(r2.fates, now)
    ensures NoProbeKeys(old(r2.buckets)) ==> r2.buckets == old(r2.buckets)
    ensures old(CalmTurn(r2, start, owner, paired, n, p)) ==>
      !raised && CalmTurn(r2, start, owner, paired, n + 1, problems)
  {
    WallOneMore(r2, owner, paired, n);
    var p', r' := 0, 0;
    raised, more := false, [];
    if paired[n] != owner {
      raised, p', r', more := ProbeCross(r2, owner, paired[n], now);
    }
    if raised {
      EndsTogether(events, more, true);
    } else {
      TurnOneMore(events, more, owner, paired, n, p, r, p', r');
    }
    problems, refused := p + p', r + r';
  }

  lemma TurnOneMore(events: seq<Event>, more: seq<Event>, owner: string, paired: seq<string>, n: nat, p: nat, r: nat,
                    p': nat, r': nat)
    requires n < |paired| && Distinct(paired) && Turn(events, owner, paired, n, p, r)
    requires Ends(more, false)
    requires if paired[n] == owner then more == [] && p' == r' == 0
             else CrossTurn(more, owner, paired[n]) && p' + r' == 2
                  && (p' == 0 <==> CrossRefused(more, owner, paired[n]))
    ensures Turn(events + more, owner, paired, n + 1, p + p', r + r')
  {
    EndsTogether(events, more, false);
    if paired[n] == owner {
      assert events + more == events;
    } else {
      OneMoreOther(events, more, owner, paired, n);
    }
  }

  /** Everything one bucket's turn has to ask was asked. */
  ghost predicate OwnerAsked(events: seq<Event>, owner: string, paired: seq<string>, now: int, retention: int) {
    OthersAsked(events, owner, paired, |paired|) && (owner in paired ==> OwnAsked(events, owner, now, retention))
  }

  /** Requests against one bucket. */
  ghost predicate Against(events: seq<Event>, owner: string) {
    forall e :: e in events ==> e.bucket == TokenMint.NodeBucket(owner)
  }

  /** One turn of the outer loop. */
  method ProbeOwner(r2: R2, owner: string, paired: seq<string>, now: int, retention: int)
    returns (raised: bool, problems: nat, refused: nat, ghost events: seq<Event>)
    requires Distinct(paired)
    modifies r2`fates, r2`buckets, r2`trace
    ensures r2.trace == old(r2.trace) + events && Ends(events, raised)
    ensures !raised ==>
      && Against(events, owner) && OwnerAsked(events, owner, paired, now, retention)
      && (problems == 0 <==> OwnerPasses(events, owner, paired))
      && (problems == 0 ==> refused == 2 * Others(paired, |paired|, owner))
    ensures AllGuarded(events, r2.locks, now, retention)
    ensures old(Premises(r2, now, retention)) ==> Premises(r2, now, retention) && r2.buckets == old(r2.buckets)
    ensures old(r2.fates) == [] && retention > 0 ==>
      && !raised && r2.fates == []
      && (problems == 0 <==>
            && Walled(r2, owner, paired, |paired|)
            && (owner in paired ==> Ready(r2, old(r2.buckets), owner, now, retention)))
      && (problems == 0 ==> r2.buckets == old(r2.buckets))
  {
    raised, problems, refused, events := ProbeOthers(r2, owner, paired, now);
    if raised {
      return;
    }
    if owner in paired {
      var ok;
      ghost var more;
      raised, ok, more := ProbeOwn(r2, owner, now, retention);
      TurnsTogether(events, more, owner, paired, now, retention);
      EndsTogether(events, more, raised);
      Assoc(old(r2.trace), events, more);
      problems, events := problems + (if ok then 0 else 1), events + more;
    }
  }

  /** The two halves of a bucket's turn. */
  lemma TurnsTogether(events: seq<Event>, more: seq<Event>, owner: string, paired: seq<string>, now: int,
                      retention: int)
    requires OnlyOthers(events, owner, paired, |paired|) && OthersAsked(events, owner, paired, |paired|)
    requires OwnTurn(more, owner, now, retention) && owner in paired
    ensures OwnerPasses(events + more, owner, paired) <==>
      CrossPasses(events, owner, paired, |paired|) && OwnRefused(more, owner)
    ensures OwnerAsked(events + more, owner, paired, now, retention) && Against(events + more, owner)
  {
    assert forall e :: e in more ==> e == more[0] || (|more| > 1 && e == more[1]) || (|more| > 2 && e == more[2]);
    CrossPassesAmong(events, more, owner, paired, |paired|);
    OwnAmong(more, events, owner);
    forall k | 0 <= k < |paired| && paired[k] != owner
      ensures CrossAsked(events + more, owner, paired[k])
    {
      AskedAmong(events, more, owner, paired[k], now, retention);
    }
    assert more[0..|more|] == more;
    assert OwnAsked(more, owner, now, retention);
    AskedAmong(more, events, owner, owner, now, retention);
  }

  /** The verdict, as the module promises it. */
  ghost predicate Isolated(events: seq<Event>, nodes: seq<string>, pairs: set<string>) {
    && nodes != []
    && (forall node :: node in nodes ==> node in pairs && OwnRefused(events, node))
    && (forall owner, other :: owner in nodes && other in nodes && owner != other ==>
          CrossRefused(events, owner, other))
  }

  /**
   * What a probe has to ask, whatever is answered: every pair against every other node's bucket, and
   * every node's own turn.
   */
  ghost predicate Asked(events: seq<Event>, nodes: seq<string>, pairs: set<string>, now: int, retention: int) {
    && (forall node :: node in nodes && node in pairs ==> OwnAsked(events, node, now, retention))
    && (forall owner, other :: owner in nodes && other in nodes && other in pairs && owner != other ==>
          CrossAsked(events, owner, other))
  }

  /** The nodes whose pair is in SOPS, and how many are missing. */
  method PairedNodes(nodes: seq<string>, pairs: set<string>) returns (paired: seq<string>, missing: nat)
    requires Distinct(nodes)
    ensures Distinct(paired)
    ensures forall node :: node in paired <==> node in nodes && node in pairs
    ensures missing == |nodes| - |paired|
    ensures missing == 0 ==> paired == nodes
    ensures missing == 0 <==> forall node :: node in nodes ==> node in pairs
  {
    paired, missing := [], 0;
    for i := 0 to |nodes|
      invariant Distinct(paired)
      invariant forall node :: node in paired <==> node in nodes[..i] && node in pairs
      invariant missing == i - |paired|
      invariant missing == 0 ==> paired == nodes[..i]
      invariant missing == 0 <==> forall k :: 0 <= k < i ==> nodes[k] in pairs
    {
      if nodes[i] in pairs {
        paired := paired + [nodes[i]];
      } else {
        missing := missing + 1;
      }
    }
  }

  /** The first `n` nodes' buckets are walled off, and those whose pair is there are ready to prove it. */
  ghost predicate Fit(r2: R2, buckets: map<string, Objects>, nodes: seq<string>, n: nat, paired: seq<string>, now: int,
                      retention: int)
    requires n <= |nodes|
  {
    forall k :: 0 <= k < n ==>
      Walled(r2, nodes[k], paired, |paired|) && (nodes[k] in paired ==> Ready(r2, buckets, nodes[k], now, retention))
  }

  lemma FitOneMore(r2: R2, buckets: map<string, Objects>, nodes: seq<string>, n: nat, paired: seq<string>, now: int,
                   retention: int)
    requires n < |nodes|
    ensures Fit(r2, buckets, nodes, n + 1, paired, now, retention) <==>
      && Fit(r2, buckets, nodes, n, paired, now, retention) && Walled(r2, nodes[n], paired, |paired|)
      && (nodes[n] in paired ==> Ready(r2, buckets, nodes[n], now, retention))
  {
  }

  /** The fleet is as it must be: every pair is there, no token reaches another bucket, and each bucket is ready. */
  ghost predicate FleetIsolated(r2: R2, buckets: map<string, Objects>, nodes: seq<string>, pairs: set<string>, now: int,
                                retention: int)
  {
    && nodes != []
    && (forall node :: node in nodes ==> node in pairs && Ready(r2, buckets, node, now, retention))
    && (forall owner, other :: owner in nodes && other in nodes && owner != other ==>
          !(other in r2.scopes && "kubelab-backup-" + owner in r2.scopes[other]))
  }

  ghost predicate OwnersPass(events: seq<Event>, nodes: seq<string>, n: nat, paired: seq<string>)
    requires n <= |nodes|
  {
    forall k :: 0 <= k < n ==> OwnerPasses(events, nodes[k], paired)
  }

  ghost predicate OwnersAsked(events: seq<Event>, nodes: seq<string>, n: nat, paired: seq<string>, now: int,
                              retention: int)
    requires n <= |nodes|
  {
    forall k :: 0 <= k < n ==> OwnerAsked(events, nodes[k], paired, now, retention)
  }

  /** No request against the bucket of a node from the n-th on. */
  ghost predicate NotYet(events: seq<Event>, nodes: seq<string>, n: nat) {
    forall k :: n <= k < |nodes| ==> forall e :: e in events ==> e.bucket != TokenMint.NodeBucket(nodes[k])
  }

  lemma OwnerAskedAmong(events: seq<Event>, more: seq<Event>, owner: string, paired: seq<string>, now: int,
                        retention: int)
    requires OwnerAsked(events, owner, paired, now, retention)
    ensures OwnerAsked(events + more, owner, paired, now, retention)
    ensures OwnerAsked(more + events, owner, paired, now, retention)
  {
    forall k | 0 <= k < |paired| && paired[k] != owner
      ensures CrossAsked(events + more, owner, paired[k]) && CrossAsked(more + events, owner, paired[k])
    {
      AskedAmong(events, more, owner, paired[k], now, retention);
    }
    AskedAmong(events, more, owner, owner, now, retention);
  }

  /** The n-th turn's events say nothing of the turns before, nor they of it. */
  lemma OneMoreOwner(events: seq<Event>, more: seq<Event>, nodes: seq<string>, n: nat, paired: seq<string>, now: int,
                     retention: int)
    requires n < |nodes| && Distinct(nodes) && NotYet(events, nodes, n) && Against(more, nodes[n])
    requires OwnersAsked(events, nodes, n, paired, now, retention)
    requires OwnerAsked(more, nodes[n], paired, now, retention)
    ensures NotYet(events + more, nodes, n + 1)
    ensures OwnersAsked(events + more, nodes, n + 1, paired, now, retention)
    ensures OwnersPass(events + more, nodes, n + 1, paired) <==>
      OwnersPass(events, nodes, n, paired) && OwnerPasses(more, nodes[n], paired)
  {
    forall k | 0 <= k < |nodes| && k != n
      ensures TokenMint.NodeBucket(nodes[k]) != TokenMint.NodeBucket(nodes[n])
    {
      BucketsDiffer(nodes[k], nodes[n]);
    }
    forall k | 0 <= k < n
      ensures OwnerPasses(events + more, nodes[k], paired) <==> OwnerPasses(events, nodes[k], paired)
      ensures OwnerAsked(events + more, nodes[k], paired, now, retention)
    {
      OwnerAmong(events, more, nodes[k], paired);
      OwnerAskedAmong(events, more, nodes[k], paired, now, retention);
    }
    OwnerAmong(more, events, nodes[n], paired);
    OwnerAskedAmong(more, events, nodes[n], paired, now, retention);
  }

  lemma OwnerAmong(events: seq<Event>, more: seq<Event>, owner: string, paired: seq<string>)
    requires forall e :: e in more ==> e.bucket != TokenMint.NodeBucket(owner)
    ensures OwnerPasses(events + more, owner, paired) <==> OwnerPasses(events, owner, paired)
    ensures OwnerPasses(more + events, owner, paired) <==> OwnerPasses(events, owner, paired)
  {
    CrossPassesAmong(events, more, owner, paired, |paired|);
    OwnAmong(events, more, owner);
  }

  /** The outer loop after the first `n` nodes. */
  ghost predicate Fleet(events: seq<Event>, nodes: seq<string>, n: nat, paired: seq<string>, now: int, retention: int,
                        problems: nat, refused: nat)
    requires n <= |nodes|
  {
    && NotYet(events, nodes, n) && Ends(events, false) && OwnersAsked(events, nodes, n, paired, now, retention)
    && (problems == 0 <==> OwnersPass(events, nodes, n, paired))
    && (problems == 0 && paired == nodes ==> refused == Times(n, 2 * (|nodes| - 1)))
  }

  lemma FleetOneMore(events: seq<Event>, more: seq<Event>, nodes: seq<string>, n: nat, paired: seq<string>, now: int,
                     retention: int, p: nat, r: nat, p': nat, r': nat)
    requires n < |nodes| && Distinct(nodes) && Distinct(paired)
    requires Fleet(events, nodes, n, paired, now, retention, p, r)
    requires Ends(more, false) && Against(more, nodes[n]) && OwnerAsked(more, nodes[n], paired, now, retention)
    requires p' == 0 <==> OwnerPasses(more, nodes[n], paired)
    requires p' == 0 ==> r' == 2 * Others(paired, |paired|, nodes[n])
    ensures Fleet(events + more, nodes, n + 1, paired, now, retention, p + p', r + r')
  {
    EndsTogether(events, more, false);
    OneMoreOwner(events, more, nodes, n, paired, now, retention);
    OthersAreTheRest(paired, |paired|, nodes[n]);
  }

  /** While every request is served: no problem so far exactly if the first `n` are fit, and nothing has gone. */
  ghost predicate CalmSoFar(r2: R2, start: map<string, Objects>, nodes: seq<string>, n: nat, paired: seq<string>,
                            now: int, retention: int, problems: nat)
    requires n <= |nodes|
    reads r2
  {
    && r2.fates == [] && (problems == 0 <==> Fit(r2, start, nodes, n, paired, now, retention))
    && (problems == 0 ==> r2.buckets == start)
  }

  /** One step of the outer loop; `events` is what it has sent so far, and `p` and `r` its counts. */
  method ProbeNext(r2: R2, nodes: seq<string>, n: nat, paired: seq<string>, now: int, retention: int, p: nat, r: nat,
                   ghost start: map<string, Objects>, ghost events: seq<Event>)
    returns (raised: bool, problems: nat, refused: nat, ghost more: seq<Event>)
    requires n < |nodes| && Distinct(nodes) && Distinct(paired)
    requires Fleet(events, nodes, n, paired, now, retention, p, r) && AllGuarded(events, r2.locks, now, retention)
    modifies r2`fates, r2`buckets, r2`trace
    ensures r2.trace == old(r2.trace) + more && Ends(events + more, raised)
    ensures !raised ==> Fleet(events + more, nodes, n + 1, paired, now, retention, problems, refused)
    ensures AllGuarded(events + more, r2.locks, now, retention)
    ensures old(Premises(r2, now, retention)) ==> Premises(r2, now, retention) && r2.buckets == old(r2.buckets)
    ensures retention > 0 && old(CalmSoFar(r2, start, nodes, n, paired, now, retention, p)) ==>
      !raised && CalmSoFar(r2, start, nodes, n + 1, paired, now, retention, problems)
  {
    FitOneMore(r2, start, nodes, n, paired, now, retention);
    var p', r';
    raised, p', r', more := ProbeOwner(r2, nodes[n], paired, now, retention);
    EndsTogether(events, more, raised);
    if !raised {
      FleetOneMore(events, more, nodes, n, paired, now, retention, p, r, p', r');
    }
    problems, refused := p + p', r + r';
  }

  /** The outer loop. */
  method ProbeOwners(r2: R2, nodes: seq<string>, paired: seq<string>, now: int, retention: int)
    returns (raised: bool, problems: nat, refused: nat, ghost events: seq<Event>)
    requires Distinct(nodes) && Distinct(paired)
    modifies r2`fates, r2`buckets, r2`trace
    ensures r2.trace == old(r2.trace) + events && Ends(events, raised)
    ensures !raised ==> Fleet(events, nodes, |nodes|, paired, now, retention, problems, refused)
    ensures AllGuarded(events, r2.locks, now, retention)
    ensures old(Premises(r2, now, retention)) ==> r2.buckets == old(r2.buckets)
    ensures old(r2.fates) == [] && retention > 0 ==>
      !raised && CalmSoFar(r2, old(r2.buckets), nodes, |nodes|, paired, now, retention, problems)
  {
    raised, problems, refused, events := false, 0, 0, [];
    ghost var start := r2.buckets;
    for i := 0 to |nodes|
      invariant !raised && r2.trace == old(r2.trace) + events
      invariant Fleet(events, nodes, i, paired, now, retention, problems, refused)
      invariant AllGuarded(events, r2.locks, now, retention)
      invariant old(Premises(r2, now, retention)) ==> Premises(r2, now, retention) && r2.buckets == start
      invariant old(r2.fates) == [] && retention > 0 ==>
        CalmSoFar(r2, start, nodes, i, paired, now, retention, problems)
    {
      ghost var more;
      raised, problems, refused, more :=
        ProbeNext(r2, nodes, i, paired, now, retention, problems, refused, start, events);
      Assoc(old(r2.trace), events, more);
      events := events + more;
      if raised {
        return;
      }
    }
  }

  ghost function Times(n: nat, each: int): int {
    if n == 0 then 0 else Times(n - 1, each) + each
  }

  lemma {:induction false} TimesIsProduct(n: nat, each: int)
    ensures Times(n, each) == n * each
  {
    if n > 0 {
      TimesIsProduct(n - 1, each);
      assert n * each == (n - 1) * each + each;
    }
  }

  /**
   * The probe of a fleet; `pairs` are the nodes whose pair is in SOPS, and `events` what R2 received.
   * It has a verdict unless a request raised, which is then the last. With one, whatever was answered,
   * everything was asked, and it passes exactly when every request that must be refused was refused for
   * the right reason. Raised or not, whatever the world, every delete names a probe key or an object
   * that was guarded when the delete was sent; and under its premises no object goes from any bucket.
   */
  method Probe(r2: R2, nodes: seq<string>, pairs: set<string>, now: int, retention: int)
    returns (ok: Option<bool>, refused: nat, ghost events: seq<Event>)
    requires Distinct(nodes)
    modifies r2`fates, r2`buckets, r2`trace
    ensures r2.trace == old(r2.trace) + events && Ends(events, ok == None)
    ensures ok.Some? ==>
      && Asked(events, nodes, pairs, now, retention)
      && (ok.value <==> Isolated(events, nodes, pairs))
      && (ok.value ==> refused == |nodes| * (2 * (|nodes| - 1)))
    ensures AllGuarded(events, r2.locks, now, retention)
    ensures old(Premises(r2, now, retention)) ==> r2.buckets == old(r2.buckets)
    // when every request is served, the verdict is the fleet's state
    ensures old(r2.fates) == [] && retention > 0 ==>
      ok == Some(FleetIsolated(r2, old(r2.buckets), nodes, pairs, now, retention))
  {
    if nodes == [] {
      return Some(false), 0, [];
    }
    var paired, missing := PairedNodes(nodes, pairs);
    FleetIsFit(r2, r2.buckets, nodes, pairs, paired, now, retention);
    var raised, problems;
    raised, problems, refused, events := ProbeOwners(r2, nodes, paired, now, retention);
    if raised {
      return None, refused, events;
    }
    ok := Some(missing + problems == 0);
    TimesIsProduct(|nodes|, 2 * (|nodes| - 1));
    PassesMeansIsolated(events, nodes, pairs, paired);
    AskedOfAll(events, nodes, pairs, paired, now, retention);
  }

  lemma AskedOfAll(events: seq<Event>, nodes: seq<string>, pairs: set<string>, paired: seq<string>, now: int,
                   retention: int)
    requires forall node :: node in paired <==> node in nodes && node in pairs
    requires OwnersAsked(events, nodes, |nodes|, paired, now, retention)
    ensures Asked(events, nodes, pairs, now, retention)
  {
    forall owner, other | owner in nodes && other in nodes && other in pairs && owner != other
      ensures CrossAsked(events, owner, other)
    {
      var i, k :| 0 <= i < |nodes| && nodes[i] == owner && 0 <= k < |paired| && paired[k] == other;
      assert OwnerAsked(events, nodes[i], paired, now, retention);
    }
  }

  lemma FleetIsFit(r2: R2, buckets: map<string, Objects>, nodes: seq<string>, pairs: set<string>, paired: seq<string>,
                   now: int, retention: int)
    requires nodes != [] && forall node :: node in paired <==> node in nodes && node in pairs
    ensures FleetIsolated(r2, buckets, nodes, pairs, now, retention) <==>
      (forall node :: node in nodes ==> node in pairs) && Fit(r2, buckets, nodes, |nodes|, paired, now, retention)
  {
    if FleetIsolated(r2, buckets, nodes, pairs, now, retention) {
      forall k | 0 <= k < |nodes|
        ensures Walled(r2, nodes[k], paired, |paired|) && Ready(r2, buckets, nodes[k], now, retention)
      {
        assert nodes[k] in nodes && forall j :: 0 <= j < |paired| ==> paired[j] in paired;
      }
    }
    if (forall node :: node in nodes ==> node in pairs) && Fit(r2, buckets, nodes, |nodes|, paired, now, retention) {
      forall owner, other | owner in nodes && other in nodes && owner != other
        ensures !r2.InScope(other, TokenMint.NodeBucket(owner))
      {
        var i, k :| 0 <= i < |nodes| && nodes[i] == owner && 0 <= k < |paired| && paired[k] == other;
        assert Walled(r2, nodes[i], paired, |paired|);
      }
    }
  }

  lemma PassesMeansIsolated(events: seq<Event>, nodes: seq<string>, pairs: set<string>, paired: seq<string>)
    requires forall node :: node in paired <==> node in nodes && node in pairs
    requires nodes != []
    ensures Isolated(events, nodes, pairs) <==>
      (forall node :: node in nodes ==> node in paired)
      && OwnersPass(events, nodes, |nodes|, paired)
  {
  }
}
