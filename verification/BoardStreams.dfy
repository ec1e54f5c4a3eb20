/**
 * Classifying the board: toolkit/features/board_streams.py.
 * A registry says which stream a title prefix belongs to; `Plan` says which items to write, `Apply`
 * writes them in batches, and a plan made again afterwards has nothing left to write.
 */
module BoardStreams {
  import opened Prelude
  import W = BoardWriter

  // ---------------------------------------------------------------- the registry

  datatype RawStream = RawStream(name: string, prefixes: seq<string>)

  /** An entry of the parsed file; a key that is no number is `None`. */
  datatype RawOverride = RawOverride(number: Option<int>, stream: string)

  datatype Part = Part(parent: int, children: seq<int>)

  datatype Raw = Raw(streams: seq<RawStream>, overrides: seq<RawOverride>, parts: seq<Part>)

  datatype Registry = Registry(
    streams: seq<string>,
    prefixToStream: map<string, string>,
    overrides: map<int, string>,
    parts: seq<Part>)

  datatype Problem =
    | NoName
    | StreamTwice
    | PrefixTwice
    | NoStreams
    | NotANumber
    | UnknownStream
    | OwnPart
    | ChildTwice

  datatype Loaded = Loaded(registry: Registry) | RegistryError(problem: Problem)

  /** Every stream name and prefix declared so far, in order. */
  function AllNames(streams: seq<RawStream>): seq<string> {
    if streams == [] then [] else AllNames(streams[..|streams| - 1]) + [streams[|streams| - 1].name]
  }

  function AllPrefixes(streams: seq<RawStream>): seq<string> {
    if streams == [] then [] else AllPrefixes(streams[..|streams| - 1]) + streams[|streams| - 1].prefixes
  }

  function AllChildren(parts: seq<Part>): seq<int> {
    if parts == [] then [] else AllChildren(parts[..|parts| - 1]) + parts[|parts| - 1].children
  }

  /** The file does not contradict itself. */
  ghost predicate Consistent(raw: Raw) {
    && raw.streams != []
    && "" !in AllNames(raw.streams) && Distinct(AllNames(raw.streams)) && Distinct(AllPrefixes(raw.streams))
    && (forall o :: o in raw.overrides ==> o.number.Some? && o.stream in AllNames(raw.streams))
    && (forall part :: part in raw.parts ==> part.parent !in part.children)
    && Distinct(AllChildren(raw.parts))
  }

  /** The streams of the file have this problem. */
  ghost predicate StreamsHave(streams: seq<RawStream>, problem: Problem) {
    match problem
    case NoName => "" in AllNames(streams)
    case StreamTwice => !Distinct(AllNames(streams))
    case PrefixTwice => !Distinct(AllPrefixes(streams))
    case NoStreams => streams == []
    case _ => false
  }

  /** Or its overrides do. */
  ghost predicate OverridesHave(overrides: seq<RawOverride>, streams: seq<string>, problem: Problem) {
    || (problem == NotANumber && exists o :: o in overrides && o.number == None)
    || (problem == UnknownStream && exists o :: o in overrides && o.stream !in streams)
  }

  /** Or its parts do. */
  ghost predicate PartsHave(parts: seq<Part>, problem: Problem) {
    || (problem == OwnPart && exists part :: part in parts && part.parent in part.children)
    || (problem == ChildTwice && !Distinct(AllChildren(parts)))
  }

  /** What a loaded registry can be relied on for. */
  ghost predicate WellFormed(r: Registry) {
    && r.streams != [] && Distinct(r.streams)
    && (forall prefix :: prefix in r.prefixToStream ==> r.prefixToStream[prefix] in r.streams)
    && (forall number :: number in r.overrides ==> r.overrides[number] in r.streams)
    && (forall part :: part in r.parts ==> part.parent !in part.children)
    && Distinct(AllChildren(r.parts))
  }

  lemma NamesGrow(streams: seq<RawStream>, i: nat)
    requires i <= |streams|
    ensures AllNames(streams[..i]) <= AllNames(streams)
  {
    if i == |streams| {
      assert streams[..i] == streams;
    } else {
      NamesGrow(streams[..|streams| - 1], i);
      assert streams[..|streams| - 1][..i] == streams[..i];
    }
  }

  lemma PrefixesGrow(streams: seq<RawStream>, i: nat)
    requires i <= |streams|
    ensures AllPrefixes(streams[..i]) <= AllPrefixes(streams)
  {
    if i == |streams| {
      assert streams[..i] == streams;
    } else {
      PrefixesGrow(streams[..|streams| - 1], i);
      assert streams[..|streams| - 1][..i] == streams[..i];
    }
  }

  lemma ChildrenGrow(parts: seq<Part>, i: nat)
    requires i <= |parts|
    ensures AllChildren(parts[..i]) <= AllChildren(parts)
  {
    if i == |parts| {
      assert parts[..i] == parts;
    } else {
      ChildrenGrow(parts[..|parts| - 1], i);
      assert parts[..|parts| - 1][..i] == parts[..i];
    }
  }

  /** `s` begins with `t + [x]` and `x` is already in `t`. */
  lemma Repeats<T>(s: seq<T>, t: seq<T>, x: T)
    requires t + [x] <= s && x in t
    ensures !Distinct(s)
  {
    var k :| 0 <= k < |t| && t[k] == x;
    assert s[k] == (t + [x])[k] && s[|t|] == (t + [x])[|t|];
  }

  /** One stream's prefixes added to the map, refusing one that is in it already. */
  method AddPrefixes(name: string, prefixes: seq<string>, before: map<string, string>, ghost seen: seq<string>)
    returns (ok: bool, after: map<string, string>)
    requires Distinct(seen) && forall prefix :: prefix in before <==> prefix in seen
    ensures ok <==> Distinct(seen + prefixes)
    ensures ok ==>
      && (forall prefix :: prefix in after <==> prefix in seen + prefixes)
      && (forall prefix :: prefix in before ==> after[prefix] == before[prefix])
      && (forall prefix :: prefix in after ==> prefix in before || after[prefix] == name)
      && (forall prefix :: prefix in prefixes ==> after[prefix] == name)
  {
    after := before;
    ghost var all := seen;
    for j := 0 to |prefixes|
      invariant all == seen + prefixes[..j] && Distinct(all)
      invariant forall prefix :: prefix in after <==> prefix in all
      invariant forall prefix :: prefix in before ==> prefix in after && after[prefix] == before[prefix]
      invariant forall prefix :: prefix in after ==> prefix in before || after[prefix] == name
      invariant forall k :: 0 <= k < j ==> prefixes[k] in after && after[prefixes[k]] == name
    {
      var prefix := prefixes[j];
      NextPrefix(seen, prefixes, j);
      if prefix in after {
        Repeats(seen + prefixes, all, prefix);
        return false, after;
      }
      DistinctSnoc(all, prefix);
      after := after[prefix := name];
      all := all + [prefix];
    }
    assert prefixes[..|prefixes|] == prefixes;
    ok := true;
  }

  lemma NextPrefix(seen: seq<string>, prefixes: seq<string>, j: nat)
    requires j < |prefixes|
    ensures seen + prefixes[..j + 1] == seen + prefixes[..j] + [prefixes[j]] <= seen + prefixes
  {
  }

  lemma PrefixOfDistinct<T>(s: seq<T>, t: seq<T>)
    requires s <= t && Distinct(t)
    ensures Distinct(s)
  {
  }

  /** Every prefix of the first `n` entries is mapped to the stream that lists it. */
  ghost predicate Maps(raw: seq<RawStream>, n: nat, prefixToStream: map<string, string>)
    requires n <= |raw|
  {
    forall k, prefix :: 0 <= k < n && prefix in raw[k].prefixes ==>
      prefix in prefixToStream && prefixToStream[prefix] == raw[k].name
  }

  method LoadStreams(raw: seq<RawStream>)
    returns (problem: Option<Problem>, streams: seq<string>, prefixToStream: map<string, string>)
    ensures problem == None <==>
      raw != [] && "" !in AllNames(raw) && Distinct(AllNames(raw)) && Distinct(AllPrefixes(raw))
    ensures problem.Some? ==> StreamsHave(raw, problem.value)
    ensures problem == None ==>
      && streams == AllNames(raw)
      && (forall prefix :: prefix in prefixToStream ==> prefixToStream[prefix] in streams)
      && (forall prefix :: prefix in prefixToStream <==> prefix in AllPrefixes(raw))
      && Maps(raw, |raw|, prefixToStream)
  {
    streams, prefixToStream := [], map[];
    for i := 0 to |raw|
      invariant streams == AllNames(raw[..i]) && "" !in streams && Distinct(streams)
      invariant Distinct(AllPrefixes(raw[..i]))
      invariant forall prefix :: prefix in prefixToStream <==> prefix in AllPrefixes(raw[..i])
      invariant forall prefix :: prefix in prefixToStream ==> prefixToStream[prefix] in streams
      invariant Maps(raw, i, prefixToStream)
    {
      var entry := raw[i];
      ghost var seen := AllPrefixes(raw[..i]);
      assert raw[..i + 1][..i] == raw[..i];
      NamesGrow(raw, i + 1);
      PrefixesGrow(raw, i + 1);
      assert AllNames(raw[..i + 1]) == streams + [entry.name];
      assert AllPrefixes(raw[..i + 1]) == seen + entry.prefixes;
      assert entry.name in streams + [entry.name];
      if entry.name == "" {
        return Some(NoName), streams, prefixToStream;
      }
      if entry.name in streams {
        Repeats(AllNames(raw), streams, entry.name);
        return Some(StreamTwice), streams, prefixToStream;
      }
      streams := streams + [entry.name];
      var ok, after := AddPrefixes(entry.name, entry.prefixes, prefixToStream, seen);
      if !ok {
        if Distinct(AllPrefixes(raw)) {
          PrefixOfDistinct(seen + entry.prefixes, AllPrefixes(raw));
        }
        return Some(PrefixTwice), streams, prefixToStream;
      }
      prefixToStream := after;
    }
    assert raw[..|raw|] == raw;
    problem := if streams == [] then Some(NoStreams) else None;
  }

  /** The k-th of the first `n` entries is the last of them for its number. */
  ghost predicate LastFor(raw: seq<RawOverride>, n: nat, k: nat)
    requires n <= |raw|
  {
    k < n && raw[k].number.Some? && forall j :: k < j < n ==> raw[j].number != raw[k].number
  }

  /** Each number of the first `n` entries goes to the stream of its last entry, and no other number anywhere. */
  ghost predicate Overrides(raw: seq<RawOverride>, n: nat, overrides: map<int, string>)
    requires n <= |raw|
  {
    && (forall k: nat :: LastFor(raw, n, k) ==>
          raw[k].number.value in overrides && overrides[raw[k].number.value] == raw[k].stream)
    && (forall number :: number in overrides ==>
          exists k: nat :: LastFor(raw, n, k) && raw[k].number == Some(number))
  }

  lemma OverridesOneMore(raw: seq<RawOverride>, n: nat, overrides: map<int, string>)
    requires n < |raw| && raw[n].number.Some? && Overrides(raw, n, overrides)
    ensures Overrides(raw, n + 1, overrides[raw[n].number.value := raw[n].stream])
  {
    var after := overrides[raw[n].number.value := raw[n].stream];
    assert LastFor(raw, n + 1, n);
    forall k: nat | k < n
      ensures LastFor(raw, n + 1, k) <==> LastFor(raw, n, k) && raw[k].number != raw[n].number
    {
    }
    forall number | number in after && number != raw[n].number.value
      ensures exists k: nat :: LastFor(raw, n + 1, k) && raw[k].number == Some(number)
    {
      var k: nat :| LastFor(raw, n, k) && raw[k].number == Some(number);
      assert LastFor(raw, n + 1, k);
    }
  }

  method LoadOverrides(raw: seq<RawOverride>, streams: seq<string>)
    returns (problem: Option<Problem>, overrides: map<int, string>)
    ensures problem == None <==> forall o :: o in raw ==> o.number.Some? && o.stream in streams
    ensures problem.Some? ==> OverridesHave(raw, streams, problem.value)
    ensures problem == None ==> forall number :: number in overrides ==> overrides[number] in streams
    ensures problem == None ==> Overrides(raw, |raw|, overrides)
  {
    overrides := map[];
    for i := 0 to |raw|
      invariant Overrides(raw, i, overrides)
      invariant forall k :: 0 <= k < i ==>
        raw[k].number.Some? && raw[k].stream in streams
      invariant forall number :: number in overrides ==> overrides[number] in streams
    {
      assert raw[i] in raw;
      if raw[i].number == None {
        return Some(NotANumber), overrides;
      }
      if raw[i].stream !in streams {
        return Some(UnknownStream), overrides;
      }
      ghost var before := overrides;
      overrides := overrides[raw[i].number.value := raw[i].stream];
      OverridesOneMore(raw, i, before);
    }
    problem := None;
  }

  /** One part's children, refusing the parent itself and a child that is listed already. */
  method AddPart(parent: int, children: seq<int>, before: map<int, int>, ghost seen: seq<int>)
    returns (problem: Option<Problem>, after: map<int, int>)
    requires Distinct(seen) && forall child :: child in before <==> child in seen
    ensures problem == None <==> parent !in children && Distinct(seen + children)
    ensures problem.Some? ==>
      || (problem.value == OwnPart && parent in children)
      || (problem.value == ChildTwice && !Distinct(seen + children))
    ensures problem == None ==> forall child :: child in after <==> child in seen + children
  {
    after := before;
    for j := 0 to |children|
      invariant Distinct(seen + children[..j]) && parent !in children[..j]
      invariant forall child :: child in after <==> child in seen + children[..j]
    {
      var child := children[j];
      assert seen + children[..j + 1] == (seen + children[..j]) + [child];
      if child == parent {
        return Some(OwnPart), after;
      }
      if child in after {
        assert seen + children[..j + 1] <= seen + children;
        Repeats(seen + children, seen + children[..j], child);
        return Some(ChildTwice), after;
      }
      after := after[child := parent];
    }
    assert children[..|children|] == children;
    problem := None;
  }

  method LoadParts(raw: seq<Part>) returns (problem: Option<Problem>)
    ensures problem == None <==>
      (forall part :: part in raw ==> part.parent !in part.children) && Distinct(AllChildren(raw))
    ensures problem.Some? ==> PartsHave(raw, problem.value)
  {
    var childParent: map<int, int> := map[];
    for i := 0 to |raw|
      invariant Distinct(AllChildren(raw[..i]))
      invariant forall child :: child in childParent <==> child in AllChildren(raw[..i])
      invariant forall k :: 0 <= k < i ==> raw[k].parent !in raw[k].children
    {
      var Part(parent, children) := raw[i];
      assert raw[i] in raw && raw[..i + 1][..i] == raw[..i];
      ghost var seen := AllChildren(raw[..i]);
      var after;
      problem, after := AddPart(parent, children, childParent, seen);
      if problem.Some? {
        ChildrenGrow(raw, i + 1);
        if Distinct(AllChildren(raw)) {
          PrefixOfDistinct(seen + children, AllChildren(raw));
        }
        return;
      }
      childParent := after;
    }
    assert raw[..|raw|] == raw;
    problem := None;
  }

  /** The registry says what the file says: every prefix's stream, every number's, and the names in order. */
  ghost predicate SaysWhatIsWritten(r: Registry, raw: Raw) {
    && |r.streams| == |raw.streams| && (forall k :: 0 <= k < |r.streams| ==> r.streams[k] == raw.streams[k].name)
    && (forall k, prefix :: 0 <= k < |raw.streams| && prefix in raw.streams[k].prefixes ==>
          prefix in r.prefixToStream && r.prefixToStream[prefix] == raw.streams[k].name)
    && (forall prefix :: prefix in r.prefixToStream ==>
          exists k :: 0 <= k < |raw.streams| && prefix in raw.streams[k].prefixes)
    && Overrides(raw.overrides, |raw.overrides|, r.overrides) && r.parts == raw.parts
  }

  lemma {:induction false} NamesAndPrefixes(streams: seq<RawStream>)
    ensures |AllNames(streams)| == |streams|
    ensures forall k :: 0 <= k < |streams| ==> AllNames(streams)[k] == streams[k].name
    ensures forall prefix :: prefix in AllPrefixes(streams) ==>
      exists k :: 0 <= k < |streams| && prefix in streams[k].prefixes
  {
    if streams != [] {
      var n := |streams| - 1;
      NamesAndPrefixes(streams[..n]);
      forall prefix | prefix in AllPrefixes(streams)
        ensures exists k :: 0 <= k < |streams| && prefix in streams[k].prefixes
      {
        if prefix in streams[n].prefixes {
        } else {
          assert prefix in AllPrefixes(streams[..n]);
          var k :| 0 <= k < |streams[..n]| && prefix in streams[..n][k].prefixes;
          assert prefix in streams[k].prefixes;
        }
      }
    }
  }

  /** A registry loads exactly when it does not contradict itself. */
  method LoadRegistry(raw: Raw) returns (r: Loaded)
    ensures r.Loaded? <==> Consistent(raw)
    ensures r.RegistryError? ==>
      || StreamsHave(raw.streams, r.problem) || PartsHave(raw.parts, r.problem)
      || OverridesHave(raw.overrides, AllNames(raw.streams), r.problem)
    ensures r.Loaded? ==> SaysWhatIsWritten(r.registry, raw)
    ensures r.Loaded? ==> WellFormed(r.registry) && r.registry.parts == raw.parts
                          && r.registry.streams == AllNames(raw.streams)
  {
    var problem, streams, prefixToStream := LoadStreams(raw.streams);
    if problem.Some? {
      return RegistryError(problem.value);
    }
    var overrides;
    problem, overrides := LoadOverrides(raw.overrides, streams);
    if problem.Some? {
      return RegistryError(problem.value);
    }
    problem := LoadParts(raw.parts);
    if problem.Some? {
      return RegistryError(problem.value);
    }
    assert AllNames(raw.streams) != [];
    NamesAndPrefixes(raw.streams);
    r := Loaded(Registry(streams, prefixToStream, overrides, raw.parts));
  }

  // ---------------------------------------------------------------- planning

  datatype Item = Item(id: string, number: int, title: string, current: Option<string>)

  datatype Change = Change(item: Item, desired: string)

  datatype Plan = Plan(changes: seq<Change>, unplaced: seq<Item>, inPlace: nat)

  /** The title's prefix is what a regular expression finds in it, here any function of the title. */
  type TitlePrefix = string -> Option<string>

  function Classify(number: int, title: string, r: Registry, titlePrefix: TitlePrefix): Option<string> {
    if number in r.overrides then Some(r.overrides[number])
    else
      var prefix := titlePrefix(title);
      if prefix == None || prefix.value !in r.prefixToStream then None
      else Some(r.prefixToStream[prefix.value])
  }

  function Desired(item: Item, r: Registry, titlePrefix: TitlePrefix): Option<string> {
    Classify(item.number, item.title, r, titlePrefix)
  }

  /**
   * Where an item goes by a registry that says what the file says: to the stream of its number's last entry
   * if the number has one, whatever the title; else to the stream that lists its title's prefix; else nowhere.
   */
  lemma WhereAnItemGoes(raw: Raw, r: Registry, item: Item, titlePrefix: TitlePrefix)
    requires SaysWhatIsWritten(r, raw)
    ensures forall k: nat ::
      LastFor(raw.overrides, |raw.overrides|, k) && raw.overrides[k].number == Some(item.number) ==>
        Desired(item, r, titlePrefix) == Some(raw.overrides[k].stream)
    ensures (forall k: nat :: LastFor(raw.overrides, |raw.overrides|, k) ==>
               raw.overrides[k].number != Some(item.number)) ==>
      && (forall k, prefix :: 0 <= k < |raw.streams| && titlePrefix(item.title) == Some(prefix)
                              && prefix in raw.streams[k].prefixes ==>
            Desired(item, r, titlePrefix) == Some(raw.streams[k].name))
      && (titlePrefix(item.title) == None ==> Desired(item, r, titlePrefix) == None)
      && (forall prefix :: titlePrefix(item.title) == Some(prefix)
                           && (forall k :: 0 <= k < |raw.streams| ==> prefix !in raw.streams[k].prefixes) ==>
            Desired(item, r, titlePrefix) == None)
  {
  }

  /** Every item lands in exactly one of the three: unplaced, in place, or a change. */
  method MakePlan(items: seq<Item>, r: Registry, titlePrefix: TitlePrefix) returns (p: Plan)
    ensures p == PlanOf(items, r, titlePrefix)
  {
    var changes: seq<Change>, unplaced: seq<Item>, inPlace: nat := [], [], 0;
    for i := 0 to |items|
      invariant Plan(changes, unplaced, inPlace) == PlanOf(items[..i], r, titlePrefix)
    {
      var item := items[i];
      assert items[..i + 1][..i] == items[..i];
      var desired := Classify(item.number, item.title, r, titlePrefix);
      if desired == None {
        unplaced := unplaced + [item];
      } else if desired == item.current {
        inPlace := inPlace + 1;
      } else {
        changes := changes + [Change(item, desired.value)];
      }
    }
    assert items[..|items|] == items;
    p := Plan(changes, unplaced, inPlace);
  }

  function PlanOf(items: seq<Item>, r: Registry, titlePrefix: TitlePrefix): Plan {
    if items == [] then Plan([], [], 0)
    else
      var before := PlanOf(items[..|items| - 1], r, titlePrefix);
      var item := items[|items| - 1];
      match Desired(item, r, titlePrefix)
      case None => before.(unplaced := before.unplaced + [item])
      case Some(desired) =>
        if item.current == Some(desired) then before.(inPlace := before.inPlace + 1)
        else before.(changes := before.changes + [Change(item, desired)])
  }

  /** The plan says of each item exactly what its title and its current value call for. */
  lemma {:induction false} PlanMeans(items: seq<Item>, r: Registry, titlePrefix: TitlePrefix)
    ensures var p := PlanOf(items, r, titlePrefix);
            && (forall c :: c in p.changes <==>
                  c.item in items && Desired(c.item, r, titlePrefix) == Some(c.desired)
                  && c.item.current != Some(c.desired))
            && (forall item :: item in p.unplaced <==> item in items && Desired(item, r, titlePrefix) == None)
            && |p.changes| + |p.unplaced| + p.inPlace == |items|
  {
    if items != [] {
      var n := |items| - 1;
      PlanMeans(items[..n], r, titlePrefix);
      assert items == items[..n] + [items[n]];
    }
  }

  /** Every desired value is a declared stream, so no option lookup can miss. */
  lemma DesiredIsDeclared(items: seq<Item>, r: Registry, titlePrefix: TitlePrefix)
    requires WellFormed(r)
    ensures forall c :: c in PlanOf(items, r, titlePrefix).changes ==> c.desired in r.streams
  {
  }

  // ---------------------------------------------------------------- writing, and planning again

  /** Item id to the value written, over a list of changes. */
  function ValuesOf(changes: seq<Change>): map<string, string> {
    if changes == [] then map[]
    else ValuesOf(changes[..|changes| - 1])[changes[|changes| - 1].item.id := changes[|changes| - 1].desired]
  }

  /** The items as the board answers them once `written` is on it. */
  function Rewritten(items: seq<Item>, written: map<string, string>): seq<Item> {
    seq(|items|, i requires 0 <= i < |items| => RewrittenItem(items[i], written))
  }

  function RewrittenItem(item: Item, written: map<string, string>): Item {
    if item.id in written then item.(current := Some(written[item.id])) else item
  }

  ghost predicate DistinctIds(items: seq<Item>) {
    forall a, b :: a in items && b in items && a.id == b.id ==> a == b
  }

  lemma {:induction false} ValuesOfChanges(changes: seq<Change>, id: string)
    requires forall c, d :: c in changes && d in changes && c.item.id == d.item.id ==> c == d
    ensures id in ValuesOf(changes) <==> exists c :: c in changes && c.item.id == id
    ensures forall c :: c in changes && c.item.id == id ==> ValuesOf(changes)[id] == c.desired
  {
    if changes != [] {
      var n := |changes| - 1;
      assert changes == changes[..n] + [changes[n]];
      assert changes[n] in changes;
      ValuesOfChanges(changes[..n], id);
    }
  }

  lemma RewrittenAre(items: seq<Item>, written: map<string, string>)
    ensures forall item ::
      item in Rewritten(items, written) <==> exists before :: before in items && RewrittenItem(before, written) == item
  {
    var items' := Rewritten(items, written);
    forall item
      ensures item in items' <==> exists before :: before in items && RewrittenItem(before, written) == item
    {
      if item in items' {
        var k :| 0 <= k < |items'| && items'[k] == item;
        assert items[k] in items;
      }
      if exists before :: before in items && RewrittenItem(before, written) == item {
        var before :| before in items && RewrittenItem(before, written) == item;
        var k :| 0 <= k < |items| && items[k] == before;
        assert items'[k] == item;
      }
    }
  }

  /**
   * Planning again after some of the changes were written, whichever an interrupted run left behind,
   * calls for exactly the changes that are left, and places nothing more.
   */
  lemma ReplanIsTheRest(items: seq<Item>, r: Registry, titlePrefix: TitlePrefix, done: seq<Change>)
    requires DistinctIds(items)
    requires forall c :: c in done ==> c in PlanOf(items, r, titlePrefix).changes
    ensures var p := PlanOf(items, r, titlePrefix);
            var again := PlanOf(Rewritten(items, ValuesOf(done)), r, titlePrefix);
            && (forall c :: c in again.changes <==> c in p.changes && c !in done)
            && (forall item :: item in again.unplaced <==> item in p.unplaced)
  {
    var p := PlanOf(items, r, titlePrefix);
    var written := ValuesOf(done);
    var items' := Rewritten(items, written);
    PlanMeans(items, r, titlePrefix);
    PlanMeans(items', r, titlePrefix);
    assert forall c :: c in done ==> c in p.changes;
    forall item | item in items
      ensures item.id in written <==> exists c :: c in done && c.item == item
      ensures item.id in written ==> Desired(item, r, titlePrefix) == Some(written[item.id])
    {
      ValuesOfChanges(done, item.id);
    }
    RewrittenAre(items, written);
    var again := PlanOf(items', r, titlePrefix);
    forall c
      ensures c in again.changes <==> c in p.changes && c !in done
    {
      if c in again.changes {
        var before :| before in items && RewrittenItem(before, written) == c.item;
        assert before.id !in written;
      }
      if c in p.changes && c !in done {
        assert c.item.id !in written;
        assert RewrittenItem(c.item, written) == c.item;
      }
    }
    forall item
      ensures item in again.unplaced <==> item in p.unplaced
    {
      if item in again.unplaced {
        var before :| before in items && RewrittenItem(before, written) == item;
        assert Desired(before, r, titlePrefix) == None && before.id !in written;
      }
      if item in p.unplaced {
        assert item.id !in written && RewrittenItem(item, written) == item;
      }
    }
  }

  /** After every change is written there is nothing left to write. */
  lemma ReplanIsEmpty(items: seq<Item>, r: Registry, titlePrefix: TitlePrefix)
    requires DistinctIds(items)
    ensures PlanOf(Rewritten(items, ValuesOf(PlanOf(items, r, titlePrefix).changes)), r, titlePrefix).changes == []
  {
    var changes := PlanOf(items, r, titlePrefix).changes;
    ReplanIsTheRest(items, r, titlePrefix, changes);
    var again := PlanOf(Rewritten(items, ValuesOf(changes)), r, titlePrefix).changes;
    SomeMember(again);
  }

  datatype ProjectInfo = ProjectInfo(fieldId: Option<string>, options: map<string, string>)

  /**
   * The field with every stream as an option: verified if it exists and never rewritten, else created,
   * and then `created` is what the server answers.
   */
  method EnsureField(r: Registry, info: ProjectInfo, created: ProjectInfo) returns (ensured: Option<ProjectInfo>)
    ensures ensured.Some? ==> ensured.value == if info.fieldId.Some? then info else created
    ensures info.fieldId.Some? ==>
      (ensured == None <==> exists stream :: stream in r.streams && stream !in info.options)
    ensures info.fieldId == None ==> ensured == Some(created)
    ensures ensured.Some? && (forall stream :: stream in r.streams ==> stream in created.options) ==>
      forall stream :: stream in r.streams ==> stream in ensured.value.options
  {
    if info.fieldId.Some? {
      for i := 0 to |r.streams|
        invariant forall k :: 0 <= k < i ==> r.streams[k] in info.options
      {
        if r.streams[i] !in info.options {
          assert r.streams[i] in r.streams;
          return None;
        }
      }
      return Some(info);
    }
    ensured := Some(created);
  }

  datatype Written = Count(n: nat) | NoField | UnknownOption | NotSent(why: W.Sent)

  /** The writes the changes ask for: each item's field to its stream's option. */
  function Writes(changes: seq<Change>, options: map<string, string>): (r: seq<W.Write<string>>)
    requires forall k :: 0 <= k < |changes| ==> changes[k].desired in options
    ensures |r| == |changes|
    ensures forall k :: 0 <= k < |changes| ==> r[k] == W.Write(changes[k].item.id, options[changes[k].desired])
  {
    if changes == [] then []
    else
      var last := changes[|changes| - 1];
      Writes(changes[..|changes| - 1], options) + [W.Write(last.item.id, options[last.desired])]
  }

  /** Every desired stream has an option. */
  ghost predicate Known(changes: seq<Change>, options: map<string, string>) {
    forall k :: 0 <= k < |changes| ==> changes[k].desired in options
  }

  lemma WritesSnoc(changes: seq<Change>, last: Change, options: map<string, string>)
    requires Known(changes, options) && last.desired in options
    ensures Known(changes + [last], options)
    ensures Writes(changes + [last], options)
         == Writes(changes, options) + [W.Write(last.item.id, options[last.desired])]
  {
    assert (changes + [last])[..|changes|] == changes;
  }

  /** Choosing among the changes and among their writes is the same. */
  lemma {:induction false} ChosenWrites(changes: seq<Change>, options: map<string, string>, made: nat -> bool, n: nat)
    requires n <= |changes| && Known(changes, options)
    ensures Known(W.Chosen(changes, made, n), options)
    ensures W.Chosen(Writes(changes, options), made, n) == Writes(W.Chosen(changes, made, n), options)
  {
    if n > 0 {
      ChosenWrites(changes, options, made, n - 1);
      WritesSnoc(W.Chosen(changes, made, n - 1), changes[n - 1], options);
    }
  }

  lemma AllChosen(changes: seq<Change>, chosen: nat -> bool)
    requires forall k :: 0 <= k < |changes| ==> chosen(k)
    ensures W.Chosen(changes, chosen, |changes|) == changes
  {
    W.ChosenAll(changes, chosen, |changes|);
    assert changes[..|changes|] == changes;
  }

  /**
   * Write every change, `batchSize` to a request. Nothing is sent when an option is missing. The
   * changes `made` are on the board at the end: all of them, or after a failed request all of those
   * before it and any of its own.
   */
  method Apply(board: W.Board<string>, info: ProjectInfo, changes: seq<Change>, batchSize: int)
    returns (r: Written, ghost made: seq<Change>)
    modifies board
    ensures r == NoField <==> info.fieldId == None
    ensures r == UnknownOption <==> info.fieldId.Some? && !Known(changes, info.options)
    ensures r == NoField || r == UnknownOption ==> board.sent == old(board.sent) && board.values == old(board.values)
    ensures info.fieldId.Some? && Known(changes, info.options) ==>
      && (forall c :: c in made ==> c in changes) && Known(made, info.options)
      && board.values == W.Put(old(board.values), Writes(made, info.options))
      && old(board.sent) <= board.sent
      && W.Flatten(board.sent[|old(board.sent)|..]) <= Writes(changes, info.options)
      && W.Sized(board.sent[|old(board.sent)|..], batchSize)
      && (r.Count? && batchSize > 0 ==>
            && r.n == |changes| && made == changes
            && W.Flatten(board.sent[|old(board.sent)|..]) == Writes(changes, info.options))
      && ((forall k: nat :: !board.broken(k)) && batchSize > 0 ==> r.Count?)
  {
    made := [];
    if info.fieldId == None {
      return NoField, made;
    }
    for i := 0 to |changes|
      invariant forall k :: 0 <= k < i ==> changes[k].desired in info.options
    {
      if changes[i].desired !in info.options {
        return UnknownOption, made;
      }
    }
    var sent;
    ghost var done, chosen;
    sent, done, chosen := W.SendBatches(board, Writes(changes, info.options), batchSize);
    made := W.Chosen(changes, chosen, |changes|);
    ChosenWrites(changes, info.options, chosen, |changes|);
    W.ChosenAmong(changes, chosen, |changes|);
    if sent.Count? && batchSize > 0 {
      AllChosen(changes, chosen);
    }
    r := if sent.Count? then Count(sent.n) else NotSent(sent);
  }

  /** A field that `EnsureField` answered for has every option a plan can ask for. */
  lemma PlannedOptionsAreKnown(items: seq<Item>, r: Registry, titlePrefix: TitlePrefix, info: ProjectInfo)
    requires WellFormed(r) && forall stream :: stream in r.streams ==> stream in info.options
    ensures Known(PlanOf(items, r, titlePrefix).changes, info.options)
  {
  }

  /** What the board holds after the writes is what planning again is told of. */
  lemma {:induction false} BoardHoldsTheWrites(values: map<string, string>, changes: seq<Change>,
                                               options: map<string, string>, id: string)
    requires Known(changes, options)
    ensures id in ValuesOf(changes) && ValuesOf(changes)[id] in options ==>
      id in W.Put(values, Writes(changes, options))
      && W.Put(values, Writes(changes, options))[id] == options[ValuesOf(changes)[id]]
    ensures id !in ValuesOf(changes) ==>
      (id in W.Put(values, Writes(changes, options)) <==> id in values)
      && (id in values ==> W.Put(values, Writes(changes, options))[id] == values[id])
  {
    if changes != [] {
      var init := changes[..|changes| - 1];
      var last := changes[|changes| - 1];
      BoardHoldsTheWrites(values, init, options, id);
      var write := W.Write(last.item.id, options[last.desired]);
      assert Writes(changes, options) == Writes(init, options) + [write];
      W.PutTwice(values, Writes(init, options), [write]);
      W.PutOne(W.Put(values, Writes(init, options)), write);
    }
  }
}
