/**
 * The in-progress sweep: toolkit/features/board_sweep.py.
 * Issues that stay are put In Progress and given a Priority if they have none; parked ones go back to
 * the Backlog. An issue in both lists could never settle, and the loader refuses it.
 */
module BoardSweep {
  import opened Prelude
  import W = BoardWriter

  const STAYS_STATUS := "In Progress"
  const PARKED_STATUS := "Backlog"

  /** An issue that stays, and the priority to write if it lacks one. */
  datatype Stay = Stay(number: int, priority: Option<string>)

  datatype Item = Item(id: string, status: Option<string>, priority: Option<string>)

  /** The board's items by issue number. */
  type Items = map<int, Item>

  datatype Change = Change(item: Item, status: Option<string>, priority: Option<string>)

  datatype Plan = Plan(changes: seq<Change>, settled: nat, missing: seq<int>)

  // ---------------------------------------------------------------- the registry

  datatype RawStay = RawStay(number: Option<int>, priority: Option<string>)

  datatype Problem = NotANumber | InBoth

  /** No issue is both kept and parked. */
  ghost predicate Disjoint(stays: seq<Stay>, parked: seq<int>) {
    forall stay :: stay in stays ==> stay.number !in parked
  }

  /** Both lists read, and refused when an entry is no number or an issue is in both. */
  method LoadRegistry(rawStays: seq<RawStay>, rawParked: seq<Option<int>>)
    returns (problem: Option<Problem>, stays: seq<Stay>, parked: seq<int>)
    ensures problem == None <==>
      && (forall k :: 0 <= k < |rawStays| ==> rawStays[k].number.Some?)
      && (forall k :: 0 <= k < |rawParked| ==> rawParked[k].Some?)
      && (forall j, k :: 0 <= j < |rawStays| && 0 <= k < |rawParked| ==> rawStays[j].number != rawParked[k])
    ensures problem == Some(NotANumber) ==>
      || (exists k :: 0 <= k < |rawStays| && rawStays[k].number == None)
      || (exists k :: 0 <= k < |rawParked| && rawParked[k] == None)
    ensures problem == Some(InBoth) ==>
      exists j, k :: 0 <= j < |rawStays| && 0 <= k < |rawParked| && rawStays[j].number == rawParked[k] != None
    ensures problem == None ==>
      && Disjoint(stays, parked) && |stays| == |rawStays| && |parked| == |rawParked|
      && (forall k :: 0 <= k < |stays| ==> rawStays[k] == RawStay(Some(stays[k].number), stays[k].priority))
      && (forall k :: 0 <= k < |parked| ==> rawParked[k] == Some(parked[k]))
  {
    stays, parked := [], [];
    for i := 0 to |rawStays|
      invariant |stays| == i
      invariant forall k :: 0 <= k < i ==> rawStays[k] == RawStay(Some(stays[k].number), stays[k].priority)
    {
      if rawStays[i].number == None {
        return Some(NotANumber), stays, parked;
      }
      stays := stays + [Stay(rawStays[i].number.value, rawStays[i].priority)];
    }
    for i := 0 to |rawParked|
      invariant |parked| == i
      invariant forall k :: 0 <= k < i ==> rawParked[k] == Some(parked[k])
    {
      if rawParked[i] == None {
        return Some(NotANumber), stays, parked;
      }
      parked := parked + [rawParked[i].value];
    }
    for i := 0 to |stays|
      invariant forall k :: 0 <= k < i ==> stays[k].number !in parked
    {
      if stays[i].number in parked {
        var k :| 0 <= k < |parked| && parked[k] == stays[i].number;
        assert rawStays[i].number == rawParked[k];
        return Some(InBoth), stays, parked;
      }
    }
    problem := None;
  }

  // ---------------------------------------------------------------- the plan

  /** What a kept issue needs: In Progress, and a priority only if it has none and one is declared. */
  function StayChange(stay: Stay, item: Item): Change {
    Change(item,
           if item.status == Some(STAYS_STATUS) then None else Some(STAYS_STATUS),
           if item.priority == None && stay.priority.Some? && stay.priority.value != "" then stay.priority else None)
  }

  function StayStep(p: Plan, stay: Stay, items: Items): Plan {
    if stay.number !in items then p.(missing := p.missing + [stay.number])
    else
      var change := StayChange(stay, items[stay.number]);
      if change.status == None && change.priority == None then p.(settled := p.settled + 1)
      else p.(changes := p.changes + [change])
  }

  function ParkStep(p: Plan, number: int, items: Items): Plan {
    if number !in items then p.(missing := p.missing + [number])
    else if items[number].status == Some(PARKED_STATUS) then p.(settled := p.settled + 1)
    else p.(changes := p.changes + [Change(items[number], Some(PARKED_STATUS), None)])
  }

  function PlanStays(stays: seq<Stay>, items: Items): Plan {
    if stays == [] then Plan([], 0, [])
    else StayStep(PlanStays(stays[..|stays| - 1], items), stays[|stays| - 1], items)
  }

  function PlanOf(stays: seq<Stay>, parked: seq<int>, items: Items): Plan {
    if parked == [] then PlanStays(stays, items)
    else ParkStep(PlanOf(stays, parked[..|parked| - 1], items), parked[|parked| - 1], items)
  }

  method MakePlan(stays: seq<Stay>, parked: seq<int>, items: Items) returns (p: Plan)
    ensures p == PlanOf(stays, parked, items)
  {
    var changes: seq<Change>, missing: seq<int> := [], [];
    var settled: nat := 0;
    for i := 0 to |stays|
      invariant Plan(changes, settled, missing) == PlanStays(stays[..i], items)
    {
      assert stays[..i + 1][..i] == stays[..i];
      var Stay(number, desiredPriority) := stays[i];
      if number !in items {
        missing := missing + [number];
        continue;
      }
      var item := items[number];
      var statusChange := if item.status == Some(STAYS_STATUS) then None else Some(STAYS_STATUS);
      var priorityChange :=
        if item.priority == None && desiredPriority.Some? && desiredPriority.value != "" then desiredPriority else None;
      if statusChange == None && priorityChange == None {
        settled := settled + 1;
      } else {
        changes := changes + [Change(item, statusChange, priorityChange)];
      }
    }
    assert stays[..|stays|] == stays;
    for i := 0 to |parked|
      invariant Plan(changes, settled, missing) == PlanOf(stays, parked[..i], items)
    {
      assert parked[..i + 1][..i] == parked[..i];
      var number := parked[i];
      if number !in items {
        missing := missing + [number];
        continue;
      }
      var item := items[number];
      if item.status == Some(PARKED_STATUS) {
        settled := settled + 1;
      } else {
        changes := changes + [Change(item, Some(PARKED_STATUS), None)];
      }
    }
    assert parked[..|parked|] == parked;
    p := Plan(changes, settled, missing);
  }

  ghost predicate Listed(stays: seq<Stay>, parked: seq<int>, n: int) {
    n in parked || exists stay :: stay in stays && stay.number == n
  }

  /** Every entry of the registry is counted once, and a change never names a priority over another. */
  lemma {:induction false} PlanMeans(stays: seq<Stay>, parked: seq<int>, items: Items)
    ensures var p := PlanOf(stays, parked, items);
            && |p.changes| + p.settled + |p.missing| == |stays| + |parked|
            && (forall c :: c in p.changes ==> c.priority.Some? ==> c.item.priority == None)
            && (forall c :: c in p.changes ==> c.status.Some? || c.priority.Some?)
            && (forall c :: c in p.changes ==> exists n :: n in items && items[n] == c.item)
            && (forall n :: n in p.missing <==> n !in items && Listed(stays, parked, n))
  {
    if parked != [] {
      var k := |parked| - 1;
      PlanMeans(stays, parked[..k], items);
      assert forall n :: Listed(stays, parked, n) <==> Listed(stays, parked[..k], n) || n == parked[k];
    } else if stays != [] {
      var k := |stays| - 1;
      PlanMeans(stays[..k], [], items);
      assert forall n :: Listed(stays, [], n) <==> Listed(stays[..k], [], n) || n == stays[k].number;
    }
  }

  // ---------------------------------------------------------------- writing

  datatype Field = Status | Priority

  type Slot = (string, Field)

  /** The option id of each value, per field; a value without one is a KeyError. */
  type Options = map<Field, map<string, string>>

  function Has(options: Options, field: Field, value: string): bool {
    field in options && value in options[field]
  }

  /** The writes of one change, status first. */
  function WritesOf(c: Change, options: Options): seq<W.Write<Slot>>
    requires Writable(c, options)
  {
    (if c.status.Some? then [W.Write((c.item.id, Status), options[Status][c.status.value])] else [])
    + (if c.priority.Some? then [W.Write((c.item.id, Priority), options[Priority][c.priority.value])] else [])
  }

  predicate Writable(c: Change, options: Options) {
    && (c.status.Some? ==> Has(options, Status, c.status.value))
    && (c.priority.Some? ==> Has(options, Priority, c.priority.value))
  }

  function AllWrites(changes: seq<Change>, options: Options): seq<W.Write<Slot>>
    requires forall k :: 0 <= k < |changes| ==> Writable(changes[k], options)
  {
    if changes == [] then []
    else
      var last := changes[|changes| - 1];
      assert Writable(last, options);
      AllWrites(changes[..|changes| - 1], options) + WritesOf(last, options)
  }

  /** The non-empty fields of the changes. */
  function FieldCount(changes: seq<Change>): nat {
    if changes == [] then 0
    else
      var c := changes[|changes| - 1];
      FieldCount(changes[..|changes| - 1]) + (if c.status.Some? then 1 else 0) + (if c.priority.Some? then 1 else 0)
  }

  datatype Written = Count(n: nat) | UnknownOption | NotSent(why: W.Sent)

  /**
   * Write every change; the answer is how many field values were written, and that is all of them.
   * After a failed request the board has the writes numbered by `made`: all before it, any of its own.
   */
  method Apply(board: W.Board<Slot>, options: Options, changes: seq<Change>, batchSize: int)
    returns (r: Written, ghost made: nat -> bool)
    modifies board
    ensures r == UnknownOption <==> exists k :: 0 <= k < |changes| && !Writable(changes[k], options)
    ensures r == UnknownOption ==> board.sent == old(board.sent) && board.values == old(board.values)
    ensures (forall k :: 0 <= k < |changes| ==> Writable(changes[k], options)) ==>
      var writes := AllWrites(changes, options);
      && board.values == W.Put(old(board.values), W.Chosen(writes, made, |writes|))
      && old(board.sent) <= board.sent
      && W.Flatten(board.sent[|old(board.sent)|..]) <= writes
      && (r.Count? && batchSize > 0 ==>
            && r.n == FieldCount(changes) == |writes|
            && board.values == W.Put(old(board.values), writes)
            && W.Flatten(board.sent[|old(board.sent)|..]) == writes)
  {
    made := n => false;
    var writes: seq<W.Write<Slot>> := [];
    for i := 0 to |changes|
      invariant forall k :: 0 <= k < i ==> Writable(changes[k], options)
      invariant writes == AllWrites(changes[..i], options) && |writes| == FieldCount(changes[..i])
    {
      assert changes[..i + 1][..i] == changes[..i];
      var change := changes[i];
      if !Writable(change, options) {
        return UnknownOption, made;
      }
      ghost var before := writes;
      if change.status.Some? {
        writes := writes + [W.Write((change.item.id, Status), options[Status][change.status.value])];
      }
      if change.priority.Some? {
        writes := writes + [W.Write((change.item.id, Priority), options[Priority][change.priority.value])];
      }
      assert writes == before + WritesOf(change, options);
    }
    assert changes[..|changes|] == changes;
    var sent;
    ghost var done;
    sent, done, made := W.SendBatches(board, writes, batchSize);
    if sent.Count? && batchSize > 0 {
      W.ChosenAll(writes, made, |writes|);
      assert writes[..|writes|] == writes;
    }
    r := if sent.Count? then Count(sent.n) else NotSent(sent);
  }

  // ---------------------------------------------------------------- planning again

  function Update(item: Item, c: Change): Item {
    if item.id == c.item.id then
      item.(status := if c.status.Some? then c.status else item.status,
            priority := if c.priority.Some? then c.priority else item.priority)
    else item
  }

  /** One item once the changes are written, in order. */
  function Updated(item: Item, changes: seq<Change>): Item {
    if changes == [] then item else Update(Updated(item, changes[..|changes| - 1]), changes[|changes| - 1])
  }

  function After(items: Items, changes: seq<Change>): Items {
    map n | n in items :: Updated(items[n], changes)
  }

  /** The board's fields hold what the item says. */
  ghost predicate Shows(values: map<Slot, string>, options: Options, item: Item) {
    && (if item.status.Some? then Has(options, Status, item.status.value)
          && (item.id, Status) in values && values[(item.id, Status)] == options[Status][item.status.value]
        else (item.id, Status) !in values)
    && (if item.priority.Some? then Has(options, Priority, item.priority.value)
          && (item.id, Priority) in values && values[(item.id, Priority)] == options[Priority][item.priority.value]
        else (item.id, Priority) !in values)
  }

  /** So `After` is what the board reads once the writes of `Apply` are on it. */
  lemma {:induction false} BoardShowsTheUpdate(values: map<Slot, string>, options: Options, item: Item,
                                               changes: seq<Change>)
    requires forall k :: 0 <= k < |changes| ==> Writable(changes[k], options)
    requires Shows(values, options, item)
    ensures Shows(W.Put(values, AllWrites(changes, options)), options, Updated(item, changes))
  {
    if changes != [] {
      var init, last := changes[..|changes| - 1], changes[|changes| - 1];
      assert Writable(last, options);
      BoardShowsTheUpdate(values, options, item, init);
      UpdatedKeepsId(item, init);
      W.PutTwice(values, AllWrites(init, options), WritesOf(last, options));
      ChangeShows(W.Put(values, AllWrites(init, options)), options, Updated(item, init), last);
    }
  }

  /** One change's writes set its own fields and leave every other slot. */
  lemma ChangeShows(values: map<Slot, string>, options: Options, item: Item, c: Change)
    requires Writable(c, options) && Shows(values, options, item)
    ensures Shows(W.Put(values, WritesOf(c, options)), options, Update(item, c))
  {
    var first: seq<W.Write<Slot>> :=
      if c.status.Some? then [W.Write((c.item.id, Status), options[Status][c.status.value])] else [];
    var second: seq<W.Write<Slot>> :=
      if c.priority.Some? then [W.Write((c.item.id, Priority), options[Priority][c.priority.value])] else [];
    assert WritesOf(c, options) == first + second;
    W.PutTwice(values, first, second);
    if c.status.Some? {
      W.PutOne(values, first[0]);
    }
    if c.priority.Some? {
      W.PutOne(W.Put(values, first), second[0]);
    }
  }

  ghost predicate DistinctIds(items: Items) {
    forall m, n :: m in items && n in items && items[m].id == items[n].id ==> m == n
  }

  /** The registry's `stays` is a mapping: one entry a number. */
  ghost predicate OneEntryEach(stays: seq<Stay>) {
    forall j, k :: 0 <= j < k < |stays| ==> stays[j].number != stays[k].number
  }

  /** What the kept list makes of one item: its own entry's change, if it has one. */
  lemma {:induction false} StaysUpdate(stays: seq<Stay>, items: Items, n: int)
    requires n in items && DistinctIds(items) && OneEntryEach(stays)
    ensures forall stay :: stay in stays && stay.number == n ==>
      Updated(items[n], PlanStays(stays, items).changes) == Update(items[n], StayChange(stay, items[n]))
    ensures (forall stay :: stay in stays ==> stay.number != n) ==>
      Updated(items[n], PlanStays(stays, items).changes) == items[n]
  {
    if stays != [] {
      var k := |stays| - 1;
      var init, last := stays[..k], stays[k];
      StaysUpdate(init, items, n);
      assert stays == init + [last];
      var p, q := PlanStays(init, items), PlanStays(stays, items);
      assert q.changes == p.changes || (|q.changes| == |p.changes| + 1 && q.changes[..|p.changes|] == p.changes);
      assert last.number == n ==> forall stay :: stay in init ==> stay.number != n;
      if last.number in items && last.number != n {
        assert items[last.number].id != items[n].id;
      }
      assert Updated(items[n], PlanStays(init, items).changes).id == items[n].id by {
        UpdatedKeepsId(items[n], p.changes);
      }
    }
  }

  lemma {:induction false} UpdatedKeepsId(item: Item, changes: seq<Change>)
    ensures Updated(item, changes).id == item.id
  {
    if changes != [] {
      UpdatedKeepsId(item, changes[..|changes| - 1]);
    }
  }

  /** What the parked list adds to that. */
  lemma {:induction false} ParkedUpdate(stays: seq<Stay>, parked: seq<int>, items: Items, n: int)
    requires n in items && DistinctIds(items)
    ensures var kept := Updated(items[n], PlanStays(stays, items).changes);
            Updated(items[n], PlanOf(stays, parked, items).changes)
            == if n in parked && items[n].status != Some(PARKED_STATUS) then kept.(status := Some(PARKED_STATUS))
               else kept
  {
    if parked != [] {
      var k := |parked| - 1;
      var init, last := parked[..k], parked[k];
      ParkedUpdate(stays, init, items, n);
      assert parked == init + [last];
      var p, q := PlanOf(stays, init, items), PlanOf(stays, parked, items);
      assert q.changes == p.changes || (|q.changes| == |p.changes| + 1 && q.changes[..|p.changes|] == p.changes);
      UpdatedKeepsId(items[n], p.changes);
      if last in items && last != n {
        assert items[last].id != items[n].id;
      }
    }
  }

  /** What a plan calls for, read off the items: no change exactly when every entry on the board is settled. */
  lemma {:induction false} NothingToDo(stays: seq<Stay>, parked: seq<int>, items: Items)
    ensures PlanOf(stays, parked, items).changes == [] <==>
      && (forall stay :: stay in stays && stay.number in items ==>
            StayChange(stay, items[stay.number]).status == None
            && StayChange(stay, items[stay.number]).priority == None)
      && (forall n :: n in parked && n in items ==> items[n].status == Some(PARKED_STATUS))
  {
    if parked != [] {
      NothingToDo(stays, parked[..|parked| - 1], items);
      assert parked == parked[..|parked| - 1] + [parked[|parked| - 1]];
    } else if stays != [] {
      NothingToDo(stays[..|stays| - 1], [], items);
      assert stays == stays[..|stays| - 1] + [stays[|stays| - 1]];
    }
  }

  /**
   * Applying the plan and planning again leaves nothing to do if and only if no issue on the board is
   * both kept and parked: that overlap, which the loader refuses, would be swept back and forth forever.
   */
  lemma SweepSettlesIffDisjoint(stays: seq<Stay>, parked: seq<int>, items: Items)
    requires DistinctIds(items) && OneEntryEach(stays)
    ensures PlanOf(stays, parked, After(items, PlanOf(stays, parked, items).changes)).changes == [] <==>
      forall stay :: stay in stays && stay.number in items ==> stay.number !in parked
  {
    var items' := After(items, PlanOf(stays, parked, items).changes);
    NothingToDo(stays, parked, items');
    forall n | n in items
      ensures ParkedUpdateFact(stays, parked, items, items', n)
    {
      ParkedUpdate(stays, parked, items, n);
      StaysUpdate(stays, items, n);
    }
    if forall stay :: stay in stays && stay.number in items ==> stay.number !in parked {
      forall stay | stay in stays && stay.number in items'
        ensures StayChange(stay, items'[stay.number]).status == None
                && StayChange(stay, items'[stay.number]).priority == None
      {
        assert ParkedUpdateFact(stays, parked, items, items', stay.number);
      }
      forall n | n in parked && n in items'
        ensures items'[n].status == Some(PARKED_STATUS)
      {
        assert ParkedUpdateFact(stays, parked, items, items', n);
      }
    } else {
      var stay :| stay in stays && stay.number in items && stay.number in parked;
      assert ParkedUpdateFact(stays, parked, items, items', stay.number);
      assert STAYS_STATUS != PARKED_STATUS;
    }
  }

  /** One item after the plan: its kept entry's change, then the parked list's. */
  ghost predicate ParkedUpdateFact(stays: seq<Stay>, parked: seq<int>, items: Items, items': Items, n: int)
    requires n in items
  {
    && n in items'
    && (forall stay :: stay in stays && stay.number == n ==>
          var kept := Update(items[n], StayChange(stay, items[n]));
          items'[n] == if n in parked && items[n].status != Some(PARKED_STATUS)
                       then kept.(status := Some(PARKED_STATUS)) else kept)
    && ((forall stay :: stay in stays ==> stay.number != n) ==>
          items'[n] == if n in parked && items[n].status != Some(PARKED_STATUS)
                       then items[n].(status := Some(PARKED_STATUS)) else items[n])
  }

  /**
   * What one whole sweep makes of an item, in both lists or in either: a kept one is in progress with a
   * priority if it had one or a nonempty one is declared, a parked one is in the backlog.
   */
  lemma WhatASweepMakes(stays: seq<Stay>, parked: seq<int>, items: Items, n: int)
    requires DistinctIds(items) && OneEntryEach(stays) && n in items
    ensures var item, after := items[n], After(items, PlanOf(stays, parked, items).changes)[n];
            && after.id == item.id
            && (forall stay :: stay in stays && stay.number == n ==>
                  && after.status == Some(if n in parked && item.status != Some("Backlog") then "Backlog"
                                          else "In Progress")
                  && after.priority == if item.priority.Some? || stay.priority == Some("") then item.priority
                                       else stay.priority)
            && ((forall stay :: stay in stays ==> stay.number != n) ==>
                  && after.status == (if n in parked then Some("Backlog") else item.status)
                  && after.priority == item.priority)
  {
    ParkedUpdate(stays, parked, items, n);
    StaysUpdate(stays, items, n);
  }

  /** No priority that was there is ever overwritten, whatever the lists say. */
  lemma PrioritiesAreKept(stays: seq<Stay>, parked: seq<int>, items: Items, n: int)
    requires DistinctIds(items) && OneEntryEach(stays)
    requires n in items && items[n].priority.Some?
    ensures After(items, PlanOf(stays, parked, items).changes)[n].priority == items[n].priority
  {
    ParkedUpdate(stays, parked, items, n);
    StaysUpdate(stays, items, n);
    if stay :| stay in stays && stay.number == n {
      assert StayChange(stay, items[n]).priority == None;
    }
  }

  // ---------------------------------------------------------------- a sweep cut short

  /** A change the plan holds, by where it comes from. */
  ghost predicate Called(stays: seq<Stay>, parked: seq<int>, items: Items, c: Change) {
    exists n :: n in items && items[n] == c.item && CalledFor(stays, parked, n, c)
  }

  ghost predicate CalledFor(stays: seq<Stay>, parked: seq<int>, n: int, c: Change) {
    || (exists stay :: stay in stays && stay.number == n && c == StayChange(stay, c.item))
    || (n in parked && c == Change(c.item, Some(PARKED_STATUS), None))
  }

  lemma {:induction false} ChangesAreCalled(stays: seq<Stay>, parked: seq<int>, items: Items)
    ensures forall c :: c in PlanOf(stays, parked, items).changes ==> Called(stays, parked, items, c)
  {
    if parked != [] {
      var k := |parked| - 1;
      ChangesAreCalled(stays, parked[..k], items);
      forall c | c in PlanOf(stays, parked, items).changes
        ensures Called(stays, parked, items, c)
      {
        if c in PlanOf(stays, parked[..k], items).changes {
          var n :| n in items && items[n] == c.item && CalledFor(stays, parked[..k], n, c);
          assert CalledFor(stays, parked, n, c);
        } else {
          assert CalledFor(stays, parked, parked[k], c);
        }
      }
    } else if stays != [] {
      var k := |stays| - 1;
      ChangesAreCalled(stays[..k], [], items);
      forall c | c in PlanOf(stays, parked, items).changes
        ensures Called(stays, parked, items, c)
      {
        if c in PlanOf(stays[..k], [], items).changes {
          var n :| n in items && items[n] == c.item && CalledFor(stays[..k], [], n, c);
          assert CalledFor(stays, parked, n, c);
        } else {
          assert CalledFor(stays, parked, stays[k].number, c);
        }
      }
    }
  }

  /** A write is one of a change's two. */
  ghost predicate WriteOf(c: Change, options: Options, w: W.Write<Slot>) {
    && w.key.0 == c.item.id
    && var value := if w.key.1 == Status then c.status else c.priority;
       value.Some? && Has(options, w.key.1, value.value) && w.option == options[w.key.1][value.value]
  }

  lemma {:induction false} WritesAreOfChanges(changes: seq<Change>, options: Options, w: W.Write<Slot>)
    requires forall k :: 0 <= k < |changes| ==> Writable(changes[k], options)
    requires w in AllWrites(changes, options)
    ensures exists c :: c in changes && WriteOf(c, options, w)
  {
    var k := |changes| - 1;
    if w in AllWrites(changes[..k], options) {
      WritesAreOfChanges(changes[..k], options, w);
      var c :| c in changes[..k] && WriteOf(c, options, w);
      assert c in changes;
    } else {
      assert w in WritesOf(changes[k], options);
      assert changes[k] in changes && WriteOf(changes[k], options, w);
    }
  }

  /** No issue on the board is both kept and parked. */
  ghost predicate NoOverlap(stays: seq<Stay>, parked: seq<int>, items: Items) {
    forall stay :: stay in stays && stay.number in items ==> stay.number !in parked
  }

  /** Without an overlap the sweep writes no field two ways. */
  lemma WritesAgree(stays: seq<Stay>, parked: seq<int>, items: Items, options: Options)
    requires DistinctIds(items) && OneEntryEach(stays) && NoOverlap(stays, parked, items)
    requires forall k :: 0 <= k < |PlanOf(stays, parked, items).changes| ==>
      Writable(PlanOf(stays, parked, items).changes[k], options)
    ensures W.Agreeing(AllWrites(PlanOf(stays, parked, items).changes, options))
  {
    var changes := PlanOf(stays, parked, items).changes;
    var writes := AllWrites(changes, options);
    ChangesAreCalled(stays, parked, items);
    forall v, w | v in writes && w in writes && v.key == w.key
      ensures v.option == w.option
    {
      WritesAreOfChanges(changes, options, v);
      WritesAreOfChanges(changes, options, w);
      var c :| c in changes && WriteOf(c, options, v);
      var d :| d in changes && WriteOf(d, options, w);
      OneChangeEach(stays, parked, items, c, d);
    }
  }

  lemma OneChangeEach(stays: seq<Stay>, parked: seq<int>, items: Items, c: Change, d: Change)
    requires DistinctIds(items) && OneEntryEach(stays) && NoOverlap(stays, parked, items)
    requires Called(stays, parked, items, c) && Called(stays, parked, items, d) && c.item.id == d.item.id
    ensures c == d
  {
  }

  /** Field by field as it was before the sweep, or as the whole sweep leaves it. */
  predicate Between(before: Item, some: Item, after: Item) {
    && some.id == before.id
    && (some.status == before.status || some.status == after.status)
    && (some.priority == before.priority || some.priority == after.priority)
  }

  /** Whichever of the writes a failed run made, each item reads as between before and after the sweep. */
  lemma PartOfASweep(stays: seq<Stay>, parked: seq<int>, items: Items, options: Options, values: map<Slot, string>,
                     made: nat -> bool, n: int)
    requires DistinctIds(items) && OneEntryEach(stays) && NoOverlap(stays, parked, items)
    requires forall k :: 0 <= k < |PlanOf(stays, parked, items).changes| ==>
      Writable(PlanOf(stays, parked, items).changes[k], options)
    requires n in items && Shows(values, options, items[n])
    ensures var changes := PlanOf(stays, parked, items).changes;
            var writes := AllWrites(changes, options);
            exists some :: Between(items[n], some, Updated(items[n], changes))
              && Shows(W.Put(values, W.Chosen(writes, made, |writes|)), options, some)
  {
    var changes := PlanOf(stays, parked, items).changes;
    var writes := AllWrites(changes, options);
    var item, after := items[n], Updated(items[n], changes);
    var now, all := W.Put(values, W.Chosen(writes, made, |writes|)), W.Put(values, writes);
    WritesAgree(stays, parked, items, options);
    BoardShowsTheUpdate(values, options, item, changes);
    UpdatedKeepsId(item, changes);
    W.ChosenIsBetween(values, writes, made, (item.id, Status));
    W.ChosenIsBetween(values, writes, made, (item.id, Priority));
    var some := Item(item.id,
                     if W.SameAt(now, values, (item.id, Status)) then item.status else after.status,
                     if W.SameAt(now, values, (item.id, Priority)) then item.priority else after.priority);
    assert Between(item, some, after) && Shows(now, options, some);
  }

  /** Sweeping again after a failed sweep leaves every item exactly as one whole sweep would have. */
  lemma SweepAgainFinishes(stays: seq<Stay>, parked: seq<int>, items: Items, some: Items, n: int)
    requires DistinctIds(items) && OneEntryEach(stays) && NoOverlap(stays, parked, items)
    requires some.Keys == items.Keys
    requires forall m :: m in items ==>
      Between(items[m], some[m], Updated(items[m], PlanOf(stays, parked, items).changes))
    requires n in items
    ensures After(some, PlanOf(stays, parked, some).changes)[n] == After(items, PlanOf(stays, parked, items).changes)[n]
  {
    assert forall m :: m in items ==> some[m].id == items[m].id;
    ParkedUpdate(stays, parked, items, n);
    StaysUpdate(stays, items, n);
    ParkedUpdate(stays, parked, some, n);
    StaysUpdate(stays, some, n);
    if stay :| stay in stays && stay.number == n {
      assert stay.number !in parked;
    }
  }

  /** Nor does any part of a sweep, overlap or not, touch a priority that was there. */
  lemma PartOfASweepKeepsPriorities(stays: seq<Stay>, parked: seq<int>, items: Items, options: Options,
                                    values: map<Slot, string>, made: nat -> bool, n: int)
    requires DistinctIds(items) && n in items && items[n].priority.Some?
    requires forall k :: 0 <= k < |PlanOf(stays, parked, items).changes| ==>
      Writable(PlanOf(stays, parked, items).changes[k], options)
    ensures var writes := AllWrites(PlanOf(stays, parked, items).changes, options);
            W.SameAt(W.Put(values, W.Chosen(writes, made, |writes|)), values, (items[n].id, Priority))
  {
    var changes := PlanOf(stays, parked, items).changes;
    var writes := AllWrites(changes, options);
    ChangesAreCalled(stays, parked, items);
    W.ChosenAmong(writes, made, |writes|);
    forall w | w in writes
      ensures w.key != (items[n].id, Priority)
    {
      WritesAreOfChanges(changes, options, w);
      var c :| c in changes && WriteOf(c, options, w);
      var m :| m in items && items[m] == c.item && CalledFor(stays, parked, m, c);
      assert m == n ==> c.priority == None;
    }
    W.PutElsewhere(values, W.Chosen(writes, made, |writes|), (items[n].id, Priority));
  }
}
