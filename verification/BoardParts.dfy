/**
 * Parent links: toolkit/features/board_streams.py, plan_parts and apply_parts.
 * A sequencing ticket becomes the parent of the issues it orders. A child that already has another
 * parent is reported, never moved.
 */
module BoardParts {
  import opened Prelude
  import opened BoardStreams

  datatype IssueRef = IssueRef(open: bool, parent: Option<int>)

  type Refs = map<int, IssueRef>

  datatype Link = Link(parent: int, child: int)

  datatype Conflict = Conflict(child: int, current: int, wanted: int)

  datatype PartsPlan = PartsPlan(
    links: seq<Link>,
    linked: nat,
    conflicts: seq<Conflict>,
    missing: seq<int>,
    closedParents: seq<int>)

  const NOTHING := PartsPlan([], 0, [], [], [])

  // ---------------------------------------------------------------- the plan

  /** One child of an open parent: exactly one of linked, links, conflicts and missing gains it. */
  function AddChild(p: PartsPlan, parent: int, child: int, refs: Refs): PartsPlan {
    if child !in refs then p.(missing := p.missing + [child])
    else match refs[child].parent
      case None => p.(links := p.links + [Link(parent, child)])
      case Some(current) =>
        if current == parent then p.(linked := p.linked + 1)
        else p.(conflicts := p.conflicts + [Conflict(child, current, parent)])
  }

  function AddChildren(p: PartsPlan, parent: int, children: seq<int>, refs: Refs): PartsPlan {
    if children == [] then p
    else AddChild(AddChildren(p, parent, children[..|children| - 1], refs), parent, children[|children| - 1], refs)
  }

  function AddPart(p: PartsPlan, part: Part, refs: Refs): PartsPlan {
    if part.parent !in refs then p.(missing := p.missing + [part.parent])
    else if !refs[part.parent].open then p.(closedParents := p.closedParents + [part.parent])
    else AddChildren(p, part.parent, part.children, refs)
  }

  function PlanPartsOf(parts: seq<Part>, refs: Refs): PartsPlan {
    if parts == [] then NOTHING
    else AddPart(PlanPartsOf(parts[..|parts| - 1], refs), parts[|parts| - 1], refs)
  }

  method PlanParts(parts: seq<Part>, refs: Refs) returns (p: PartsPlan)
    ensures p == PlanPartsOf(parts, refs)
  {
    var links: seq<Link>, conflicts: seq<Conflict>, missing: seq<int>, closedParents: seq<int> := [], [], [], [];
    var linked: nat := 0;
    for i := 0 to |parts|
      invariant PartsPlan(links, linked, conflicts, missing, closedParents) == PlanPartsOf(parts[..i], refs)
    {
      var Part(parent, children) := parts[i];
      assert parts[..i + 1][..i] == parts[..i];
      if parent !in refs {
        missing := missing + [parent];
        continue;
      }
      if !refs[parent].open {
        closedParents := closedParents + [parent];
        continue;
      }
      ghost var before := PlanPartsOf(parts[..i], refs);
      for j := 0 to |children|
        invariant PartsPlan(links, linked, conflicts, missing, closedParents)
               == AddChildren(before, parent, children[..j], refs)
      {
        var child := children[j];
        assert children[..j + 1][..j] == children[..j];
        if child !in refs {
          missing := missing + [child];
        } else if refs[child].parent == Some(parent) {
          linked := linked + 1;
        } else if refs[child].parent == None {
          links := links + [Link(parent, child)];
        } else {
          conflicts := conflicts + [Conflict(child, refs[child].parent.value, parent)];
        }
      }
      assert children[..|children|] == children;
    }
    assert parts[..|parts|] == parts;
    p := PartsPlan(links, linked, conflicts, missing, closedParents);
  }

  // ---------------------------------------------------------------- what it says

  /** `child` is declared under `parent`, which is known and open. */
  ghost predicate Declares(parts: seq<Part>, refs: Refs, parent: int, child: int) {
    && parent in refs && refs[parent].open
    && exists part :: part in parts && part.parent == parent && child in part.children
  }

  ghost predicate IsParent(parts: seq<Part>, n: int) {
    exists part :: part in parts && part.parent == n
  }

  function Size(p: PartsPlan): nat {
    |p.links| + p.linked + |p.conflicts| + |p.missing| + |p.closedParents|
  }

  /** One for a parent that is unknown or closed, else one for each of its children. */
  function Declared(parts: seq<Part>, refs: Refs): nat {
    if parts == [] then 0
    else
      var part := parts[|parts| - 1];
      Declared(parts[..|parts| - 1], refs)
      + if part.parent in refs && refs[part.parent].open then |part.children| else 1
  }

  lemma {:induction false} AddChildrenMeans(p: PartsPlan, parent: int, children: seq<int>, refs: Refs)
    ensures var q := AddChildren(p, parent, children, refs);
            && (forall l :: l in q.links <==> l in p.links || (l.parent == parent && l.child in children
                                                               && l.child in refs && refs[l.child].parent == None))
            && (forall c :: c in q.conflicts <==>
                  c in p.conflicts || (c.wanted == parent && c.child in children && c.child in refs
                                       && refs[c.child].parent == Some(c.current) && c.current != parent))
            && (forall n :: n in q.missing <==> n in p.missing || (n in children && n !in refs))
            && q.closedParents == p.closedParents
            && Size(q) == Size(p) + |children|
  {
    if children != [] {
      AddChildrenMeans(p, parent, children[..|children| - 1], refs);
      assert children == children[..|children| - 1] + [children[|children| - 1]];
    }
  }

  lemma DeclaresOneMore(parts: seq<Part>, refs: Refs)
    requires parts != []
    ensures var init, part := parts[..|parts| - 1], parts[|parts| - 1];
            && (forall parent, child :: Declares(parts, refs, parent, child) <==>
                  Declares(init, refs, parent, child)
                  || (parent == part.parent && parent in refs && refs[parent].open && child in part.children))
            && (forall n :: IsParent(parts, n) <==> IsParent(init, n) || n == part.parent)
  {
    var init, part := parts[..|parts| - 1], parts[|parts| - 1];
    assert parts == init + [part];
    assert part in parts && forall q :: q in parts <==> q in init || q == part;
  }

  /**
   * A link is planned exactly for a declared child of an open parent that has no parent yet, a conflict
   * exactly for one with another parent, and every declared child is counted in exactly one place.
   */
  lemma {:induction false} PartsPlanMeans(parts: seq<Part>, refs: Refs)
    ensures var p := PlanPartsOf(parts, refs);
            && (forall l :: l in p.links <==>
                  Declares(parts, refs, l.parent, l.child) && l.child in refs && refs[l.child].parent == None)
            && (forall c :: c in p.conflicts <==>
                  Declares(parts, refs, c.wanted, c.child) && c.child in refs
                  && refs[c.child].parent == Some(c.current) && c.current != c.wanted)
            && Size(p) == Declared(parts, refs)
  {
    if parts != [] {
      var n := |parts| - 1;
      var part := parts[n];
      PartsPlanMeans(parts[..n], refs);
      DeclaresOneMore(parts, refs);
      if part.parent in refs && refs[part.parent].open {
        AddChildrenMeans(PlanPartsOf(parts[..n], refs), part.parent, part.children, refs);
      }
    }
  }

  /** What the board does not know is missing, a parent or a child of an open one, and what is closed is listed. */
  lemma {:induction false} MissingMeans(parts: seq<Part>, refs: Refs)
    ensures var p := PlanPartsOf(parts, refs);
            && (forall n :: n in p.missing <==>
                  n !in refs && (IsParent(parts, n) || exists parent :: Declares(parts, refs, parent, n)))
            && (forall n :: n in p.closedParents <==> IsParent(parts, n) && n in refs && !refs[n].open)
  {
    if parts != [] {
      var n := |parts| - 1;
      var part := parts[n];
      MissingMeans(parts[..n], refs);
      DeclaresOneMore(parts, refs);
      if part.parent in refs && refs[part.parent].open {
        AddChildrenMeans(PlanPartsOf(parts[..n], refs), part.parent, part.children, refs);
      }
    }
  }

  /** A child sits under one declared parent only, so no two links compete for it. */
  lemma {:induction false} OneDeclaredParent(parts: seq<Part>, child: int, a: Part, b: Part)
    requires Distinct(AllChildren(parts))
    requires a in parts && b in parts && child in a.children && child in b.children
    ensures a == b
  {
    var n := |parts| - 1;
    var all := AllChildren(parts[..n]);
    assert parts == parts[..n] + [parts[n]];
    assert AllChildren(parts) == all + parts[n].children;
    if a in parts[..n] && b in parts[..n] {
      PrefixOfDistinct(all, AllChildren(parts));
      OneDeclaredParent(parts[..n], child, a, b);
    } else if a in parts[..n] {
      ChildIsAmong(parts[..n], a, child);
      DistinctApart(all, parts[n].children, child);
      assert false;
    } else if b in parts[..n] {
      ChildIsAmong(parts[..n], b, child);
      DistinctApart(all, parts[n].children, child);
      assert false;
    }
  }

  lemma {:induction false} ChildIsAmong(parts: seq<Part>, part: Part, child: int)
    requires part in parts && child in part.children
    ensures child in AllChildren(parts)
  {
    var n := |parts| - 1;
    assert parts == parts[..n] + [parts[n]];
    if part in parts[..n] {
      ChildIsAmong(parts[..n], part, child);
    }
  }

  // ---------------------------------------------------------------- adding the links

  /** The issues once the links are made; a link of an issue the board does not know changes nothing. */
  function AfterLinks(refs: Refs, links: seq<Link>): Refs {
    if links == [] then refs
    else
      var before := AfterLinks(refs, links[..|links| - 1]);
      var link := links[|links| - 1];
      if link.child in before then before[link.child := before[link.child].(parent := Some(link.parent))] else before
  }

  /** The remote issues, the requests that fail, and the failed ones that took effect all the same. */
  class Issues {
    var refs: Refs
    var requests: seq<Link>
    const broken: nat -> bool
    const lands: nat -> bool

    method AddSubIssue(link: Link) returns (ok: bool)
      modifies this
      ensures ok == !broken(|old(requests)|) && requests == old(requests) + [link]
      ensures refs == if ok || lands(|old(requests)|) then AfterLinks(old(refs), [link]) else old(refs)
    {
      ok := !broken(|requests|);
      if ok || lands(|requests|) {
        refs := AfterLinks(refs, [link]);
      }
      requests := requests + [link];
    }
  }

  lemma AfterLinksTwice(refs: Refs, links: seq<Link>, link: Link)
    ensures AfterLinks(AfterLinks(refs, links), [link]) == AfterLinks(refs, links + [link])
  {
  }

  /**
   * Adds every link in order, stopping at the first request that fails. The first `done` links are then
   * made, the one whose request failed among them exactly when it took effect.
   */
  method ApplyParts(issues: Issues, links: seq<Link>) returns (added: Option<nat>, ghost done: nat)
    modifies issues
    ensures done <= |links| && issues.refs == AfterLinks(old(issues.refs), links[..done])
    ensures |old(issues.requests)| <= |issues.requests| <= |old(issues.requests)| + |links|
    ensures issues.requests == old(issues.requests) + links[..|issues.requests| - |old(issues.requests)|]
    ensures added.Some? ==> added.value == |links| == done && |issues.requests| == |old(issues.requests)| + |links|
    ensures added.Some? ==> forall k :: |old(issues.requests)| <= k < |issues.requests| ==> !issues.broken(k)
    ensures added == None ==>
      && |issues.requests| > |old(issues.requests)|
      && var last := |issues.requests| - 1;
         && issues.broken(last) && (forall k :: |old(issues.requests)| <= k < last ==> !issues.broken(k))
         && done == last - |old(issues.requests)| + if issues.lands(last) then 1 else 0
  {
    done := 0;
    for i := 0 to |links|
      invariant done == i && issues.refs == AfterLinks(old(issues.refs), links[..i])
      invariant issues.requests == old(issues.requests) + links[..i]
      invariant forall k :: |old(issues.requests)| <= k < |issues.requests| ==> !issues.broken(k)
    {
      assert links[..i] + [links[i]] == links[..i + 1];
      AfterLinksTwice(old(issues.refs), links[..i], links[i]);
      Assoc(old(issues.requests), links[..i], [links[i]]);
      var ok := issues.AddSubIssue(links[i]);
      if !ok {
        if issues.lands(|old(issues.requests)| + i) {
          done := i + 1;
        }
        return None, done;
      }
      done := i + 1;
    }
    assert links[..|links|] == links;
    added := Some(|links|);
  }

  ghost predicate OneLinkEach(links: seq<Link>) {
    forall a, b :: a in links && b in links && a.child == b.child ==> a == b
  }

  lemma {:induction false} AfterLinksMeans(refs: Refs, links: seq<Link>, n: int)
    requires OneLinkEach(links)
    ensures AfterLinks(refs, links).Keys == refs.Keys
    ensures n in refs ==> AfterLinks(refs, links)[n].open == refs[n].open
    ensures n in refs && (forall l :: l in links ==> l.child != n) ==> AfterLinks(refs, links)[n] == refs[n]
    ensures forall l :: l in links && l.child in refs && l.child == n ==>
      AfterLinks(refs, links)[n].parent == Some(l.parent)
  {
    if links != [] {
      var k := |links| - 1;
      assert links == links[..k] + [links[k]];
      assert links[k] in links;
      AfterLinksMeans(refs, links[..k], n);
    }
  }

  /**
   * Planning again after any first part of the links was made: the links left are exactly the ones not
   * made, the conflicts are the same, and no child of a link already made counts as missing.
   */
  lemma ReplanPartsIsTheRest(parts: seq<Part>, refs: Refs, done: seq<Link>)
    requires Distinct(AllChildren(parts))
    requires done <= PlanPartsOf(parts, refs).links
    ensures var p, again := PlanPartsOf(parts, refs), PlanPartsOf(parts, AfterLinks(refs, done));
            && (forall l :: l in again.links <==> l in p.links && l !in done)
            && (forall c :: c in again.conflicts <==> c in p.conflicts)
            && Size(again) == Size(p)
  {
    var p := PlanPartsOf(parts, refs);
    var refs' := AfterLinks(refs, done);
    PartsPlanMeans(parts, refs);
    PartsPlanMeans(parts, refs');
    assert forall l :: l in done ==> l in p.links;
    forall a, b | a in p.links && b in p.links && a.child == b.child
      ensures a == b
    {
      var x :| x in parts && x.parent == a.parent && a.child in x.children;
      var y :| y in parts && y.parent == b.parent && b.child in y.children;
      OneDeclaredParent(parts, a.child, x, y);
    }
    forall n
      ensures n in refs <==> n in refs'
      ensures n in refs ==> refs'[n].open == refs[n].open
      ensures n in refs && refs'[n].parent != refs[n].parent ==>
        refs[n].parent == None && exists l :: l in done && l.child == n && refs'[n].parent == Some(l.parent)
      ensures n in refs && refs'[n].parent == None <==>
        n in refs && refs[n].parent == None && forall l :: l in done ==> l.child != n
    {
      AfterLinksMeans(refs, done, n);
    }
    forall parent, child
      ensures Declares(parts, refs, parent, child) <==> Declares(parts, refs', parent, child)
    {
    }
    forall c: Conflict | Declares(parts, refs, c.wanted, c.child) && c.child in refs && refs[c.child].parent == None
      ensures refs'[c.child].parent == None || refs'[c.child].parent == Some(c.wanted)
    {
      if refs'[c.child].parent != None {
        var l :| l in done && l.child == c.child && refs'[c.child].parent == Some(l.parent);
        var x :| x in parts && x.parent == l.parent && l.child in x.children;
        var y :| y in parts && y.parent == c.wanted && c.child in y.children;
        OneDeclaredParent(parts, c.child, x, y);
      }
    }
    DeclaredSame(parts, refs, refs');
  }

  lemma DeclaredSame(parts: seq<Part>, refs: Refs, refs': Refs)
    requires forall n :: n in refs <==> n in refs'
    requires forall n :: n in refs ==> refs'[n].open == refs[n].open
    ensures Declared(parts, refs) == Declared(parts, refs')
  {
  }

  /** The plan once its links are made: they count as linked, and the rest is as it was. */
  function Done(p: PartsPlan): PartsPlan {
    PartsPlan([], p.linked + |p.links|, p.conflicts, p.missing, p.closedParents)
  }

  lemma {:induction false} AddChildrenDone(p: PartsPlan, parent: int, children: seq<int>, refs: Refs, refs': Refs)
    requires forall n :: n in refs <==> n in refs'
    requires forall child :: child in children && child in refs ==>
      refs'[child].parent == if refs[child].parent == None then Some(parent) else refs[child].parent
    ensures AddChildren(Done(p), parent, children, refs') == Done(AddChildren(p, parent, children, refs))
  {
    if children != [] {
      assert children[|children| - 1] in children;
      AddChildrenDone(p, parent, children[..|children| - 1], refs, refs');
    }
  }

  lemma {:induction false} PlanPartsDone(parts: seq<Part>, refs: Refs, refs': Refs)
    requires forall n :: n in refs <==> n in refs'
    requires forall n :: n in refs ==> refs'[n].open == refs[n].open
    requires forall part, child :: part in parts && part.parent in refs && refs[part.parent].open
                                   && child in part.children && child in refs ==>
      refs'[child].parent == if refs[child].parent == None then Some(part.parent) else refs[child].parent
    ensures PlanPartsOf(parts, refs') == Done(PlanPartsOf(parts, refs))
  {
    if parts != [] {
      var n := |parts| - 1;
      var part := parts[n];
      assert part in parts && forall q :: q in parts[..n] ==> q in parts;
      PlanPartsDone(parts[..n], refs, refs');
      if part.parent in refs && refs[part.parent].open {
        AddChildrenDone(PlanPartsOf(parts[..n], refs), part.parent, part.children, refs, refs');
      }
    }
  }

  /** After every link is made a new plan has none, the same conflicts, and `linked` grown by their number. */
  lemma ReplanPartsIsDone(parts: seq<Part>, refs: Refs)
    requires Distinct(AllChildren(parts))
    ensures PlanPartsOf(parts, AfterLinks(refs, PlanPartsOf(parts, refs).links)) == Done(PlanPartsOf(parts, refs))
  {
    var p := PlanPartsOf(parts, refs);
    var refs' := AfterLinks(refs, p.links);
    PartsPlanMeans(parts, refs);
    forall a, b | a in p.links && b in p.links && a.child == b.child
      ensures a == b
    {
      var x :| x in parts && x.parent == a.parent && a.child in x.children;
      var y :| y in parts && y.parent == b.parent && b.child in y.children;
      OneDeclaredParent(parts, a.child, x, y);
    }
    forall n
      ensures n in refs <==> n in refs'
      ensures n in refs ==> refs'[n].open == refs[n].open
    {
      AfterLinksMeans(refs, p.links, n);
    }
    forall part, child | part in parts && part.parent in refs && refs[part.parent].open
                         && child in part.children && child in refs
      ensures refs'[child].parent == if refs[child].parent == None then Some(part.parent) else refs[child].parent
    {
      AfterLinksMeans(refs, p.links, child);
      assert Declares(parts, refs, part.parent, child);
      assert refs[child].parent == None ==> Link(part.parent, child) in p.links;
    }
    PlanPartsDone(parts, refs, refs');
  }
}
