/** Text between two markers: the `str` operations toolkit/features/cli_reference.py is built from, and its splice. */
module Splicing {
  import opened Prelude

  /** `str.count`: occurrences that do not overlap, found from the left. */
  function Count(text: string, marker: string): nat
    requires marker != ""
    decreases |text|
  {
    if |text| < |marker| then 0
    else if marker <= text then 1 + Count(text[|marker|..], marker)
    else Count(text[1..], marker)
  }

  /** `str.split(marker, 1)`: None when it does not split, which is what unpacking into two refuses. */
  function Split(text: string, marker: string): Option<(string, string)>
    decreases |text|
  {
    if marker <= text then Some(("", text[|marker|..]))
    else if text == "" then None
    else
      var rest := Split(text[1..], marker);
      if rest == None then None else Some((text[..1] + rest.value.0, rest.value.1))
  }

  /** A marker starts with a character it does not hold again, and holds no line break. */
  ghost predicate Marker(m: string) {
    && m != "" && m[0] == '<'
    && (forall k :: 1 <= k < |m| ==> m[k] != '<' && m[k] != '\n')
  }

  /** No occurrence of a marker runs across a cut whose right side starts with '<' or a line break. */
  ghost predicate Cuts(right: string) {
    right == "" || right[0] == '<' || right[0] == '\n'
  }

  lemma NoneAcross(left: string, right: string, m: string)
    requires Marker(m) && Cuts(right) && left != "" && m <= left + right
    ensures m <= left
  {
    assert right != "" ==> (left + right)[|left|] == right[0];
    if |left| < |m| {
      assert false;
    }
  }

  lemma {:induction false} CountAcross(left: string, right: string, m: string)
    requires Marker(m) && Cuts(right)
    ensures Count(left + right, m) == Count(left, m) + Count(right, m)
    decreases |left|
  {
    if left == "" {
      assert left + right == right;
    } else if right == "" {
      assert left + right == left;
    } else if m <= left + right {
      NoneAcross(left, right, m);
      assert (left + right)[|m|..] == left[|m|..] + right;
      CountAcross(left[|m|..], right, m);
    } else {
      assert (left + right)[1..] == left[1..] + right;
      CountAcross(left[1..], right, m);
      assert m <= left ==> m <= left + right;
    }
  }

  /** Text without '<' starts no marker. */
  lemma {:induction false} CountPlain(left: string, right: string, m: string)
    requires Marker(m) && '<' !in left
    ensures Count(left + right, m) == Count(right, m)
    decreases |left|
  {
    if left == "" {
      assert left + right == right;
    } else {
      assert (left + right)[0] != '<';
      assert (left + right)[1..] == left[1..] + right;
      CountPlain(left[1..], right, m);
    }
  }

  /** One more character before a text that does not begin a marker. */
  lemma NotAtHead(head: string, left: string, right: string, m: string)
    requires m != "" && |head| == 1 && Count(left, m) == 0 && !(m <= head + (left + right))
    ensures Count(head + left, m) == 0
  {
    assert (head + left)[1..] == left;
    assert head + (left + right) == (head + left) + right;
    assert m <= head + left ==> m <= (head + left) + right;
  }

  /** What `split` returns is the text cut at its first occurrence; None means there is none. */
  lemma {:induction false} SplitMeans(text: string, m: string)
    requires Marker(m)
    ensures Split(text, m) == None <==> Count(text, m) == 0
    ensures Split(text, m).Some? ==>
      var (left, right) := Split(text, m).value;
      text == left + m + right && Count(left, m) == 0
    decreases |text|
  {
    if m <= text {
      assert text == "" + m + text[|m|..];
    } else if text != "" {
      SplitMeans(text[1..], m);
      var rest := Split(text[1..], m);
      if rest.Some? {
        var (left, right) := rest.value;
        assert text == text[..1] + (left + m + right);
        NotAtHead(text[..1], left, m + right, m);
        assert text[..1] + (left + m + right) == (text[..1] + left) + m + right;
      }
    }
  }

  /** It is found where it is, when nothing before it holds one. */
  lemma {:induction false} SplitAt(left: string, m: string, right: string)
    requires Marker(m) && Count(left, m) == 0
    ensures Split(left + m + right, m) == Some((left, right))
    decreases |left|
  {
    var text := left + m + right;
    if left == "" {
      assert text == m + right;
      assert text[|m|..] == right;
    } else {
      if m <= text {
        assert text == left + (m + right);
        NoneAcross(left, m + right, m);
        assert false;
      }
      assert text[1..] == left[1..] + m + right;
      SplitAt(left[1..], m, right);
      assert text[..1] + left[1..] == left;
    }
  }

  // ---------------------------------------------------------------- two markers

  /** Two markers, neither of which can be read where the other stands. */
  ghost predicate Pair(start: string, end: string) {
    && Marker(start) && Marker(end)
    && (exists k :: 0 <= k < |start| && k < |end| && start[k] != end[k])
  }

  lemma CountItself(m: string, tail: string)
    requires Marker(m)
    ensures Count(m + tail, m) == 1 + Count(tail, m)
  {
  }

  lemma CountOther(m: string, other: string, tail: string)
    requires Pair(m, other) || Pair(other, m)
    ensures Count(other + tail, m) == Count(tail, m)
  {
    var k :| 0 <= k < |m| && k < |other| && m[k] != other[k];
    assert (other + tail)[k] == other[k];
    assert (other + tail)[1..] == other[1..] + tail;
    CountPlain(other[1..], tail, m);
  }

  /** `head`, a marker, `middle`, the other marker, `tail`: each marker counts once, besides the parts' own. */
  lemma CountParts(head: string, one: string, middle: string, two: string, tail: string)
    requires Pair(one, two) || Pair(two, one)
    ensures Count(head + one + middle + two + tail, one) == Count(head, one) + 1 + Count(middle, one) + Count(tail, one)
    ensures Count(head + one + middle + two + tail, two) == Count(head, two) + 1 + Count(middle, two) + Count(tail, two)
  {
    var rest := middle + (two + tail);
    assert head + one + middle + two + tail == head + (one + rest);
    CountAcross(head, one + rest, one);
    CountAcross(head, one + rest, two);
    CountItself(one, rest);
    CountOther(two, one, rest);
    CountAcross(middle, two + tail, one);
    CountAcross(middle, two + tail, two);
    CountOther(one, two, tail);
    CountItself(two, tail);
  }

  // ---------------------------------------------------------------- the splice

  datatype Spliced = Ok(text: string) | UsageError | ValueError

  /** What goes between the markers. */
  function Between(block: string): string {
    "\n\n" + block + "\n\n"
  }

  function Around(head: string, start: string, block: string, end: string, tail: string): string {
    head + start + Between(block) + end + tail
  }

  function Splice(readme: string, block: string, start: string, end: string): Spliced
    requires start != "" && end != ""
  {
    if Count(readme, start) != 1 || Count(readme, end) != 1 then UsageError
    else
      var first := Split(readme, start);
      if first == None then ValueError
      else
        var second := Split(first.value.1, end);
        if second == None then ValueError else Ok(Around(first.value.0, start, block, end, second.value.1))
  }

  ghost predicate NoMarker(text: string, start: string, end: string)
    requires start != "" && end != ""
  {
    Count(text, start) == 0 && Count(text, end) == 0
  }

  lemma CountBetween(block: string, m: string)
    requires Marker(m)
    ensures Count(Between(block), m) == Count(block, m)
  {
    assert Between(block) == "\n\n" + (block + "\n\n");
    CountPlain("\n\n", block + "\n\n", m);
    CountAcross(block, "\n\n", m);
    CountPlain("\n\n", "", m);
  }

  /** A README with each marker exactly once, in order, and what stands around them. */
  ghost predicate Marked(readme: string, head: string, start: string, middle: string, end: string, tail: string)
    requires start != "" && end != ""
  {
    && readme == head + start + middle + end + tail
    && NoMarker(head, start, end) && NoMarker(middle, start, end) && NoMarker(tail, start, end)
  }

  /** On a marked README only the middle is replaced, whatever the block is. */
  lemma SpliceMarked(readme: string, head: string, start: string, middle: string, end: string, tail: string,
                     block: string)
    requires Pair(start, end) && Marked(readme, head, start, middle, end, tail)
    ensures Splice(readme, block, start, end) == Ok(Around(head, start, block, end, tail))
  {
    CountParts(head, start, middle, end, tail);
    assert readme == head + start + (middle + end + tail);
    SplitAt(head, start, middle + end + tail);
    SplitAt(middle, end, tail);
  }

  /** It is left as it was exactly when the middle is the block and its blank lines. */
  lemma UpToDate(head: string, start: string, middle: string, end: string, tail: string, block: string)
    ensures Around(head, start, block, end, tail) == head + start + middle + end + tail <==> middle == Between(block)
  {
    var before := head + start;
    var written := before + Between(block) + end + tail;
    var readme := before + middle + end + tail;
    assert Around(head, start, block, end, tail) == written;
    if written == readme {
      assert |middle| == |Between(block)|;
      assert middle == readme[|before|..|before| + |middle|];
      assert Between(block) == written[|before|..|before| + |middle|];
    }
  }

  /** Only marked READMEs are spliced: the parts of one that was. */
  lemma SplicedIsMarked(readme: string, block: string, start: string, end: string)
    returns (head: string, middle: string, tail: string)
    requires Pair(start, end) && Splice(readme, block, start, end).Ok?
    ensures Marked(readme, head, start, middle, end, tail)
  {
    head, middle, tail := SplitTwice(readme, start, end);
    CountParts(head, start, middle, end, tail);
  }

  /** Both splits put together. */
  lemma SplitTwice(text: string, start: string, end: string) returns (head: string, middle: string, tail: string)
    requires Marker(start) && Marker(end)
    requires Split(text, start).Some? && Split(Split(text, start).value.1, end).Some?
    ensures text == head + start + middle + end + tail
    ensures Count(head, start) == 0 && Count(middle, end) == 0
  {
    var rest := Split(text, start).value.1;
    SplitMeans(text, start);
    SplitMeans(rest, end);
    head := Split(text, start).value.0;
    middle, tail := Split(rest, end).value.0, Split(rest, end).value.1;
    Reassociate(head, start, middle, end, tail);
  }

  lemma Reassociate(a: string, b: string, c: string, d: string, e: string)
    ensures a + b + (c + d + e) == a + b + c + d + e
  {
  }

  /** The other order: the counts are right, and the unpacking fails. */
  lemma SwappedIsRefused(readme: string, head: string, start: string, middle: string, end: string, tail: string,
                         block: string)
    requires Pair(start, end) && Marked(readme, head, end, middle, start, tail)
    ensures Splice(readme, block, start, end) == ValueError
  {
    CountParts(head, end, middle, start, tail);
    var before := head + (end + middle);
    assert readme == before + start + tail;
    CountAcross(head, end + middle, start);
    CountOther(start, end, middle);
    SplitAt(before, start, tail);
    SplitMeans(tail, end);
  }

  lemma RefusedIsSwapped(readme: string, block: string, start: string, end: string)
    returns (head: string, middle: string, tail: string)
    requires Pair(start, end) && Splice(readme, block, start, end) == ValueError
    ensures Marked(readme, head, end, middle, start, tail)
  {
    SplitMeans(readme, start);
    var (before, rest) := Split(readme, start).value;
    tail := rest;
    SplitMeans(tail, end);
    assert readme == before + (start + tail);
    CountAcross(before, start + tail, end);
    CountOther(end, start, tail);
    SplitMeans(before, end);
    var (h, m) := Split(before, end).value;
    head, middle := h, m;
    assert readme == head + end + middle + start + tail;
    CountParts(head, end, middle, start, tail);
  }

  /** A spliced README holds each marker once more than its three parts do. */
  lemma SplicedAgain(readme: string, first: string, second: string, start: string, end: string)
    requires Pair(start, end) && Splice(readme, first, start, end).Ok?
    ensures var text := Splice(readme, first, start, end).text;
      Splice(text, second, start, end)
      == if NoMarker(first, start, end) then Splice(readme, second, start, end) else UsageError
  {
    var head, middle, tail := SplicedIsMarked(readme, first, start, end);
    SpliceMarked(readme, head, start, middle, end, tail, first);
    SpliceMarked(readme, head, start, middle, end, tail, second);
    var text := Around(head, start, first, end, tail);
    CountParts(head, start, Between(first), end, tail);
    CountBetween(first, start);
    CountBetween(first, end);
    if NoMarker(first, start, end) {
      SpliceMarked(text, head, start, Between(first), end, tail, second);
    }
  }
}

/** The generated block of the toolkit's README: toolkit/features/cli_reference.py, splice. */
module CliReference {
  import S = Splicing

  const START := "<!-- cli-reference:start -->"
  const END := "<!-- cli-reference:end -->"

  function Splice(readme: string, block: string): S.Spliced {
    S.Splice(readme, block, START, END)
  }

  ghost predicate NoMarker(text: string) {
    S.NoMarker(text, START, END)
  }

  /** The README has START, then END, each exactly once. */
  ghost predicate InOrder(readme: string, head: string, middle: string, tail: string) {
    S.Marked(readme, head, START, middle, END, tail)
  }

  /** The README has END, then START, each exactly once. */
  ghost predicate Swapped(readme: string, head: string, middle: string, tail: string) {
    S.Marked(readme, head, END, middle, START, tail)
  }

  lemma TheMarkers()
    ensures S.Pair(START, END)
  {
    assert START[19] == 's' && END[19] == 'e';
  }

  /** What stands outside the markers is kept, whatever it and the block are; `--check` is exact. */
  lemma SpliceKeepsTheFrame(readme: string, head: string, middle: string, tail: string, block: string)
    requires InOrder(readme, head, middle, tail)
    ensures Splice(readme, block) == S.Ok(head + START + "\n\n" + block + "\n\n" + END + tail)
    ensures Splice(readme, block) == S.Ok(readme) <==> middle == "\n\n" + block + "\n\n"
  {
    TheMarkers();
    S.SpliceMarked(readme, head, START, middle, END, tail, block);
    S.UpToDate(head, START, middle, END, tail, block);
    assert S.Around(head, START, block, END, tail) == head + START + "\n\n" + block + "\n\n" + END + tail;
  }

  /**
   * The three outcomes, each with its exact condition. The right number of markers in the wrong order
   * passes the count, and fails on unpacking instead of with the usage error.
   */
  lemma SpliceOutcomes(readme: string, block: string)
    ensures Splice(readme, block) == S.UsageError <==> S.Count(readme, START) != 1 || S.Count(readme, END) != 1
    ensures Splice(readme, block).Ok? <==> exists head, middle, tail :: InOrder(readme, head, middle, tail)
    ensures Splice(readme, block) == S.ValueError <==> exists head, middle, tail :: Swapped(readme, head, middle, tail)
  {
    TheMarkers();
    if Splice(readme, block).Ok? {
      var head, middle, tail := S.SplicedIsMarked(readme, block, START, END);
      assert InOrder(readme, head, middle, tail);
    }
    if head, middle, tail :| InOrder(readme, head, middle, tail) {
      S.SpliceMarked(readme, head, START, middle, END, tail, block);
    }
    if Splice(readme, block) == S.ValueError {
      var head, middle, tail := S.RefusedIsSwapped(readme, block, START, END);
      assert Swapped(readme, head, middle, tail);
    }
    if head, middle, tail :| Swapped(readme, head, middle, tail) {
      S.SwappedIsRefused(readme, head, START, middle, END, tail, block);
    }
  }

  /**
   * Splicing again. After a block without a marker the README splices exactly as the original did, so the
   * same block changes nothing more; after a block that holds a marker it is refused.
   */
  lemma SpliceTwice(readme: string, first: string, second: string)
    requires Splice(readme, first).Ok?
    ensures NoMarker(first) ==> Splice(Splice(readme, first).text, second) == Splice(readme, second)
    ensures NoMarker(first) ==> Splice(Splice(readme, first).text, first) == Splice(readme, first)
    ensures !NoMarker(first) ==> Splice(Splice(readme, first).text, second) == S.UsageError
  {
    TheMarkers();
    S.SplicedAgain(readme, first, second, START, END);
    S.SplicedAgain(readme, first, first, START, END);
  }
}
