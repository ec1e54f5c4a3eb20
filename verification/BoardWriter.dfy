/**
 * Batched writes to the project board, as both planners send them: the range loops of
 * toolkit/features/board_streams.py, apply, and toolkit/features/board_sweep.py, apply.
 */
module BoardWriter {
  import opened Prelude

  /** A field of an item set to an option. */
  datatype Write<K> = Write(key: K, option: string)

  function Put<K>(values: map<K, string>, batch: seq<Write<K>>): map<K, string> {
    if batch == [] then values
    else Put(values, batch[..|batch| - 1])[batch[|batch| - 1].key := batch[|batch| - 1].option]
  }

  lemma {:induction false} PutTwice<K>(values: map<K, string>, a: seq<Write<K>>, b: seq<Write<K>>)
    ensures Put(Put(values, a), b) == Put(values, a + b)
  {
    if b == [] {
      assert a + b == a;
    } else {
      assert (a + b)[..|a + b| - 1] == a + b[..|b| - 1];
      PutTwice(values, a, b[..|b| - 1]);
    }
  }

  lemma PutOne<K>(values: map<K, string>, w: Write<K>)
    ensures Put(values, [w]) == values[w.key := w.option]
  {
  }

  function Flatten<T>(batches: seq<seq<T>>): seq<T> {
    if batches == [] then [] else Flatten(batches[..|batches| - 1]) + batches[|batches| - 1]
  }

  lemma FlattenSnoc<T>(batches: seq<seq<T>>, batch: seq<T>)
    ensures Flatten(batches + [batch]) == Flatten(batches) + batch
  {
  }

  /** No empty request, and none over the size. */
  ghost predicate Sized<T>(batches: seq<seq<T>>, size: int) {
    forall k :: 0 <= k < |batches| ==> 0 < |batches[k]| <= size
  }

  // ---------------------------------------------------------------- a part of a list

  /** Of the first `n` elements those whose index `keep` holds for, in order. */
  function Chosen<T>(s: seq<T>, keep: nat -> bool, n: nat): seq<T>
    requires n <= |s|
  {
    if n == 0 then [] else Chosen(s, keep, n - 1) + if keep(n - 1) then [s[n - 1]] else []
  }

  lemma {:induction false} ChosenAll<T>(s: seq<T>, keep: nat -> bool, n: nat)
    requires n <= |s| && forall i :: 0 <= i < n ==> keep(i)
    ensures Chosen(s, keep, n) == s[..n]
  {
    if n > 0 {
      ChosenAll(s, keep, n - 1);
    }
  }

  lemma {:induction false} ChosenAmong<T>(s: seq<T>, keep: nat -> bool, n: nat)
    requires n <= |s|
    ensures forall x :: x in Chosen(s, keep, n) ==> x in s
  {
    if n > 0 {
      ChosenAmong(s, keep, n - 1);
    }
  }

  /** Everything before `start`, and what `landed` says of the slice from there to `end`. */
  function Upto(start: nat, end: nat, landed: nat -> bool): nat -> bool {
    i => i < start || (i < end && landed(i - start))
  }

  lemma {:induction false} ChosenUpto<T>(s: seq<T>, start: nat, end: nat, landed: nat -> bool, m: nat)
    requires start + m <= end <= |s|
    ensures Chosen(s, Upto(start, end, landed), start + m) == s[..start] + Chosen(s[start..end], landed, m)
  {
    if m == 0 {
      ChosenAll(s, Upto(start, end, landed), start);
    } else {
      ChosenUpto(s, start, end, landed, m - 1);
      assert s[start..end][m - 1] == s[start + m - 1];
    }
  }

  lemma {:induction false} ChosenNoMore<T>(s: seq<T>, keep: nat -> bool, from: nat, n: nat)
    requires from <= n <= |s| && forall i :: from <= i < n ==> !keep(i)
    ensures Chosen(s, keep, n) == Chosen(s, keep, from)
  {
    if n > from {
      ChosenNoMore(s, keep, from, n - 1);
    }
  }

  /** No two writes disagree on a field. */
  ghost predicate Agreeing<K>(writes: seq<Write<K>>) {
    forall v, w :: v in writes && w in writes && v.key == w.key ==> v.option == w.option
  }

  /** A field holds the same in both, or is empty in both. */
  predicate SameAt<K(==)>(a: map<K, string>, b: map<K, string>, key: K) {
    (key in a <==> key in b) && (key in a ==> a[key] == b[key])
  }

  lemma {:induction false} PutElsewhere<K>(values: map<K, string>, writes: seq<Write<K>>, key: K)
    requires forall w :: w in writes ==> w.key != key
    ensures SameAt(Put(values, writes), values, key)
  {
    if writes != [] {
      PutElsewhere(values, writes[..|writes| - 1], key);
    }
  }

  lemma {:induction false} PutAt<K>(values: map<K, string>, writes: seq<Write<K>>, w: Write<K>)
    requires Agreeing(writes) && w in writes
    ensures w.key in Put(values, writes) && Put(values, writes)[w.key] == w.option
  {
    var last := |writes| - 1;
    if writes[last].key == w.key {
      assert writes[last] in writes;
    } else {
      assert writes == writes[..last] + [writes[last]];
      PutAt(values, writes[..last], w);
    }
  }

  /** After some of the writes each field is as it was, or as all of them would leave it. */
  lemma ChosenIsBetween<K>(values: map<K, string>, writes: seq<Write<K>>, keep: nat -> bool, key: K)
    requires Agreeing(writes)
    ensures var some := Put(values, Chosen(writes, keep, |writes|));
            SameAt(some, values, key) || SameAt(some, Put(values, writes), key)
  {
    var chosen := Chosen(writes, keep, |writes|);
    ChosenAmong(writes, keep, |writes|);
    if w :| w in chosen && w.key == key {
      PutAt(values, chosen, w);
      PutAt(values, writes, w);
    } else {
      PutElsewhere(values, chosen, key);
    }
  }

  // ---------------------------------------------------------------- the board

  /** The board: what each item's field holds, the requests sent to it, and what becomes of each. */
  class Board<K(==)> {
    var values: map<K, string>
    var sent: seq<seq<Write<K>>>
    /** The requests that fail: a transport error, or an error for any of the writes they carry. */
    const broken: nat -> bool
    /** Of a request that failed, the writes that took effect all the same. */
    const landed: nat -> nat -> bool

    /** One request carrying a batch. Without an error all of it is written; with one, any part of it. */
    method Mutate(batch: seq<Write<K>>) returns (ok: bool)
      modifies this
      ensures ok == !broken(|old(sent)|) && sent == old(sent) + [batch]
      ensures values == Put(old(values), if ok then batch else Chosen(batch, landed(|old(sent)|), |batch|))
    {
      ok := !broken(|sent|);
      values := Put(values, if ok then batch else Chosen(batch, landed(|sent|), |batch|));
      sent := sent + [batch];
    }
  }

  /** How many writes were made, or why none more were: a zero step, or a request that failed. */
  datatype Sent = Count(n: nat) | BadBatchSize | GitHubError

  /**
   * `writes` in order, `batchSize` to a request, up to the first that fails. The writes numbered by
   * `made` are then on the board, in order: all of those before the request that failed, and any of
   * its own. A zero size is the ValueError of `range`, and a negative one sends nothing.
   */
  method SendBatches<K>(board: Board<K>, writes: seq<Write<K>>, batchSize: int)
    returns (r: Sent, ghost done: nat, ghost made: nat -> bool)
    modifies board
    ensures board.values == Put(old(board.values), Chosen(writes, made, |writes|))
    ensures done <= |writes| && (forall i :: 0 <= i < done ==> made(i))
    ensures forall i :: done <= i < |writes| && made(i) ==> r == GitHubError && i < done + batchSize
    ensures r == BadBatchSize <==> batchSize == 0
    ensures batchSize <= 0 ==> board.sent == old(board.sent) && done == 0
    ensures r.Count? ==> r.n == done
    ensures old(board.sent) <= board.sent && Flatten(board.sent[|old(board.sent)|..]) <= writes
    ensures Sized(board.sent[|old(board.sent)|..], batchSize)
    ensures r.Count? && batchSize > 0 ==> done == |writes| && Flatten(board.sent[|old(board.sent)|..]) == writes
    ensures r == GitHubError ==> |board.sent| > |old(board.sent)| && board.broken(|board.sent| - 1)
  {
    if batchSize <= 0 {
      r, done, made := if batchSize == 0 then BadBatchSize else Count(0), 0, n => false;
      ChosenNoMore(writes, made, 0, |writes|);
      return;
    }
    ghost var end, batches;
    r, done, end, batches := SendAll(board, writes, batchSize);
    Since(old(board.sent), board.sent, batches, writes, end, batchSize);
    ghost var landed := if r == GitHubError then board.landed(|board.sent| - 1) else n => false;
    made := Upto(done, end, landed);
    UptoMeans(done, end, landed);
    FailedAt(old(board.values), writes, done, end, landed);
  }

  lemma Since<K>(earlier: seq<seq<Write<K>>>, sent: seq<seq<Write<K>>>, batches: seq<seq<Write<K>>>,
                 writes: seq<Write<K>>, n: nat, size: int)
    requires n <= |writes| && SentSoFar(earlier, sent, batches, writes, n, size)
    ensures earlier <= sent && sent[|earlier|..] == batches
    ensures Flatten(batches) <= writes && Sized(batches, size)
    ensures n == |writes| ==> Flatten(batches) == writes
  {
  }

  lemma UptoMeans(start: nat, end: nat, landed: nat -> bool)
    ensures forall i: nat :: i < start ==> Upto(start, end, landed)(i)
    ensures forall i: nat :: start <= i && Upto(start, end, landed)(i) ==> i < end
  {
  }

  /** One turn of the loop: the slice at `start`, as a request. */
  method SendOne<K>(board: Board<K>, batch: seq<Write<K>>, ghost values: map<K, string>,
                    ghost earlier: seq<seq<Write<K>>>, ghost batches: seq<seq<Write<K>>>,
                    ghost writes: seq<Write<K>>, ghost start: nat, ghost size: nat)
    returns (ok: bool)
    requires 0 < |batch| <= size && start + |batch| <= |writes| && batch == writes[start..start + |batch|]
    requires SentSoFar(earlier, board.sent, batches, writes, start, size)
    requires board.values == Put(values, writes[..start])
    modifies board
    ensures SentSoFar(earlier, board.sent, batches + [batch], writes, start + |batch|, size)
    ensures ok ==> board.values == Put(values, writes[..start + |batch|])
    ensures !ok ==>
      && board.broken(|board.sent| - 1)
      && board.values == Put(Put(values, writes[..start]), Chosen(batch, board.landed(|board.sent| - 1), |batch|))
  {
    SentOneMore(earlier, batches, writes, start, start + |batch|, size);
    PutTwice(values, writes[..start], batch);
    ok := board.Mutate(batch);
  }

  /**
   * The loop over the range, for a positive step. The writes up to `end` were sent; `done` of them were
   * in requests that did not fail.
   */
  method SendAll<K>(board: Board<K>, writes: seq<Write<K>>, batchSize: nat)
    returns (r: Sent, ghost done: nat, ghost end: nat, ghost batches: seq<seq<Write<K>>>)
    requires batchSize > 0
    modifies board
    ensures done <= end <= |writes| && end - done <= batchSize
    ensures SentSoFar(old(board.sent), board.sent, batches, writes, end, batchSize)
    ensures r == Count(|writes|) || r == GitHubError
    ensures r.Count? ==> done == end == |writes| && board.values == Put(old(board.values), writes[..done])
    ensures r == GitHubError ==>
      && batches != [] && board.broken(|board.sent| - 1)
      && board.values == Put(Put(old(board.values), writes[..done]),
                             Chosen(writes[done..end], board.landed(|board.sent| - 1), end - done))
  {
    var written, start := 0, 0;
    batches := [];
    while start < |writes|
      invariant 0 <= written <= |writes| && (if start < |writes| then written == start else written == |writes|)
      invariant SentSoFar(old(board.sent), board.sent, batches, writes, written, batchSize)
      invariant board.values == Put(old(board.values), writes[..written])
      decreases |writes| - start
    {
      var stop := if start + batchSize < |writes| then start + batchSize else |writes|;
      var batch := writes[start..stop];
      ghost var sofar := batches;
      batches := batches + [batch];
      var ok := SendOne(board, batch, old(board.values), old(board.sent), sofar, writes, start, batchSize);
      if !ok {
        return GitHubError, start, stop, batches;
      }
      written := written + |batch|;
      start := start + batchSize;
    }
    r, done, end := Count(written), written, written;
  }

  /** The requests sent since carry the first `n` writes, in order. */
  ghost predicate SentSoFar<K>(earlier: seq<seq<Write<K>>>, sent: seq<seq<Write<K>>>, batches: seq<seq<Write<K>>>,
                               writes: seq<Write<K>>, n: nat, size: int)
    requires n <= |writes|
  {
    sent == earlier + batches && Flatten(batches) == writes[..n] && Sized(batches, size)
  }

  lemma SentOneMore<K>(earlier: seq<seq<Write<K>>>, batches: seq<seq<Write<K>>>, writes: seq<Write<K>>, start: nat,
                       end: nat, size: int)
    requires start < end <= |writes| && end - start <= size
    requires Flatten(batches) == writes[..start] && Sized(batches, size)
    ensures SentSoFar(earlier, earlier + batches + [writes[start..end]], batches + [writes[start..end]], writes, end,
                      size)
    ensures writes[..start] + writes[start..end] == writes[..end]
  {
    var batch := writes[start..end];
    FlattenSnoc(batches, batch);
    assert writes[..start] + batch == writes[..end];
    Assoc(earlier, batches, [batch]);
  }

  /** The writes before `start`, and the landed ones of the request that carried those up to `end`. */
  lemma FailedAt<K>(values: map<K, string>, writes: seq<Write<K>>, start: nat, end: nat, landed: nat -> bool)
    requires start <= end <= |writes|
    ensures Put(values, Chosen(writes, Upto(start, end, landed), |writes|))
         == Put(Put(values, writes[..start]), Chosen(writes[start..end], landed, end - start))
  {
    ChosenUpto(writes, start, end, landed, end - start);
    ChosenNoMore(writes, Upto(start, end, landed), end, |writes|);
    PutTwice(values, writes[..start], Chosen(writes[start..end], landed, end - start));
  }
}
