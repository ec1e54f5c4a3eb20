/**
 * The restore drill's comparison: toolkit/features/app_drill.py, parse_rows and compare.
 * A restore passes when it is complete, never when it is equal: rows created after the snapshot are
 * expected to be missing. What makes that decidable is stated over histories of a table: rows are
 * inserted under ids never used before and deleted, and the snapshot is taken somewhere on the way.
 */
module AppDrill {
  import opened Prelude

  /** A row id read as text; `Number` is one made of digits. */
  datatype RowId = Number(n: nat) | Name(text: string)

  /** SHA-256 of the identity columns, modelled as injective; a table without them has none. */
  datatype Digest = NoDigest | Digest(identity: string)

  datatype Row = Row(created: Option<int>, digest: Digest)

  type Rows = map<string, map<RowId, Row>>

  const SEQUENCE := "__sequence__"
  const VERSION := "__schema_version__"

  /** A table whose rows must survive; without a creation column it must have an AUTOINCREMENT id. */
  datatype Table = Table(name: string, timed: bool)

  function Of(rows: Rows, name: string): map<RowId, Row> {
    if name in rows then rows[name] else map[]
  }

  /** The highest id the database says it ever allocated in a table. */
  function Allocated(rows: Rows, name: string): Option<int> {
    if Name(name) in Of(rows, SEQUENCE) then Of(rows, SEQUENCE)[Name(name)].created else None
  }

  // ---------------------------------------------------------------- compare

  datatype Judgement = Kept | Different | Newer | Missing

  function Judge(id: RowId, row: Row, got: map<RowId, Row>, highest: Option<int>, taken: int): Judgement {
    if id in got then (if row.digest != NoDigest && got[id].digest != row.digest then Different else Kept)
    else if row.created.Some? && row.created.value > taken then Newer
    else if row.created == None && id.Number? && highest.Some? && id.n > highest.value then Newer
    else Missing
  }

  predicate Passing(j: Judgement) {
    j == Kept || j == Newer
  }

  datatype Line =
    | Judged(table: string, id: RowId, judgement: Judgement)
    | DeletedSince(table: string, id: RowId)
    | Counted(table: string, live: nat, restored: nat)

  function JudgeRow(live: Rows, restored: Rows, name: string, id: RowId, taken: int): Judgement
    requires id in Of(live, name)
  {
    Judge(id, Of(live, name)[id], Of(restored, name), Allocated(restored, name), taken)
  }

  /** Every live row of the table is kept or excused. */
  ghost predicate TablePasses(live: Rows, restored: Rows, name: string, taken: int) {
    forall id :: id in Of(live, name) ==> Passing(JudgeRow(live, restored, name, id, taken))
  }

  /** What `lines` says of one table. */
  ghost predicate Reports(lines: seq<Line>, live: Rows, restored: Rows, name: string, taken: int) {
    && (forall id, j :: Judged(name, id, j) in lines <==>
          id in Of(live, name) && j != Kept && j == JudgeRow(live, restored, name, id, taken))
    && (forall id :: DeletedSince(name, id) in lines <==> id in Of(restored, name) && id !in Of(live, name))
    && Counted(name, |Of(live, name)|, |Of(restored, name)|) in lines
  }

  /** No line is about the table. */
  ghost predicate Silent(lines: seq<Line>, name: string) {
    forall line :: line in lines ==> line.table != name
  }

  /** Lines about other tables change nothing of what is said of this one. */
  lemma ReportsAmong(lines: seq<Line>, more: seq<Line>, live: Rows, restored: Rows, name: string, taken: int)
    ensures Silent(more, name) && Reports(lines, live, restored, name, taken) ==>
      Reports(lines + more, live, restored, name, taken)
    ensures Silent(lines, name) && Reports(more, live, restored, name, taken) ==>
      Reports(lines + more, live, restored, name, taken)
  {
  }

  /** The first `n` tables are reported, and nothing is said yet of the others. */
  ghost predicate ReportedUpTo(lines: seq<Line>, live: Rows, restored: Rows, tables: seq<Table>, n: nat, taken: int)
    requires n <= |tables|
  {
    && (forall k :: 0 <= k < n ==> Reports(lines, live, restored, tables[k].name, taken))
    && (forall k :: n <= k < |tables| ==> Silent(lines, tables[k].name))
  }

  lemma OneMoreTable(lines: seq<Line>, more: seq<Line>, live: Rows, restored: Rows, tables: seq<Table>, n: nat,
                     taken: int)
    requires n < |tables| && forall i, j :: 0 <= i < j < |tables| ==> tables[i].name != tables[j].name
    requires ReportedUpTo(lines, live, restored, tables, n, taken)
    requires Reports(more, live, restored, tables[n].name, taken)
    requires forall line :: line in more ==> line.table == tables[n].name
    ensures ReportedUpTo(lines + more, live, restored, tables, n + 1, taken)
  {
    forall k | 0 <= k <= n
      ensures Reports(lines + more, live, restored, tables[k].name, taken)
    {
      assert k < n ==> Silent(more, tables[k].name);
      ReportsAmong(lines, more, live, restored, tables[k].name, taken);
    }
  }

  method Compare(live: Rows, restored: Rows, tables: seq<Table>, taken: int) returns (ok: bool, lines: seq<Line>)
    requires forall i, j :: 0 <= i < j < |tables| ==> tables[i].name != tables[j].name
    ensures ok <==> forall k :: 0 <= k < |tables| ==> TablePasses(live, restored, tables[k].name, taken)
    ensures forall k :: 0 <= k < |tables| ==> Reports(lines, live, restored, tables[k].name, taken)
  {
    ok, lines := true, [];
    for i := 0 to |tables|
      invariant ok <==> forall k :: 0 <= k < i ==> TablePasses(live, restored, tables[k].name, taken)
      invariant ReportedUpTo(lines, live, restored, tables, i, taken)
    {
      var passed, more := CompareTable(live, restored, tables[i].name, taken);
      OneMoreTable(lines, more, live, restored, tables, i, taken);
      ok, lines := ok && passed, lines + more;
    }
  }

  /** One table's turn of the loop. */
  method CompareTable(live: Rows, restored: Rows, name: string, taken: int) returns (ok: bool, lines: seq<Line>)
    ensures ok <==> TablePasses(live, restored, name, taken)
    ensures Reports(lines, live, restored, name, taken)
    ensures forall line :: line in lines ==> line.table == name
  {
    ok, lines := true, [];
    var have, got := Of(live, name), Of(restored, name);
    var highest := Allocated(restored, name);
    var todo := have.Keys;
    while todo != {}
      invariant todo <= have.Keys
      invariant ok <==> forall id :: id in have.Keys - todo ==> Passing(JudgeRow(live, restored, name, id, taken))
      invariant forall line :: line in lines ==> line.Judged? && line.table == name
      invariant forall id, j :: Judged(name, id, j) in lines <==>
        id in have.Keys - todo && j != Kept && j == JudgeRow(live, restored, name, id, taken)
      decreases todo
    {
      var id :| id in todo;
      todo := todo - {id};
      var row := have[id];
      var judgement := Kept;
      if id in got {
        if row.digest != NoDigest && got[id].digest != row.digest {
          judgement := Different;
        }
      } else if row.created.Some? && row.created.value > taken {
        judgement := Newer;
      } else if row.created == None && id.Number? && highest.Some? && id.n > highest.value {
        judgement := Newer;
      } else {
        judgement := Missing;
      }
      assert judgement == JudgeRow(live, restored, name, id, taken);
      if judgement != Kept {
        lines := lines + [Judged(name, id, judgement)];
      }
      ok := ok && Passing(judgement);
    }
    ghost var judged := lines;
    var gone := got.Keys - have.Keys;
    while gone != {}
      invariant gone <= got.Keys - have.Keys
      invariant forall line :: line in lines ==> line.table == name && !line.Counted?
      invariant forall id, j :: Judged(name, id, j) in lines <==> Judged(name, id, j) in judged
      invariant forall id :: DeletedSince(name, id) in lines <==> id in got.Keys - have.Keys - gone
      decreases gone
    {
      var id :| id in gone;
      gone := gone - {id};
      lines := lines + [DeletedSince(name, id)];
    }
    lines := lines + [Counted(name, |have|, |got|)];
  }

  // ---------------------------------------------------------------- reading a database

  /** One record of the query both sides are read with; an empty `ident` is SQL's NULL. */
  datatype Record = Record(tbl: string, key: RowId, t: Option<int>, ident: string)

  function DigestOf(ident: string): Digest {
    if ident == "" then NoDigest else Digest(ident)
  }

  function Put(rows: Rows, record: Record): Rows {
    rows[record.tbl := Of(rows, record.tbl)[record.key := Row(record.t, DigestOf(record.ident))]]
  }

  function Parse(records: seq<Record>): Rows {
    if records == [] then map[]
    else
      var last := records[|records| - 1];
      var before := Parse(records[..|records| - 1]);
      if last.tbl == VERSION then before else Put(before, last)
  }

  /** Record `k` is the last version record among the first `n`. */
  ghost predicate LastVersion(records: seq<Record>, n: nat, k: nat)
    requires n <= |records|
  {
    k < n && records[k].tbl == "__schema_version__" && forall j :: k < j < n ==> records[j].tbl != "__schema_version__"
  }

  ghost predicate IsVersion(records: seq<Record>, n: nat, version: Option<RowId>)
    requires n <= |records|
  {
    match version
    case None => forall j :: 0 <= j < n ==> records[j].tbl != "__schema_version__"
    case Some(key) => exists k: nat :: LastVersion(records, n, k) && records[k].key == key
  }

  method ParseRows(records: seq<Record>) returns (rows: Rows, version: Option<RowId>)
    ensures rows == Parse(records)
    ensures IsVersion(records, |records|, version)
  {
    rows, version := map[], None;
    for i := 0 to |records|
      invariant rows == Parse(records[..i])
      invariant IsVersion(records, i, version)
    {
      var record := records[i];
      assert records[..i + 1][..i] == records[..i];
      if record.tbl == VERSION {
        version := Some(record.key);
        assert LastVersion(records, i + 1, i);
      } else {
        rows := Put(rows, record);
        if version.Some? {
          ghost var k: nat :| LastVersion(records, i, k) && records[k].key == version.value;
          assert LastVersion(records, i + 1, k);
        }
      }
    }
    assert records[..|records|] == records;
  }

  /** A row comes out exactly when a record of it went in, and it is what some such record says. */
  lemma {:induction false} ParseFinds(records: seq<Record>, tbl: string, key: RowId)
    requires tbl != VERSION
    ensures key in Of(Parse(records), tbl) <==>
      exists k :: 0 <= k < |records| && records[k].tbl == tbl && records[k].key == key
    ensures key in Of(Parse(records), tbl) ==>
      exists k :: && 0 <= k < |records| && records[k].tbl == tbl && records[k].key == key
                  && Of(Parse(records), tbl)[key] == Row(records[k].t, DigestOf(records[k].ident))
  {
    if records != [] {
      var n := |records| - 1;
      ParseFinds(records[..n], tbl, key);
      if records[n].tbl == tbl && records[n].key == key {
        assert Of(Parse(records), tbl)[key] == Row(records[n].t, DigestOf(records[n].ident));
      } else {
        assert key in Of(Parse(records), tbl) <==> key in Of(Parse(records[..n]), tbl);
        if key in Of(Parse(records), tbl) {
          var k :| && 0 <= k < n && records[..n][k].tbl == tbl && records[..n][k].key == key
                   && Of(Parse(records[..n]), tbl)[key]
                      == Row(records[..n][k].t, DigestOf(records[..n][k].ident));
          assert records[k] == records[..n][k];
        }
      }
    }
  }

  // ---------------------------------------------------------------- histories of a table

  datatype Entry = Entry(created: Option<int>, identity: string)

  /** A table: its rows, every id it ever used, and its entry in `sqlite_sequence`, if it has one. */
  datatype TableState = TableState(rows: map<RowId, Entry>, used: set<RowId>, highest: Option<nat>)

  datatype Op = Insert(id: RowId, entry: Entry) | Delete(id: RowId)

  /**
   * Ids are never reused. Without a creation column they are AUTOINCREMENT: numbers above every one
   * allocated before, and `sqlite_sequence` gains its entry at the first insert.
   */
  predicate Legal(s: TableState, op: Op, timed: bool) {
    op.Insert? ==>
      && op.id !in s.used
      && (!timed ==> op.id.Number? && op.entry.created == None && (s.highest.Some? ==> op.id.n > s.highest.value))
  }

  function Apply(s: TableState, op: Op, timed: bool): TableState
    requires Legal(s, op, timed)
  {
    match op
    case Insert(id, entry) =>
      TableState(s.rows[id := entry], s.used + {id}, if timed then s.highest else Some(id.n))
    case Delete(id) => s.(rows := s.rows - {id})
  }

  const EMPTY := TableState(map[], {}, None)

  function After(h: seq<Op>, timed: bool): Option<TableState> {
    if h == [] then Some(EMPTY)
    else
      var before := After(h[..|h| - 1], timed);
      if before.Some? && Legal(before.value, h[|h| - 1], timed) then Some(Apply(before.value, h[|h| - 1], timed))
      else None
  }

  lemma {:induction false} PrefixIsLegal(h: seq<Op>, i: nat, timed: bool)
    requires i <= |h| && After(h, timed).Some?
    ensures After(h[..i], timed).Some?
  {
    if i < |h| {
      PrefixIsLegal(h[..|h| - 1], i, timed);
      assert h[..|h| - 1][..i] == h[..i];
    } else {
      assert h[..i] == h;
    }
  }

  lemma {:induction false} StateIsSound(h: seq<Op>, timed: bool)
    requires After(h, timed).Some?
    ensures var s := After(h, timed).value;
            && s.rows.Keys <= s.used
            && (timed ==> s.highest == None)
            && (!timed ==> forall id :: id in s.used ==> id.Number? && s.highest.Some? && id.n <= s.highest.value)
            && (!timed ==> forall id :: id in s.rows ==> s.rows[id].created == None)
  {
    if h != [] {
      StateIsSound(h[..|h| - 1], timed);
    }
  }

  /** A row live at the end was there, the same, at any earlier point that knew its id; else it is newer. */
  lemma {:induction false} OldOrNew(h: seq<Op>, i: nat, timed: bool, id: RowId)
    requires i <= |h| && After(h, timed).Some?
    requires id in After(h, timed).value.rows
    ensures After(h[..i], timed).Some?
    ensures var then_, now := After(h[..i], timed).value, After(h, timed).value;
            if id in then_.used then id in then_.rows && then_.rows[id] == now.rows[id]
            else !timed ==> id.Number? && (then_.highest.Some? ==> id.n > then_.highest.value)
  {
    PrefixIsLegal(h, i, timed);
    if i == |h| {
      assert h[..i] == h;
      StateIsSound(h, timed);
    } else {
      var init, op := h[..|h| - 1], h[|h| - 1];
      assert init[..i] == h[..i];
      var before := After(init, timed).value;
      if id in before.rows && !(op.Insert? && op.id == id) {
        OldOrNew(init, i, timed, id);
      } else {
        assert op == Insert(id, op.entry);
        UsedGrows(init, i, timed);
      }
    }
  }

  lemma {:induction false} UsedGrows(h: seq<Op>, i: nat, timed: bool)
    requires i <= |h| && After(h, timed).Some?
    ensures After(h[..i], timed).Some?
    ensures var then_, now := After(h[..i], timed).value, After(h, timed).value;
            && then_.used <= now.used
            && (!timed && then_.highest.Some? ==> now.highest.Some? && then_.highest.value <= now.highest.value)
  {
    PrefixIsLegal(h, i, timed);
    if i == |h| {
      assert h[..i] == h;
    } else {
      assert h[..|h| - 1][..i] == h[..i];
      UsedGrows(h[..|h| - 1], i, timed);
    }
  }

  // ---------------------------------------------------------------- what a pass means

  function Read(s: TableState): map<RowId, Row> {
    map id | id in s.rows :: Row(s.rows[id].created, DigestOf(s.rows[id].identity))
  }

  ghost predicate Reads(rows: Rows, name: string, s: TableState) {
    && Of(rows, name) == Read(s)
    && Allocated(rows, name) == (if s.highest.Some? then Some(s.highest.value) else None)
  }

  /** `records` answer the query on table `name`, in any order. */
  ghost predicate Answers(records: seq<Record>, name: string, s: TableState) {
    && (forall k :: 0 <= k < |records| && records[k].tbl == name ==>
          && records[k].key in s.rows
          && records[k].t == s.rows[records[k].key].created && records[k].ident == s.rows[records[k].key].identity)
    && (forall id :: id in s.rows ==>
          exists k :: 0 <= k < |records| && records[k].tbl == name && records[k].key == id)
    && (forall k :: 0 <= k < |records| && records[k].tbl == "__sequence__" && records[k].key == Name(name) ==>
          s.highest.Some? && records[k].t == Some(s.highest.value))
    && (s.highest.Some? ==>
          exists k :: 0 <= k < |records| && records[k].tbl == "__sequence__" && records[k].key == Name(name))
  }

  /** Parsing the query's answer gives the table back, its sequence entry included. */
  lemma ParseReads(records: seq<Record>, name: string, s: TableState)
    requires name != "__sequence__" && name != "__schema_version__"
    requires Answers(records, name, s)
    ensures Reads(Parse(records), name, s)
  {
    forall id
      ensures id in Of(Parse(records), name) <==> id in s.rows
      ensures id in s.rows ==> Of(Parse(records), name)[id] == Read(s)[id]
    {
      ParseFinds(records, name, id);
    }
    assert SEQUENCE != VERSION;
    ParseFinds(records, SEQUENCE, Name(name));
  }

  /** Every row live has now and had at the snapshot is restored, its identity unchanged. */
  ghost predicate Complete(now: TableState, snapshot: TableState, got: map<RowId, Row>) {
    forall id :: id in now.rows && id in snapshot.rows ==>
      && id in got
      && (now.rows[id].identity != "" ==> got[id].digest == Digest(now.rows[id].identity))
  }

  /**
   * The code can tell that the rows inserted since are newer: by a creation time later than the
   * snapshot, or because the table had a `sqlite_sequence` entry when the snapshot was taken.
   */
  ghost predicate Datable(now: TableState, snapshot: TableState, timed: bool, taken: int) {
    forall id :: id in now.rows && id !in snapshot.rows ==>
      if timed then now.rows[id].created.Some? && now.rows[id].created.value > taken else snapshot.highest.Some?
  }

  /**
   * For every history, a snapshot taken at any step and any restore of it that invented no row and
   * kept `sqlite_sequence`: the table passes exactly when it is complete and the newer rows can be
   * told apart. A lost row always fails, a trailing one too, since the sequence still bounds it.
   */
  lemma PassMeansComplete(h: seq<Op>, i: nat, timed: bool, name: string, live: Rows, restored: Rows, taken: int)
    requires i <= |h| && After(h, timed).Some? && After(h[..i], timed).Some?
    requires Reads(live, name, After(h, timed).value)
    requires Of(restored, name).Keys <= After(h[..i], timed).value.rows.Keys
    requires var highest := After(h[..i], timed).value.highest;
             Allocated(restored, name) == (if highest.Some? then Some(highest.value) else None)
    requires forall id :: id in After(h[..i], timed).value.rows ==>
      var created := After(h[..i], timed).value.rows[id].created;
      created.Some? ==> created.value <= taken
    ensures var now, snapshot := After(h, timed).value, After(h[..i], timed).value;
            TablePasses(live, restored, name, taken) <==>
            Complete(now, snapshot, Of(restored, name)) && Datable(now, snapshot, timed, taken)
  {
    var now, snapshot := After(h, timed).value, After(h[..i], timed).value;
    var got := Of(restored, name);
    StateIsSound(h, timed);
    StateIsSound(h[..i], timed);
    forall id | id in now.rows
      ensures Passing(JudgeRow(live, restored, name, id, taken)) <==>
        if id in snapshot.rows
        then id in got && (now.rows[id].identity != "" ==> got[id].digest == Digest(now.rows[id].identity))
        else if timed then now.rows[id].created.Some? && now.rows[id].created.value > taken
        else snapshot.highest.Some?
    {
      OldOrNew(h, i, timed, id);
      assert Of(live, name)[id] == Row(now.rows[id].created, DigestOf(now.rows[id].identity));
    }
    assert forall id :: id in now.rows <==> id in Of(live, name);
  }

  /** A faithful restore of a table with a sequence entry always passes, whatever came after. */
  lemma FaithfulRestorePasses(h: seq<Op>, i: nat, name: string, live: Rows, restored: Rows, taken: int)
    requires i <= |h| && After(h, false).Some? && After(h[..i], false).Some?
    requires Reads(live, name, After(h, false).value) && Reads(restored, name, After(h[..i], false).value)
    ensures TablePasses(live, restored, name, taken) <==>
      After(h[..i], false).value.highest.Some? || After(h, false).value.rows == map[]
  {
    var now, snapshot := After(h, false).value, After(h[..i], false).value;
    StateIsSound(h[..i], false);
    PassMeansComplete(h, i, false, name, live, restored, taken);
    forall id | id in now.rows && id in snapshot.rows
      ensures Of(restored, name)[id].digest == DigestOf(now.rows[id].identity)
    {
      OldOrNew(h, i, false, id);
    }
    if snapshot.highest == None && now.rows != map[] {
      var id :| id in now.rows;
      assert id !in snapshot.rows;
    }
  }

  /**
   * So the claim that a faithful restore never fails on newer rows is false of one case: a table whose
   * first row ever came after the snapshot has no sequence entry in it, and that row is reported lost.
   */
  lemma FirstRowEverIsReportedLost(entry: Entry)
    requires entry.created == None
    ensures var h := [Insert(Number(1), entry)];
            && After(h, false).Some? && After(h[..0], false) == Some(EMPTY)
            && forall live, restored, taken ::
                 Reads(live, "t", After(h, false).value) && Reads(restored, "t", EMPTY) ==>
                 JudgeRow(live, restored, "t", Number(1), taken) == Missing
  {
  }
}
