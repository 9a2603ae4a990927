/** The relational check of a snapshot: every record becomes a row of a table with a primary key and two partial unique
    indexes, and one anti-join query compares entries with overlays. */
module SnapshotContents {
  import opened Optional
  import opened SnapshotFormat

  datatype RowKind = EntryRow | OverlayRow | PositionRow | SelectionRow

  datatype Row = Row(kind: RowKind, scope: string, code: string, word: string, id: string,
                     weight: int, owned: bool, deleted: bool, slot: int)

  const RECORD_LIMIT: nat := 500000
  const ENTRY_LIMIT: nat := 100000
  const WEIGHT_LIMIT: int := 100000000

  predicate Bounded(value: string, maximum: nat) {
    0 < |value| <= maximum && forall c :: c in value ==> c != '\0' && c != '\t' && c != '\r' && c != '\n'
  }

  function BoundedText(o: map<Field, Json>, k: Field, maximum: nat): Option<string> {
    match Text(o, k)
    case Some(s) => if Bounded(s, maximum) then Some(s) else None
    case None => None
  }

  function Between(o: map<Field, Json>, k: Field, lowest: int, highest: int): Option<int> {
    match Whole(o, k)
    case Some(i) => if lowest <= i <= highest then Some(i) else None
    case None => None
  }

  function RowKindOf(kind: string): Option<RowKind> {
    if kind == "entry" then Some(EntryRow)
    else if kind == "overlay" then Some(OverlayRow)
    else if kind == "position" then Some(PositionRow)
    else if kind == "selection" then Some(SelectionRow)
    else None
  }

  /** `user_inserted` may be missing, and then means true; the member count has to agree. */
  function Owned(data: map<Field, Json>): Option<bool> {
    if InsertedKey !in data then (if |data| == 7 then Some(true) else None)
    else if |data| != 8 then None
    else Flag(data, InsertedKey)
  }

  function WordRow(w: Wire, record: map<Field, Json>, data: map<Field, Json>, kind: RowKind, code: string, word: string,
                   revision: int): Option<Row>
  {
    var scope, id, owned := Text(data, KindKey), Text(data, IdKey), Owned(data);
    var deleted := if kind.OverlayRow? then Flag(record, DeletedKey) else Some(false);
    if scope.None? || KindOf(scope.value).None? || id.None? || owned.None? || deleted.None? then None
    else if kind.EntryRow? && (!Bounded(id.value, 128) || !owned.value) then None
    else
      var weight := Between(data, WeightKey, if deleted.value then 0 else 1, WEIGHT_LIMIT);
      var stamp := Text(data, UpdatedKey);
      if weight.None? || Between(data, RevisionKey, 1, revision).None? || stamp.None? || !w.stamp(stamp.value) then None
      else Some(Row(kind, scope.value, code, word, id.value, weight.value, owned.value, deleted.value, 0))
  }

  function PlaceRow(data: map<Field, Json>, kind: RowKind, code: string, word: string): Option<Row> {
    var scope := BoundedText(data, ContextKey, 512);
    if scope.None? || |data| != 4 || |scope.value| + |code| + |word| > 2048 then None
    else
      var slot := if kind.PositionRow? then Between(data, PositionKey, 1, 5) else Between(data, CountKey, 0, 10);
      if slot.None? then None else Some(Row(kind, scope.value, code, word, "", 0, true, false, slot.value))
  }

  /** The visitor's body: the row a record line stands for, or a refusal. */
  function RowOf(w: Wire, line: string, revision: int): Option<Row> {
    match Object(w, line)
    case None => None
    case Some(record) =>
      match Text(record, TypeKey)
      case None => None
      case Some(name) =>
        match (RowKindOf(name), Child(record, DataKey))
        case (Some(kind), Some(data)) =>
          var code, word := BoundedText(data, CodeKey, 512), BoundedText(data, WordKey, 2048);
          if code.None? || word.None? then None
          else if kind.EntryRow? || kind.OverlayRow?
            then WordRow(w, record, data, kind, code.value, word.value, revision)
          else PlaceRow(data, kind, code.value, word.value)
        case _ => None
  }

  function Rows(w: Wire, lines: seq<string>, revision: int): Option<seq<Row>> {
    if lines == [] then Some([])
    else
      var n := |lines| - 1;
      match (Rows(w, lines[..n], revision), RowOf(w, lines[n], revision))
      case (Some(rows), Some(row)) => Some(rows + [row])
      case _ => None
  }

  predicate SameWord(a: Row, b: Row) {
    a.scope == b.scope && a.code == b.code && a.word == b.word
  }

  /** Two rows the table's primary key or one of its unique indexes keeps apart. */
  predicate Conflict(a: Row, b: Row) {
    a.kind == b.kind &&
    (SameWord(a, b) || (a.kind.EntryRow? && a.id == b.id)
     || (a.kind.PositionRow? && a.scope == b.scope && a.slot == b.slot))
  }

  predicate UniqueTable(rows: seq<Row>) {
    forall i, j :: 0 <= i < j < |rows| ==> !Conflict(rows[i], rows[j])
  }

  predicate Partner(e: Row, o: Row) {
    e.kind.EntryRow? && o.kind.OverlayRow? && SameWord(e, o)
  }

  /** The first half of the query: an entry without an overlay, or beside one that is deleted, not owned, or of another
      weight. */
  predicate EntryOffends(rows: seq<Row>, e: Row) {
    && e.kind.EntryRow?
    && ((forall o :: o in rows ==> !Partner(e, o))
        || (exists o :: o in rows && Partner(e, o) && (o.deleted || !o.owned || e.weight != o.weight)))
  }

  /** The second half: a live overlay of the user's without an entry. */
  predicate OverlayOffends(rows: seq<Row>, o: Row) {
    o.kind.OverlayRow? && !o.deleted && o.owned && forall e :: e in rows ==> !Partner(e, o)
  }

  predicate QueryFindsNothing(rows: seq<Row>) {
    forall r {:trigger EntryOffends(rows, r)} {:trigger OverlayOffends(rows, r)} ::
      r in rows ==> !EntryOffends(rows, r) && !OverlayOffends(rows, r)
  }

  function EntryCount(rows: seq<Row>): nat {
    if rows == [] then 0
    else EntryCount(rows[..|rows| - 1]) + (if rows[|rows| - 1].kind.EntryRow? then 1 else 0)
  }

  ghost predicate ContentsValid(w: Wire, lines: seq<string>, revision: int) {
    && |lines| <= RECORD_LIMIT
    && Rows(w, lines, revision).Some?
    && var rows := Rows(w, lines, revision).value;
       EntryCount(rows) <= ENTRY_LIMIT && UniqueTable(rows) && QueryFindsNothing(rows)
  }

  lemma {:induction false} RowsPrefix(w: Wire, lines: seq<string>, revision: int, n: nat)
    requires n <= |lines| && Rows(w, lines, revision).Some?
    ensures Rows(w, lines[..n], revision).Some?
    ensures |Rows(w, lines, revision).value| == |lines|
    ensures Rows(w, lines[..n], revision).value == Rows(w, lines, revision).value[..n]
    ensures n > 0 ==> RowOf(w, lines[n - 1], revision) == Some(Rows(w, lines, revision).value[n - 1])
    decreases |lines|
  {
    hide RowOf;
    if lines != [] {
      var m := |lines| - 1;
      if n <= m {
        RowsPrefix(w, lines[..m], revision, n);
        assert lines[..m][..n] == lines[..n];
      } else {
        RowsPrefix(w, lines[..m], revision, m);
        assert lines[..n] == lines;
      }
    }
  }

  lemma {:induction false} EntryCountGrows(rows: seq<Row>, n: nat)
    requires n <= |rows|
    ensures EntryCount(rows[..n]) <= EntryCount(rows)
    decreases |rows|
  {
    if n < |rows| {
      EntryCountGrows(rows[..|rows| - 1], n);
      assert rows[..|rows| - 1][..n] == rows[..n];
    } else {
      assert rows[..n] == rows;
    }
  }

  /** What a valid snapshot says about its line `n` and the table built from the lines before it. */
  lemma ValidNeverRefused(w: Wire, lines: seq<string>, revision: int, n: nat, table: seq<Row>)
    requires n < |lines| && ContentsValid(w, lines, revision)
    requires Rows(w, lines[..n], revision) == Some(table)
    ensures n < RECORD_LIMIT && RowOf(w, lines[n], revision).Some?
    ensures var row := RowOf(w, lines[n], revision).value;
            EntryCount(table + [row]) <= ENTRY_LIMIT && forall r :: r in table ==> !Conflict(r, row)
  {
    RowsPrefix(w, lines, revision, n + 1);
    RowsPrefix(w, lines, revision, n);
    PrefixFits(Rows(w, lines, revision).value, n);
  }

  lemma PrefixFits(all: seq<Row>, n: nat)
    requires n < |all| && EntryCount(all) <= ENTRY_LIMIT && UniqueTable(all)
    ensures EntryCount(all[..n] + [all[n]]) <= ENTRY_LIMIT
    ensures forall r :: r in all[..n] ==> !Conflict(r, all[n])
  {
    assert all[..n + 1] == all[..n] + [all[n]];
    EntryCountGrows(all, n + 1);
    TableGrows(all[..n], all[n]);
  }

  lemma TableStep(w: Wire, lines: seq<string>, revision: int, n: nat, table: seq<Row>)
    requires n < |lines| && Rows(w, lines[..n], revision) == Some(table) && RowOf(w, lines[n], revision).Some?
    ensures var row := RowOf(w, lines[n], revision).value;
            && Rows(w, lines[..n + 1], revision) == Some(table + [row])
            && EntryCount(table + [row]) == EntryCount(table) + (if row.kind.EntryRow? then 1 else 0)
            && (UniqueTable(table) && (forall r :: r in table ==> !Conflict(r, row)) ==> UniqueTable(table + [row]))
  {
    var row := RowOf(w, lines[n], revision).value;
    assert lines[..n + 1][..n] == lines[..n] && lines[..n + 1][n] == lines[n];
    assert (table + [row])[..|table|] == table;
    TableGrows(table, row);
  }

  lemma TableGrows(rows: seq<Row>, row: Row)
    ensures UniqueTable(rows + [row]) <==> UniqueTable(rows) && forall r :: r in rows ==> !Conflict(r, row)
  {
    var all := rows + [row];
    if UniqueTable(all) {
      forall i, j | 0 <= i < j < |rows| ensures !Conflict(rows[i], rows[j]) {
        assert !Conflict(all[i], all[j]);
      }
      forall r | r in rows ensures !Conflict(r, row) {
        var i :| 0 <= i < |rows| && rows[i] == r;
        assert !Conflict(all[i], all[|rows|]);
      }
    }
  }

  /** `validate_snapshot_contents`: insert row by row, then ask the query. */
  method ValidateContents(w: Wire, lines: seq<string>, revision: int) returns (ok: bool)
    ensures ok <==> ContentsValid(w, lines, revision)
  {
    var table: seq<Row> := [];
    var entries := 0;
    var n := 0;
    while n < |lines|
      invariant 0 <= n <= |lines| && n <= RECORD_LIMIT
      invariant Rows(w, lines[..n], revision) == Some(table)
      invariant entries == EntryCount(table) && entries <= ENTRY_LIMIT && UniqueTable(table)
    {
      if ContentsValid(w, lines, revision) { ValidNeverRefused(w, lines, revision, n, table); }
      if n + 1 > RECORD_LIMIT { return false; }
      var row := RowOf(w, lines[n], revision);
      if row.None? { return false; }
      TableStep(w, lines, revision, n, table);
      if row.value.kind.EntryRow? {
        entries := entries + 1;
        if entries > ENTRY_LIMIT { return false; }
      }
      if exists r :: r in table && Conflict(r, row.value) { return false; }
      table := table + [row.value];
      n := n + 1;
    }
    assert lines[..|lines|] == lines;
    ok := QueryFindsNothing(table);
  }

  // -------------------------------------------------------------------------------------------- what the query means

  /** A word of the user's dictionary, as entries and overlays both describe it. */
  datatype Fact = Fact(scope: string, code: string, word: string, weight: int)

  function FactOf(r: Row): Fact {
    Fact(r.scope, r.code, r.word, r.weight)
  }

  predicate IsLive(r: Row) {
    r.kind.OverlayRow? && !r.deleted && r.owned
  }

  function Entries(rows: seq<Row>): seq<Fact> {
    if rows == [] then []
    else Entries(rows[..|rows| - 1]) + (if rows[|rows| - 1].kind.EntryRow? then [FactOf(rows[|rows| - 1])] else [])
  }

  function LiveOverlays(rows: seq<Row>): seq<Fact> {
    if rows == [] then []
    else LiveOverlays(rows[..|rows| - 1]) + (if IsLive(rows[|rows| - 1]) then [FactOf(rows[|rows| - 1])] else [])
  }

  lemma {:induction false} EntryMembers(rows: seq<Row>, f: Fact)
    ensures f in Entries(rows) <==> exists r :: r in rows && r.kind.EntryRow? && FactOf(r) == f
    ensures UniqueTable(rows) ==> multiset(Entries(rows))[f] <= 1
  {
    if rows != [] {
      var n := |rows| - 1;
      var init, last := rows[..n], rows[n];
      assert rows == init + [last];
      EntryMembers(init, f);
      TableGrows(init, last);
    }
  }

  lemma {:induction false} LiveMembers(rows: seq<Row>, f: Fact)
    ensures f in LiveOverlays(rows) <==> exists r :: r in rows && IsLive(r) && FactOf(r) == f
    ensures UniqueTable(rows) ==> multiset(LiveOverlays(rows))[f] <= 1
  {
    if rows != [] {
      var n := |rows| - 1;
      var init, last := rows[..n], rows[n];
      assert rows == init + [last];
      LiveMembers(init, f);
      TableGrows(init, last);
    }
  }

  lemma OneOverlayPerWord(rows: seq<Row>, a: Row, b: Row)
    requires UniqueTable(rows) && a in rows && b in rows && a.kind == b.kind && SameWord(a, b)
    ensures a == b
  {
  }

  ghost predicate SameFacts(rows: seq<Row>) {
    forall f :: f in Entries(rows) <==> f in LiveOverlays(rows)
  }

  lemma EntryHasOverlay(rows: seq<Row>, f: Fact)
    requires QueryFindsNothing(rows) && f in Entries(rows)
    ensures f in LiveOverlays(rows)
  {
    EntryMembers(rows, f);
    LiveMembers(rows, f);
    var e :| e in rows && e.kind.EntryRow? && FactOf(e) == f;
    assert !EntryOffends(rows, e);
    var o :| o in rows && Partner(e, o);
    assert IsLive(o) && FactOf(o) == f;
  }

  lemma OverlayHasEntry(rows: seq<Row>, f: Fact)
    requires QueryFindsNothing(rows) && f in LiveOverlays(rows)
    ensures f in Entries(rows)
  {
    EntryMembers(rows, f);
    LiveMembers(rows, f);
    var o :| o in rows && IsLive(o) && FactOf(o) == f;
    assert !OverlayOffends(rows, o);
    var e :| e in rows && Partner(e, o);
    assert !EntryOffends(rows, e);
    assert FactOf(e) == f;
  }

  lemma FactsGiveQuery(rows: seq<Row>, r: Row)
    requires UniqueTable(rows) && SameFacts(rows) && r in rows
    ensures !EntryOffends(rows, r) && !OverlayOffends(rows, r)
  {
    EntryMembers(rows, FactOf(r));
    LiveMembers(rows, FactOf(r));
    if r.kind.EntryRow? {
      assert FactOf(r) in LiveOverlays(rows);
      var o :| o in rows && IsLive(o) && FactOf(o) == FactOf(r);
      assert Partner(r, o);
      forall o' | o' in rows && Partner(r, o') ensures o' == o {
        OneOverlayPerWord(rows, o, o');
      }
    } else if IsLive(r) {
      assert FactOf(r) in Entries(rows);
      var e :| e in rows && e.kind.EntryRow? && FactOf(e) == FactOf(r);
      assert Partner(e, r);
    }
  }

  /** On a table its indexes accepted, the anti-join finds nothing exactly when the entries and the user's live overlays
      are the same words with the same weights, one to one. */
  lemma QueryIsCorrespondence(rows: seq<Row>)
    requires UniqueTable(rows)
    ensures QueryFindsNothing(rows) <==> multiset(Entries(rows)) == multiset(LiveOverlays(rows))
    ensures forall f :: multiset(Entries(rows))[f] <= 1 && multiset(LiveOverlays(rows))[f] <= 1
  {
    forall f ensures multiset(Entries(rows))[f] <= 1 && multiset(LiveOverlays(rows))[f] <= 1 {
      EntryMembers(rows, f);
      LiveMembers(rows, f);
    }
    if QueryFindsNothing(rows) {
      forall f ensures multiset(Entries(rows))[f] == multiset(LiveOverlays(rows))[f] {
        if f in Entries(rows) { EntryHasOverlay(rows, f); }
        if f in LiveOverlays(rows) { OverlayHasEntry(rows, f); }
      }
    }
    if multiset(Entries(rows)) == multiset(LiveOverlays(rows)) {
      forall f ensures f in Entries(rows) <==> f in LiveOverlays(rows) {
        assert f in Entries(rows) <==> f in multiset(Entries(rows));
        assert f in LiveOverlays(rows) <==> f in multiset(LiveOverlays(rows));
      }
      forall r | r in rows ensures !EntryOffends(rows, r) && !OverlayOffends(rows, r) {
        FactsGiveQuery(rows, r);
      }
    }
  }

  /** The contents check accepts only snapshots whose entries correspond one to one, with equal weight, to live overlays
      the user owns. */
  lemma AcceptedContentsCorrespond(w: Wire, lines: seq<string>, revision: int)
    requires ContentsValid(w, lines, revision)
    ensures var rows := Rows(w, lines, revision).value;
            && |rows| == |lines|
            && multiset(Entries(rows)) == multiset(LiveOverlays(rows))
            && forall f :: multiset(Entries(rows))[f] <= 1
  {
    RowsPrefix(w, lines, revision, |lines|);
    QueryIsCorrespondence(Rows(w, lines, revision).value);
  }
}
