/** Why an export passes the checks it is then put through: the frame is right by construction, and the entries and
    overlays correspond because both are printed from the same records. */
module SnapshotConsistency {
  import opened Optional
  import opened SnapshotFormat
  import opened SnapshotEnvelope
  import opened SnapshotContents
  import opened SnapshotExport
  import opened SnapshotRoundTrip

  // ------------------------------------------------------------------------------------------------------ the frame

  /** A line the envelope's reader can take: not too long, and acceptable to its parser. */
  predicate Transportable(w: Wire, line: string) {
    RightSize(line) && StrictObject(w, line).Some?
  }

  predicate AllTransportable(w: Wire, lines: seq<string>) {
    forall i :: 0 <= i < |lines| ==> Transportable(w, lines[i])
  }

  lemma StrictBack(w: Wire, fields: map<Field, Json>)
    requires Faithful(w) && StrictObject(w, w.serialize(Obj(fields))).Some?
    ensures StrictObject(w, w.serialize(Obj(fields))) == Some(fields)
  {
    assert w.parse(w.serialize(Obj(fields))) == Some(Obj(fields));
  }

  lemma TwoKeys(m: map<Field, Json>, a: Field, b: Field)
    requires m.Keys == {a, b} && a != b
    ensures |m| == 2
  {
  }

  lemma ThreeKeys(m: map<Field, Json>, a: Field, b: Field, c: Field)
    requires m.Keys == {a, b, c} && a != b && b != c && a != c
    ensures |m| == 3
  {
  }

  lemma RecordCategory(w: Wire, r: StateRecord, category: int, stamp: string)
    requires Faithful(w) && Belongs(r, category) && Transportable(w, LineOf(w, r, category, stamp))
    ensures Category(w, LineOf(w, r, category, stamp)) == category
  {
    hide RightSize, RecordShape, JsonOf;
    var o := JsonOf(w, r, category, stamp);
    StrictBack(w, o);
    JsonShape(w, r, category, stamp);
  }

  /** The printed object has the members its category asks for. */
  lemma JsonShape(w: Wire, r: StateRecord, category: int, stamp: string)
    requires Belongs(r, category)
    ensures var o := JsonOf(w, r, category, stamp);
            RecordShape(o, category) && Text(o, TypeKey).Some? && CategoryOf(Text(o, TypeKey).value) == category
  {
    hide EntryData, PlaceData;
    var o := JsonOf(w, r, category, stamp);
    RecordKinds();
    if category == 2 {
      ThreeKeys(o, TypeKey, DeletedKey, DataKey);
    } else {
      TwoKeys(o, TypeKey, DataKey);
    }
  }

  lemma HeaderIsHeader(w: Wire)
    requires Faithful(w) && Transportable(w, w.header)
    ensures IsHeader(w, w.header)
  {
    assert StrictObject(w, w.header) == Some(HEADER_FIELDS);
    assert HEADER_FIELDS.Keys == {TypeKey, FormatKey, VersionKey, RevisionKey};
    assert |HEADER_FIELDS| == |HEADER_FIELDS.Keys| == 4;
  }

  lemma FooterIsFooter(w: Wire, records: nat, hashed: string)
    requires Faithful(w) && Transportable(w, w.serialize(Obj(FooterJson(w, records, hashed))))
    ensures IsFooter(w, w.serialize(Obj(FooterJson(w, records, hashed))), records, hashed)
  {
    var o := FooterJson(w, records, hashed);
    StrictBack(w, o);
    ThreeKeys(o, TypeKey, RecordsKey, ShaKey);
  }

  predicate AllOfCategory(w: Wire, lines: seq<string>, category: int) {
    forall i :: 0 <= i < |lines| ==> Category(w, lines[i]) == category
  }

  lemma SectionCategory(w: Wire, state: seq<StateRecord>, stamp: string, category: int)
    requires Faithful(w) && 1 <= category <= 4 && AllTransportable(w, Pick(Spool(w, state, stamp), category))
    ensures AllOfCategory(w, Pick(Spool(w, state, stamp), category), category)
  {
    var lines, rs := Pick(Spool(w, state, stamp), category), Of(state, category);
    PickIsPartition(w, state, stamp, category);
    forall i | 0 <= i < |lines| ensures Category(w, lines[i]) == category {
      RecordCategory(w, rs[i], category, stamp);
    }
  }

  lemma TransportableSplit(w: Wire, a: seq<string>, b: seq<string>)
    ensures AllTransportable(w, a + b) <==> AllTransportable(w, a) && AllTransportable(w, b)
  {
    hide Transportable;
    if AllTransportable(w, a + b) {
      forall i | 0 <= i < |a| ensures Transportable(w, a[i]) {
        assert (a + b)[i] == a[i];
      }
      forall i | 0 <= i < |b| ensures Transportable(w, b[i]) {
        assert (a + b)[|a| + i] == b[i];
      }
    }
  }

  /** Records in sections of rising category, behind a header. */
  lemma SectionsOpen(w: Wire, header: string, a: seq<string>, b: seq<string>, c: seq<string>, d: seq<string>)
    requires IsHeader(w, header)
    requires AllOfCategory(w, a, 1) && AllOfCategory(w, b, 2) && AllOfCategory(w, c, 3) && AllOfCategory(w, d, 4)
    ensures Opens(w, [header] + (a + b + c + d))
  {
    hide IsHeader, Category;
    var lines := [header] + (a + b + c + d);
    var ab, abc := |a| + |b|, |a| + |b| + |c|;
    forall i | 1 <= i < |lines|
      ensures Category(w, lines[i]) == if i <= |a| then 1 else if i <= ab then 2 else if i <= abc then 3 else 4
    {
      if i <= |a| { assert lines[i] == a[i - 1]; }
      else if i <= ab { assert lines[i] == b[i - 1 - |a|]; }
      else if i <= abc { assert lines[i] == c[i - 1 - ab]; }
      else { assert lines[i] == d[i - 1 - abc]; }
    }
  }

  lemma FramedIsTransportable(w: Wire, lines: seq<string>)
    requires WellFramed(w, lines)
    ensures AllTransportable(w, lines)
  {
    var front := lines[..|lines| - 1];
    forall i | 0 <= i < |lines| ensures Transportable(w, lines[i]) {
      if i < |front| {
        assert lines[i] == front[i];
        assert i > 0 ==> Category(w, front[i]) >= 1;
      }
    }
  }

  /** The printed lines have the envelope's category order, record count and checksum whatever the state is: the only
      thing the envelope check can refuse is a single line. */
  lemma ExportIsFramed(w: Wire, state: seq<StateRecord>, stamp: string)
    requires Faithful(w)
    ensures var lines := PrintedLines(w, Body(Spool(w, state, stamp)));
            WellFramed(w, lines) <==> AllTransportable(w, lines)
  {
    hide Transportable, IsHeader, IsFooter, Spool, Pick;
    var spool := Spool(w, state, stamp);
    var body := Body(spool);
    var lines := PrintedLines(w, body);
    var front := [w.header] + body;
    var footer := lines[|lines| - 1];
    PrintedShape(w, body);
    if WellFramed(w, lines) {
      FramedIsTransportable(w, lines);
    }
    if AllTransportable(w, lines) {
      var p1, p2, p3, p4 := Pick(spool, 1), Pick(spool, 2), Pick(spool, 3), Pick(spool, 4);
      assert lines == front + [footer];
      TransportableSplit(w, front, [footer]);
      TransportableSplit(w, [w.header], body);
      TransportableSplit(w, p1 + p2 + p3, p4);
      TransportableSplit(w, p1 + p2, p3);
      TransportableSplit(w, p1, p2);
      SectionCategory(w, state, stamp, 1);
      SectionCategory(w, state, stamp, 2);
      SectionCategory(w, state, stamp, 3);
      SectionCategory(w, state, stamp, 4);
      assert Transportable(w, [w.header][0]) && Transportable(w, [footer][0]);
      HeaderIsHeader(w);
      SectionsOpen(w, w.header, p1, p2, p3, p4);
      FooterIsFooter(w, |front|, Join(front));
    }
  }

  // --------------------------------------------------------------------------------------------------------- the rows

  /** What the exporter relies on the digest for. */
  ghost predicate DistinctIdentities(w: Wire) {
    forall a, b, c, a', b', c' {:trigger w.identity(a, b, c), w.identity(a', b', c')} ::
      w.identity(a, b, c) == w.identity(a', b', c') ==> a == a' && b == b' && c == c'
  }

  /** The row a spooled record turns into. */
  function RowFor(w: Wire, r: StateRecord, category: int): Row
    requires Belongs(r, category)
  {
    if category == 1 then
      Row(EntryRow, KindName(r.kind), r.key, r.value, w.identity(KindName(r.kind), r.key, r.value), r.weight, true,
          false, 0)
    else if category == 2 then
      Row(OverlayRow, KindName(r.kind), r.key, r.value,
          if r.userInserted then w.identity(KindName(r.kind), r.key, r.value) else "", r.weight, r.userInserted,
          r.deleted, 0)
    else if category == 3 then Row(PositionRow, r.context, r.key, r.value, "", 0, true, false, r.position)
    else Row(SelectionRow, r.context, r.key, r.value, "", 0, true, false, r.count)
  }

  function RowsFor(w: Wire, rs: seq<StateRecord>, category: int): (rows: seq<Row>)
    requires AllBelong(rs, category)
    ensures |rows| == |rs|
    ensures forall i :: 0 <= i < |rs| ==> rows[i] == RowFor(w, rs[i], category)
  {
    if rs == [] then [] else [RowFor(w, rs[0], category)] + RowsFor(w, rs[1..], category)
  }

  /** What the visitor reads from an object with these members. */
  lemma RowFrom(w: Wire, line: string, record: map<Field, Json>, data: map<Field, Json>, name: string, kind: RowKind,
                code: string, word: string)
    requires Object(w, line) == Some(record) && Text(record, TypeKey) == Some(name) && RowKindOf(name) == Some(kind)
    requires Child(record, DataKey) == Some(data) && Text(data, CodeKey) == Some(code)
             && Text(data, WordKey) == Some(word)
    requires RowOf(w, line, 1).Some?
    ensures RowOf(w, line, 1) ==
            if kind.EntryRow? || kind.OverlayRow? then WordRow(w, record, data, kind, code, word, 1)
            else PlaceRow(data, kind, code, word)
  {
    hide Object, Text, Child, RowKindOf, WordRow, PlaceRow, Bounded;
  }

  lemma WordRowIs(w: Wire, r: StateRecord, category: int, stamp: string)
    requires Faithful(w) && Belongs(r, category) && category <= 2
    requires Object(w, LineOf(w, r, category, stamp)) == Some(JsonOf(w, r, category, stamp))
    requires RowOf(w, LineOf(w, r, category, stamp), 1).Some?
    ensures RowOf(w, LineOf(w, r, category, stamp), 1) == Some(RowFor(w, r, category))
  {
    hide WordRow, RowOf, Object, LineOf, RowFor;
    RecordKinds();
    var kind := if category == 1 then EntryRow else OverlayRow;
    RowFrom(w, LineOf(w, r, category, stamp), JsonOf(w, r, category, stamp), EntryData(w, r, stamp),
            if category == 1 then "entry" else "overlay", kind, r.key, r.value);
    WordRowValue(w, r, category, stamp);
  }

  lemma WordRowValue(w: Wire, r: StateRecord, category: int, stamp: string)
    requires Belongs(r, category) && category <= 2
    ensures var kind := if category == 1 then EntryRow else OverlayRow;
            var row := WordRow(w, JsonOf(w, r, category, stamp), EntryData(w, r, stamp), kind, r.key, r.value, 1);
            row.None? || row == Some(RowFor(w, r, category))
  {
    hide Bounded, KindName, KindOf;
  }

  lemma PlaceRowValue(w: Wire, r: StateRecord, category: int)
    requires Belongs(r, category) && category >= 3
    ensures var row :=
      PlaceRow(PlaceJson(r)[DataKey].fields, if category == 3 then PositionRow else SelectionRow, r.key, r.value);
            row.None? || row == Some(RowFor(w, r, category))
  {
    hide Bounded;
  }

  lemma PlaceRowIs(w: Wire, r: StateRecord, category: int, stamp: string)
    requires Faithful(w) && Belongs(r, category) && category >= 3
    requires Object(w, LineOf(w, r, category, stamp)) == Some(JsonOf(w, r, category, stamp))
    requires RowOf(w, LineOf(w, r, category, stamp), 1).Some?
    ensures RowOf(w, LineOf(w, r, category, stamp), 1) == Some(RowFor(w, r, category))
  {
    hide PlaceRow, RowOf, Object, LineOf, RowFor;
    RecordKinds();
    PlaceRowValue(w, r, category);
    var kind := if category == 3 then PositionRow else SelectionRow;
    RowFrom(w, LineOf(w, r, category, stamp), PlaceJson(r), PlaceJson(r)[DataKey].fields,
            if category == 3 then "position" else "selection", kind, r.key, r.value);
  }

  lemma RowIs(w: Wire, r: StateRecord, category: int, stamp: string)
    requires Faithful(w) && Belongs(r, category) && RowOf(w, LineOf(w, r, category, stamp), 1).Some?
    ensures RowOf(w, LineOf(w, r, category, stamp), 1) == Some(RowFor(w, r, category))
  {
    ParsedBack(w, JsonOf(w, r, category, stamp));
    if category <= 2 {
      WordRowIs(w, r, category, stamp);
    } else {
      PlaceRowIs(w, r, category, stamp);
    }
  }

  /** The table of an export, section by section. */
  function Table(w: Wire, state: seq<StateRecord>): seq<Row> {
    RowsFor(w, Of(state, 1), 1) + RowsFor(w, Of(state, 2), 2)
    + RowsFor(w, Of(state, 3), 3) + RowsFor(w, Of(state, 4), 4)
  }

  lemma {:induction false} RowsByLine(w: Wire, lines: seq<string>, rows: seq<Row>)
    requires |lines| == |rows| && forall i :: 0 <= i < |lines| ==> RowOf(w, lines[i], 1) == Some(rows[i])
    ensures Rows(w, lines, 1) == Some(rows)
  {
    hide RowOf;
    if lines != [] {
      var n := |lines| - 1;
      RowsByLine(w, lines[..n], rows[..n]);
      assert rows == rows[..n] + [rows[n]];
    }
  }

  lemma {:induction false} RowsAllSome(w: Wire, lines: seq<string>)
    requires AllRows(w, lines)
    ensures Rows(w, lines, 1).Some?
  {
    hide RowOf;
    if lines != [] {
      assert AllRows(w, lines[..|lines| - 1]);
      RowsAllSome(w, lines[..|lines| - 1]);
    }
  }

  lemma SectionRows(w: Wire, state: seq<StateRecord>, stamp: string, category: int)
    requires Faithful(w) && 1 <= category <= 4 && AllRows(w, Pick(Spool(w, state, stamp), category))
    ensures var lines, rows := Pick(Spool(w, state, stamp), category), RowsFor(w, Of(state, category), category);
            |lines| == |rows| && forall i :: 0 <= i < |lines| ==> RowOf(w, lines[i], 1) == Some(rows[i])
  {
    hide RowOf, RowFor, Spool, Pick;
    var lines, rs := Pick(Spool(w, state, stamp), category), Of(state, category);
    PickIsPartition(w, state, stamp, category);
    forall i | 0 <= i < |lines| ensures RowOf(w, lines[i], 1) == Some(RowFor(w, rs[i], category)) {
      RowIs(w, rs[i], category, stamp);
    }
  }

  predicate LinesGive(w: Wire, lines: seq<string>, rows: seq<Row>) {
    |lines| == |rows| && forall i :: 0 <= i < |lines| ==> RowOf(w, lines[i], 1) == Some(rows[i])
  }

  lemma GiveAppend(w: Wire, a: seq<string>, b: seq<string>, x: seq<Row>, y: seq<Row>)
    requires LinesGive(w, a, x) && LinesGive(w, b, y)
    ensures LinesGive(w, a + b, x + y)
  {
    hide RowOf;
  }

  lemma BodyRows(w: Wire, state: seq<StateRecord>, stamp: string)
    requires Faithful(w) && AllRows(w, Body(Spool(w, state, stamp)))
    ensures Rows(w, Body(Spool(w, state, stamp)), 1) == Some(Table(w, state))
  {
    hide RowOf, Spool, Pick, Of, RowsFor, LinesGive;
    var spool := Spool(w, state, stamp);
    var p1, p2, p3, p4 := Pick(spool, 1), Pick(spool, 2), Pick(spool, 3), Pick(spool, 4);
    RowsSplit(w, p1 + p2 + p3, p4);
    RowsSplit(w, p1 + p2, p3);
    RowsSplit(w, p1, p2);
    SectionGives(w, state, stamp, 1);
    SectionGives(w, state, stamp, 2);
    SectionGives(w, state, stamp, 3);
    SectionGives(w, state, stamp, 4);
    var r1, r2, r3, r4 :=
      RowsFor(w, Of(state, 1), 1), RowsFor(w, Of(state, 2), 2), RowsFor(w, Of(state, 3), 3),
      RowsFor(w, Of(state, 4), 4);
    GiveAppend(w, p1, p2, r1, r2);
    GiveAppend(w, p1 + p2, p3, r1 + r2, r3);
    GiveAppend(w, p1 + p2 + p3, p4, r1 + r2 + r3, r4);
    Given(w, p1 + p2 + p3 + p4, r1 + r2 + r3 + r4);
  }

  lemma SectionGives(w: Wire, state: seq<StateRecord>, stamp: string, category: int)
    requires Faithful(w) && 1 <= category <= 4 && AllRows(w, Pick(Spool(w, state, stamp), category))
    ensures LinesGive(w, Pick(Spool(w, state, stamp), category), RowsFor(w, Of(state, category), category))
  {
    hide RowOf, Spool, Pick;
    SectionRows(w, state, stamp, category);
  }

  lemma Given(w: Wire, lines: seq<string>, rows: seq<Row>)
    requires LinesGive(w, lines, rows)
    ensures Rows(w, lines, 1) == Some(rows)
  {
    hide RowOf;
    RowsByLine(w, lines, rows);
  }

  // ------------------------------------------------------------------------------------------------- distinct records

  /** Two records of a state that describe the same thing: the same word, or two words pinned to one place. */
  predicate Clash(a: StateRecord, b: StateRecord) {
    || (a.Entry? && b.Entry? && a.kind == b.kind && a.key == b.key && a.value == b.value)
    || (a.Position? && b.Position? && a.context == b.context
        && ((a.key == b.key && a.value == b.value) || a.position == b.position))
    || (a.Selection? && b.Selection? && a.context == b.context && a.key == b.key && a.value == b.value)
  }

  predicate NoClash(rs: seq<StateRecord>) {
    forall i, j :: 0 <= i < j < |rs| ==> !Clash(rs[i], rs[j])
  }

  lemma NoClashHead(r: StateRecord, rest: seq<StateRecord>)
    ensures NoClash([r] + rest) <==> NoClash(rest) && forall b :: b in rest ==> !Clash(r, b)
  {
    hide Clash;
    var all := [r] + rest;
    if NoClash(all) {
      forall i, j | 0 <= i < j < |rest| ensures !Clash(rest[i], rest[j]) {
        assert !Clash(all[i + 1], all[j + 1]);
      }
      forall b | b in rest ensures !Clash(r, b) {
        var i :| 0 <= i < |rest| && rest[i] == b;
        assert !Clash(all[0], all[i + 1]);
      }
    }
  }

  lemma {:induction false} OfMembers(state: seq<StateRecord>, category: int, r: StateRecord)
    ensures r in Of(state, category) <==> r in state && Belongs(r, category)
  {
    if state != [] {
      OfMembers(state[1..], category, r);
    }
  }

  lemma {:induction false} NoClashBySection(state: seq<StateRecord>)
    ensures NoClash(state) <==> NoClash(Of(state, 2)) && NoClash(Of(state, 3)) && NoClash(Of(state, 4))
    ensures NoClash(state) ==> NoClash(Of(state, 1))
  {
    if state != [] {
      var r, rest := state[0], state[1..];
      NoClashBySection(rest);
      assert state == [r] + rest;
      NoClashHead(r, rest);
      HeadSection(r, rest, 1);
      HeadSection(r, rest, 2);
      HeadSection(r, rest, 3);
      HeadSection(r, rest, 4);
    }
  }

  lemma HeadSection(r: StateRecord, rest: seq<StateRecord>, category: int)
    requires 1 <= category <= 4
    ensures !Belongs(r, category) ==> Of([r] + rest, category) == Of(rest, category)
    ensures Belongs(r, category) && category > 1 ==>
      (NoClash(Of([r] + rest, category)) <==> NoClash(Of(rest, category)) && forall b :: b in rest ==> !Clash(r, b))
    ensures Belongs(r, category) && NoClash(Of(rest, category)) && (forall b :: b in rest ==> !Clash(r, b)) ==>
      NoClash(Of([r] + rest, category))
  {
    var state := [r] + rest;
    assert state[1..] == rest;
    if Belongs(r, category) {
      assert Of(state, category) == [r] + Of(rest, category);
      NoClashHead(r, Of(rest, category));
      forall b ensures b in Of(rest, category) <==> b in rest && Belongs(b, category) {
        OfMembers(rest, category, b);
      }
      if category > 1 && NoClash(Of(state, category)) {
        forall b | b in rest ensures !Clash(r, b) {
          assert Clash(r, b) ==> Belongs(b, category);
        }
      }
    }
  }

  lemma KindNamesDiffer(a: Kind, b: Kind)
    ensures KindName(a) == KindName(b) <==> a == b
  {
    KindRoundTrip(a);
    KindRoundTrip(b);
  }

  lemma ConflictIsClash(w: Wire, a: StateRecord, b: StateRecord, category: int)
    requires DistinctIdentities(w) && 1 <= category <= 4 && Belongs(a, category) && Belongs(b, category)
    ensures Conflict(RowFor(w, a, category), RowFor(w, b, category)) <==> Clash(a, b)
  {
    if category <= 2 {
      KindNamesDiffer(a.kind, b.kind);
    }
  }

  lemma SectionUnique(w: Wire, rs: seq<StateRecord>, category: int)
    requires DistinctIdentities(w) && 1 <= category <= 4 && AllBelong(rs, category)
    ensures UniqueTable(RowsFor(w, rs, category)) <==> NoClash(rs)
  {
    hide Conflict, Clash, RowFor, Belongs;
    var rows := RowsFor(w, rs, category);
    forall i, j | 0 <= i < j < |rs| ensures Conflict(rows[i], rows[j]) <==> Clash(rs[i], rs[j]) {
      ConflictIsClash(w, rs[i], rs[j], category);
    }
    if UniqueTable(rows) {
      forall i, j | 0 <= i < j < |rs| ensures !Clash(rs[i], rs[j]) {
        assert !Conflict(rows[i], rows[j]);
      }
    }
  }

  predicate OfKind(rows: seq<Row>, kinds: set<RowKind>) {
    forall i :: 0 <= i < |rows| ==> rows[i].kind in kinds
  }

  lemma UniqueApart(a: seq<Row>, b: seq<Row>, x: set<RowKind>, y: set<RowKind>)
    requires OfKind(a, x) && OfKind(b, y) && x !! y
    ensures UniqueTable(a + b) <==> UniqueTable(a) && UniqueTable(b)
  {
    var all := a + b;
    if UniqueTable(all) {
      forall i, j | 0 <= i < j < |a| ensures !Conflict(a[i], a[j]) {
        assert !Conflict(all[i], all[j]);
      }
      forall i, j | 0 <= i < j < |b| ensures !Conflict(b[i], b[j]) {
        assert !Conflict(all[|a| + i], all[|a| + j]);
      }
    }
    if UniqueTable(a) && UniqueTable(b) {
      forall i, j | 0 <= i < j < |all| ensures !Conflict(all[i], all[j]) {
        if j < |a| {
          assert !Conflict(a[i], a[j]);
        } else if i >= |a| {
          assert !Conflict(b[i - |a|], b[j - |a|]);
        } else {
          assert all[i].kind in x && all[j].kind in y;
        }
      }
    }
  }

  /** The table's key and indexes accept the export exactly when no two records of the state describe the same thing. */
  lemma TableUnique(w: Wire, state: seq<StateRecord>)
    requires DistinctIdentities(w)
    ensures UniqueTable(Table(w, state)) <==> NoClash(state)
  {
    hide UniqueTable, NoClash, Of;
    var r1, r2 := RowsFor(w, Of(state, 1), 1), RowsFor(w, Of(state, 2), 2);
    var r3, r4 := RowsFor(w, Of(state, 3), 3), RowsFor(w, Of(state, 4), 4);
    SectionUnique(w, Of(state, 1), 1);
    SectionUnique(w, Of(state, 2), 2);
    SectionUnique(w, Of(state, 3), 3);
    SectionUnique(w, Of(state, 4), 4);
    UniqueApart(r1, r2, {EntryRow}, {OverlayRow});
    UniqueApart(r1 + r2, r3, {EntryRow, OverlayRow}, {PositionRow});
    UniqueApart(r1 + r2 + r3, r4, {EntryRow, OverlayRow, PositionRow}, {SelectionRow});
    NoClashBySection(state);
  }

  lemma TableMembers(w: Wire, state: seq<StateRecord>, row: Row)
    ensures row in Table(w, state) <==>
            exists r, category ::
              1 <= category <= 4 && r in state && Belongs(r, category) && RowFor(w, r, category) == row
  {
    hide Of, RowsFor, RowFor, Belongs;
    if row in Table(w, state) {
      var category :| 1 <= category <= 4 && row in RowsFor(w, Of(state, category), category);
      FromSection(w, state, row, category);
    }
    if r, category :| 1 <= category <= 4 && r in state && Belongs(r, category) && RowFor(w, r, category) == row {
      RowIn(w, state, r, category);
    }
  }

  lemma FromSection(w: Wire, state: seq<StateRecord>, row: Row, category: int)
    requires 1 <= category <= 4 && row in RowsFor(w, Of(state, category), category)
    ensures exists r :: r in state && Belongs(r, category) && RowFor(w, r, category) == row
  {
    hide Of, RowsFor, RowFor, Belongs;
    var rs := Of(state, category);
    var i :| 0 <= i < |rs| && RowsFor(w, rs, category)[i] == row;
    OfMembers(state, category, rs[i]);
  }

  lemma RowIn(w: Wire, state: seq<StateRecord>, r: StateRecord, category: int)
    requires 1 <= category <= 4 && r in state && Belongs(r, category)
    ensures RowFor(w, r, category) in Table(w, state)
  {
    hide Of, RowsFor, RowFor;
    InSection(w, state, r, category);
    var row := RowFor(w, r, category);
    if category == 1 { assert row in RowsFor(w, Of(state, 1), 1); }
    else if category == 2 { assert row in RowsFor(w, Of(state, 2), 2); }
    else if category == 3 { assert row in RowsFor(w, Of(state, 3), 3); }
    else { assert row in RowsFor(w, Of(state, 4), 4); }
  }

  lemma InSection(w: Wire, state: seq<StateRecord>, r: StateRecord, category: int)
    requires 1 <= category <= 4 && r in state && Belongs(r, category)
    ensures RowFor(w, r, category) in RowsFor(w, Of(state, category), category)
  {
    hide Of, RowsFor, RowFor;
    OfMembers(state, category, r);
    var rs := Of(state, category);
    var i :| 0 <= i < |rs| && rs[i] == r;
    assert RowsFor(w, rs, category)[i] == RowFor(w, r, category);
  }

  lemma SameRecord(state: seq<StateRecord>, a: StateRecord, b: StateRecord)
    requires NoClash(state) && a in state && b in state && Clash(a, b)
    ensures a == b
  {
    var i :| 0 <= i < |state| && state[i] == a;
    var j :| 0 <= j < |state| && state[j] == b;
    if j < i {
      assert Clash(state[j], state[i]);
    }
  }

  lemma EntriesMatch(w: Wire, state: seq<StateRecord>, e: Row)
    requires NoClash(state) && e in Table(w, state) && e.kind.EntryRow?
    ensures !EntryOffends(Table(w, state), e)
  {
    hide Table, Clash, NoClash;
    TableMembers(w, state, e);
    var r, category :| 1 <= category <= 4 && r in state && Belongs(r, category) && RowFor(w, r, category) == e;
    RowIn(w, state, r, 2);
    assert Partner(e, RowFor(w, r, 2));
    forall o | o in Table(w, state) && Partner(e, o) ensures o == RowFor(w, r, 2) {
      TableMembers(w, state, o);
      var r', c :| 1 <= c <= 4 && r' in state && Belongs(r', c) && RowFor(w, r', c) == o;
      KindNamesDiffer(r.kind, r'.kind);
      ClashOfWords(r, r');
      SameRecord(state, r, r');
    }
  }

  lemma ClashOfWords(a: StateRecord, b: StateRecord)
    requires a.Entry? && b.Entry? && a.kind == b.kind && a.key == b.key && a.value == b.value
    ensures Clash(a, b)
  {
  }

  lemma OverlaysMatch(w: Wire, state: seq<StateRecord>, o: Row)
    requires o in Table(w, state) && IsLive(o)
    ensures !OverlayOffends(Table(w, state), o)
  {
    hide Table;
    TableMembers(w, state, o);
    var r, category :| 1 <= category <= 4 && r in state && Belongs(r, category) && RowFor(w, r, category) == o;
    RowIn(w, state, r, 1);
    assert Partner(RowFor(w, r, 1), o);
  }

  /** Entries and live overlays of an export correspond whenever no two records describe the same thing. */
  lemma ExportCorresponds(w: Wire, state: seq<StateRecord>)
    requires NoClash(state)
    ensures QueryFindsNothing(Table(w, state))
  {
    hide Table, EntryOffends, OverlayOffends, NoClash;
    forall r | r in Table(w, state) ensures !EntryOffends(Table(w, state), r) && !OverlayOffends(Table(w, state), r) {
      if r.kind.EntryRow? {
        EntriesMatch(w, state, r);
      }
      OnlyKinds(Table(w, state), r);
      if IsLive(r) {
        OverlaysMatch(w, state, r);
      }
    }
  }

  lemma OnlyKinds(rows: seq<Row>, r: Row)
    ensures EntryOffends(rows, r) ==> r.kind.EntryRow?
    ensures OverlayOffends(rows, r) ==> IsLive(r)
  {
  }

  lemma {:induction false} CountOnly(rows: seq<Row>, more: seq<Row>)
    requires OfKind(more, {OverlayRow, PositionRow, SelectionRow})
    ensures EntryCount(rows + more) == EntryCount(rows)
  {
    if more == [] {
      assert rows + more == rows;
    } else {
      var n := |more| - 1;
      CountOnly(rows, more[..n]);
      assert (rows + more)[..|rows| + n] == rows + more[..n];
    }
  }

  lemma {:induction false} CountAll(rows: seq<Row>)
    requires OfKind(rows, {EntryRow})
    ensures EntryCount(rows) == |rows|
  {
    if rows != [] {
      CountAll(rows[..|rows| - 1]);
    }
  }

  function RowKindFor(category: int): RowKind {
    if category == 1 then EntryRow else if category == 2 then OverlayRow else if category == 3 then PositionRow
      else SelectionRow
  }

  lemma SectionKind(w: Wire, rs: seq<StateRecord>, category: int)
    requires 1 <= category <= 4 && AllBelong(rs, category)
    ensures OfKind(RowsFor(w, rs, category), {RowKindFor(category)})
  {
  }

  lemma KindsJoin(a: seq<Row>, b: seq<Row>, c: seq<Row>)
    requires OfKind(a, {OverlayRow}) && OfKind(b, {PositionRow}) && OfKind(c, {SelectionRow})
    ensures OfKind(a + b + c, {OverlayRow, PositionRow, SelectionRow})
  {
  }

  lemma TableEntries(w: Wire, state: seq<StateRecord>)
    ensures EntryCount(Table(w, state)) == |Of(state, 1)|
  {
    hide EntryCount, Of, RowsFor, OfKind;
    var r1, r2 := RowsFor(w, Of(state, 1), 1), RowsFor(w, Of(state, 2), 2);
    var r3, r4 := RowsFor(w, Of(state, 3), 3), RowsFor(w, Of(state, 4), 4);
    var more := r2 + r3 + r4;
    assert Table(w, state) == r1 + more;
    SectionKind(w, Of(state, 1), 1);
    SectionKind(w, Of(state, 2), 2);
    SectionKind(w, Of(state, 3), 3);
    SectionKind(w, Of(state, 4), 4);
    KindsJoin(r2, r3, r4);
    CountOnly(r1, more);
    CountAll(r1);
  }

  // ------------------------------------------------------------------------------------------ when an export succeeds

  /** The contents check refuses an export only for a line it cannot read, for too many entries, or because two records
      describe the same thing - never because of the entry-overlay query. */
  lemma ExportContents(w: Wire, state: seq<StateRecord>, stamp: string)
    requires Faithful(w) && DistinctIdentities(w)
    ensures var body := Body(Spool(w, state, stamp));
            ContentsValid(w, body, 1) <==>
            |body| <= RECORD_LIMIT && AllRows(w, body) && |Of(state, 1)| <= ENTRY_LIMIT && NoClash(state)
  {
    hide Spool, Body, AllRows, Rows, UniqueTable, NoClash, Of, Table, QueryFindsNothing, EntryCount;
    var body := Body(Spool(w, state, stamp));
    if Rows(w, body, 1).Some? {
      ValidHasRows(w, body);
    }
    if AllRows(w, body) {
      RowsAllSome(w, body);
      BodyRows(w, state, stamp);
      TableUnique(w, state);
      TableEntries(w, state);
      if NoClash(state) {
        ExportCorresponds(w, state);
      }
    }
  }

  lemma {:induction false} PicksCover(spool: seq<Spooled>)
    requires forall i :: 0 <= i < |spool| ==> 1 <= spool[i].category <= 4
    ensures |Body(spool)| == |spool|
  {
    if spool != [] {
      PicksCover(spool[1..]);
    }
  }

  lemma {:induction false} SpoolCategories(w: Wire, state: seq<StateRecord>, stamp: string)
    ensures forall i :: 0 <= i < |Spool(w, state, stamp)| ==> 1 <= Spool(w, state, stamp)[i].category <= 4
  {
    if state != [] {
      SpoolCategories(w, state[1..], stamp);
    }
  }

  /** The checks of an exported file look at exactly the printed body, under the revision the header declares. */
  lemma ExportIsChecked(w: Wire, state: seq<StateRecord>, stamp: string)
    requires Faithful(w)
    ensures var body := Body(Spool(w, state, stamp));
            var bytes := Join(PrintedLines(w, body));
            FileValid(w, bytes) <==> Accepted(w, bytes).Some? && ContentsValid(w, body, 1)
  {
    hide Spool, Body, Lines, Join, ContentsValid;
    var body := Body(Spool(w, state, stamp));
    PrintedIsPlain(w, state, stamp);
    PrintedShape(w, body);
    AcceptedIffWellFramed(w, Join(PrintedLines(w, body)));
    HeaderStays(w, body);
  }

  lemma HeaderStays(w: Wire, body: seq<string>)
    requires Faithful(w)
    ensures WellFramed(w, PrintedLines(w, body)) ==> Declared(w, PrintedLines(w, body)[0]) == 1
  {
    hide Join, Category, IsFooter;
    PrintedShape(w, body);
    if WellFramed(w, PrintedLines(w, body)) {
      HeaderDeclaresOne(w);
    }
  }

  /** When an export succeeds, told by its lines. */
  lemma ExportSucceedsByLine(w: Wire, state: seq<StateRecord>, stamp: string)
    requires Faithful(w) && DistinctIdentities(w)
    ensures var spool := Spool(w, state, stamp);
            var lines := PrintedLines(w, Body(spool));
            Exported(w, state, stamp).Some? <==>
            && AllRepresentable(state) && SpoolFits(spool) && |Join(lines)| <= SIZE_LIMIT
            && AllTransportable(w, lines) && AllRows(w, Body(spool))
            && |Of(state, 1)| <= ENTRY_LIMIT && NoClash(state)
  {
    hide Spool, Body, PrintedLines, AllRows, AllTransportable, WellFramed, Lines, Join, Accepted, ContentsValid, Of,
         NoClash, AllRepresentable, FileValid;
    ExportIsChecked(w, state, stamp);
    var spool := Spool(w, state, stamp);
    var lines := PrintedLines(w, Body(spool));
    PrintedIsPlain(w, state, stamp);
    AcceptedIffWellFramed(w, Join(lines));
    ExportIsFramed(w, state, stamp);
    ExportContents(w, state, stamp);
    SpoolCategories(w, state, stamp);
    PicksCover(spool);
  }
}
