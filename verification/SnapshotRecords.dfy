/** What a snapshot file must look like, in terms of the members of its JSON objects and nothing else: exactly the
    files the envelope automaton and the contents check accept together. */
module SnapshotRecords {
  import opened Optional
  import opened SnapshotFormat
  import opened SnapshotEnvelope
  import opened SnapshotContents
  import opened SnapshotExport

  /** Text of at most so many bytes, without NUL, tab or line ends. */
  predicate CleanText(j: Json, maximum: nat) {
    && j.Str? && 1 <= |j.s| <= maximum
    && '\0' !in j.s && '\t' !in j.s && '\r' !in j.s && '\n' !in j.s
  }

  predicate WholeIn(j: Json, lowest: int, highest: int) {
    j.Int? && lowest <= j.i <= highest
  }

  const WORD_MEMBERS: set<Field> := {IdKey, KindKey, CodeKey, WordKey, WeightKey, RevisionKey, UpdatedKey}

  /** The data of an entry or an overlay: exactly these members; a live word weighs at least one, a deleted one may
      weigh nothing; an entry has an identifier and belongs to the user. */
  ghost predicate ValidWord(w: Wire, data: map<Field, Json>, deleted: bool, entry: bool, limit: int) {
    && (data.Keys == WORD_MEMBERS || (data.Keys == WORD_MEMBERS + {InsertedKey} && data[InsertedKey].Bool?))
    && data[KindKey] in {Str("pinyin"), Str("wubi"), Str("english"), Str("quick")}
    && CleanText(data[CodeKey], 512) && CleanText(data[WordKey], 2048)
    && WholeIn(data[WeightKey], if deleted then 0 else 1, 100000000)
    && WholeIn(data[RevisionKey], 1, limit)
    && data[UpdatedKey].Str? && w.stamp(data[UpdatedKey].s)
    && data[IdKey].Str?
    && (entry ==> CleanText(data[IdKey], 128) && (InsertedKey in data ==> data[InsertedKey] == Bool(true)))
  }

  /** The data of a position or a selection. */
  ghost predicate ValidPlace(data: map<Field, Json>, field: Field, lowest: int, highest: int) {
    && data.Keys == {ContextKey, CodeKey, WordKey, field}
    && CleanText(data[ContextKey], 512) && CleanText(data[CodeKey], 512) && CleanText(data[WordKey], 2048)
    && |data[ContextKey].s| + |data[CodeKey].s| + |data[WordKey].s| <= 2048
    && WholeIn(data[field], lowest, highest)
  }

  /** A record object of the given category: 1 entry, 2 overlay, 3 position, 4 selection. */
  ghost predicate ValidRecord(w: Wire, o: map<Field, Json>, limit: int, category: int) {
    && o.Keys == (if category == 2 then {TypeKey, DeletedKey, DataKey} else {TypeKey, DataKey})
    && o[DataKey].Obj?
    && match category
       case 1 => o[TypeKey] == Str("entry") && ValidWord(w, o[DataKey].fields, false, true, limit)
       case 2 => o[TypeKey] == Str("overlay") && o[DeletedKey].Bool?
                 && ValidWord(w, o[DataKey].fields, o[DeletedKey].b, false, limit)
       case 3 => o[TypeKey] == Str("position") && ValidPlace(o[DataKey].fields, PositionKey, 1, 5)
       case 4 => o[TypeKey] == Str("selection") && ValidPlace(o[DataKey].fields, CountKey, 0, 10)
       case _ => false
  }

  /** A line both parsers read as an object; the strict one has the last word. */
  predicate ReadsAs(w: Wire, line: string, o: map<Field, Json>) {
    1 <= |line| <= 65535 && w.strict(line) && w.parse(line) == Some(Obj(o))
  }

  function TextIn(o: map<Field, Json>, k: Field): string {
    if k in o && o[k].Str? then o[k].s else ""
  }

  function NumberIn(o: map<Field, Json>, k: Field): int {
    if k in o && o[k].Int? then o[k].i else 0
  }

  function DataIn(o: map<Field, Json>): map<Field, Json> {
    if DataKey in o && o[DataKey].Obj? then o[DataKey].fields else map[]
  }

  /** The table row a valid record stands for. */
  function RowIn(o: map<Field, Json>, category: int): Row {
    var data := DataIn(o);
    var code, word := TextIn(data, CodeKey), TextIn(data, WordKey);
    var owned := InsertedKey !in data || data[InsertedKey] == Bool(true);
    var deleted := DeletedKey in o && o[DeletedKey] == Bool(true);
    if category == 1 then
      Row(EntryRow, TextIn(data, KindKey), code, word, TextIn(data, IdKey), NumberIn(data, WeightKey), owned, false, 0)
    else if category == 2 then
      Row(OverlayRow, TextIn(data, KindKey), code, word, TextIn(data, IdKey), NumberIn(data, WeightKey), owned,
          deleted, 0)
    else if category == 3 then
      Row(PositionRow, TextIn(data, ContextKey), code, word, "", 0, true, false, NumberIn(data, PositionKey))
    else
      Row(SelectionRow, TextIn(data, ContextKey), code, word, "", 0, true, false, NumberIn(data, CountKey))
  }

  // ------------------------------------------------------------------------------------------------- exact members

  lemma SameSize(s: set<Field>, t: set<Field>)
    requires s <= t
    ensures |s| == |t| <==> s == t
  {
    assert t == s + (t - s);
    assert |t| == |s| + |t - s|;
  }

  /** Members that are all there, and as many as there are, are all of them. */
  lemma AllMembers(o: map<Field, Json>, s: set<Field>)
    requires s <= o.Keys
    ensures |o| == |s| <==> o.Keys == s
  {
    SameSize(s, o.Keys);
    assert |o| == |o.Keys|;
  }

  lemma MemberCounts()
    ensures |WORD_MEMBERS| == 7 && |WORD_MEMBERS + {InsertedKey}| == 8
    ensures |{TypeKey, DataKey}| == 2 && |{TypeKey, DeletedKey, DataKey}| == 3
    ensures |{ContextKey, CodeKey, WordKey, PositionKey}| == 4 && |{ContextKey, CodeKey, WordKey, CountKey}| == 4
    ensures |{TypeKey, FormatKey, VersionKey, RevisionKey}| == 4 && |{TypeKey, RecordsKey, ShaKey}| == 3
  {
  }

  lemma CleanIsBounded(o: map<Field, Json>, k: Field, maximum: nat)
    ensures BoundedText(o, k, maximum).Some? <==> k in o && CleanText(o[k], maximum)
    ensures BoundedText(o, k, maximum).Some? ==> BoundedText(o, k, maximum).value == o[k].s == TextIn(o, k)
  {
  }

  lemma KindNames(name: string)
    ensures KindOf(name).Some? <==> Str(name) in {Str("pinyin"), Str("wubi"), Str("english"), Str("quick")}
  {
    if KindOf(name).Some? {
      assert name == "pinyin" || name == "wubi" || name == "english" || name == "quick";
    }
  }

  // ---------------------------------------------------------------------------------------------------- word records

  ghost predicate WordMembersFit(w: Wire, record: map<Field, Json>, data: map<Field, Json>, kind: RowKind, limit: int) {
    && CodeKey in data && CleanText(data[CodeKey], 512) && WordKey in data && CleanText(data[WordKey], 2048)
    && WordRow(w, record, data, kind, data[CodeKey].s, data[WordKey].s, limit).Some?
  }

  lemma OwnedMembers(data: map<Field, Json>)
    requires WORD_MEMBERS <= data.Keys
    ensures Owned(data).Some? <==>
            data.Keys == WORD_MEMBERS || (data.Keys == WORD_MEMBERS + {InsertedKey} && data[InsertedKey].Bool?)
    ensures Owned(data).Some? ==> Owned(data).value == (if InsertedKey in data then data[InsertedKey].b else true)
  {
    MemberCounts();
    AllMembers(data, WORD_MEMBERS);
    if InsertedKey in data {
      AllMembers(data, WORD_MEMBERS + {InsertedKey});
    }
  }

  lemma WordMembersThere(w: Wire, record: map<Field, Json>, data: map<Field, Json>, kind: RowKind, limit: int)
    requires WordMembersFit(w, record, data, kind, limit)
    ensures WORD_MEMBERS <= data.Keys
  {
    hide CleanText, KindOf, Owned, Bounded;
  }

  lemma WordFitsIff(w: Wire, record: map<Field, Json>, data: map<Field, Json>, kind: RowKind, deleted: bool, limit: int)
    requires kind.EntryRow? || kind.OverlayRow?
    requires if kind.OverlayRow? then DeletedKey in record && record[DeletedKey] == Bool(deleted) else !deleted
    ensures WordMembersFit(w, record, data, kind, limit) <==> ValidWord(w, data, deleted, kind.EntryRow?, limit)
  {
    hide CleanText, KindOf, Owned, Bounded;
    if WordMembersFit(w, record, data, kind, limit) {
      WordMembersThere(w, record, data, kind, limit);
    }
    if WORD_MEMBERS <= data.Keys {
      OwnedMembers(data);
      WordPieces(w, record, data, kind, deleted, limit);
    }
  }

  lemma WordPieces(w: Wire, record: map<Field, Json>, data: map<Field, Json>, kind: RowKind, deleted: bool, limit: int)
    requires (kind.EntryRow? || kind.OverlayRow?) && WORD_MEMBERS <= data.Keys
    requires if kind.OverlayRow? then DeletedKey in record && record[DeletedKey] == Bool(deleted) else !deleted
    requires Owned(data).Some? <==>
             data.Keys == WORD_MEMBERS || (data.Keys == WORD_MEMBERS + {InsertedKey} && data[InsertedKey].Bool?)
    requires Owned(data).Some? ==> Owned(data).value == (if InsertedKey in data then data[InsertedKey].b else true)
    ensures WordMembersFit(w, record, data, kind, limit) <==> ValidWord(w, data, deleted, kind.EntryRow?, limit)
  {
    hide KindOf, Owned;
    CleanIsBounded(data, IdKey, 128);
    if data[KindKey].Str? {
      KindNames(data[KindKey].s);
    }
  }

  lemma WordRowIs(w: Wire, o: map<Field, Json>, kind: RowKind, deleted: bool, limit: int)
    requires kind.EntryRow? || kind.OverlayRow?
    requires if kind.OverlayRow? then DeletedKey in o && o[DeletedKey] == Bool(deleted) else !deleted
    requires ValidWord(w, DataIn(o), deleted, kind.EntryRow?, limit)
    ensures var data := DataIn(o);
            WordRow(w, o, data, kind, TextIn(data, CodeKey), TextIn(data, WordKey), limit) ==
            Some(RowIn(o, if kind.EntryRow? then 1 else 2))
  {
    hide CleanText, KindOf, Owned, Bounded;
    OwnedMembers(DataIn(o));
    WordFitsIff(w, o, DataIn(o), kind, deleted, limit);
  }

  // --------------------------------------------------------------------------------------------------- place records

  ghost predicate PlaceMembersFit(data: map<Field, Json>, kind: RowKind) {
    && CodeKey in data && CleanText(data[CodeKey], 512) && WordKey in data && CleanText(data[WordKey], 2048)
    && PlaceRow(data, kind, data[CodeKey].s, data[WordKey].s).Some?
  }

  lemma PlaceFitsIff(data: map<Field, Json>, kind: RowKind)
    requires kind.PositionRow? || kind.SelectionRow?
    ensures PlaceMembersFit(data, kind) <==>
            if kind.PositionRow? then ValidPlace(data, PositionKey, 1, 5) else ValidPlace(data, CountKey, 0, 10)
  {
    hide CleanText, Bounded;
    CleanIsBounded(data, ContextKey, 512);
    MemberCounts();
    var field := if kind.PositionRow? then PositionKey else CountKey;
    if {ContextKey, CodeKey, WordKey, field} <= data.Keys {
      AllMembers(data, {ContextKey, CodeKey, WordKey, field});
    }
  }

  lemma PlaceRowIs(o: map<Field, Json>, kind: RowKind)
    requires kind.PositionRow? || kind.SelectionRow?
    requires if kind.PositionRow? then ValidPlace(DataIn(o), PositionKey, 1, 5)
      else ValidPlace(DataIn(o), CountKey, 0, 10)
    ensures var data := DataIn(o);
            PlaceRow(data, kind, TextIn(data, CodeKey), TextIn(data, WordKey)) ==
            Some(RowIn(o, if kind.PositionRow? then 3 else 4))
  {
    hide Bounded;
    CleanIsBounded(DataIn(o), ContextKey, 512);
    PlaceFitsIff(DataIn(o), kind);
  }

  // ------------------------------------------------------------------------------------------------------- one line

  function NameOf(category: int): string {
    if category == 1 then "entry" else if category == 2 then "overlay" else if category == 3 then "position"
      else "selection"
  }

  function KindFor(category: int): RowKind {
    if category == 1 then EntryRow else if category == 2 then OverlayRow else if category == 3 then PositionRow
    else SelectionRow
  }

  lemma NamesAndKinds(name: string, category: int)
    requires 1 <= category <= 4
    ensures CategoryOf(name) == category <==> name == NameOf(category)
    ensures name == NameOf(category) ==> RowKindOf(name) == Some(KindFor(category))
  {
    assert |"entry"| == 5 && |"overlay"| == 7 && |"position"| == 8 && |"selection"| == 9;
  }

  /** The members the envelope asks of a record. */
  predicate Shaped(o: map<Field, Json>, category: int) {
    && o.Keys == (if category == 2 then {TypeKey, DeletedKey, DataKey} else {TypeKey, DataKey})
    && o[TypeKey] == Str(NameOf(category)) && o[DataKey].Obj? && (category == 2 ==> o[DeletedKey].Bool?)
  }

  lemma ShapedIff(o: map<Field, Json>, category: int)
    requires 1 <= category <= 4
    ensures Text(o, TypeKey).Some? && CategoryOf(Text(o, TypeKey).value) == category && RecordShape(o, category) <==>
            Shaped(o, category)
  {
    hide CategoryOf;
    MemberCounts();
    if Text(o, TypeKey).Some? {
      NamesAndKinds(Text(o, TypeKey).value, category);
      var members := if category == 2 then {TypeKey, DeletedKey, DataKey} else {TypeKey, DataKey};
      if members <= o.Keys {
        AllMembers(o, members);
      }
    }
  }

  lemma ShapedCategory(w: Wire, line: string, category: int)
    requires 1 <= category <= 4
    ensures Category(w, line) == category <==> exists o :: ReadsAs(w, line, o) && Shaped(o, category)
  {
    hide CategoryOf, RecordShape, Shaped;
    match StrictObject(w, line) {
      case None =>
      case Some(o) =>
        assert w.parse(line) == Some(Obj(o));
        assert RightSize(line) <==> ReadsAs(w, line, o);
        ShapedIff(o, category);
    }
  }

  /** The contents check of a shaped record. */
  lemma ShapedRow(w: Wire, line: string, o: map<Field, Json>, limit: int, category: int)
    requires 1 <= category <= 4 && w.parse(line) == Some(Obj(o)) && Shaped(o, category)
    ensures RowOf(w, line, limit).Some? <==> ValidRecord(w, o, limit, category)
    ensures RowOf(w, line, limit).Some? ==> RowOf(w, line, limit) == Some(RowIn(o, category))
  {
    hide CleanText, Bounded, WordRow, PlaceRow, ValidWord, ValidPlace, RowIn, RowKindOf, BoundedText;
    var data := o[DataKey].fields;
    assert data == DataIn(o);
    NamesAndKinds(NameOf(category), category);
    CleanIsBounded(data, CodeKey, 512);
    CleanIsBounded(data, WordKey, 2048);
    if category <= 2 {
      ShapedWord(w, line, o, limit, category);
    } else {
      ShapedPlace(w, line, o, limit, category);
    }
  }

  lemma ShapedWord(w: Wire, line: string, o: map<Field, Json>, limit: int, category: int)
    requires 1 <= category <= 2 && w.parse(line) == Some(Obj(o)) && Shaped(o, category)
    ensures RowOf(w, line, limit).Some? <==> ValidRecord(w, o, limit, category)
    ensures RowOf(w, line, limit).Some? ==> RowOf(w, line, limit) == Some(RowIn(o, category))
  {
    hide CleanText, Bounded, WordRow, PlaceRow, ValidWord, ValidPlace, RowIn, RowKindOf, BoundedText;
    var data := o[DataKey].fields;
    var deleted := category == 2 && o[DeletedKey].b;
    NamesAndKinds(NameOf(category), category);
    CleanIsBounded(data, CodeKey, 512);
    CleanIsBounded(data, WordKey, 2048);
    WordFitsIff(w, o, data, KindFor(category), deleted, limit);
    if ValidWord(w, data, deleted, category == 1, limit) {
      WordRowIs(w, o, KindFor(category), deleted, limit);
    }
  }

  lemma ShapedPlace(w: Wire, line: string, o: map<Field, Json>, limit: int, category: int)
    requires 3 <= category <= 4 && w.parse(line) == Some(Obj(o)) && Shaped(o, category)
    ensures RowOf(w, line, limit).Some? <==> ValidRecord(w, o, limit, category)
    ensures RowOf(w, line, limit).Some? ==> RowOf(w, line, limit) == Some(RowIn(o, category))
  {
    hide CleanText, Bounded, WordRow, PlaceRow, ValidWord, ValidPlace, RowIn, RowKindOf, BoundedText;
    var data := o[DataKey].fields;
    NamesAndKinds(NameOf(category), category);
    CleanIsBounded(data, CodeKey, 512);
    CleanIsBounded(data, WordKey, 2048);
    PlaceFitsIff(data, KindFor(category));
    if PlaceMembersFit(data, KindFor(category)) {
      PlaceRowIs(o, KindFor(category));
    }
  }

  ghost predicate ValidLine(w: Wire, line: string, limit: int, category: int) {
    exists o :: ReadsAs(w, line, o) && ValidRecord(w, o, limit, category)
  }

  /** A record line passes both checks, as a record of a category, exactly when its object has exactly the members of
      that category with values in their ranges; the row it adds holds those values. */
  lemma LineAcceptedIff(w: Wire, line: string, limit: int, category: int)
    requires 1 <= category <= 4
    ensures Category(w, line) == category && RowOf(w, line, limit).Some? <==> ValidLine(w, line, limit, category)
    ensures forall o :: ReadsAs(w, line, o) && ValidRecord(w, o, limit, category) ==>
              RowOf(w, line, limit) == Some(RowIn(o, category))
  {
    hide Category, RowOf, ValidRecord, RowIn, Shaped;
    ShapedCategory(w, line, category);
    forall o | ReadsAs(w, line, o)
      ensures ValidRecord(w, o, limit, category) ==>
        Shaped(o, category) && RowOf(w, line, limit) == Some(RowIn(o, category))
      ensures Shaped(o, category) && RowOf(w, line, limit).Some? ==> ValidRecord(w, o, limit, category)
    {
      if ValidRecord(w, o, limit, category) {
        ValidIsShaped(w, o, limit, category);
      }
      if Shaped(o, category) {
        ShapedRow(w, line, o, limit, category);
      }
    }
  }

  lemma ValidIsShaped(w: Wire, o: map<Field, Json>, limit: int, category: int)
    requires 1 <= category <= 4 && ValidRecord(w, o, limit, category)
    ensures Shaped(o, category)
  {
    hide ValidWord, ValidPlace;
  }

  // ------------------------------------------------------------------------------------------------------- the frame

  ghost predicate ValidHeader(w: Wire, line: string, revision: int) {
    revision >= 0 && exists o ::
      && ReadsAs(w, line, o) && o.Keys == {TypeKey, FormatKey, VersionKey, RevisionKey}
      && o[TypeKey] == Str("header") && o[FormatKey] == Str("msime-dictionary-snapshot") && o[VersionKey] == Int(1)
      && o[RevisionKey] == Int(revision)
  }

  ghost predicate ValidFooter(w: Wire, line: string, records: nat, hashed: string) {
    exists o ::
      && ReadsAs(w, line, o) && o.Keys == {TypeKey, RecordsKey, ShaKey}
      && o[TypeKey] == Str("footer") && o[RecordsKey] == Int(records) && o[ShaKey] == Str(w.digest(hashed))
  }

  lemma HeaderIff(w: Wire, line: string)
    ensures IsHeader(w, line) ==> ValidHeader(w, line, Declared(w, line))
    ensures forall revision :: ValidHeader(w, line, revision) ==> IsHeader(w, line) && Declared(w, line) == revision
  {
    MemberCounts();
    if IsHeader(w, line) {
      var o := StrictObject(w, line).value;
      AllMembers(o, {TypeKey, FormatKey, VersionKey, RevisionKey});
      assert ReadsAs(w, line, o);
    }
    forall revision | ValidHeader(w, line, revision) ensures IsHeader(w, line) && Declared(w, line) == revision {
      var o :| ReadsAs(w, line, o) && o.Keys == {TypeKey, FormatKey, VersionKey, RevisionKey}
               && o[TypeKey] == Str("header") && o[FormatKey] == Str("msime-dictionary-snapshot")
               && o[VersionKey] == Int(1) && o[RevisionKey] == Int(revision);
      AllMembers(o, {TypeKey, FormatKey, VersionKey, RevisionKey});
    }
  }

  lemma FooterIff(w: Wire, line: string, records: nat, hashed: string)
    ensures IsFooter(w, line, records, hashed) <==> ValidFooter(w, line, records, hashed)
  {
    MemberCounts();
    if IsFooter(w, line, records, hashed) {
      var o := StrictObject(w, line).value;
      AllMembers(o, {TypeKey, RecordsKey, ShaKey});
      assert ReadsAs(w, line, o);
    }
    if ValidFooter(w, line, records, hashed) {
      var o :| ReadsAs(w, line, o) && o.Keys == {TypeKey, RecordsKey, ShaKey}
               && o[TypeKey] == Str("footer") && o[RecordsKey] == Int(records) && o[ShaKey] == Str(w.digest(hashed));
      AllMembers(o, {TypeKey, RecordsKey, ShaKey});
    }
  }

  // ------------------------------------------------------------------------------------------------------- the table

  /** No two records of one kind describe the same word, no two entries share an identifier, and no two positions of one
      context share a slot. */
  predicate AllDistinct(rows: seq<Row>) {
    && (forall i, j :: 0 <= i < j < |rows| ==>
          (rows[i].kind, rows[i].scope, rows[i].code, rows[i].word) !=
            (rows[j].kind, rows[j].scope, rows[j].code, rows[j].word))
    && (forall i, j :: 0 <= i < j < |rows| ==>
          rows[i].kind.EntryRow? && rows[j].kind.EntryRow? ==> rows[i].id != rows[j].id)
    && (forall i, j :: 0 <= i < j < |rows| ==>
          rows[i].kind.PositionRow? && rows[j].kind.PositionRow? ==>
            (rows[i].scope, rows[i].slot) != (rows[j].scope, rows[j].slot))
  }

  lemma DistinctIff(rows: seq<Row>)
    ensures UniqueTable(rows) <==> AllDistinct(rows)
  {
    if AllDistinct(rows) {
      forall i, j | 0 <= i < j < |rows| ensures !Conflict(rows[i], rows[j]) {
        assert (rows[i].kind, rows[i].scope, rows[i].code, rows[i].word)
               != (rows[j].kind, rows[j].scope, rows[j].code, rows[j].word);
      }
    }
    if UniqueTable(rows) {
      forall i, j | 0 <= i < j < |rows|
        ensures (rows[i].kind, rows[i].scope, rows[i].code, rows[i].word)
                != (rows[j].kind, rows[j].scope, rows[j].code, rows[j].word)
        ensures rows[i].kind.EntryRow? && rows[j].kind.EntryRow? ==> rows[i].id != rows[j].id
        ensures rows[i].kind.PositionRow? && rows[j].kind.PositionRow? ==>
                  (rows[i].scope, rows[i].slot) != (rows[j].scope, rows[j].slot)
      {
        assert !Conflict(rows[i], rows[j]);
      }
    }
  }

  lemma {:induction false} EntriesAreCounted(rows: seq<Row>)
    ensures |Entries(rows)| == EntryCount(rows)
  {
    if rows != [] {
      EntriesAreCounted(rows[..|rows| - 1]);
    }
  }

  function Rank(kind: RowKind): int {
    match kind case EntryRow => 1 case OverlayRow => 2 case PositionRow => 3 case SelectionRow => 4
  }

  /** The line is a valid record and the row says what it holds. */
  ghost predicate Stands(w: Wire, line: string, limit: int, row: Row) {
    exists o, category ::
      1 <= category <= 4 && ReadsAs(w, line, o) && ValidRecord(w, o, limit, category) && row == RowIn(o, category)
  }

  lemma StandsIff(w: Wire, line: string, limit: int, row: Row)
    ensures Stands(w, line, limit, row) <==>
            Category(w, line) >= 1 && RowOf(w, line, limit) == Some(row)
    ensures Stands(w, line, limit, row) ==> Category(w, line) == Rank(row.kind)
  {
    hide Category, RowOf, ValidRecord, ReadsAs;
    CategoryRange(w, line);
    if Category(w, line) >= 1 && RowOf(w, line, limit) == Some(row) {
      var category := Category(w, line);
      LineAcceptedIff(w, line, limit, category);
      var o :| ReadsAs(w, line, o) && ValidRecord(w, o, limit, category);
    }
    if Stands(w, line, limit, row) {
      var o, category :| 1 <= category <= 4 && ReadsAs(w, line, o) && ValidRecord(w, o, limit, category)
                         && row == RowIn(o, category);
      LineAcceptedIff(w, line, limit, category);
    }
  }

  lemma CategoryRange(w: Wire, line: string)
    ensures Category(w, line) == -1 || 1 <= Category(w, line) <= 4
  {
    hide RecordShape, StrictObject;
  }

  // -------------------------------------------------------------------------------------------------------- the file

  /** The record lines stand for these rows: in category order, within the limits, all distinct, and with entries and
      live owned overlays in one-to-one correspondence. */
  ghost predicate ValidTable(w: Wire, lines: seq<string>, limit: int, rows: seq<Row>) {
    && |rows| == |lines| <= 500000
    && (forall i :: 0 <= i < |lines| ==> Stands(w, lines[i], limit, rows[i]))
    && (forall i, j :: 0 <= i < j < |rows| ==> Rank(rows[i].kind) <= Rank(rows[j].kind))
    && AllDistinct(rows)
    && |Entries(rows)| <= 100000 && multiset(Entries(rows)) == multiset(LiveOverlays(rows))
  }

  ghost predicate Tabulates(w: Wire, lines: seq<string>, revision: int, rows: seq<Row>)
    requires |lines| >= 2
  {
    ValidHeader(w, lines[0], revision) && ValidTable(w, lines[1..|lines| - 1], revision, rows)
  }

  ghost predicate ValidFile(w: Wire, bytes: string) {
    var lines := Lines(bytes);
    && |bytes| <= 536870912 && |lines| >= 2
    && ValidFooter(w, lines[|lines| - 1], |lines| - 1, Join(lines[..|lines| - 1]))
    && exists revision, rows :: Tabulates(w, lines, revision, rows)
  }

  lemma {:induction false} RowsByLine(w: Wire, lines: seq<string>, limit: int, rows: seq<Row>)
    requires |lines| == |rows| && forall i :: 0 <= i < |lines| ==> RowOf(w, lines[i], limit) == Some(rows[i])
    ensures Rows(w, lines, limit) == Some(rows)
  {
    hide RowOf;
    if lines != [] {
      var n := |lines| - 1;
      RowsByLine(w, lines[..n], limit, rows[..n]);
      assert rows == rows[..n] + [rows[n]];
    }
  }

  /** Which record lines the contents check accepts, and as which table. */
  lemma ContentsIff(w: Wire, lines: seq<string>, limit: int, rows: seq<Row>)
    requires |rows| == |lines| && forall i :: 0 <= i < |lines| ==> RowOf(w, lines[i], limit) == Some(rows[i])
    ensures ContentsValid(w, lines, limit) <==>
            && |lines| <= 500000 && |Entries(rows)| <= 100000 && AllDistinct(rows)
            && multiset(Entries(rows)) == multiset(LiveOverlays(rows))
  {
    hide RowOf, QueryFindsNothing, Entries, LiveOverlays, UniqueTable, AllDistinct;
    RowsByLine(w, lines, limit, rows);
    DistinctIff(rows);
    EntriesAreCounted(rows);
    if UniqueTable(rows) {
      QueryIsCorrespondence(rows);
    }
  }

  /** Exactly which files the two checks accept together. */
  lemma FileAcceptedIff(w: Wire, bytes: string)
    ensures FileValid(w, bytes) <==> ValidFile(w, bytes)
  {
    hide ContentsValid, ValidTable, ValidFooter, ValidHeader, Category, IsHeader, IsFooter, Join, Lines, Declared;
    var lines := Lines(bytes);
    AcceptedIffWellFramed(w, bytes);
    if FileValid(w, bytes) {
      AcceptedTable(w, lines);
    }
    if ValidFile(w, bytes) {
      var revision, rows :| Tabulates(w, lines, revision, rows);
      ValidAccepted(w, lines, revision, rows);
    }
  }

  lemma AcceptedTable(w: Wire, lines: seq<string>)
    requires WellFramed(w, lines) && ContentsValid(w, lines[1..|lines| - 1], Declared(w, lines[0]))
    ensures ValidFooter(w, lines[|lines| - 1], |lines| - 1, Join(lines[..|lines| - 1]))
    ensures exists rows :: Tabulates(w, lines, Declared(w, lines[0]), rows)
  {
    hide RowOf, Category, IsHeader, IsFooter, Join, Declared, Stands, AllDistinct, ValidFooter, ValidHeader;
    var n := |lines| - 1;
    var front, body, limit := lines[..n], lines[1..n], Declared(w, lines[0]);
    assert front[0] == lines[0];
    HeaderIff(w, lines[0]);
    FooterIff(w, lines[n], n, Join(front));
    var rows := Rows(w, body, limit).value;
    RowsPrefix(w, body, limit, |body|);
    forall i | 0 <= i < |body|
      ensures RowOf(w, body[i], limit) == Some(rows[i]) && Stands(w, body[i], limit, rows[i])
      ensures Category(w, front[i + 1]) == Rank(rows[i].kind)
    {
      RowsPrefix(w, body, limit, i + 1);
      assert front[i + 1] == body[i];
      StandsIff(w, body[i], limit, rows[i]);
    }
    forall i, j | 0 <= i < j < |rows| ensures Rank(rows[i].kind) <= Rank(rows[j].kind) {
      assert Category(w, front[i + 1]) <= Category(w, front[j + 1]);
    }
    ContentsIff(w, body, limit, rows);
    assert Tabulates(w, lines, limit, rows);
  }

  lemma ValidAccepted(w: Wire, lines: seq<string>, limit: int, rows: seq<Row>)
    requires |lines| >= 2 && ValidHeader(w, lines[0], limit) && ValidTable(w, lines[1..|lines| - 1], limit, rows)
    requires ValidFooter(w, lines[|lines| - 1], |lines| - 1, Join(lines[..|lines| - 1]))
    ensures WellFramed(w, lines) && Declared(w, lines[0]) == limit && ContentsValid(w, lines[1..|lines| - 1], limit)
  {
    hide RowOf, Category, IsHeader, IsFooter, Join, Declared, Stands, AllDistinct, ValidFooter, ValidHeader,
      ContentsValid;
    var n := |lines| - 1;
    var front, body := lines[..n], lines[1..n];
    HeaderIff(w, lines[0]);
    FooterIff(w, lines[n], n, Join(front));
    forall i | 0 <= i < |body|
      ensures RowOf(w, body[i], limit) == Some(rows[i]) && Category(w, front[i + 1]) == Rank(rows[i].kind) >= 1
    {
      assert front[i + 1] == body[i];
      StandsIff(w, body[i], limit, rows[i]);
    }
    ContentsIff(w, body, limit, rows);
    forall i | 1 <= i < |front| ensures Category(w, front[i]) >= 1 {
      assert Category(w, front[i - 1 + 1]) >= 1;
    }
    forall i, j | 1 <= i < j < |front| ensures Category(w, front[i]) <= Category(w, front[j]) {
      assert Category(w, front[i - 1 + 1]) == Rank(rows[i - 1].kind);
      assert Category(w, front[j - 1 + 1]) == Rank(rows[j - 1].kind);
    }
  }

  // ------------------------------------------------------------------------------------------------- staging a file

  function KindNamed(name: string): Kind {
    if name == "pinyin" then Pinyin else if name == "wubi" then Wubi else if name == "quick" then QuickPhrase
      else English
  }

  /** The engine record of a row; an owned word is the user's, a live English word is displayed as it is spelt. */
  function RecordIn(row: Row): StateRecord {
    match row.kind
    case PositionRow => Position(row.scope, row.code, row.word, row.slot)
    case SelectionRow => Selection(row.scope, row.code, row.word, row.slot)
    case _ =>
      Entry(KindNamed(row.scope), row.code, row.word, row.weight,
            if row.scope == "english" && !row.deleted then row.word else "", row.deleted, row.owned)
  }

  /** The records of a table: every row but the entries, in order. */
  function RecordsIn(rows: seq<Row>): seq<StateRecord> {
    if rows == [] then []
    else (if rows[0].kind.EntryRow? then [] else [RecordIn(rows[0])]) + RecordsIn(rows[1..])
  }

  lemma KindIsNamed(name: string)
    ensures Str(name) in {Str("pinyin"), Str("wubi"), Str("english"), Str("quick")} ==>
      KindOf(name) == Some(KindNamed(name))
    ensures KindNamed(name) == English && KindOf(name).Some? ==> name == "english"
    ensures KindNamed("english") == English
  {
    assert |"pinyin"| == 6 && |"wubi"| == 4 && |"quick"| == 5 && |"english"| == 7;
    if Str(name) in {Str("pinyin"), Str("wubi"), Str("english"), Str("quick")} {
      assert name == "pinyin" || name == "wubi" || name == "english" || name == "quick";
    }
  }

  lemma WordReads(w: Wire, o: map<Field, Json>, limit: int)
    requires ValidRecord(w, o, limit, 2)
    ensures var data := DataIn(o);
            WordRecord(o, data, TextIn(data, CodeKey), TextIn(data, WordKey)) == Record(RecordIn(RowIn(o, 2)))
  {
    hide CleanText, KindOf, KindNamed;
    var data := DataIn(o);
    KindIsNamed(TextIn(data, KindKey));
    assert {KindKey, WeightKey} <= data.Keys;
  }

  lemma PlaceReads(w: Wire, o: map<Field, Json>, limit: int, category: int)
    requires 3 <= category <= 4 && ValidRecord(w, o, limit, category)
    ensures var data := DataIn(o);
            PlaceRecord(data, TextIn(data, CodeKey), TextIn(data, WordKey), category == 3) ==
            Record(RecordIn(RowIn(o, category)))
  {
  }

  lemma LineNames()
    ensures "header" !in {"entry", "overlay", "position", "selection", "footer"}
    ensures "footer" !in {"entry", "overlay", "position", "selection"}
    ensures "overlay" !in {"entry", "position", "selection"} && "position" !in {"entry", "selection"}
            && "selection" != "entry"
  {
    assert |"entry"| == 5 && |"overlay"| == 7 && |"position"| == 8 && |"selection"| == 9 && |"header"| == 6
      && |"footer"| == 6;
    assert "header"[0] != "footer"[0];
  }

  /** Every line that stands for a row is read back as that row's record; entries are skipped. */
  lemma StandsReads(w: Wire, line: string, limit: int, row: Row)
    requires Stands(w, line, limit, row)
    ensures RecordOf(w, line) == if row.kind.EntryRow? then Skip else Record(RecordIn(row))
  {
    hide WordRecord, PlaceRecord, RecordIn, RowIn, CleanText;
    var o, category :| 1 <= category <= 4 && ReadsAs(w, line, o) && ValidRecord(w, o, limit, category)
                       && row == RowIn(o, category);
    LineNames();
    RowKind(o, category);
    var data := DataIn(o);
    assert Object(w, line) == Some(o);
    if category == 2 {
      WordReads(w, o, limit);
      WordTexts(w, o, limit, category);
    } else if category >= 3 {
      PlaceReads(w, o, limit, category);
      WordTexts(w, o, limit, category);
    }
  }

  lemma RowKind(o: map<Field, Json>, category: int)
    requires 1 <= category <= 4
    ensures RowIn(o, category).kind == KindFor(category)
  {
  }

  lemma WordTexts(w: Wire, o: map<Field, Json>, limit: int, category: int)
    requires 1 <= category <= 4 && ValidRecord(w, o, limit, category)
    ensures var data := DataIn(o);
            Text(data, CodeKey) == Some(TextIn(data, CodeKey)) && Text(data, WordKey) == Some(TextIn(data, WordKey))
  {
    var data := DataIn(o);
    assert {CodeKey, WordKey} <= data.Keys;
  }

  lemma {:induction false} BodyStages(w: Wire, lines: seq<string>, limit: int, rows: seq<Row>, rest: seq<string>)
    requires |lines| == |rows| && forall i :: 0 <= i < |lines| ==> Stands(w, lines[i], limit, rows[i])
    ensures Staged(w, lines + rest) == Prepended(RecordsIn(rows), Staged(w, rest))
  {
    hide Stands, RecordOf;
    if lines == [] {
      assert lines + rest == rest;
      PrependNone(Staged(w, rest));
    } else {
      BodyStages(w, lines[1..], limit, rows[1..], rest);
      StandsReads(w, lines[0], limit, rows[0]);
      assert (lines + rest)[1..] == lines[1..] + rest;
      assert [] + RecordsIn(rows[1..]) == RecordsIn(rows[1..]);
      if !rows[0].kind.EntryRow? && Staged(w, rest).Some? {
        assert [RecordIn(rows[0])] + (RecordsIn(rows[1..]) + Staged(w, rest).value) ==
          RecordsIn(rows) + Staged(w, rest).value;
      }
    }
  }

  lemma FrameReads(w: Wire, lines: seq<string>, revision: int)
    requires |lines| >= 2 && ValidHeader(w, lines[0], revision)
    requires ValidFooter(w, lines[|lines| - 1], |lines| - 1, Join(lines[..|lines| - 1]))
    ensures RecordOf(w, lines[0]) == Skip && Staged(w, [lines[|lines| - 1]]) == Some([])
  {
    hide Join;
    LineNames();
    assert [lines[|lines| - 1]][1..] == [];
  }

  /** Whatever file the checks accept can be staged: the engine is fed exactly the records its lines stand for, an
      owner left out meaning the user. A file they refuse feeds it nothing. */
  lemma ValidFileStages(w: Wire, bytes: string, revision: int, rows: seq<Row>)
    requires ValidFile(w, bytes) && Tabulates(w, Lines(bytes), revision, rows)
    ensures Restored(w, bytes) == Some(RecordsIn(rows))
  {
    hide Lines, Join, Tabulates, ValidFooter, Staged, RecordsIn, FileValid;
    FileAcceptedIff(w, bytes);
    LinesStage(w, Lines(bytes), revision, rows);
  }

  lemma LinesStage(w: Wire, lines: seq<string>, revision: int, rows: seq<Row>)
    requires |lines| >= 2 && Tabulates(w, lines, revision, rows)
    requires ValidFooter(w, lines[|lines| - 1], |lines| - 1, Join(lines[..|lines| - 1]))
    ensures Staged(w, lines) == Some(RecordsIn(rows))
  {
    hide Join, RecordOf, ValidHeader, ValidFooter, Stands, AllDistinct, RecordsIn;
    var n := |lines| - 1;
    FrameReads(w, lines, revision);
    BodyStages(w, lines[1..n], revision, rows, [lines[n]]);
    assert lines[1..] == lines[1..n] + [lines[n]];
    assert RecordsIn(rows) + [] == RecordsIn(rows);
  }

  lemma RefusedFileFeedsNothing(w: Wire, bytes: string)
    ensures Restored(w, bytes).Some? <==> ValidFile(w, bytes)
  {
    hide Lines, Join, FileValid, Tabulates, Staged, ValidFooter;
    FileAcceptedIff(w, bytes);
    if ValidFile(w, bytes) {
      var revision, rows :| Tabulates(w, Lines(bytes), revision, rows);
      ValidFileStages(w, bytes, revision, rows);
    }
  }
}
