/** What printing and reading promise together: exported state comes back record for record, and an export always has
    the frame and the entry-overlay correspondence that the checks demand. */
module SnapshotRoundTrip {
  import opened Optional
  import opened SnapshotFormat
  import opened SnapshotEnvelope
  import opened SnapshotContents
  import opened SnapshotExport

  /** Which records are spooled in a category: 1 entries, 2 overlays, 3 positions, 4 selections. */
  predicate Belongs(r: StateRecord, category: int) {
    || (category == 1 && HasEntryLine(r))
    || (category == 2 && r.Entry?)
    || (category == 3 && r.Position?)
    || (category == 4 && r.Selection?)
  }

  predicate AllBelong(rs: seq<StateRecord>, category: int) {
    forall i :: 0 <= i < |rs| ==> Belongs(rs[i], category)
  }

  function Of(state: seq<StateRecord>, category: int): (rs: seq<StateRecord>)
    ensures AllBelong(rs, category)
  {
    if state == [] then [] else (if Belongs(state[0], category) then [state[0]] else []) + Of(state[1..], category)
  }

  /** Overlays, then positions, then selections, each in the order of the state. */
  function Partition(state: seq<StateRecord>): seq<StateRecord> {
    Of(state, 2) + Of(state, 3) + Of(state, 4)
  }

  function JsonOf(w: Wire, r: StateRecord, category: int, stamp: string): map<Field, Json>
    requires Belongs(r, category)
  {
    if category == 1 then EntryJson(w, r, stamp) else if category == 2 then OverlayJson(w, r, stamp) else PlaceJson(r)
  }

  function LineOf(w: Wire, r: StateRecord, category: int, stamp: string): string
    requires Belongs(r, category)
  {
    w.serialize(Obj(JsonOf(w, r, category, stamp)))
  }

  function LinesOf(w: Wire, rs: seq<StateRecord>, category: int, stamp: string): (lines: seq<string>)
    requires AllBelong(rs, category)
    ensures |lines| == |rs|
    ensures forall i :: 0 <= i < |rs| ==> lines[i] == LineOf(w, rs[i], category, stamp)
  {
    if rs == [] then [] else [LineOf(w, rs[0], category, stamp)] + LinesOf(w, rs[1..], category, stamp)
  }

  lemma {:induction false} PickAppend(a: seq<Spooled>, b: seq<Spooled>, category: int)
    ensures Pick(a + b, category) == Pick(a, category) + Pick(b, category)
  {
    if a == [] {
      assert a + b == b;
    } else {
      PickAppend(a[1..], b, category);
      assert (a + b)[1..] == a[1..] + b;
    }
  }

  lemma PickSingle(s: Spooled, category: int)
    ensures Pick([s], category) == if s.category == category then [s.line] else []
  {
    assert [s][1..] == [];
  }

  lemma PickOfOne(w: Wire, r: StateRecord, stamp: string, category: int)
    requires 1 <= category <= 4
    ensures Pick(SpoolOf(w, r, stamp), category) == if Belongs(r, category) then [LineOf(w, r, category, stamp)] else []
  {
    match r {
      case Entry(_, _, _, _, _, _, _) =>
        var overlay := Spooled(2, w.serialize(Obj(OverlayJson(w, r, stamp))));
        PickSingle(overlay, category);
        if HasEntryLine(r) {
          var entry := Spooled(1, w.serialize(Obj(EntryJson(w, r, stamp))));
          PickSingle(entry, category);
          PickAppend([entry], [overlay], category);
        } else {
          assert SpoolOf(w, r, stamp) == [overlay];
        }
      case Position(_, _, _, _) => PickSingle(Spooled(3, w.serialize(Obj(PlaceJson(r)))), category);
      case Selection(_, _, _, _) => PickSingle(Spooled(4, w.serialize(Obj(PlaceJson(r)))), category);
    }
  }

  /** Sorting the spool by category is a stable partition of the state. */
  lemma {:induction false} PickIsPartition(w: Wire, state: seq<StateRecord>, stamp: string, category: int)
    requires 1 <= category <= 4
    ensures Pick(Spool(w, state, stamp), category) == LinesOf(w, Of(state, category), category, stamp)
  {
    if state != [] {
      var r, rest := state[0], state[1..];
      PickAppend(SpoolOf(w, r, stamp), Spool(w, rest, stamp), category);
      PickOfOne(w, r, stamp, category);
      PickIsPartition(w, rest, stamp, category);
      if Belongs(r, category) {
        var rs := Of(state, category);
        assert rs == [r] + Of(rest, category) && rs[1..] == Of(rest, category);
        assert LinesOf(w, rs, category, stamp) ==
          [LineOf(w, r, category, stamp)] + LinesOf(w, rs[1..], category, stamp);
      }
    }
  }

  // ------------------------------------------------------------------------------------------------------ one line

  lemma ParsedBack(w: Wire, fields: map<Field, Json>)
    requires Faithful(w) && Object(w, w.serialize(Obj(fields))).Some?
    ensures Object(w, w.serialize(Obj(fields))) == Some(fields)
  {
    assert w.parse(w.serialize(Obj(fields))) == Some(Obj(fields));
  }

  lemma RecordKinds()
    ensures "entry" != "overlay" && "entry" != "position" && "entry" != "selection"
    ensures "overlay" != "position" && "overlay" != "selection" && "position" != "selection"
    ensures "header" !in {"entry", "overlay", "position", "selection", "footer"}
    ensures "footer" !in {"entry", "overlay", "position", "selection"}
  {
    assert |"entry"| == 5 && |"overlay"| == 7 && |"position"| == 8 && |"selection"| == 9 && |"header"| == 6
      && |"footer"| == 6;
    assert "header"[0] != "footer"[0];
  }

  lemma OverlayReadsBack(w: Wire, r: StateRecord, stamp: string)
    requires r.Entry? && Representable(r)
    requires Object(w, LineOf(w, r, 2, stamp)) == Some(OverlayJson(w, r, stamp))
    ensures RecordOf(w, LineOf(w, r, 2, stamp)) == Record(r)
  {
    RecordKinds();
    KindRoundTrip(r.kind);
    var data := EntryData(w, r, stamp);
    assert WordRecord(OverlayJson(w, r, stamp), data, r.key, r.value) == Record(r);
  }

  /** The contents check bounds positions and counts, so the 32-bit cast is harmless. */
  lemma PlaceIsBounded(w: Wire, line: string, r: StateRecord)
    requires !r.Entry? && Object(w, line) == Some(PlaceJson(r)) && RowOf(w, line, 1).Some?
    ensures r.Position? ==> 1 <= r.position <= 5
    ensures r.Selection? ==> 0 <= r.count <= 10
  {
    RecordKinds();
    var data := PlaceJson(r)[DataKey].fields;
    if r.Position? {
      assert RowOf(w, line, 1) == PlaceRow(data, PositionRow, r.key, r.value);
    } else {
      assert RowOf(w, line, 1) == PlaceRow(data, SelectionRow, r.key, r.value);
    }
  }

  lemma PlaceReadsBack(w: Wire, line: string, r: StateRecord)
    requires !r.Entry? && Object(w, line) == Some(PlaceJson(r))
    requires r.Position? ==> 1 <= r.position <= 5
    requires r.Selection? ==> 0 <= r.count <= 10
    ensures RecordOf(w, line) == Record(r)
  {
    RecordKinds();
    var data := PlaceJson(r)[DataKey].fields;
    assert Text(data, CodeKey) == Some(r.key) && Text(data, WordKey) == Some(r.value);
    if r.Position? {
      assert PlaceRecord(data, r.key, r.value, true) == Record(r);
    } else {
      assert PlaceRecord(data, r.key, r.value, false) == Record(r);
    }
  }

  /** Every line the exporter spools and the contents check accepts is read back as the record it was printed from, with
      `display`, `deleted` and `user_inserted` restored; entry lines are skipped. */
  lemma LineReadsBack(w: Wire, r: StateRecord, category: int, stamp: string)
    requires Faithful(w) && Belongs(r, category) && Representable(r)
    requires RowOf(w, LineOf(w, r, category, stamp), 1).Some?
    ensures RecordOf(w, LineOf(w, r, category, stamp)) == if category == 1 then Skip else Record(r)
  {
    ParsedBack(w, JsonOf(w, r, category, stamp));
    if category == 1 {
      RecordKinds();
    } else if category == 2 {
      OverlayReadsBack(w, r, stamp);
    } else {
      PlaceIsBounded(w, LineOf(w, r, category, stamp), r);
      PlaceReadsBack(w, LineOf(w, r, category, stamp), r);
    }
  }

  // ------------------------------------------------------------------------------------------------------ all lines

  lemma {:induction false} SkipSection(w: Wire, lines: seq<string>, rest: seq<string>)
    requires forall i :: 0 <= i < |lines| ==> RecordOf(w, lines[i]) == Skip
    ensures Staged(w, lines + rest) == Staged(w, rest)
  {
    if lines == [] {
      assert lines + rest == rest;
    } else {
      SkipSection(w, lines[1..], rest);
      assert (lines + rest)[1..] == lines[1..] + rest;
    }
  }

  lemma PrependFirst(rs: seq<StateRecord>, rest: Option<seq<StateRecord>>)
    requires rs != []
    ensures Prepended([rs[0]], Prepended(rs[1..], rest)) == Prepended(rs, rest)
  {
    if rest.Some? {
      assert [rs[0]] + (rs[1..] + rest.value) == rs + rest.value;
    }
  }

  lemma {:induction false} RecordSection(w: Wire, lines: seq<string>, rs: seq<StateRecord>, rest: seq<string>)
    requires |lines| == |rs| && forall i :: 0 <= i < |lines| ==> RecordOf(w, lines[i]) == Record(rs[i])
    ensures Staged(w, lines + rest) == Prepended(rs, Staged(w, rest))
  {
    if lines == [] {
      assert lines + rest == rest;
      PrependNone(Staged(w, rest));
    } else {
      RecordSection(w, lines[1..], rs[1..], rest);
      assert (lines + rest)[1..] == lines[1..] + rest;
      PrependFirst(rs, Staged(w, rest));
    }
  }

  predicate AllRows(w: Wire, lines: seq<string>) {
    forall i :: 0 <= i < |lines| ==> RowOf(w, lines[i], 1).Some?
  }

  lemma ValidHasRows(w: Wire, lines: seq<string>)
    requires Rows(w, lines, 1).Some?
    ensures AllRows(w, lines)
  {
    forall i | 0 <= i < |lines| ensures RowOf(w, lines[i], 1).Some? {
      RowsPrefix(w, lines, 1, i + 1);
    }
  }

  lemma SectionReadsBack(w: Wire, state: seq<StateRecord>, category: int, stamp: string, rest: seq<string>)
    requires Faithful(w) && 1 <= category <= 4 && AllRepresentable(state)
    requires AllRows(w, Pick(Spool(w, state, stamp), category))
    ensures Staged(w, Pick(Spool(w, state, stamp), category) + rest) ==
            if category == 1 then Staged(w, rest) else Prepended(Of(state, category), Staged(w, rest))
  {
    var lines, rs := Pick(Spool(w, state, stamp), category), Of(state, category);
    PickIsPartition(w, state, stamp, category);
    OfKeeps(state, category);
    forall i | 0 <= i < |lines| ensures RecordOf(w, lines[i]) == if category == 1 then Skip else Record(rs[i]) {
      LineReadsBack(w, rs[i], category, stamp);
    }
    if category == 1 {
      SkipSection(w, lines, rest);
    } else {
      RecordSection(w, lines, rs, rest);
    }
  }

  lemma {:induction false} OfKeeps(state: seq<StateRecord>, category: int)
    requires AllRepresentable(state)
    ensures AllRepresentable(Of(state, category))
  {
    if state != [] {
      forall i | 0 <= i < |state[1..]| ensures Representable(state[1..][i]) {
        assert Representable(state[i + 1]);
      }
      OfKeeps(state[1..], category);
    }
  }

  lemma BodyReadsBack(w: Wire, state: seq<StateRecord>, stamp: string, rest: seq<string>)
    requires Faithful(w) && AllRepresentable(state) && AllRows(w, Body(Spool(w, state, stamp)))
    ensures Staged(w, Body(Spool(w, state, stamp)) + rest) == Prepended(Partition(state), Staged(w, rest))
  {
    hide RowOf, RecordOf, Spool, Pick, Of, Staged, Representable, Prepended;
    var spool := Spool(w, state, stamp);
    var p1, p2, p3, p4 := Pick(spool, 1), Pick(spool, 2), Pick(spool, 3), Pick(spool, 4);
    RowsSplit(w, p1 + p2 + p3, p4);
    RowsSplit(w, p1 + p2, p3);
    RowsSplit(w, p1, p2);
    assert Body(spool) + rest == p1 + (p2 + (p3 + (p4 + rest)));
    SectionReadsBack(w, state, 1, stamp, p2 + (p3 + (p4 + rest)));
    SectionReadsBack(w, state, 2, stamp, p3 + (p4 + rest));
    SectionReadsBack(w, state, 3, stamp, p4 + rest);
    SectionReadsBack(w, state, 4, stamp, rest);
    PrependThrice(Of(state, 2), Of(state, 3), Of(state, 4), Staged(w, rest));
  }

  lemma PrependThrice(a: seq<StateRecord>, b: seq<StateRecord>, c: seq<StateRecord>, rest: Option<seq<StateRecord>>)
    ensures Prepended(a, Prepended(b, Prepended(c, rest))) == Prepended(a + b + c, rest)
  {
    if rest.Some? {
      assert a + (b + (c + rest.value)) == a + b + c + rest.value;
    }
  }

  lemma RowsSplit(w: Wire, a: seq<string>, b: seq<string>)
    requires AllRows(w, a + b)
    ensures AllRows(w, a) && AllRows(w, b)
  {
    forall i | 0 <= i < |a| ensures RowOf(w, a[i], 1).Some? {
      assert (a + b)[i] == a[i];
    }
    forall i | 0 <= i < |b| ensures RowOf(w, b[i], 1).Some? {
      assert (a + b)[|a| + i] == b[i];
    }
  }

  lemma PrintedIsPlain(w: Wire, state: seq<StateRecord>, stamp: string)
    requires Faithful(w)
    ensures Lines(Join(PrintedLines(w, Body(Spool(w, state, stamp))))) == PrintedLines(w, Body(Spool(w, state, stamp)))
  {
    var spool := Spool(w, state, stamp);
    var lines := PrintedLines(w, Body(spool));
    SpoolIsPlain(w, state, stamp);
    PickIsPlain(spool, 1);
    PickIsPlain(spool, 2);
    PickIsPlain(spool, 3);
    PickIsPlain(spool, 4);
    forall i | 0 <= i < |lines| ensures '\n' !in lines[i] {
      assert lines[i] == w.header || lines[i] in Body(spool) || i == |lines| - 1;
    }
    LinesOfJoin(lines);
  }

  lemma {:induction false} SpoolIsPlain(w: Wire, state: seq<StateRecord>, stamp: string)
    requires Faithful(w)
    ensures forall s :: s in Spool(w, state, stamp) ==> PlainLine(s.line)
  {
    if state != [] {
      SpoolIsPlain(w, state[1..], stamp);
      assert forall s :: s in SpoolOf(w, state[0], stamp) ==> PlainLine(s.line);
    }
  }

  lemma {:induction false} PickIsPlain(spool: seq<Spooled>, category: int)
    requires forall s :: s in spool ==> PlainLine(s.line)
    ensures forall line :: line in Pick(spool, category) ==> PlainLine(line)
  {
    if spool != [] {
      assert spool[0] in spool;
      PickIsPlain(spool[1..], category);
    }
  }

  lemma FrameReadsBack(w: Wire, state: seq<StateRecord>, stamp: string, footer: string)
    requires Faithful(w) && AllRepresentable(state) && AllRows(w, Body(Spool(w, state, stamp)))
    requires RecordOf(w, footer) == Stop
    ensures Staged(w, [w.header] + Body(Spool(w, state, stamp)) + [footer]) == Some(Partition(state))
  {
    var body := Body(Spool(w, state, stamp));
    RecordKinds();
    assert [w.header] + body + [footer] == [w.header] + (body + [footer]);
    assert RecordOf(w, w.header) == Skip;
    SkipSection(w, [w.header], body + [footer]);
    BodyReadsBack(w, state, stamp, [footer]);
    assert Staged(w, [footer]) == Some([]);
    assert Partition(state) + [] == Partition(state);
  }

  lemma FooterStops(w: Wire, footer: string, records: nat, hashed: string)
    requires IsFooter(w, footer, records, hashed)
    ensures RecordOf(w, footer) == Stop
  {
    RecordKinds();
  }

  /** For every engine state on which the export succeeds, staging the exported file succeeds and yields exactly that
      state's records: overlays, then positions, then selections, in order and with every field. */
  lemma RoundTrip(w: Wire, state: seq<StateRecord>, stamp: string)
    requires Faithful(w) && Exported(w, state, stamp).Some?
    ensures Restored(w, Exported(w, state, stamp).value) == Some(Partition(state))
  {
    var body := Body(Spool(w, state, stamp));
    var lines := PrintedLines(w, body);
    var footer := lines[|lines| - 1];
    PrintedIsPlain(w, state, stamp);
    PrintedShape(w, body);
    AcceptedIffWellFramed(w, Join(lines));
    HeaderDeclaresOne(w);
    ValidHasRows(w, body);
    FooterStops(w, footer, |lines| - 1, Join(lines[..|lines| - 1]));
    FrameReadsBack(w, state, stamp, footer);
  }

  lemma PrintedShape(w: Wire, body: seq<string>)
    ensures var lines := PrintedLines(w, body);
            && lines == [w.header] + body + [lines[|lines| - 1]] && lines[0] == w.header
            && lines[1..|lines| - 1] == body && lines[..|lines| - 1] == [w.header] + body
  {
  }

  lemma HeaderDeclaresOne(w: Wire)
    requires Faithful(w) && StrictObject(w, w.header).Some?
    ensures Declared(w, w.header) == 1
  {
  }
}
