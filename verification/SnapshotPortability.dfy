/** Which engine states can be exported, in terms of the records' own fields and of what the JSON library makes of
    them. */
module SnapshotPortability {
  import opened Optional
  import opened SnapshotFormat
  import opened SnapshotEnvelope
  import opened SnapshotContents
  import opened SnapshotExport
  import opened SnapshotRecords
  import opened SnapshotRoundTrip
  import opened SnapshotConsistency

  /** Text the format takes: at most so many bytes, without NUL, tab or line ends. */
  predicate Clean(text: string, maximum: nat) {
    CleanText(Str(text), maximum)
  }

  /** The values of a record are in the format's ranges. */
  predicate InRange(w: Wire, r: StateRecord, stamp: string) {
    match r
    case Entry(_, key, value, weight, _, deleted, _) =>
      && Clean(key, 512) && Clean(value, 2048) && (if deleted then 0 else 1) <= weight <= 100000000 && w.stamp(stamp)
    case Position(context, key, value, position) =>
      && Clean(context, 512) && Clean(key, 512) && Clean(value, 2048) && |context| + |key| + |value| <= 2048
      && 1 <= position <= 5
    case Selection(context, key, value, count) =>
      && Clean(context, 512) && Clean(key, 512) && Clean(value, 2048) && |context| + |key| + |value| <= 2048
      && 0 <= count <= 10
  }

  /** The format has no display text: a live English word is displayed as it is spelt, everything else has none. */
  predicate ShownAsSpelt(r: StateRecord) {
    r.Entry? ==> r.display == (if r.kind.English? && !r.deleted then r.value else "")
  }

  predicate Portable(w: Wire, r: StateRecord, stamp: string) {
    InRange(w, r, stamp) && ShownAsSpelt(r)
  }

  /** Identities are digests in hexadecimal. */
  ghost predicate CleanIdentities(w: Wire) {
    forall a, b, c {:trigger w.identity(a, b, c)} :: Clean(w.identity(a, b, c), 128)
  }

  // ------------------------------------------------------------------------------------------------------ one record

  lemma EntryKeys(w: Wire, r: StateRecord, stamp: string)
    requires r.Entry?
    ensures EntryData(w, r, stamp).Keys == WORD_MEMBERS + {InsertedKey}
  {
  }

  lemma PrintedShaped(w: Wire, r: StateRecord, category: int, stamp: string)
    requires Belongs(r, category)
    ensures 1 <= category <= 4 && Shaped(JsonOf(w, r, category, stamp), category)
  {
  }

  lemma PrintedValidWord(w: Wire, r: StateRecord, category: int, stamp: string)
    requires CleanIdentities(w) && Belongs(r, category) && category <= 2
    ensures ValidRecord(w, JsonOf(w, r, category, stamp), 1, category) <==> InRange(w, r, stamp)
  {
    hide CleanText;
    EntryKeys(w, r, stamp);
    PrintedShaped(w, r, category, stamp);
    var data := EntryData(w, r, stamp);
    assert data[KindKey] == Str(KindName(r.kind));
    assert DataIn(JsonOf(w, r, category, stamp)) == data;
    if r.userInserted {
      assert Clean(w.identity(KindName(r.kind), r.key, r.value), 128);
    }
  }

  lemma PrintedValidPlace(w: Wire, r: StateRecord, category: int, stamp: string)
    requires Belongs(r, category) && category >= 3
    ensures ValidRecord(w, JsonOf(w, r, category, stamp), 1, category) <==> InRange(w, r, stamp)
  {
    hide CleanText;
    PrintedShaped(w, r, category, stamp);
    var field := if category == 3 then PositionKey else CountKey;
    var data := JsonOf(w, r, category, stamp)[DataKey].fields;
    assert data.Keys == {ContextKey, CodeKey, WordKey, field};
  }

  /** A printed record the library reads back passes the contents check exactly when its values are in range. */
  lemma PrintedRowIff(w: Wire, r: StateRecord, category: int, stamp: string)
    requires Faithful(w) && CleanIdentities(w) && Belongs(r, category)
             && Transportable(w, LineOf(w, r, category, stamp))
    ensures RowOf(w, LineOf(w, r, category, stamp), 1).Some? <==> InRange(w, r, stamp)
  {
    hide RowOf, ValidRecord, InRange, JsonOf, RightSize;
    var o := JsonOf(w, r, category, stamp);
    StrictBack(w, o);
    PrintedShaped(w, r, category, stamp);
    ShapedRow(w, LineOf(w, r, category, stamp), o, 1, category);
    if category <= 2 {
      PrintedValidWord(w, r, category, stamp);
    } else {
      PrintedValidPlace(w, r, category, stamp);
    }
  }

  lemma ShownIsRepresentable(state: seq<StateRecord>)
    ensures AllRepresentable(state) <==> forall r :: r in state ==> ShownAsSpelt(r)
  {
    if AllRepresentable(state) {
      forall r | r in state ensures ShownAsSpelt(r) {
        var i :| 0 <= i < |state| && state[i] == r;
        assert Representable(state[i]);
      }
    }
    if forall r :: r in state ==> ShownAsSpelt(r) {
      forall i | 0 <= i < |state| ensures Representable(state[i]) {
        assert ShownAsSpelt(state[i]);
      }
    }
  }

  // ------------------------------------------------------------------------------------------------------- all lines

  predicate AllInRange(w: Wire, rs: seq<StateRecord>, stamp: string) {
    forall r :: r in rs ==> InRange(w, r, stamp)
  }

  lemma SectionRowsIff(w: Wire, state: seq<StateRecord>, stamp: string, category: int)
    requires Faithful(w) && CleanIdentities(w) && 1 <= category <= 4
    requires AllTransportable(w, Pick(Spool(w, state, stamp), category))
    ensures AllRows(w, Pick(Spool(w, state, stamp), category)) <==> AllInRange(w, Of(state, category), stamp)
  {
    hide Transportable, RowOf, InRange, Spool, Pick, Of, LineOf;
    var lines, rs := Pick(Spool(w, state, stamp), category), Of(state, category);
    PickIsPartition(w, state, stamp, category);
    forall i | 0 <= i < |rs| ensures RowOf(w, lines[i], 1).Some? <==> InRange(w, rs[i], stamp) {
      PrintedRowIff(w, rs[i], category, stamp);
    }
  }

  lemma RowsJoin(w: Wire, a: seq<string>, b: seq<string>)
    ensures AllRows(w, a + b) <==> AllRows(w, a) && AllRows(w, b)
  {
    hide RowOf;
    if AllRows(w, a + b) {
      RowsSplit(w, a, b);
    }
  }

  lemma RangeBySection(w: Wire, state: seq<StateRecord>, stamp: string)
    ensures AllInRange(w, state, stamp) <==>
            && AllInRange(w, Of(state, 1), stamp) && AllInRange(w, Of(state, 2), stamp)
            && AllInRange(w, Of(state, 3), stamp) && AllInRange(w, Of(state, 4), stamp)
  {
    hide InRange, Of;
    forall r ensures r in Of(state, 1) <==> r in state && Belongs(r, 1) { OfMembers(state, 1, r); }
    forall r ensures r in Of(state, 2) <==> r in state && Belongs(r, 2) { OfMembers(state, 2, r); }
    forall r ensures r in Of(state, 3) <==> r in state && Belongs(r, 3) { OfMembers(state, 3, r); }
    forall r ensures r in Of(state, 4) <==> r in state && Belongs(r, 4) { OfMembers(state, 4, r); }
    if AllInRange(w, Of(state, 2), stamp) && AllInRange(w, Of(state, 3), stamp) && AllInRange(w, Of(state, 4), stamp) {
      forall r | r in state ensures InRange(w, r, stamp) {
        assert r in Of(state, 2) || r in Of(state, 3) || r in Of(state, 4);
      }
    }
  }

  lemma BodyRowsIff(w: Wire, state: seq<StateRecord>, stamp: string)
    requires Faithful(w) && CleanIdentities(w) && AllTransportable(w, Body(Spool(w, state, stamp)))
    ensures AllRows(w, Body(Spool(w, state, stamp))) <==> AllInRange(w, state, stamp)
  {
    hide Spool, Pick, AllRows, AllTransportable, AllInRange;
    var spool := Spool(w, state, stamp);
    var p1, p2, p3, p4 := Pick(spool, 1), Pick(spool, 2), Pick(spool, 3), Pick(spool, 4);
    TransportableSplit(w, p1 + p2 + p3, p4);
    TransportableSplit(w, p1 + p2, p3);
    TransportableSplit(w, p1, p2);
    RowsJoin(w, p1 + p2 + p3, p4);
    RowsJoin(w, p1 + p2, p3);
    RowsJoin(w, p1, p2);
    SectionRowsIff(w, state, stamp, 1);
    SectionRowsIff(w, state, stamp, 2);
    SectionRowsIff(w, state, stamp, 3);
    SectionRowsIff(w, state, stamp, 4);
    RangeBySection(w, state, stamp);
  }

  // ------------------------------------------------------------------------------------------------------------ sizes

  lemma {:induction false} SpoolCount(w: Wire, state: seq<StateRecord>, stamp: string)
    ensures |Spool(w, state, stamp)| == |Of(state, 1)| + |state|
  {
    if state != [] {
      SpoolCount(w, state[1..], stamp);
    }
  }

  lemma {:induction false} SpoolSizeCons(s: Spooled, rest: seq<Spooled>)
    ensures SpoolSize([s] + rest) == |s.line| + 1 + SpoolSize(rest)
  {
    if rest == [] {
      assert [s] + rest == [s] && [s][..0] == [];
    } else {
      var n := |rest| - 1;
      SpoolSizeCons(s, rest[..n]);
      assert ([s] + rest)[..n + 1] == [s] + rest[..n];
    }
  }

  lemma JoinCons(line: string, rest: seq<string>)
    ensures |Join([line] + rest)| == |line| + 1 + |Join(rest)|
  {
    assert ([line] + rest)[1..] == rest;
  }

  lemma {:induction false} PickSizes(spool: seq<Spooled>)
    requires forall s :: s in spool ==> 1 <= s.category <= 4
    ensures |Join(Pick(spool, 1))| + |Join(Pick(spool, 2))| + |Join(Pick(spool, 3))| + |Join(Pick(spool, 4))| ==
      SpoolSize(spool)
  {
    hide Join;
    if spool == [] {
      JoinNothing();
    } else {
      var s, rest := spool[0], spool[1..];
      assert spool == [s] + rest;
      PickSizes(rest);
      SpoolSizeCons(s, rest);
      PickCons(s, rest, 1);
      PickCons(s, rest, 2);
      PickCons(s, rest, 3);
      PickCons(s, rest, 4);
    }
  }

  lemma PickCons(s: Spooled, rest: seq<Spooled>, category: int)
    ensures |Join(Pick([s] + rest, category))| ==
            (if s.category == category then |s.line| + 1 else 0) + |Join(Pick(rest, category))|
  {
    hide Join;
    assert ([s] + rest)[1..] == rest;
    if s.category == category {
      JoinCons(s.line, Pick(rest, category));
    } else {
      assert [] + Pick(rest, category) == Pick(rest, category);
    }
  }

  lemma BodySize(spool: seq<Spooled>)
    requires forall s :: s in spool ==> 1 <= s.category <= 4
    ensures |Join(Body(spool))| == SpoolSize(spool)
  {
    hide Join, SpoolSize, Pick;
    PickSizes(spool);
    JoinAppend(Pick(spool, 1), Pick(spool, 2));
    JoinAppend(Pick(spool, 1) + Pick(spool, 2), Pick(spool, 3));
    JoinAppend(Pick(spool, 1) + Pick(spool, 2) + Pick(spool, 3), Pick(spool, 4));
  }

  lemma {:induction false} PickMembers(spool: seq<Spooled>, category: int, line: string)
    ensures line in Pick(spool, category) <==> exists s :: s in spool && s.category == category && s.line == line
  {
    if spool != [] {
      PickMembers(spool[1..], category, line);
      assert spool == [spool[0]] + spool[1..];
    }
  }

  predicate AllShort(lines: seq<string>) {
    forall line :: line in lines ==> |line| <= 65534
  }

  lemma BodyShort(spool: seq<Spooled>)
    requires forall s :: s in spool ==> 1 <= s.category <= 4
    ensures AllShort(Body(spool)) <==> forall s :: s in spool ==> |s.line| + 1 < LINE_LIMIT
  {
    hide Pick;
    forall line, category
      ensures line in Pick(spool, category) <==> exists s :: s in spool && s.category == category && s.line == line {
      PickMembers(spool, category, line);
    }
    if AllShort(Body(spool)) {
      forall s | s in spool ensures |s.line| + 1 < LINE_LIMIT {
        assert s.line in Pick(spool, s.category);
        assert s.line in Body(spool);
      }
    }
  }

  lemma PrintedSize(w: Wire, body: seq<string>)
    ensures |Join(body)| <= |Join(PrintedLines(w, body))|
  {
    hide Join;
    PrintedShape(w, body);
    var lines := PrintedLines(w, body);
    JoinAppend([w.header] + body, [lines[|lines| - 1]]);
    JoinAppend([w.header], body);
  }

  lemma SpoolFitsIff(w: Wire, state: seq<StateRecord>, stamp: string)
    requires |Join(PrintedLines(w, Body(Spool(w, state, stamp))))| <= 536870912
    ensures SpoolFits(Spool(w, state, stamp)) <==>
            |Of(state, 1)| + |state| <= 500000 && AllShort(Body(Spool(w, state, stamp)))
  {
    hide Spool, Body, Join, PrintedLines, Of, SpoolSize;
    var spool := Spool(w, state, stamp);
    SpoolCategories(w, state, stamp);
    SpoolCount(w, state, stamp);
    BodySize(spool);
    BodyShort(spool);
    PrintedSize(w, Body(spool));
  }

  // ------------------------------------------------------------------------------------------------------------- all

  /** Exactly when `export_native_snapshot` succeeds: the values of every record are in range and shown as the format
      can carry them, no two records describe the same thing, there are at most 500000 lines and 100000 words of the
      user's, every printed line is one the library reads back and short enough, and the file is at most 512 MiB.
      Category order, counts, checksum and the entry-overlay correspondence are never the reason for a refusal. */
  lemma ExportSucceedsIff(w: Wire, state: seq<StateRecord>, stamp: string)
    requires Faithful(w) && DistinctIdentities(w) && CleanIdentities(w)
    ensures var body := Body(Spool(w, state, stamp));
            Exported(w, state, stamp).Some? <==>
            && (forall r :: r in state ==> Portable(w, r, stamp)) && NoClash(state)
            && |Of(state, 1)| + |state| <= 500000 && |Of(state, 1)| <= 100000
            && AllTransportable(w, PrintedLines(w, body)) && AllShort(body)
            && |Join(PrintedLines(w, body))| <= 536870912
  {
    hide Spool, Body, PrintedLines, AllRows, AllTransportable, Join, Of, NoClash, AllRepresentable, SpoolFits, AllShort,
         InRange, ShownAsSpelt;
    var body := Body(Spool(w, state, stamp));
    ExportSucceedsByLine(w, state, stamp);
    ShownIsRepresentable(state);
    if |Join(PrintedLines(w, body))| <= 536870912 {
      SpoolFitsIff(w, state, stamp);
    }
    if AllTransportable(w, PrintedLines(w, body)) {
      PrintedShape(w, body);
      var lines := PrintedLines(w, body);
      TransportableSplit(w, [w.header] + body, [lines[|lines| - 1]]);
      TransportableSplit(w, [w.header], body);
      BodyRowsIff(w, state, stamp);
    }
  }

  /** A tombstone of no weight can be exported and restored; a live word of no weight cannot. */
  lemma TombstonesWeighNothing(w: Wire, kind: Kind, key: string, value: string, owned: bool, stamp: string)
    requires Clean(key, 512) && Clean(value, 2048) && w.stamp(stamp)
    ensures Portable(w, Entry(kind, key, value, 0, "", true, owned), stamp)
    ensures forall display :: !Portable(w, Entry(kind, key, value, 0, display, false, owned), stamp)
  {
  }
}
