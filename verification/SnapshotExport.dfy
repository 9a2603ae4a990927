/** Printing engine state as a snapshot and reading it back. The exporter spools lines by category while it streams the
    state, then emits header, spool and footer; the importer pulls lines and turns them into records again. */
module SnapshotExport {
  import opened Optional
  import opened SnapshotFormat
  import opened SnapshotEnvelope
  import opened SnapshotContents
  import opened PreparedSnapshot

  // ----------------------------------------------------------------------------------------------------- printing

  function EntryData(w: Wire, e: StateRecord, stamp: string): map<Field, Json>
    requires e.Entry?
  {
    map[IdKey := Str(if e.userInserted then w.identity(KindName(e.kind), e.key, e.value) else ""),
        KindKey := Str(KindName(e.kind)), CodeKey := Str(e.key), WordKey := Str(e.value), WeightKey := Int(e.weight),
        RevisionKey := Int(1), UpdatedKey := Str(stamp), InsertedKey := Bool(e.userInserted)]
  }

  function EntryJson(w: Wire, e: StateRecord, stamp: string): map<Field, Json>
    requires e.Entry?
  {
    map[TypeKey := Str("entry"), DataKey := Obj(EntryData(w, e, stamp))]
  }

  function OverlayJson(w: Wire, e: StateRecord, stamp: string): map<Field, Json>
    requires e.Entry?
  {
    map[TypeKey := Str("overlay"), DeletedKey := Bool(e.deleted), DataKey := Obj(EntryData(w, e, stamp))]
  }

  function PlaceData(context: string, key: string, value: string, field: Field, n: int): map<Field, Json> {
    map[ContextKey := Str(context), CodeKey := Str(key), WordKey := Str(value), field := Int(n)]
  }

  function PlaceJson(p: StateRecord): map<Field, Json>
    requires !p.Entry?
  {
    if p.Position? then
      map[TypeKey := Str("position"), DataKey := Obj(PlaceData(p.context, p.key, p.value, PositionKey, p.position))]
    else
      map[TypeKey := Str("selection"), DataKey := Obj(PlaceData(p.context, p.key, p.value, CountKey, p.count))]
  }

  /** Version 1 has no display field: only state it can carry may be exported. */
  predicate Representable(r: StateRecord) {
    r.Entry? ==> if r.kind.English? && !r.deleted then r.display == r.value else r.display == ""
  }

  predicate AllRepresentable(state: seq<StateRecord>) {
    forall i :: 0 <= i < |state| ==> Representable(state[i])
  }

  lemma RepresentablePrefix(state: seq<StateRecord>, i: nat)
    requires i < |state|
    ensures AllRepresentable(state[..i + 1]) <==> AllRepresentable(state[..i]) && Representable(state[i])
    ensures AllRepresentable(state) ==> Representable(state[i])
  {
    if AllRepresentable(state[..i + 1]) {
      forall k | 0 <= k < i ensures Representable(state[..i][k]) {
        assert Representable(state[..i + 1][k]);
      }
      assert Representable(state[..i + 1][i]);
    }
    if AllRepresentable(state[..i]) && Representable(state[i]) {
      var head := state[..i + 1];
      forall k | 0 <= k < |head| ensures Representable(head[k]) {
        if k < i {
          assert Representable(state[..i][k]);
        }
      }
    }
  }

  datatype Spooled = Spooled(category: int, line: string)

  predicate HasEntryLine(r: StateRecord) {
    r.Entry? && r.userInserted && !r.deleted
  }

  /** The lines one engine record is spooled as. */
  function SpoolOf(w: Wire, r: StateRecord, stamp: string): seq<Spooled> {
    match r
    case Entry(_, _, _, _, _, _, _) =>
      (if HasEntryLine(r) then [Spooled(1, w.serialize(Obj(EntryJson(w, r, stamp))))] else [])
      + [Spooled(2, w.serialize(Obj(OverlayJson(w, r, stamp))))]
    case Position(_, _, _, _) => [Spooled(3, w.serialize(Obj(PlaceJson(r))))]
    case Selection(_, _, _, _) => [Spooled(4, w.serialize(Obj(PlaceJson(r))))]
  }

  function Spool(w: Wire, state: seq<StateRecord>, stamp: string): seq<Spooled> {
    if state == [] then [] else SpoolOf(w, state[0], stamp) + Spool(w, state[1..], stamp)
  }

  /** The spooled lines of one category, in insertion order. */
  function Pick(spool: seq<Spooled>, category: int): seq<string> {
    if spool == [] then []
    else (if spool[0].category == category then [spool[0].line] else []) + Pick(spool[1..], category)
  }

  /** `ORDER BY category, sequence`. */
  function Body(spool: seq<Spooled>): seq<string> {
    Pick(spool, 1) + Pick(spool, 2) + Pick(spool, 3) + Pick(spool, 4)
  }

  function FooterJson(w: Wire, records: nat, hashed: string): map<Field, Json> {
    map[TypeKey := Str("footer"), RecordsKey := Int(records), ShaKey := Str(w.digest(hashed))]
  }

  function PrintedLines(w: Wire, body: seq<string>): seq<string> {
    var front := [w.header] + body;
    front + [w.serialize(Obj(FooterJson(w, |front|, Join(front))))]
  }

  function SpoolSize(spool: seq<Spooled>): nat {
    if spool == [] then 0 else SpoolSize(spool[..|spool| - 1]) + |spool[|spool| - 1].line| + 1
  }

  predicate SpoolFits(spool: seq<Spooled>) {
    && |spool| <= RECORD_LIMIT && SpoolSize(spool) <= SIZE_LIMIT
    && forall s :: s in spool ==> |s.line| + 1 < LINE_LIMIT
  }

  /** What both checks make of a frozen file: well framed, and consistent between header and footer. */
  ghost predicate FileValid(w: Wire, bytes: string) {
    match Accepted(w, bytes)
    case None => false
    case Some(scan) =>
      var lines := Lines(bytes);
      |lines| >= 2 && ContentsValid(w, lines[1..|lines| - 1], scan.revision)
  }

  /** Everything `export_native_snapshot` checks, and what it returns. */
  ghost function Exported(w: Wire, state: seq<StateRecord>, stamp: string): Option<string> {
    var spool := Spool(w, state, stamp);
    var bytes := Join(PrintedLines(w, Body(spool)));
    if AllRepresentable(state) && SpoolFits(spool) && FileValid(w, bytes) then Some(bytes) else None
  }

  lemma {:induction false} SpoolAppend(w: Wire, a: seq<StateRecord>, r: StateRecord, stamp: string)
    ensures Spool(w, a + [r], stamp) == Spool(w, a, stamp) + SpoolOf(w, r, stamp)
  {
    hide SpoolOf;
    if a == [] {
      assert a + [r] == [r];
      assert Spool(w, [r], stamp) == SpoolOf(w, r, stamp) + Spool(w, [r][1..], stamp);
    } else {
      SpoolAppend(w, a[1..], r, stamp);
      assert (a + [r])[1..] == a[1..] + [r];
    }
  }

  lemma {:induction false} SpoolSizeGrows(spool: seq<Spooled>, n: nat)
    requires n <= |spool|
    ensures SpoolSize(spool[..n]) <= SpoolSize(spool)
    decreases |spool|
  {
    if n < |spool| {
      SpoolSizeGrows(spool[..|spool| - 1], n);
      assert spool[..|spool| - 1][..n] == spool[..n];
    } else {
      assert spool[..n] == spool;
    }
  }

  lemma FitsPrefix(spool: seq<Spooled>, more: seq<Spooled>)
    requires SpoolFits(spool + more)
    ensures SpoolFits(spool)
  {
    var all := spool + more;
    assert all[..|spool|] == spool;
    SpoolSizeGrows(all, |spool|);
    forall s | s in spool ensures |s.line| + 1 < LINE_LIMIT {
      assert s in all;
    }
  }

  lemma FitsOne(spool: seq<Spooled>, s: Spooled)
    ensures SpoolFits(spool + [s]) <==>
      SpoolFits(spool) && |spool| < RECORD_LIMIT && |s.line| + 1 < LINE_LIMIT
        && SpoolSize(spool) + |s.line| + 1 <= SIZE_LIMIT
    ensures SpoolSize(spool + [s]) == SpoolSize(spool) + |s.line| + 1
  {
    assert (spool + [s])[..|spool|] == spool;
    if SpoolFits(spool + [s]) {
      FitsPrefix(spool, [s]);
      assert s in spool + [s];
    }
  }

  /** The `spool` lambda: counters first, then the insert. */
  method Insert(spool: seq<Spooled>, bytes: nat, s: Spooled) returns (ok: bool, spool': seq<Spooled>, bytes': nat)
    requires SpoolFits(spool) && bytes == SpoolSize(spool)
    ensures ok <==> SpoolFits(spool + [s])
    ensures ok ==> spool' == spool + [s] && bytes' == SpoolSize(spool')
  {
    FitsOne(spool, s);
    spool', bytes' := spool, bytes;
    if |spool| + 1 > RECORD_LIMIT || |s.line| + 1 >= LINE_LIMIT
      || |s.line| + 1 > SIZE_LIMIT - bytes { return false, spool', bytes'; }
    bytes' := bytes + |s.line| + 1;
    spool' := spool + [s];
    ok := true;
  }

  method InsertAll(before: seq<Spooled>, size: nat, pieces: seq<Spooled>)
    returns (ok: bool, spool: seq<Spooled>, bytes: nat)
    requires SpoolFits(before) && size == SpoolSize(before)
    ensures ok <==> SpoolFits(before + pieces)
    ensures ok ==> spool == before + pieces && bytes == SpoolSize(spool)
  {
    hide SpoolFits, SpoolSize;
    assert before + pieces[..0] == before;
    spool, bytes := before, size;
    var j := 0;
    while j < |pieces|
      invariant 0 <= j <= |pieces|
      invariant spool == before + pieces[..j] && SpoolFits(spool) && bytes == SpoolSize(spool)
    {
      assert before + pieces[..j] + [pieces[j]] == before + pieces[..j + 1];
      if SpoolFits(before + pieces) {
        assert before + pieces == (before + pieces[..j + 1]) + pieces[j + 1..];
        FitsPrefix(before + pieces[..j + 1], pieces[j + 1..]);
      }
      ok, spool, bytes := Insert(spool, bytes, pieces[j]);
      if !ok { return; }
      j := j + 1;
    }
    assert pieces[..j] == pieces;
    ok := true;
  }

  /** Streaming the state into the spool: refuse what cannot round trip, count, and insert. */
  method SpoolState(w: Wire, state: seq<StateRecord>, stamp: string) returns (ok: bool, spool: seq<Spooled>)
    ensures ok <==> AllRepresentable(state) && SpoolFits(Spool(w, state, stamp))
    ensures ok ==> spool == Spool(w, state, stamp)
  {
    spool := [];
    var bytes := 0;
    var i := 0;
    while i < |state|
      invariant 0 <= i <= |state|
      invariant spool == Spool(w, state[..i], stamp) && SpoolFits(spool) && bytes == SpoolSize(spool)
      invariant AllRepresentable(state[..i])
    {
      SpoolPrefix(w, state, i, stamp);
      RepresentablePrefix(state, i);
      if !Representable(state[i]) { return false, spool; }
      ok, spool, bytes := InsertAll(spool, bytes, SpoolOf(w, state[i], stamp));
      if !ok { return false, spool; }
      i := i + 1;
    }
    assert state[..|state|] == state;
    ok := true;
  }

  lemma {:induction false} SpoolSplit(w: Wire, a: seq<StateRecord>, b: seq<StateRecord>, stamp: string)
    ensures Spool(w, a + b, stamp) == Spool(w, a, stamp) + Spool(w, b, stamp)
  {
    hide SpoolOf;
    if a == [] {
      assert a + b == b;
    } else {
      SpoolSplit(w, a[1..], b, stamp);
      assert (a + b)[1..] == a[1..] + b;
    }
  }

  lemma SpoolPrefix(w: Wire, state: seq<StateRecord>, i: nat, stamp: string)
    requires i < |state|
    ensures Spool(w, state[..i + 1], stamp) == Spool(w, state[..i], stamp) + SpoolOf(w, state[i], stamp)
    ensures SpoolFits(Spool(w, state, stamp)) ==> SpoolFits(Spool(w, state[..i], stamp) + SpoolOf(w, state[i], stamp))
  {
    assert state[..i + 1] == state[..i] + [state[i]];
    SpoolAppend(w, state[..i], state[i], stamp);
    assert state == state[..i + 1] + state[i + 1..];
    SpoolSplit(w, state[..i + 1], state[i + 1..], stamp);
    if SpoolFits(Spool(w, state, stamp)) {
      FitsPrefix(Spool(w, state[..i + 1], stamp), Spool(w, state[i + 1..], stamp));
    }
  }

  /** The producer of the frozen file: every line goes to the sink and into the running hash; the footer closes it. */
  method Emit(w: Wire, body: seq<string>, reliable: bool) returns (file: Frozen, ok: bool)
    ensures fresh(file) && file.Valid() && file.reliable == reliable
    ensures ok ==> file.contents == Join(PrintedLines(w, body)) && file.size == |file.contents|
    ensures ok ==> |Join(PrintedLines(w, body))| <= SIZE_LIMIT
    ensures reliable && |Join(PrintedLines(w, body))| <= SIZE_LIMIT ==> ok
  {
    hide Frozen.Valid, Join;
    file := new Frozen(reliable);
    var front := [w.header] + body;
    ghost var all := PrintedLines(w, body);
    var hashed := "";
    var i := 0;
    JoinNothing();
    while i < |front|
      invariant 0 <= i <= |front| && fresh(file) && file.Valid() && file.reliable == reliable
      invariant file.contents == hashed == Join(front[..i]) && file.size == |file.contents|
    {
      assert front[..i + 1] == front[..i] + [front[i]] == all[..i + 1];
      JoinOne(front[..i], front[i]);
      JoinGrows(all, i + 1);
      assert hashed + (front[i] + "\n") == Join(front[..i + 1]);
      ok := file.Sink(front[i] + "\n");
      if !ok { return; }
      hashed := hashed + (front[i] + "\n");
      i := i + 1;
    }
    assert front[..|front|] == front;
    var footer := w.serialize(Obj(FooterJson(w, |front|, hashed)));
    JoinOne(front, footer);
    assert hashed + (footer + "\n") == Join(all);
    ok := file.Sink(footer + "\n");
  }

  lemma JoinNothing()
    ensures Join([]) == ""
  {
  }

  lemma JoinGrows(lines: seq<string>, n: nat)
    requires n <= |lines|
    ensures |Join(lines[..n])| <= |Join(lines)|
  {
    JoinAppend(lines[..n], lines[n..]);
    assert lines == lines[..n] + lines[n..];
  }

  lemma ScanNext(w: Wire, s: Scan, rest: string)
    requires rest != ""
    ensures Scanned(w, s, Lines(rest)) ==
            (match StepLine(w, s, FirstLine(rest))
             case None => None
             case Some(s') => Scanned(w, s', Lines(AfterLine(rest))))
  {
    assert Lines(rest)[0] == FirstLine(rest) && Lines(rest)[1..] == Lines(AfterLine(rest));
  }

  lemma LongNotAccepted(w: Wire, s: Scan, rest: string)
    requires |FirstLine(rest)| >= LINE_LIMIT
    ensures Scanned(w, s, Lines(rest)) == None
  {
    ScanNext(w, s, rest);
  }

  /** `inspect_snapshot_envelope` over the frozen file, with its early exits: whatever the reads return on the way, the
      verdict is the automaton's on the newline split, and the lines are what the visitor saw. The sink already enforces
      the size limit the automaton's byte count would. */
  method InspectFile(w: Wire, file: Frozen) returns (r: Option<Scan>, lines: seq<string>)
    requires file.Valid() && file.size == |file.contents|
    ensures r.Some? ==> r == Accepted(w, file.contents) && lines == Lines(file.contents)
    ensures file.reliable ==> r == Accepted(w, file.contents)
  {
    hide Lines, LineEnd, FirstLine, AfterLine, StepLine, LineReader.Valid, LineReader.Remaining;
    var reader := new LineReader(file);
    var s := START;
    lines := [];
    ghost var rest := file.contents;
    Ends(lines);
    while true
      invariant reader.Valid() && reader.file == file && fresh(reader) && fresh(reader.buffer)
      invariant rest == reader.Remaining() && lines + Lines(rest) == Lines(file.contents)
      invariant Scanned(w, START, Lines(file.contents)) == Scanned(w, s, Lines(rest))
      decreases |rest|
    {
      var got := reader.ReadLine();
      match got {
        case End =>
          Ends(lines);
          NoLines();
          return if s.finished then Some(s) else None, lines;
        case Line(text) =>
          Advance(lines, rest);
          ScanNext(w, s, rest);
          var next := StepLine(w, s, text);
          if next.None? { return None, lines; }
          s, lines, rest := next.value, lines + [text], AfterLine(rest);
        case TooLong =>
          LongNotAccepted(w, s, rest);
          return None, lines;
        case Failed => return None, lines;
      }
    }
  }

  lemma NoLines()
    ensures Lines("") == []
  {
  }

  /** `receive`: collect the chunks and inspect what was frozen. On a device that does not fail, the envelope or the
      refusal is that of the concatenated chunks, however they were cut. */
  method Receive(w: Wire, chunks: seq<string>, reliable: bool) returns (file: Frozen, envelope: Option<Scan>)
    ensures fresh(file) && file.Valid() && file.reliable == reliable
    ensures envelope.Some? ==>
      && file.contents == Concatenation(chunks) && file.size == |file.contents|
      && envelope == Accepted(w, Concatenation(chunks))
    ensures reliable ==> envelope == Accepted(w, Concatenation(chunks))
  {
    hide Scanned, Lines;
    var ok, lines;
    file, ok := Collect(chunks, reliable);
    if !ok { return file, None; }
    envelope, lines := InspectFile(w, file);
  }

  /** `validate_snapshot_contents` of a frozen file: the envelope pass hands its records to the contents check. */
  method ValidateFile(w: Wire, file: Frozen) returns (ok: bool)
    requires file.Valid() && file.size == |file.contents|
    ensures ok ==> FileValid(w, file.contents)
    ensures file.reliable ==> (ok <==> FileValid(w, file.contents))
  {
    hide Lines, ContentsValid;
    var scan, lines := InspectFile(w, file);
    if scan.None? { return false; }
    AcceptedIffWellFramed(w, file.contents);
    ok := ValidateContents(w, lines[1..|lines| - 1], scan.value.revision);
  }

  /** `export_native_snapshot`. What it returns is the printed state; when no device or database call fails and nobody
      cancels, it fails for nothing but what `Exported` says. */
  method ExportNative(w: Wire, state: seq<StateRecord>, stamp: string, reliable: bool) returns (file: Frozen, ok: bool)
    ensures fresh(file) && file.Valid() && file.reliable == reliable
    ensures ok ==> file.size == |file.contents| && Exported(w, state, stamp) == Some(file.contents)
    ensures reliable ==> (ok <==> Exported(w, state, stamp).Some?)
  {
    hide FileValid, AllRepresentable, SpoolFits, Spool, Body, PrintedLines, Join, Frozen.Valid;
    file := new Frozen(reliable);
    var spooled, spool := SpoolState(w, state, stamp);
    var interrupted: bool := *;
    if !spooled || (interrupted && !reliable) { return file, false; }
    file, ok := Emit(w, Body(spool), reliable);
    if !ok {
      TooLargeIsInvalid(w, Join(PrintedLines(w, Body(spool))));
      return;
    }
    var scan, lines := InspectFile(w, file);
    if scan.None? {
      UnframedIsInvalid(w, file.contents);
      return file, false;
    }
    ok := ValidateFile(w, file);
    interrupted := *;
    if interrupted && !reliable { ok := false; }
  }

  lemma TooLargeIsInvalid(w: Wire, bytes: string)
    ensures |bytes| > SIZE_LIMIT ==> !FileValid(w, bytes)
  {
  }

  lemma UnframedIsInvalid(w: Wire, bytes: string)
    ensures Accepted(w, bytes).None? ==> !FileValid(w, bytes)
  {
  }

  // ------------------------------------------------------------------------------------------------------- reading

  datatype Parsed = Skip | Stop | Record(r: StateRecord) | Bad

  function WordRecord(record: map<Field, Json>, data: map<Field, Json>, code: string, word: string): Parsed {
    var kind := Text(data, KindKey);
    var weight, deleted := Whole(data, WeightKey), Flag(record, DeletedKey);
    var owned := if InsertedKey in data then Flag(data, InsertedKey) else Some(true);
    if kind.None? || KindOf(kind.value).None? || weight.None? || deleted.None? || owned.None? then Bad
    else
      var k := KindOf(kind.value).value;
      var display := if k.English? && !deleted.value then word else "";
      Record(Entry(k, code, word, weight.value, display, deleted.value, owned.value))
  }

  function PlaceRecord(data: map<Field, Json>, code: string, word: string, position: bool): Parsed {
    var context, n := Text(data, ContextKey), Whole(data, if position then PositionKey else CountKey);
    if context.None? || n.None? then Bad
    else if position then Record(Position(context.value, code, word, ToInt32(n.value)))
    else Record(Selection(context.value, code, word, ToInt32(n.value)))
  }

  /** One line of `Records::next`. */
  function RecordOf(w: Wire, line: string): Parsed {
    match Object(w, line)
    case None => Bad
    case Some(record) =>
      match Text(record, TypeKey)
      case None => Bad
      case Some(kind) =>
        if kind == "header" || kind == "entry" then Skip
        else if kind == "footer" then Stop
        else
          match Child(record, DataKey)
          case None => Bad
          case Some(data) =>
            var code, word := Text(data, CodeKey), Text(data, WordKey);
            if code.None? || word.None? then Bad
            else if kind == "overlay" then WordRecord(record, data, code.value, word.value)
            else if kind == "position" then PlaceRecord(data, code.value, word.value, true)
            else if kind == "selection" then PlaceRecord(data, code.value, word.value, false)
            else Bad
  }

  /** The records the engine is fed: skip, convert, and stop at a footer that must be the last line. */
  function Staged(w: Wire, lines: seq<string>): Option<seq<StateRecord>> {
    if lines == [] then None
    else match RecordOf(w, lines[0])
      case Bad => None
      case Stop => if |lines| == 1 then Some([]) else None
      case Skip => Staged(w, lines[1..])
      case Record(r) =>
        match Staged(w, lines[1..])
        case None => None
        case Some(rest) => Some([r] + rest)
  }

  datatype NextResult = More(r: StateRecord) | Done | Refused | Unreadable

  /** `Records::next` on the chunked reader. */
  method NextRecord(w: Wire, reader: LineReader) returns (r: NextResult)
    requires reader.Valid()
    modifies reader, reader.buffer
    ensures r.More? || r.Done? ==> reader.Valid()
    ensures r.More? ==>
      && |Lines(reader.Remaining())| < |Lines(old(reader.Remaining()))|
      && Staged(w, Lines(old(reader.Remaining()))) ==
         (Prepended([r.r], Staged(w, Lines(reader.Remaining()))))
    ensures r.More? && Short(Lines(old(reader.Remaining()))) ==> Short(Lines(reader.Remaining()))
    ensures r.Done? ==> Staged(w, Lines(old(reader.Remaining()))) == Some([])
    ensures r.Refused? ==> Staged(w, Lines(old(reader.Remaining()))) == None
    ensures r.Unreadable? && reader.file.reliable ==> !Short(Lines(old(reader.Remaining())))
  {
    ghost var all := Lines(reader.Remaining());
    while true
      invariant reader.Valid() && Staged(w, all) == Staged(w, Lines(reader.Remaining()))
      invariant |Lines(reader.Remaining())| <= |all|
      invariant Short(all) ==> Short(Lines(reader.Remaining()))
      decreases |Lines(reader.Remaining())|
    {
      ghost var lines := Lines(reader.Remaining());
      var got := reader.ReadLine();
      match got {
        case End => return Refused;
        case Line(line) =>
          assert lines == [line] + Lines(reader.Remaining());
          match RecordOf(w, line) {
            case Bad => return Refused;
            case Skip =>
            case Record(record) => return More(record);
            case Stop =>
              var extra := reader.ReadLine();
              match extra {
                case End => return Done;
                case Line(_) => return Refused;
                case _ => return Unreadable;
              }
          }
        case _ => return Unreadable;
      }
    }
  }

  /** What a staging run is fed for a file, or nothing when the file is refused. */
  ghost function Restored(w: Wire, bytes: string): Option<seq<StateRecord>> {
    if FileValid(w, bytes) then Staged(w, Lines(bytes)) else None
  }

  /** Pulling records until the footer: when it fails on a reliable device, the lines hold no staging run either. */
  method PullRecords(w: Wire, reader: LineReader) returns (r: Option<seq<StateRecord>>)
    requires reader.Valid()
    modifies reader, reader.buffer
    ensures r.Some? ==> r == Staged(w, Lines(old(reader.Remaining())))
    ensures reader.file.reliable && Short(Lines(old(reader.Remaining()))) ==>
      r == Staged(w, Lines(old(reader.Remaining())))
  {
    hide Lines, Staged, Short, LineReader.Valid, LineReader.Remaining;
    var records: seq<StateRecord> := [];
    ghost var all := Staged(w, Lines(reader.Remaining()));
    ghost var left := all;
    ghost var allShort := Short(Lines(reader.Remaining()));
    PrependNone(left);
    while true
      invariant reader.Valid()
      invariant left == Staged(w, Lines(reader.Remaining())) && all == Prepended(records, left)
      invariant allShort ==> Short(Lines(reader.Remaining()))
      decreases |Lines(reader.Remaining())|
    {
      var next := NextRecord(w, reader);
      match next {
        case More(record) =>
          left := Staged(w, Lines(reader.Remaining()));
          PrependOne(records, record, left);
          records := records + [record];
        case Done =>
          assert records + [] == records;
          return Some(records);
        case Refused => return None;
        case Unreadable => return None;
      }
    }
  }

  /** `stage_native_snapshot`: validate the frozen file, then pull records through short reads until the footer. */
  method StageNative(w: Wire, file: Frozen) returns (r: Option<seq<StateRecord>>)
    requires file.Valid() && file.size == |file.contents|
    ensures r.Some? ==> r == Restored(w, file.contents)
    ensures file.reliable ==> r == Restored(w, file.contents)
  {
    hide Lines, Staged, FileValid, LineReader.Valid, LineReader.Remaining, Short;
    var valid := ValidateFile(w, file);
    if !valid { return None; }
    ValidIsShort(w, file.contents);
    var reader := new LineReader(file);
    r := PullRecords(w, reader);
  }

  /** The envelope's line limit is the reader's. */
  lemma ValidIsShort(w: Wire, bytes: string)
    requires FileValid(w, bytes)
    ensures Short(Lines(bytes))
  {
    hide WellFramed, Lines, Short, ContentsValid;
    AcceptedIffWellFramed(w, bytes);
    FramedIsShort(w, Lines(bytes));
  }

  lemma FramedIsShort(w: Wire, lines: seq<string>)
    requires WellFramed(w, lines)
    ensures Short(lines)
  {
    hide StrictObject, Join, RecordShape;
    var n := |lines| - 1;
    var front := lines[..n];
    forall i | 0 <= i < |lines| ensures |lines[i]| < LINE_LIMIT {
      if i < n {
        assert front[i] == lines[i];
        assert i > 0 ==> Category(w, front[i]) >= 1;
      }
    }
  }

  function Prepended(records: seq<StateRecord>, rest: Option<seq<StateRecord>>): Option<seq<StateRecord>> {
    match rest case None => None case Some(more) => Some(records + more)
  }

  lemma PrependNone(rest: Option<seq<StateRecord>>)
    ensures Prepended([], rest) == rest
  {
    if rest.Some? {
      assert [] + rest.value == rest.value;
    }
  }

  lemma PrependOne(records: seq<StateRecord>, r: StateRecord, rest: Option<seq<StateRecord>>)
    ensures Prepended(records, Prepended([r], rest)) == Prepended(records + [r], rest)
  {
    if rest.Some? {
      assert records + ([r] + rest.value) == records + [r] + rest.value;
    }
  }
}
