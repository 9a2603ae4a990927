/** The transport frame of a snapshot: a header, records in category order, and a footer that counts and hashes what
    came before. `Scanned` is the one-pass automaton; `WellFramed` says what it accepts. */
module SnapshotEnvelope {
  import opened Optional
  import opened SnapshotFormat

  /** The variables of the loop. */
  datatype Scan = Scan(category: int, records: nat, counts: seq<nat>, revision: int, hashed: string, finished: bool)

  const START: Scan := Scan(-1, 0, [0, 0, 0, 0], 0, "", false)

  function CategoryOf(kind: string): int {
    if kind == "entry" then 1
    else if kind == "overlay" then 2
    else if kind == "position" then 3
    else if kind == "selection" then 4
    else -1
  }

  function NonNegative(o: map<Field, Json>, k: Field): Option<int> {
    match Whole(o, k)
    case Some(i) => if i < 0 then None else Some(i)
    case None => None
  }

  predicate RightSize(line: string) {
    0 < |line| < LINE_LIMIT
  }

  /** One turn of the loop. */
  function StepLine(w: Wire, s: Scan, line: string): Option<Scan> {
    if s.finished || !RightSize(line) then None
    else match StrictObject(w, line)
      case None => None
      case Some(o) =>
        match Text(o, TypeKey)
        case None => None
        case Some(kind) =>
          if kind == "footer" then StepFooter(w, s, o)
          else if kind == "header" then StepHeader(s, o, line)
          else StepRecord(s, o, kind, line)
  }

  function StepFooter(w: Wire, s: Scan, o: map<Field, Json>): Option<Scan> {
    if s.category < 0 || |o| != 3 || NonNegative(o, RecordsKey) != Some(s.records)
      || Text(o, ShaKey) != Some(w.digest(s.hashed))
    then None else Some(s.(finished := true))
  }

  function StepHeader(s: Scan, o: map<Field, Json>, line: string): Option<Scan> {
    if s.category != -1 || |o| != 4 || Text(o, FormatKey) != Some("msime-dictionary-snapshot")
       || NonNegative(o, VersionKey) != Some(1) || NonNegative(o, RevisionKey).None?
    then None
    else Some(s.(category := 0, revision := NonNegative(o, RevisionKey).value, records := s.records + 1,
                 hashed := s.hashed + line + "\n"))
  }

  function StepRecord(s: Scan, o: map<Field, Json>, kind: string, line: string): Option<Scan> {
    var next := CategoryOf(kind);
    if s.category < 0 || next < 0 || next < s.category || !RecordShape(o, next) then None
    else Some(s.(category := next, counts := Bump(s.counts, next - 1), records := s.records + 1,
                 hashed := s.hashed + line + "\n"))
  }

  predicate RecordShape(o: map<Field, Json>, category: int) {
    && Child(o, DataKey).Some?
    && |o| == (if category == 2 then 3 else 2)
    && (category == 2 ==> Flag(o, DeletedKey).Some?)
  }

  function Bump(counts: seq<nat>, i: int): seq<nat> {
    if 0 <= i < |counts| then counts[i := counts[i] + 1] else counts
  }

  function Scanned(w: Wire, s: Scan, lines: seq<string>): Option<Scan>
    decreases |lines|
  {
    if lines == [] then Some(s)
    else match StepLine(w, s, lines[0])
      case None => None
      case Some(s') => Scanned(w, s', lines[1..])
  }

  /** What `inspect_snapshot_envelope` makes of a file. */
  function Accepted(w: Wire, bytes: string): Option<Scan> {
    match Scanned(w, START, Lines(bytes))
    case Some(s) => if s.finished && |bytes| <= SIZE_LIMIT then Some(s) else None
    case None => None
  }

  // ------------------------------------------------------------------------------------------- what the frame means

  predicate IsHeader(w: Wire, line: string) {
    RightSize(line) && match StrictObject(w, line)
      case None => false
      case Some(o) =>
        && |o| == 4 && Text(o, TypeKey) == Some("header") && Text(o, FormatKey) == Some("msime-dictionary-snapshot")
        && NonNegative(o, VersionKey) == Some(1) && NonNegative(o, RevisionKey).Some?
  }

  predicate IsFooter(w: Wire, line: string, records: nat, hashed: string) {
    RightSize(line) && match StrictObject(w, line)
      case None => false
      case Some(o) =>
        && |o| == 3 && Text(o, TypeKey) == Some("footer")
        && NonNegative(o, RecordsKey) == Some(records) && Text(o, ShaKey) == Some(w.digest(hashed))
  }

  /** 1 to 4 for a record line of the right shape, -1 for anything else. */
  function Category(w: Wire, line: string): int {
    if !RightSize(line) then -1
    else match StrictObject(w, line)
      case None => -1
      case Some(o) =>
        match Text(o, TypeKey)
        case None => -1
        case Some(kind) => if RecordShape(o, CategoryOf(kind)) then CategoryOf(kind) else -1
  }

  ghost predicate Opens(w: Wire, lines: seq<string>) {
    && |lines| > 0 && IsHeader(w, lines[0])
    && (forall i :: 1 <= i < |lines| ==> Category(w, lines[i]) >= 1)
    && (forall i, j :: 1 <= i < j < |lines| ==> Category(w, lines[i]) <= Category(w, lines[j]))
  }

  /** A header, records whose categories never decrease, and a footer with their number and their hash. */
  ghost predicate WellFramed(w: Wire, lines: seq<string>) {
    && |lines| >= 2
    && Opens(w, lines[..|lines| - 1])
    && IsFooter(w, lines[|lines| - 1], |lines| - 1, Join(lines[..|lines| - 1]))
  }

  function Tally(w: Wire, lines: seq<string>, category: int): nat {
    if lines == [] then 0
    else Tally(w, lines[..|lines| - 1], category) + (if Category(w, lines[|lines| - 1]) == category then 1 else 0)
  }

  /** The revision a header declares. */
  function Declared(w: Wire, line: string): int {
    match StrictObject(w, line)
    case Some(o) => (match NonNegative(o, RevisionKey) case Some(i) => i case None => 0)
    case None => 0
  }

  ghost predicate CountsMatch(w: Wire, counts: seq<nat>, lines: seq<string>) {
    |counts| == 4 && forall c {:trigger Tally(w, lines, c)} :: 1 <= c <= 4 ==> counts[c - 1] == Tally(w, lines, c)
  }

  ghost predicate Summarises(w: Wire, s: Scan, lines: seq<string>) {
    && lines != [] && !s.finished
    && s.records == |lines| && s.hashed == Join(lines) && s.revision == Declared(w, lines[0])
    && s.category == (if |lines| == 1 then 0 else Category(w, lines[|lines| - 1]))
    && CountsMatch(w, s.counts, lines)
  }

  lemma {:induction false} ScanSnoc(w: Wire, s: Scan, lines: seq<string>, line: string)
    ensures Scanned(w, s, lines + [line]) ==
            (match Scanned(w, s, lines) case None => None case Some(s') => StepLine(w, s', line))
    decreases |lines|
  {
    if lines == [] {
      assert lines + [line] == [line];
    } else {
      assert (lines + [line])[1..] == lines[1..] + [line];
      match StepLine(w, s, lines[0]) {
        case None =>
        case Some(s') => ScanSnoc(w, s', lines[1..], line);
      }
    }
  }

  /** The names of the record types are not the names of the frame's own lines. */
  lemma FrameIsNotRecord(w: Wire, line: string)
    ensures IsHeader(w, line) ==> Category(w, line) == -1
    ensures forall n: nat, h :: IsFooter(w, line, n, h) ==> Category(w, line) == -1
  {
    assert |"header"| == 6 && |"footer"| == 6 && |"entry"| == 5 && |"overlay"| == 7 && |"position"| == 8
      && |"selection"| == 9;
  }

  lemma KindsDiffer()
    ensures "header" != "footer"
    ensures CategoryOf("header") == -1 && CategoryOf("footer") == -1
  {
    assert "header"[0] != "footer"[0];
    assert |"header"| == 6 && |"footer"| == 6 && |"entry"| == 5 && |"overlay"| == 7 && |"position"| == 8
      && |"selection"| == 9;
  }

  lemma StepFirst(w: Wire, line: string)
    ensures StepLine(w, START, line).Some? <==> IsHeader(w, line)
    ensures IsHeader(w, line) ==>
      var s := StepLine(w, START, line).value;
      && !s.finished && s.category == 0 && s.records == 1 && s.hashed == line + "\n" && s.counts == START.counts
      && s.revision == Declared(w, line)
  {
    KindsDiffer();
    assert "" + line == line;
  }

  lemma StepOpen(w: Wire, s: Scan, line: string)
    requires !s.finished && s.category >= 0
    ensures StepLine(w, s, line).Some? <==>
            (Category(w, line) >= 1 && Category(w, line) >= s.category) || IsFooter(w, line, s.records, s.hashed)
    ensures StepLine(w, s, line).Some? ==>
      (StepLine(w, s, line).value.finished <==> IsFooter(w, line, s.records, s.hashed))
    ensures StepLine(w, s, line).Some? && !StepLine(w, s, line).value.finished ==>
      var c := Category(w, line);
      1 <= c <= 4 && StepLine(w, s, line).value ==
        s.(category := c, counts := Bump(s.counts, c - 1), records := s.records + 1, hashed := s.hashed + line + "\n")
  {
    KindsDiffer();
    FrameIsNotRecord(w, line);
  }

  lemma {:induction false} OpenScan(w: Wire, lines: seq<string>)
    requires lines != []
    ensures (Scanned(w, START, lines).Some? && !Scanned(w, START, lines).value.finished) <==> Opens(w, lines)
    ensures Opens(w, lines) ==> Summarises(w, Scanned(w, START, lines).value, lines)
  {
    var n := |lines| - 1;
    var init, last := lines[..n], lines[n];
    assert lines == init + [last];
    ScanSnoc(w, START, init, last);
    if n == 0 {
      StepFirst(w, last);
      assert lines == [last];
      if IsHeader(w, last) {
        FirstSummary(w, last);
      }
    } else {
      OpenScan(w, init);
      if Opens(w, init) {
        var s := Scanned(w, START, init).value;
        StepOpen(w, s, last);
        OpenSnoc(w, init, last, s);
        if StepLine(w, s, last).Some? && !StepLine(w, s, last).value.finished {
          SummaryGrows(w, s, init, last);
        }
      } else {
        OpensPrefix(w, lines, n);
        if Scanned(w, START, init).Some? {
          assert StepLine(w, Scanned(w, START, init).value, last).None?;
        }
      }
    }
  }

  lemma OpensPrefix(w: Wire, lines: seq<string>, n: nat)
    requires 0 < n <= |lines|
    ensures Opens(w, lines) ==> Opens(w, lines[..n])
  {
  }

  lemma OpenSnoc(w: Wire, init: seq<string>, last: string, s: Scan)
    requires Opens(w, init) && Summarises(w, s, init)
    ensures Opens(w, init + [last]) <==> Category(w, last) >= 1 && Category(w, last) >= s.category
  {
    var lines := init + [last];
    var n := |init|;
    assert lines[..n] == init;
    if Category(w, last) >= 1 && Category(w, last) >= s.category {
      forall i, j | 1 <= i < j < |lines| ensures Category(w, lines[i]) <= Category(w, lines[j]) {
        if j == n {
          assert Category(w, init[i]) <= s.category;
        } else {
          assert Category(w, init[i]) <= Category(w, init[j]);
        }
      }
    }
    if Opens(w, lines) {
      assert Category(w, lines[n]) >= 1;
      if n > 1 {
        assert Category(w, lines[n - 1]) <= Category(w, lines[n]);
      }
    }
  }

  lemma SummaryGrows(w: Wire, s: Scan, init: seq<string>, last: string)
    requires Summarises(w, s, init) && 1 <= Category(w, last) <= 4
    ensures Summarises(w, s.(category := Category(w, last), counts := Bump(s.counts, Category(w, last) - 1),
                             records := s.records + 1, hashed := s.hashed + last + "\n"), init + [last])
  {
    JoinOne(init, last);
    assert (init + [last])[..|init|] == init;
  }

  lemma FirstSummary(w: Wire, line: string)
    requires IsHeader(w, line)
    ensures forall c :: 1 <= c <= 4 ==> Tally(w, [line], c) == 0
    ensures Join([line]) == line + "\n"
  {
    FrameIsNotRecord(w, line);
    assert [line][..0] == [];
    assert Join([line][1..]) == "";
  }

  lemma {:induction false} FinishedScan(w: Wire, lines: seq<string>)
    ensures (Scanned(w, START, lines).Some? && Scanned(w, START, lines).value.finished) <==> WellFramed(w, lines)
    ensures WellFramed(w, lines) ==>
      && Opens(w, lines[..|lines| - 1])
      && var s := Scanned(w, START, lines).value;
         Scanned(w, START, lines[..|lines| - 1]) == Some(s.(finished := false)) &&
         Summarises(w, s.(finished := false), lines[..|lines| - 1])
  {
    if lines != [] {
      var n := |lines| - 1;
      var init, last := lines[..n], lines[n];
      assert lines == init + [last];
      ScanSnoc(w, START, init, last);
      if n == 0 {
        StepFirst(w, last);
      } else {
        OpenScan(w, init);
        if Opens(w, init) {
          StepOpen(w, Scanned(w, START, init).value, last);
        }
      }
    }
  }

  /** The envelope check accepts a file exactly when its lines are well framed and it is not too large; and the summary
      it returns counts the records of every category. */
  lemma AcceptedIffWellFramed(w: Wire, bytes: string)
    ensures Accepted(w, bytes).Some? <==> WellFramed(w, Lines(bytes)) && |bytes| <= SIZE_LIMIT
    ensures Accepted(w, bytes).Some? ==>
      var lines := Lines(bytes);
      var s := Accepted(w, bytes).value;
      && s.records == |lines| - 1 && s.revision == Declared(w, lines[0])
      && CountsMatch(w, s.counts, lines[..|lines| - 1])
  {
    FinishedScan(w, Lines(bytes));
  }
}
