/** The vocabulary of a dictionary snapshot: engine records, JSON lines, and the newline framing they travel in. A
    `char` stands for one byte. JSON text, SHA-256 and the timestamp check belong to foreign libraries; they are
    parameters of everything below. */
module SnapshotFormat {
  import opened Optional

  // ----------------------------------------------------------------------------------------------- engine records

  datatype Kind = Pinyin | Wubi | QuickPhrase | English

  datatype StateRecord =
    | Entry(kind: Kind, key: string, value: string, weight: int, display: string, deleted: bool, userInserted: bool)
    | Position(context: string, key: string, value: string, position: int)
    | Selection(context: string, key: string, value: string, count: int)

  function KindName(k: Kind): string {
    match k
    case Pinyin => "pinyin"
    case Wubi => "wubi"
    case QuickPhrase => "quick"
    case English => "english"
  }

  function KindOf(name: string): Option<Kind> {
    if name == "pinyin" then Some(Pinyin)
    else if name == "wubi" then Some(Wubi)
    else if name == "quick" then Some(QuickPhrase)
    else if name == "english" then Some(English)
    else None
  }

  lemma KindRoundTrip(k: Kind)
    ensures KindOf(KindName(k)) == Some(k)
  {
    assert |"pinyin"| == 6 && |"wubi"| == 4 && |"quick"| == 5 && |"english"| == 7;
  }

  /** `static_cast<int>` of a 64-bit value. */
  function ToInt32(i: int): (r: int)
    ensures -0x8000_0000 <= r < 0x8000_0000 && (r - i) % 0x1_0000_0000 == 0
    ensures -0x8000_0000 <= i < 0x8000_0000 ==> r == i
  {
    (i + 0x8000_0000) % 0x1_0000_0000 - 0x8000_0000
  }

  // ----------------------------------------------------------------------------------------------------------- JSON

  const RESERVED: seq<string> :=
    ["type", "format", "version", "revision", "records", "sha256", "data", "deleted", "id", "kind", "code", "word",
     "weight", "updated_at", "user_inserted", "context", "position", "count"]

  /** A name with a constructor of its own is not written as any other key, so one text stands for one key. */
  type OtherName = name: string | name !in RESERVED witness ""

  /** Object keys the formats use, and every other one. */
  datatype Field =
    | TypeKey | FormatKey | VersionKey | RevisionKey | RecordsKey | ShaKey | DataKey | DeletedKey
    | IdKey | KindKey | CodeKey | WordKey | WeightKey | UpdatedKey | InsertedKey
    | ContextKey | PositionKey | CountKey
    | OtherKey(name: OtherName)

  /** Arrays and fractions never pass the strict parser, so they have no place here. */
  datatype Json = Null | Bool(b: bool) | Int(i: int) | Str(s: string) | Obj(fields: map<Field, Json>)

  function Text(o: map<Field, Json>, k: Field): Option<string> {
    if k in o && o[k].Str? then Some(o[k].s) else None
  }

  function Whole(o: map<Field, Json>, k: Field): Option<int> {
    if k in o && o[k].Int? then Some(o[k].i) else None
  }

  function Flag(o: map<Field, Json>, k: Field): Option<bool> {
    if k in o && o[k].Bool? then Some(o[k].b) else None
  }

  function Child(o: map<Field, Json>, k: Field): Option<map<Field, Json>> {
    if k in o && o[k].Obj? then Some(o[k].fields) else None
  }

  /** `serialize` and `parse` are Boost.JSON; `strict` is the duplicate-key, depth and size check of the envelope's own
      parser; `digest` is SHA-256 in hexadecimal, and `identity` the digest of a
      kind, a code and a word; `stamp` accepts an ISO 8601 timestamp; `header` is the exporter's
      first line. */
  datatype Wire = Wire(
    serialize: Json -> string,
    parse: string -> Option<Json>,
    strict: string -> bool,
    digest: string -> string,
    identity: (string, string, string) -> string,
    stamp: string -> bool,
    header: string)

  const HEADER_FIELDS: map<Field, Json> :=
    map[TypeKey := Str("header"), FormatKey := Str("msime-dictionary-snapshot"), VersionKey := Int(1),
        RevisionKey := Int(1)]

  predicate PlainLine(line: string) {
    line != "" && '\n' !in line
  }

  /** What the libraries promise: one non-empty line per value, and parsing a serialised value either fails (text that
      is not UTF-8, say) or gives that value back. */
  ghost predicate Faithful(w: Wire) {
    && (forall j :: PlainLine(w.serialize(j)))
    && (forall j :: w.parse(w.serialize(j)).None? || w.parse(w.serialize(j)) == Some(j))
    && PlainLine(w.header) && w.parse(w.header) == Some(Obj(HEADER_FIELDS))
  }

  /** The envelope's parser: the strict check, then the ordinary one, then "is it an object". */
  function StrictObject(w: Wire, line: string): Option<map<Field, Json>> {
    if !w.strict(line) then None
    else match w.parse(line)
      case Some(Obj(fields)) => Some(fields)
      case _ => None
  }

  function Object(w: Wire, line: string): Option<map<Field, Json>> {
    match w.parse(line)
    case Some(Obj(fields)) => Some(fields)
    case _ => None
  }

  // --------------------------------------------------------------------------------------------------------- framing

  const LINE_LIMIT: nat := 65536
  const SIZE_LIMIT: nat := 512 * 1024 * 1024

  /** Where the first line ends: its newline, or the end of the text. */
  function LineEnd(b: string): (k: nat)
    ensures k <= |b|
    ensures k < |b| ==> b[k] == '\n'
    ensures forall i :: 0 <= i < k ==> b[i] != '\n'
  {
    if b == "" || b[0] == '\n' then 0 else 1 + LineEnd(b[1..])
  }

  function FirstLine(b: string): string {
    b[..LineEnd(b)]
  }

  /** What follows the first line and its newline, if it has one. */
  function AfterLine(b: string): (r: string)
    ensures b != "" ==> |r| < |b|
  {
    var k := LineEnd(b);
    if k == |b| then "" else b[k + 1..]
  }

  /** The newline split: a last line without a newline counts, an empty rest does not. */
  function Lines(b: string): seq<string>
    decreases |b|
  {
    if b == "" then [] else [FirstLine(b)] + Lines(AfterLine(b))
  }

  function Join(lines: seq<string>): string {
    if lines == [] then "" else lines[0] + "\n" + Join(lines[1..])
  }

  lemma {:induction false} LineEndAt(b: string, k: nat)
    requires k <= |b| && (k < |b| ==> b[k] == '\n')
    requires forall i :: 0 <= i < k ==> b[i] != '\n'
    ensures LineEnd(b) == k
  {
    if k > 0 {
      LineEndAt(b[1..], k - 1);
    }
  }

  lemma FirstOfJoined(line: string, rest: string)
    requires '\n' !in line
    ensures FirstLine(line + "\n" + rest) == line && AfterLine(line + "\n" + rest) == rest
  {
    var b := line + "\n" + rest;
    LineEndAt(b, |line|);
    assert b[..|line|] == line && b[|line| + 1..] == rest;
  }

  /** Splitting joined lines gives the lines back. */
  lemma {:induction false} LinesOfJoin(lines: seq<string>)
    requires forall i :: 0 <= i < |lines| ==> '\n' !in lines[i]
    ensures Lines(Join(lines)) == lines
  {
    hide LineEnd, FirstLine, AfterLine;
    if lines != [] {
      FirstOfJoined(lines[0], Join(lines[1..]));
      LinesOfJoin(lines[1..]);
      assert Join(lines) == lines[0] + "\n" + Join(lines[1..]);
      assert lines == [lines[0]] + lines[1..];
    }
  }

  lemma {:induction false} JoinAppend(a: seq<string>, b: seq<string>)
    ensures Join(a + b) == Join(a) + Join(b)
  {
    if a == [] {
      assert a + b == b;
    } else {
      JoinAppend(a[1..], b);
      assert (a + b)[1..] == a[1..] + b;
    }
  }

  lemma JoinOne(a: seq<string>, line: string)
    ensures Join(a + [line]) == Join(a) + line + "\n"
  {
    JoinAppend(a, [line]);
    assert Join([line]) == line + "\n" + Join([line][1..]);
  }

  lemma {:induction false} NoNewlineInLines(b: string)
    ensures forall i :: 0 <= i < |Lines(b)| ==> '\n' !in Lines(b)[i]
    decreases |b|
  {
    if b != "" {
      NoNewlineInLines(AfterLine(b));
    }
  }
}
