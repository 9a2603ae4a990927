/** The frozen file: a producer appends to it through a sink that survives short writes, and readers fetch it back
    through reads that may be short. */
module PreparedSnapshot {
  import opened SnapshotFormat

  datatype ReadResult = Count(n: nat) | ReadFailed

  /** An unlinked private file. `size` counts only chunks that were written completely. On a `reliable` device reads and
      writes may be short but do not fail; a cancelled call counts as one that fails. */
  class Frozen {
    const reliable: bool
    var contents: string
    var size: nat

    ghost predicate Valid()
      reads this
    {
      size <= |contents| && size <= SIZE_LIMIT
    }

    constructor (reliable: bool)
      ensures Valid() && contents == "" && size == 0 && this.reliable == reliable
    {
      this.reliable, contents, size := reliable, "", 0;
    }

    /** The sink of `receive`: write a whole chunk, however many calls it takes, or report failure. */
    method Sink(data: string) returns (ok: bool)
      requires Valid() && size == |contents|
      modifies this
      ensures Valid()
      ensures ok ==> contents == old(contents) + data && size == |contents|
      ensures !ok ==> old(contents) <= contents && size == old(size)
      ensures |data| > SIZE_LIMIT - old(size) ==> !ok
      ensures reliable && |data| <= SIZE_LIMIT - old(size) ==> ok
    {
      if |data| > SIZE_LIMIT - size { return false; }
      var written := 0;
      while written < |data|
        invariant 0 <= written <= |data|
        invariant contents == old(contents) + data[..written] && size == old(size)
      {
        var amount: int :| amount <= |data| - written && (reliable ==> amount > 0);  // any short write, or an error
        if amount <= 0 { return false; }
        contents := contents + data[written..written + amount];
        assert data[..written + amount] == data[..written] + data[written..written + amount];
        written := written + amount;
      }
      assert data[..|data|] == data;
      size := size + |data|;
      ok := true;
    }

    /** `read`: at most the capacity, at least one byte unless the end is reached, whatever `pread` decides. */
    method Read(offset: nat, buffer: array<char>) returns (r: ReadResult)
      requires Valid()
      modifies buffer
      ensures offset > size ==> r.ReadFailed?
      ensures reliable && offset <= size ==> r.Count?
      ensures r.Count? ==>
        && offset + r.n <= size && r.n <= buffer.Length
        && (r.n == 0 <==> offset == size || buffer.Length == 0)
        && buffer[..r.n] == contents[offset..offset + r.n]
    {
      if offset > size { return ReadFailed; }
      var capacity := if buffer.Length < size - offset then buffer.Length else size - offset;
      if capacity == 0 { return Count(0); }
      var count: int :| count <= capacity && (reliable ==> count > 0);
      if count <= 0 { return ReadFailed; }
      forall i | 0 <= i < count {
        buffer[i] := contents[offset + i];
      }
      assert forall i :: 0 <= i < count ==> buffer[..count][i] == contents[offset..offset + count][i];
      r := Count(count);
    }
  }

  /** A file that receives every chunk holds their concatenation. */
  function Concatenation(chunks: seq<string>): string {
    if chunks == [] then "" else Concatenation(chunks[..|chunks| - 1]) + chunks[|chunks| - 1]
  }

  lemma {:induction false} ConcatenationGrows(chunks: seq<string>, n: nat)
    requires n <= |chunks|
    ensures |Concatenation(chunks[..n])| <= |Concatenation(chunks)|
    decreases |chunks|
  {
    if n < |chunks| {
      ConcatenationGrows(chunks[..|chunks| - 1], n);
      assert chunks[..|chunks| - 1][..n] == chunks[..n];
    } else {
      assert chunks[..n] == chunks;
    }
  }

  /** The producer's part of `receive`: it succeeds exactly when everything fits, as far as the device is concerned. */
  method Collect(chunks: seq<string>, reliable: bool) returns (file: Frozen, ok: bool)
    ensures fresh(file) && file.Valid() && file.reliable == reliable
    ensures ok ==> file.contents == Concatenation(chunks) && file.size == |file.contents|
    ensures ok ==> |Concatenation(chunks)| <= SIZE_LIMIT
    ensures reliable && |Concatenation(chunks)| <= SIZE_LIMIT ==> ok
  {
    file := new Frozen(reliable);
    var i := 0;
    while i < |chunks|
      invariant 0 <= i <= |chunks| && fresh(file) && file.Valid() && file.reliable == reliable
      invariant file.contents == Concatenation(chunks[..i]) && file.size == |file.contents|
    {
      ConcatenationGrows(chunks, i + 1);
      assert chunks[..i + 1][..i] == chunks[..i];
      ok := file.Sink(chunks[i]);
      if !ok { return; }
      i := i + 1;
    }
    assert chunks[..|chunks|] == chunks;
    ok := true;
  }

  // --------------------------------------------------------------------------------------------------- line reader

  const BUFFER: nat := 16384

  datatype ByteResult = Byte(value: char) | Eof | ByteFailed

  datatype LineResult = Line(text: string) | End | TooLong | Failed

  /** The pull side of a snapshot: one buffer, a cursor in it, and the file offset behind it. */
  class LineReader {
    const file: Frozen
    const bytes: string
    const buffer: array<char>
    var offset: nat
    var cursor: nat
    var available: nat

    ghost predicate Valid()
      reads this, file, buffer
    {
      && file.Valid() && file.size == |file.contents| && bytes == file.contents
      && buffer.Length == BUFFER
      && cursor <= available <= BUFFER && available <= offset <= |bytes|
      && buffer[..available] == bytes[offset - available..offset]
    }

    /** The bytes not handed out yet: what is left in the buffer, then what is left in the file. */
    ghost function Remaining(): string
      requires Valid()
      reads this, file, buffer
    {
      bytes[offset - available + cursor..]
    }

    constructor (file: Frozen)
      requires file.Valid() && file.size == |file.contents|
      ensures Valid() && Remaining() == file.contents && this.file == file
      ensures fresh(buffer)
    {
      this.file, this.bytes := file, file.contents;
      buffer := new char[BUFFER];
      offset, cursor, available := 0, 0, 0;
    }

    /** Refill an exhausted buffer. */
    method Fill() returns (ok: bool)
      requires Valid() && cursor == available
      modifies this, buffer
      ensures ok ==> Valid() && Remaining() == old(Remaining()) && cursor == 0
      ensures ok ==> (available == 0 <==> Remaining() == "")
      ensures file.reliable ==> ok
    {
      var r := file.Read(offset, buffer);
      if r.ReadFailed? { return false; }
      available, cursor := r.n, 0;
      offset := offset + r.n;
      ok := true;
    }

    /** Hand out one byte, refilling first when the buffer is used up. */
    method NextByte() returns (r: ByteResult)
      requires Valid()
      modifies this, buffer
      ensures !r.ByteFailed? ==> Valid()
      ensures file.reliable ==> !r.ByteFailed?
      ensures r.Byte? ==> old(Remaining()) == [r.value] + Remaining()
      ensures r.Eof? ==> old(Remaining()) == "" == Remaining()
    {
      if cursor == available {
        var ok := Fill();
        if !ok { return ByteFailed; }
        if available == 0 { return Eof; }
      }
      assert buffer[..available][cursor] == bytes[offset - available..offset][cursor];
      var at := offset - available + cursor;
      assert bytes[at..] == [bytes[at]] + bytes[at + 1..];
      r := Byte(buffer[cursor]);
      cursor := cursor + 1;
    }

    /** For every schedule of short reads this is the next line of the newline split: the same text, the same limit,
        an unterminated last line included, the end exactly when nothing is left. */
    method ReadLine() returns (r: LineResult)
      requires Valid()
      modifies this, buffer
      ensures !r.Failed? && !r.TooLong? ==> Valid()
      ensures r.Line? ==>
        && old(Remaining()) != "" && r.text == FirstLine(old(Remaining())) && |r.text| < LINE_LIMIT
        && Remaining() == AfterLine(old(Remaining()))
      ensures r.End? ==> old(Remaining()) == "" == Remaining()
      ensures r.TooLong? ==> |FirstLine(old(Remaining()))| >= LINE_LIMIT
      ensures file.reliable ==> !r.Failed?
    {
      hide Lines, LineEnd, FirstLine, AfterLine, Valid, Remaining;
      ghost var whole := Remaining();
      var line := "";
      while true
        invariant Valid() && whole == line + Remaining()
        invariant '\n' !in line && |line| < LINE_LIMIT
        decreases |Remaining()|
      {
        var byte := NextByte();
        match byte {
          case ByteFailed => return Failed;
          case Eof =>
            LastLine(line);
            assert whole == line;
            return if line == "" then End else Line(line);
          case Byte(c) =>
            assert whole == line + [c] + Remaining();
            if c == '\n' {
              FirstOfJoined(line, Remaining());
              return Line(line);
            }
            line := line + [c];
            if |line| >= LINE_LIMIT {
              LongLine(line, Remaining());
              return TooLong;
            }
        }
      }
    }
  }

  lemma LastLine(line: string)
    requires '\n' !in line
    ensures FirstLine(line) == line && AfterLine(line) == ""
  {
    LineEndAt(line, |line|);
  }

  lemma LongLine(line: string, rest: string)
    requires '\n' !in line
    ensures |FirstLine(line + rest)| >= |line|
  {
    var b := line + rest;
    assert forall i :: 0 <= i < |line| ==> b[i] == line[i];
  }

  predicate Short(lines: seq<string>) {
    forall line :: line in lines ==> |line| < LINE_LIMIT
  }

  lemma ShortAppend(lines: seq<string>, line: string)
    requires Short(lines) && |line| < LINE_LIMIT
    ensures Short(lines + [line])
  {
  }

  lemma Ends(done: seq<string>)
    ensures Short([]) && done + Lines("") == done
  {
  }

  lemma Advance(done: seq<string>, rest: string)
    requires rest != ""
    ensures done + Lines(rest) == done + [FirstLine(rest)] + Lines(AfterLine(rest))
  {
    hide Lines, LineEnd, FirstLine, AfterLine;
    LinesSplit(rest);
  }

  lemma LinesSplit(rest: string)
    requires rest != ""
    ensures Lines(rest) == [FirstLine(rest)] + Lines(AfterLine(rest))
  {
  }

  lemma LongRefused(done: seq<string>, rest: string)
    requires |FirstLine(rest)| >= LINE_LIMIT
    ensures !Short(done + Lines(rest))
  {
    assert rest != "";
    assert FirstLine(rest) in done + Lines(rest);
  }

  /** Reading to the end yields exactly the newline split, whatever the reads returned on the way; on a reliable device
      it fails only for a line that is too long. */
  method ReadAllLines(file: Frozen) returns (ok: bool, lines: seq<string>)
    requires file.Valid() && file.size == |file.contents|
    ensures ok ==> lines == Lines(file.contents) && Short(lines)
    ensures file.reliable ==> (ok <==> Short(Lines(file.contents)))
  {
    hide Lines, LineEnd, FirstLine, AfterLine, Short, LineReader.Valid, LineReader.Remaining;
    var reader := new LineReader(file);
    lines := [];
    ghost var rest := file.contents;
    Ends(lines);
    while true
      invariant reader.Valid() && fresh(reader) && fresh(reader.buffer)
      invariant rest == reader.Remaining() && lines + Lines(rest) == Lines(file.contents)
      invariant Short(lines)
      decreases |rest|
    {
      var r := reader.ReadLine();
      match r {
        case Line(text) =>
          Advance(lines, rest);
          ShortAppend(lines, text);
          lines, rest := lines + [text], AfterLine(rest);
        case End =>
          Ends(lines);
          return true, lines;
        case TooLong =>
          LongRefused(lines, rest);
          return false, lines;
        case Failed => return false, lines;
      }
    }
  }
}
