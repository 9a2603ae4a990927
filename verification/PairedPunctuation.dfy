/** Committing a punctuation key, on values: what the controller remembers, what it answers, and what the answer does to
    the text on both sides of the caret. */
module PairedPunctuation {
  import opened Optional
  import opened TextTransform

  datatype PunctuationMode = ChineseMarks | EnglishMarks
  datatype Width = Half | Full

  datatype Result = Result(
    handled: bool, commit: Option<string>, deleteBefore: nat, cursorLeft: nat, cursorRight: nat)

  const UNHANDLED: Result := Result(false, None, 0, 0, 0)

  datatype Options = Options(smart: bool, repeatToChinese: bool, paired: bool)

  /** What decides the next mark: the formatter, the closing marks inserted automatically and still right of the caret
      (innermost last), and the last mark kept as ASCII. */
  datatype Typing = Typing(formatter: Formatter, pending: seq<string>, active: bool, key: Ascii, time: int)

  const REPEAT_SECONDS: int := 2

  function Forgotten(t: Typing): Typing {
    t.(active := false, key := '\0', time := 0)
  }

  function LastAscii(commit: string): Option<char>
    requires commit != ""
  {
    var last := commit[|commit| - 1];
    if last as int <= 0x7f then Some(last) else None
  }

  /** The character in front of the mark: the end of what finishing the composition commits, else what the client
      says. */
  function Before(finished: Result, before: Option<char>): Option<char> {
    if finished.commit.Some? && finished.commit.value != "" then LastAscii(finished.commit.value) else before
  }

  predicate Repeats(o: Options, mode: PunctuationMode, t: Typing, ascii: Ascii, before: Option<char>, now: int,
                    had: bool) {
    && mode.ChineseMarks? && o.smart && o.repeatToChinese && !had && t.active && t.key == ascii
    && before == Some(ascii) && t.time <= now <= t.time + REPEAT_SECONDS
  }

  /** The mark a key produces, and the formatter after it. */
  function MarkFor(o: Options, mode: PunctuationMode, width: Width, f: Formatter, ascii: Ascii, before: Option<char>,
                   had: bool)
    : (string, Formatter)
  {
    if mode.ChineseMarks? && IsPunctuation(ascii) then
      if o.smart && KeepsAscii(ascii, before) then ([ascii], f)
      else
        var mark := ChineseMark(f, ascii);
        (if !had && width.Full? && mark == [ascii] then ToFullWidth(ascii) else mark, AfterMark(f, ascii))
    else if !had && width.Full? then (ToFullWidth(ascii), f)
    else if had then ([ascii], f)
    else ("", f)
  }

  function QuoteOpened(mark: string, ascii: Ascii): string {
    if ascii == '"' && mark == "”" then "“" else if ascii == '\'' && mark == "’" then "‘" else mark
  }

  function Appended(r: Result, mark: string): Result {
    r.(handled := true, commit := Some(if r.commit.Some? then r.commit.value + mark else mark))
  }

  /** Pairing: open a pair with the caret inside, or step over a mark inserted earlier, or just commit. */
  function Paired(o: Options, mode: PunctuationMode, t: Typing, ascii: Ascii, mark: string, r: Result, kept: bool,
                  now: int)
    : (Typing, Result)
  {
    var quoted := if o.paired && mode.ChineseMarks? then QuoteOpened(mark, ascii) else mark;
    var closing := if o.paired && mode.ChineseMarks? then PairedClosing(quoted) else "";
    if closing != "" then
      (Remembered(t.(pending := t.pending + [closing]), ascii, kept, now),
       Appended(r.(cursorLeft := 1), quoted + closing))
    else if o.paired && mode.ChineseMarks? && t.pending != [] && t.pending[|t.pending| - 1] == quoted then
      (Forgotten(t.(pending := t.pending[..|t.pending| - 1])), r.(handled := true, cursorRight := 1))
    else
      (Remembered(t, ascii, kept, now), Appended(r, quoted))
  }

  function Remembered(t: Typing, ascii: Ascii, kept: bool, now: int): Typing {
    if kept then t.(active := true, key := ascii, time := now) else Forgotten(t)
  }

  /** The key's mark, paired and committed. */
  function Emit(o: Options, mode: PunctuationMode, width: Width, t: Typing, ascii: Ascii, before: Option<char>,
                now: int, had: bool, finished: Result): (Typing, Result)
  {
    var (mark, formatter) := MarkFor(o, mode, width, t.formatter, ascii, before, had);
    var marked := t.(formatter := formatter);
    if mark == "" then (Forgotten(marked), finished)
    else
      var kept := mode.ChineseMarks? && o.smart && mark == [ascii] && KeepsAscii(ascii, before);
      Paired(o, mode, marked, ascii, mark, finished, kept, now)
  }

  /** `commit_punctuation` after the composition has been finished with answer `finished`: a repeated ASCII mark is
      replaced by its Chinese one, anything else is emitted. */
  function Punctuate(o: Options, mode: PunctuationMode, width: Width, t: Typing, ascii: Ascii, before: Option<char>,
                     now: int, had: bool, finished: Result): (Typing, Result)
  {
    var preceding := Before(finished, before);
    if Repeats(o, mode, t, ascii, preceding, now, had) then
      var forgotten := Forgotten(t).(formatter := AfterMark(t.formatter, ascii));
      if ChineseMark(t.formatter, ascii) != "" then
        (forgotten, Result(true, Some(ChineseMark(t.formatter, ascii)), 1, 0, 0))
      else Emit(o, mode, width, forgotten, ascii, preceding, now, had, finished)
    else Emit(o, mode, width, t, ascii, preceding, now, had, finished)
  }

  /** What a key does to the last mark kept as ASCII: only the same key can follow it up. */
  function Seen(t: Typing, ascii: Ascii): Typing {
    if t.key == ascii then t else Forgotten(t)
  }

  predicate Plain(r: Result) {
    r.deleteBefore == 0 && r.cursorLeft == 0 && r.cursorRight == 0
  }

  // ---------------------------------------------------------------------------------------------------- the editor

  /** The text on both sides of the caret. */
  datatype Text = Text(left: string, right: string)

  function Least(a: nat, b: nat): nat {
    if a < b then a else b
  }

  function Deleted(x: Text, n: nat): Text {
    x.(left := x.left[..|x.left| - Least(n, |x.left|)])
  }

  function MovedLeft(x: Text, n: nat): Text {
    var k := Least(n, |x.left|);
    Text(x.left[..|x.left| - k], x.left[|x.left| - k..] + x.right)
  }

  function MovedRight(x: Text, n: nat): Text {
    var k := Least(n, |x.right|);
    Text(x.left + x.right[..k], x.right[k..])
  }

  /** What a client does with an answer: delete, insert, then move. */
  function Applied(x: Text, r: Result): Text {
    var deleted := Deleted(x, r.deleteBefore);
    var inserted := if r.commit.Some? then deleted.(left := deleted.left + r.commit.value) else deleted;
    MovedRight(MovedLeft(inserted, r.cursorLeft), r.cursorRight)
  }

  lemma LeftOnce(x: Text, n: nat)
    ensures var y := MovedLeft(x, n);
            MovedLeft(x, n + 1) ==
            if y.left == "" then y else Text(y.left[..|y.left| - 1], [y.left[|y.left| - 1]] + y.right)
    ensures MovedLeft(x, 0) == x
  {
  }

  lemma RightOnce(x: Text, n: nat)
    ensures var y := MovedRight(x, n);
            MovedRight(x, n + 1) == if y.right == "" then y else Text(y.left + [y.right[0]], y.right[1..])
    ensures MovedRight(x, 0) == x
  {
  }

  class Editor {
    var left: string
    var right: string

    function Around(): Text
      reads this
    {
      Text(left, right)
    }

    constructor (left: string, right: string)
      ensures Around() == Text(left, right)
    {
      this.left, this.right := left, right;
    }

    method Move(n: nat, forward: bool)
      modifies this
      ensures Around() == if forward then MovedRight(old(Around()), n) else MovedLeft(old(Around()), n)
    {
      hide MovedLeft, MovedRight;
      ghost var x := Around();
      LeftOnce(x, 0);
      RightOnce(x, 0);
      var index := 0;
      while index < n
        invariant 0 <= index <= n && Around() == if forward then MovedRight(x, index) else MovedLeft(x, index)
      {
        LeftOnce(x, index);
        RightOnce(x, index);
        if forward && right != "" {
          left, right := left + [right[0]], right[1..];
        } else if !forward && left != "" {
          left, right := left[..|left| - 1], [left[|left| - 1]] + right;
        }
        index := index + 1;
      }
    }

    /** `apply_result`: one request to the client after another. */
    method Apply(r: Result)
      modifies this
      ensures Around() == Applied(old(Around()), r)
    {
      hide MovedLeft, MovedRight;
      assert left[..|left|] == left;
      if r.deleteBefore > 0 {
        left := left[..|left| - Least(r.deleteBefore, |left|)];
      }
      if r.commit.Some? {
        left := left + r.commit.value;
      }
      Move(r.cursorLeft, false);
      Move(r.cursorRight, true);
    }

    /** The client handles a key itself, or the user moves the caret: anything may happen to the text. */
    method Anything()
      modifies this
    {
      left, right := *, *;
    }
  }

  // ------------------------------------------------------------------------------------- the stack and the text agree

  /** The pending closing marks in the order the caret would meet them. */
  function Upcoming(pending: seq<string>): string {
    if pending == [] then "" else pending[|pending| - 1] + Upcoming(pending[..|pending| - 1])
  }

  const CLOSING_MARKS: string := "”’】}》〉）"

  predicate IsClosing(mark: string) {
    |mark| == 1 && mark[0] in CLOSING_MARKS
  }

  predicate Closings(pending: seq<string>) {
    forall i :: 0 <= i < |pending| ==> IsClosing(pending[i])
  }

  /** The text right of the caret begins with the pending closing marks, innermost first. */
  predicate Guarded(x: Text, pending: seq<string>) {
    Closings(pending) && Upcoming(pending) <= x.right
  }

  predicate IsQuote(mark: string) {
    mark == "”" || mark == "’"
  }

  /** What an answer may do to the stack: nothing, clear it, push the mark it leaves right of the caret, or pop the mark
      it steps over. */
  predicate Stacked(before: seq<string>, r: Result, after: seq<string>) {
    if r.cursorRight > 0 then
      && r.cursorRight == 1 && r.cursorLeft == 0 && r.deleteBefore == 0
      && before != [] && after == before[..|before| - 1]
    else if r.cursorLeft > 0 then
      && r.cursorLeft == 1 && r.deleteBefore == 0 && r.commit.Some? && r.commit.value != ""
      && after == before + [[r.commit.value[|r.commit.value| - 1]]]
    else after == before || after == []
  }

  /** Stepping right over the innermost pending mark. */
  lemma SteppedOver(x: Text, before: seq<string>, r: Result)
    requires Guarded(x, before) && before != [] && r.deleteBefore == 0 && r.cursorLeft == 0 && r.cursorRight == 1
    ensures x.right != "" && before[|before| - 1] == [x.right[0]] && Applied(x, r).right == x.right[1..]
    ensures Upcoming(before[..|before| - 1]) <= x.right[1..]
  {
    hide Closings, Upcoming;
    UpcomingSplits(before);
    MarkIsOneCharacter(before, |before| - 1);
    var inner := Upcoming(before[..|before| - 1]);
    assert x.right[0] == Upcoming(before)[0];
    assert x.right[1..][..|inner|] == Upcoming(before)[1..] == inner;
  }

  lemma UpcomingSplits(pending: seq<string>)
    requires pending != []
    ensures Upcoming(pending) == pending[|pending| - 1] + Upcoming(pending[..|pending| - 1])
  {
  }

  lemma MarkIsOneCharacter(pending: seq<string>, i: nat)
    requires Closings(pending) && i < |pending|
    ensures |pending[i]| == 1
  {
  }

  /** Stepping left into a pair just inserted. */
  lemma SteppedInside(x: Text, r: Result)
    requires r.deleteBefore == 0 && r.cursorLeft == 1 && r.cursorRight == 0 && r.commit.Some? && r.commit.value != ""
    ensures Applied(x, r).right == [r.commit.value[|r.commit.value| - 1]] + x.right
  {
    var inserted := x.left[..|x.left|] + r.commit.value;
    assert inserted[|inserted| - 1..] == [r.commit.value[|r.commit.value| - 1]];
  }

  lemma StayedPut(x: Text, r: Result)
    requires r.cursorLeft == 0 && r.cursorRight == 0
    ensures Applied(x, r).right == x.right
  {
  }

  /** Applying an answer that respects the stack keeps text and stack in agreement. */
  lemma ApplyKeepsGuard(x: Text, before: seq<string>, r: Result, after: seq<string>)
    requires Guarded(x, before) && Stacked(before, r, after) && Closings(after)
    ensures Guarded(Applied(x, r), after)
    ensures r.cursorRight > 0 ==>
      x.right != "" && before[|before| - 1] == [x.right[0]] && Applied(x, r).right == x.right[1..]
  {
    hide Applied, Upcoming, Closings;
    if r.cursorRight > 0 {
      SteppedOver(x, before, r);
    } else if r.cursorLeft > 0 {
      SteppedInside(x, r);
      UpcomingSplits(after);
      assert after[..|after| - 1] == before;
    } else {
      StayedPut(x, r);
      NothingUpcoming();
    }
  }

  lemma NothingUpcoming()
    ensures Upcoming([]) == ""
  {
  }

  /** What an answer does to the text right of the caret. */
  lemma RightEffect(x: Text, before: seq<string>, r: Result, after: seq<string>)
    requires Guarded(x, before) && Stacked(before, r, after)
    ensures var right := Applied(x, r).right;
            if r.cursorRight > 0 then x.right != "" && right == x.right[1..] && [x.right[0]] == before[|before| - 1]
            else if r.cursorLeft > 0 then right != "" && right[1..] == x.right && after == before + [[right[0]]]
            else right == x.right
  {
    hide Applied, Guarded;
    if r.cursorRight > 0 {
      SteppedOver(x, before, r);
    } else if r.cursorLeft > 0 {
      SteppedInside(x, r);
    } else {
      StayedPut(x, r);
    }
  }

  /** Outside a composition it makes no difference to the text or to what is remembered whether the session calls
      finishing nothing handled. */
  lemma IdleFinish(o: Options, mode: PunctuationMode, width: Width, t: Typing, ascii: Ascii, before: Option<char>,
                   now: int, finished: Result, x: Text)
    requires Plain(finished) && finished.commit.None?
    ensures var (t1, r1) := Punctuate(o, mode, width, t, ascii, before, now, false, finished);
            var (t2, r2) := Punctuate(o, mode, width, t, ascii, before, now, false, UNHANDLED);
            t1 == t2 && Applied(x, r1) == Applied(x, r2)
  {
    hide ChineseMark, AfterMark, MarkFor, KeepsAscii, PairedClosing, QuoteOpened, Deleted, MovedLeft, MovedRight;
  }

  /** Every answer to a punctuation key respects the stack; it steps over a mark only when that mark is the one typed,
      never over a quote, and deletes only the character the same key has just kept as ASCII. */
  lemma PunctuateRespectsStack(o: Options, mode: PunctuationMode, width: Width, t: Typing, ascii: Ascii,
                               before: Option<char>, now: int, had: bool, finished: Result)
    requires Plain(finished) && Closings(t.pending)
    ensures var (t', r) := Punctuate(o, mode, width, t, ascii, before, now, had, finished);
            && Stacked(t.pending, r, t'.pending) && Closings(t'.pending)
            && (r.cursorLeft == r.cursorRight == 0 ==> t'.pending == t.pending)
            && (r.cursorRight > 0 ==>
                t.pending[|t.pending| - 1] == ChineseMark(t.formatter, ascii) && !IsQuote(t.pending[|t.pending| - 1]))
            && (r.deleteBefore > 0 ==> t.active && t.key == ascii && Before(finished, before) == Some(ascii))
            && (!r.handled ==> Plain(r))
  {
    hide ChineseMark, AfterMark, Emit, IsClosing;
    var preceding := Before(finished, before);
    NoMarkKeepsFormatter(t.formatter, ascii);
    EmitRespectsStack(o, mode, width, t, ascii, preceding, now, had, finished);
    EmitRespectsStack(o, mode, width, Forgotten(t), ascii, preceding, now, had, finished);
  }

  lemma EmitRespectsStack(o: Options, mode: PunctuationMode, width: Width, t: Typing, ascii: Ascii,
                          before: Option<char>, now: int, had: bool, finished: Result)
    requires Plain(finished) && Closings(t.pending)
    ensures var (t', r) := Emit(o, mode, width, t, ascii, before, now, had, finished);
            && Stacked(t.pending, r, t'.pending) && Closings(t'.pending) && r.deleteBefore == 0
            && (r.cursorLeft == r.cursorRight == 0 ==> t'.pending == t.pending)
            && (r.cursorRight > 0 ==>
                t.pending[|t.pending| - 1] == ChineseMark(t.formatter, ascii) && !IsQuote(t.pending[|t.pending| - 1]))
            && (!r.handled ==> Plain(r))
  {
    hide ChineseMark, MarkFor, IsClosing, Paired, QuoteOpened;
    var (mark, formatter) := MarkFor(o, mode, width, t.formatter, ascii, before, had);
    if mark != "" {
      var kept := mode.ChineseMarks? && o.smart && mark == [ascii] && KeepsAscii(ascii, before);
      if o.paired && mode.ChineseMarks? && IsClosing(QuoteOpened(mark, ascii)) {
        ClosingIsTyped(o, width, t.formatter, ascii, before, had);
        QuoteIsTurned(t.formatter, ascii, mark);
      }
      PairedRespectsStack(o, mode, t.(formatter := formatter), ascii, mark, finished, kept, now);
    }
  }

  /** No key's own mark, once quotes are turned round, is a closing quote. */
  lemma QuoteIsTurned(f: Formatter, ascii: Ascii, mark: string)
    ensures QuoteOpened(mark, ascii) == ChineseMark(f, ascii) ==> !IsQuote(ChineseMark(f, ascii))
  {
    hide AfterMark;
    if IsQuote(ChineseMark(f, ascii)) {
      QuoteKeys(f, ascii);
    }
    assert "”"[0] != "“"[0] && "’"[0] != "‘"[0];
  }

  lemma QuoteKeys(f: Formatter, ascii: Ascii)
    ensures ChineseMark(f, ascii) == "”" ==> ascii == '"'
    ensures ChineseMark(f, ascii) == "’" ==> ascii == '\''
  {
    var mark := ChineseMark(f, ascii);
    if |mark| == 1 {
      assert ascii != '"' ==> mark[0] != '”';
      assert ascii != '\'' ==> mark[0] != '’';
    }
  }

  lemma NoMarkKeepsFormatter(f: Formatter, ascii: Ascii)
    ensures ChineseMark(f, ascii) == "" ==> AfterMark(f, ascii) == f
  {
  }

  /** A key whose mark is a closing mark produced it as its plain Chinese mark: not by widening, not by keeping ASCII
      and not by turning a quote round. */
  lemma ClosingIsTyped(o: Options, width: Width, f: Formatter, ascii: Ascii, before: Option<char>, had: bool)
    requires IsClosing(QuoteOpened(MarkFor(o, ChineseMarks, width, f, ascii, before, had).0, ascii))
    ensures QuoteOpened(MarkFor(o, ChineseMarks, width, f, ascii, before, had).0, ascii) == ChineseMark(f, ascii)
  {
    hide AfterMark;
    var mark := MarkFor(o, ChineseMarks, width, f, ascii, before, had).0;
    WidenedIsNotClosing(ascii);
    assert !IsClosing("“") && !IsClosing("‘") by {
      assert '“' !in CLOSING_MARKS && '‘' !in CLOSING_MARKS;
    }
  }

  lemma WidenedIsNotClosing(ascii: Ascii)
    ensures ascii != ')' ==> !IsClosing(ToFullWidth(ascii))
    ensures ascii != '}' ==> !IsClosing([ascii])
  {
  }

  lemma PairedRespectsStack(o: Options, mode: PunctuationMode, t: Typing, ascii: Ascii, mark: string, r: Result,
                            kept: bool, now: int)
    requires Plain(r) && Closings(t.pending) && mark != ""
    ensures var (t', r') := Paired(o, mode, t, ascii, mark, r, kept, now);
            && Stacked(t.pending, r', t'.pending) && Closings(t'.pending) && r'.deleteBefore == 0 && r'.handled
            && (r'.cursorLeft == r'.cursorRight == 0 ==> t'.pending == t.pending)
            && (r'.cursorRight > 0 ==> o.paired && mode.ChineseMarks? && IsClosing(QuoteOpened(mark, ascii))
                                       && t.pending[|t.pending| - 1] == QuoteOpened(mark, ascii))
  {
    hide IsClosing, PairedClosing;
    var quoted := if o.paired && mode.ChineseMarks? then QuoteOpened(mark, ascii) else mark;
    ClosingOfMark(quoted);
    LastOfCommit(r, quoted, PairedClosing(quoted));
  }

  lemma LastOfCommit(r: Result, mark: string, closing: string)
    ensures |closing| == 1 ==>
      var commit := Appended(r, mark + closing).commit.value;
      commit != "" && [commit[|commit| - 1]] == closing
  {
  }

  lemma ClosingOfMark(mark: string)
    ensures PairedClosing(mark) != "" ==> IsClosing(PairedClosing(mark)) && |PairedClosing(mark)| == 1
  {
  }

  /** Smart punctuation at half width: a comma, full stop or colon behind an ASCII letter or digit stays as typed and is
      remembered. */
  lemma KeptAsTyped(o: Options, t: Typing, ascii: Ascii, before: char, now: int)
    requires o.smart && !t.active && (ascii == ',' || ascii == '.' || ascii == ':') && Closings(t.pending)
    requires '0' <= before <= '9' || 'A' <= before <= 'Z' || 'a' <= before <= 'z'
    ensures Punctuate(o, ChineseMarks, Half, t, ascii, Some(before), now, false, UNHANDLED) ==
            (t.(active := true, key := ascii, time := now), Result(true, Some([ascii]), 0, 0, 0))
  {
    hide ChineseMark, AfterMark, PairedClosing, QuoteOpened, IsPunctuation;
    KeptIsNoMark(ascii, t.pending);
  }

  lemma KeptIsNoMark(ascii: Ascii, pending: seq<string>)
    requires ascii == ',' || ascii == '.' || ascii == ':'
    ensures PairedClosing([ascii]) == "" && QuoteOpened([ascii], ascii) == [ascii] && IsPunctuation(ascii)
    ensures Closings(pending) && pending != [] ==> pending[|pending| - 1] != [ascii]
  {
    if Closings(pending) && pending != [] {
      assert IsClosing(pending[|pending| - 1]);
    }
    assert [ascii][0] !in "“‘【{《〈（”’";
  }

  /** Pressing it again within two seconds, with the kept character still in front of the caret, replaces that by the
      Chinese mark; any later it does not. */
  lemma RepeatedMark(o: Options, t: Typing, ascii: Ascii, now: int)
    requires o.smart && o.repeatToChinese && (ascii == ',' || ascii == '.' || ascii == ':')
    requires t.active && t.key == ascii
    ensures var r := Punctuate(o, ChineseMarks, Half, t, ascii, Some(ascii), now, false, UNHANDLED).1;
            if 0 <= now - t.time <= 2 then
              r == Result(true, Some(if ascii == ',' then "，" else if ascii == '.' then "。" else "："), 1, 0, 0)
            else r.deleteBefore == 0
  {
    FixedMark(t.formatter, ascii);
    hide ChineseMark, AfterMark, PairedClosing;
    NoDeletion(o, t, ascii, now);
  }

  lemma NoDeletion(o: Options, t: Typing, ascii: Ascii, now: int)
    ensures Emit(o, ChineseMarks, Half, t, ascii, Some(ascii), now, false, UNHANDLED).1.deleteBefore == 0
  {
    hide ChineseMark, AfterMark, PairedClosing, QuoteOpened;
  }
}
