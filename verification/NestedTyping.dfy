/** Typing well-nested brackets with and without automatic pairing gives the same text, at either width - and typing a
    quote among them never does. */
module NestedTyping {
  import opened Optional
  import opened TextTransform
  import opened PairedPunctuation

  /** A stroke outside a composition: a punctuation key pressed at some second, or a composition that is committed. */
  datatype Stroke = Press(ascii: Ascii, now: int) | Words(text: string)

  datatype Desk = Desk(text: Text, typing: Typing)

  predicate Opens(c: char) {
    c == '(' || c == '[' || c == '{' || c == '<'
  }

  function Closer(c: char): char {
    if c == '(' then ')' else if c == '[' then ']' else if c == '{' then '}' else '>'
  }

  /** The strokes close every bracket they open, in order; `open` holds the brackets opened before them. */
  predicate WellNested(strokes: seq<Stroke>, open: seq<Ascii>) {
    if strokes == [] then open == []
    else match strokes[0]
      case Words(_) => WellNested(strokes[1..], open)
      case Press(c, _) =>
        if Opens(c) then WellNested(strokes[1..], open + [c])
        else open != [] && c == Closer(open[|open| - 1]) && WellNested(strokes[1..], open[..|open| - 1])
  }

  /** What the client reports in front of the caret. */
  function Preceding(x: Text): Option<char> {
    if x.left == "" then None else Some(x.left[|x.left| - 1])
  }

  /** One stroke, with Chinese punctuation, outside a composition. */
  function After(o: Options, width: Width, d: Desk, stroke: Stroke): Desk {
    match stroke
    case Words(text) => Desk(Applied(d.text, Result(true, Some(text), 0, 0, 0)), Forgotten(d.typing))
    case Press(c, now) =>
      var (typing, r) :=
        Punctuate(o, ChineseMarks, width, Seen(d.typing, c), c, Preceding(d.text), now, false, UNHANDLED);
      Desk(Applied(d.text, r), typing)
  }

  function AfterAll(o: Options, width: Width, d: Desk, strokes: seq<Stroke>): Desk
    decreases |strokes|
  {
    if strokes == [] then d else AfterAll(o, width, After(o, width, d, strokes[0]), strokes[1..])
  }

  /** The key handler's answer to a punctuation key is such a stroke, provided the session commits nothing when it is
      asked to finish nothing. */
  lemma HandlerTypesAStroke(o: Options, width: Width, d: Desk, c: Ascii, now: int, finished: Result, typing: Typing,
                            r: Result)
    requires Plain(finished) && finished.commit.None?
    requires (typing, r) ==
      Punctuate(o, ChineseMarks, width, Seen(d.typing, c), c, Preceding(d.text), now, false, finished)
    ensures Desk(Applied(d.text, r), typing) == After(o, width, d, Press(c, now))
  {
    hide Punctuate, Applied;
    IdleFinish(o, ChineseMarks, width, Seen(d.typing, c), c, Preceding(d.text), now, finished, d.text);
  }

  function Titles(open: seq<Ascii>): nat {
    if open == [] then 0 else Titles(open[..|open| - 1]) + (if open[|open| - 1] == '<' then 1 else 0)
  }

  /** Full-width braces are the one bracket that pairing leaves alone. */
  predicate Pairs(c: char, width: Width) {
    !(c == '{' && width.Full?)
  }

  /** The closing marks of the brackets opened so far, when the titles outside them were nested `outer` deep. */
  function ClosingsOf(open: seq<Ascii>, outer: nat, width: Width): seq<string> {
    if open == [] then []
    else
      var init, last := open[..|open| - 1], open[|open| - 1];
      ClosingsOf(init, outer, width) + (if Pairs(last, width) then [ClosingMark(last, outer + Titles(init))] else [])
  }

  function ClosingMark(c: Ascii, nesting: nat): string {
    if c == '(' then "）" else if c == '[' then "】" else if c == '{' then "}" else if nesting == 0 then "》" else "〉"
  }

  /** The mark as typed: Chinese, and widened where the Chinese mark is the key itself. */
  function TypedMark(f: Formatter, c: Ascii, width: Width): string {
    var mark := ChineseMark(f, c);
    if width.Full? && mark == [c] then ToFullWidth(c) else mark
  }

  /** The only keys ever kept as ASCII, an invariant of the key handler. */
  predicate Remembers(t: Typing) {
    t.active ==> t.key == ',' || t.key == '.' || t.key == ':'
  }

  /** The stack holds closing marks only, so never a full-width brace. */
  predicate NoWideBrace(pending: seq<string>, width: Width) {
    width.Full? ==> "｛" !in pending && "｝" !in pending
  }

  /** `a` types with pairing and `b` without: the same text before the caret, and after it `a` also has the closing
      marks of everything still open. */
  predicate Related(a: Desk, b: Desk, base: seq<string>, rest: string, open: seq<Ascii>, outer: nat, width: Width) {
    && a.text.left == b.text.left && b.text.right == rest
    && a.text.right == Upcoming(ClosingsOf(open, outer, width)) + rest
    && a.typing.pending == base + ClosingsOf(open, outer, width) && b.typing.pending == base
    && a.typing.formatter == b.typing.formatter && a.typing.formatter.nesting == outer + Titles(open)
    && Remembers(a.typing) && Remembers(b.typing)
    && NoWideBrace(a.typing.pending, width)
    && (forall i :: 0 <= i < |open| ==> Opens(open[i]))
  }

  // -------------------------------------------------------------------------------------------------- one stroke

  /** What an opening key does in each way of typing. */
  lemma OpenStroke(o: Options, width: Width, d: Desk, c: Ascii, now: int)
    requires Opens(c) && Remembers(d.typing) && NoWideBrace(d.typing.pending, width)
    ensures var mark := TypedMark(d.typing.formatter, c, width);
            var closing := ClosingMark(c, d.typing.formatter.nesting);
            var paired := o.paired && Pairs(c, width);
            After(o, width, d, Press(c, now)) ==
            Desk(if paired then Text(d.text.left + mark, closing + d.text.right)
                 else d.text.(left := d.text.left + mark),
                 Forgotten(d.typing.(formatter := AfterMark(d.typing.formatter, c),
                                     pending := if paired then d.typing.pending + [closing] else d.typing.pending)))
  {
    hide ChineseMark, AfterMark, ClosingMark, PairedClosing, QuoteOpened, Punctuate, KeepsAscii, IsPunctuation,
      TypedMark, Applied;
    var mark := TypedMark(d.typing.formatter, c, width);
    var closing := ClosingMark(c, d.typing.formatter.nesting);
    OpeningMark(d.typing.formatter, c, width);
    OneMark(c, d.typing.formatter.nesting);
    PlainMark(o, width, Seen(d.typing, c), c, Preceding(d.text), now);
    NotOnTop(d.typing.pending, mark, width);
    InsertedPair(d.text, mark, closing);
  }

  lemma InsertedPair(x: Text, mark: string, closing: string)
    requires |closing| == 1
    ensures Applied(x, Result(true, Some(mark + closing), 0, 1, 0)) == Text(x.left + mark, closing + x.right)
    ensures Applied(x, Result(true, Some(mark), 0, 0, 0)) == x.(left := x.left + mark)
  {
    assert x.left[..|x.left|] == x.left;
    var inserted := x.left + (mark + closing);
    assert inserted[..|inserted| - 1] == x.left + mark && inserted[|inserted| - 1..] == closing;
  }

  /** A bracket key yields its typed mark: it is never kept as ASCII or taken for a repetition. */
  lemma PlainMark(o: Options, width: Width, t: Typing, c: Ascii, before: Option<char>, now: int)
    requires IsPunctuation(c) && !KeepsAscii(c, before) && !(t.active && t.key == c)
             && TypedMark(t.formatter, c, width) != ""
    ensures Punctuate(o, ChineseMarks, width, t, c, before, now, false, UNHANDLED) ==
            Paired(o, ChineseMarks, t.(formatter := AfterMark(t.formatter, c)), c, TypedMark(t.formatter, c, width),
                   UNHANDLED, false, now)
  {
    hide ChineseMark, AfterMark, KeepsAscii, IsPunctuation, PairedClosing, ToFullWidth;
  }

  predicate Bracketish(mark: string) {
    mark != "" && mark[0] !in "“‘”’"
  }

  lemma NotTurned(mark: string, c: Ascii)
    requires Bracketish(mark)
    ensures QuoteOpened(mark, c) == mark
  {
  }

  /** The marks of an opening key: a pair, unless it is a full-width brace. */
  lemma OpeningMark(f: Formatter, c: Ascii, width: Width)
    requires Opens(c)
    ensures var mark := TypedMark(f, c, width);
            && QuoteOpened(mark, c) == mark && mark != ""
            && PairedClosing(mark) == (if Pairs(c, width) then ClosingMark(c, f.nesting) else "")
            && (Pairs(c, width) ==> mark == ChineseMark(f, c))
    ensures !Pairs(c, width) ==> TypedMark(f, c, width) == "｛"
    ensures IsPunctuation(c) && forall before :: !KeepsAscii(c, before)
  {
    hide AfterMark;
    var mark := TypedMark(f, c, width);
    assert mark[0] in "（【{｛《〈";
    NotTurned(mark, c);
    PairOf(f, c);
  }

  lemma PairOf(f: Formatter, c: Ascii)
    requires Opens(c)
    ensures PairedClosing(ChineseMark(f, c)) == ClosingMark(c, f.nesting)
    ensures ChineseMark(f, c) == [c] ==> c == '{'
  {
    hide AfterMark;
    assert "“" != "（" && "【"[0] != "“"[0] && "{"[0] != "“"[0] && "《"[0] != "“"[0] && "〈"[0] != "“"[0];
    assert "（"[0] != "‘"[0] && "【"[0] != "‘"[0] && "{"[0] != "‘"[0] && "《"[0] != "‘"[0] && "〈"[0] != "‘"[0];
  }

  lemma NotOnTop(pending: seq<string>, mark: string, width: Width)
    requires NoWideBrace(pending, width)
    ensures width.Full? && (mark == "｛" || mark == "｝") && pending != [] ==> pending[|pending| - 1] != mark
  {
    if width.Full? && pending != [] {
      assert pending[|pending| - 1] in pending;
    }
  }

  /** What the matching closing key does: step over the mark, or type it. */
  lemma CloseStroke(o: Options, width: Width, d: Desk, b: Ascii, now: int, nesting: nat)
    requires Opens(b) && Remembers(d.typing) && NoWideBrace(d.typing.pending, width)
    requires d.typing.formatter.nesting == nesting + (if b == '<' then 1 else 0)
    requires o.paired && Pairs(b, width) ==>
      d.typing.pending != [] && d.typing.pending[|d.typing.pending| - 1] == ClosingMark(b, nesting)
      && d.text.right != "" && [d.text.right[0]] == ClosingMark(b, nesting)
    ensures var mark := if Pairs(b, width) then ClosingMark(b, nesting) else "｝";
            var over := o.paired && Pairs(b, width);
            After(o, width, d, Press(Closer(b), now)) ==
            Desk(if over then Text(d.text.left + mark, d.text.right[1..]) else d.text.(left := d.text.left + mark),
                 Forgotten(d.typing.(formatter := d.typing.formatter.(nesting := nesting),
                                     pending := if over then d.typing.pending[..|d.typing.pending| - 1]
                                       else d.typing.pending)))
  {
    hide ChineseMark, AfterMark, ClosingMark, PairedClosing, QuoteOpened, Punctuate, KeepsAscii, IsPunctuation,
      Applied, TypedMark;
    var mark := TypedMark(d.typing.formatter, Closer(b), width);
    ClosingStrokeMark(d.typing.formatter, b, nesting, width);
    OneMark(b, nesting);
    PlainMark(o, width, Seen(d.typing, Closer(b)), Closer(b), Preceding(d.text), now);
    NotOnTop(d.typing.pending, mark, width);
    InsertedPair(d.text, mark, mark);
    if o.paired && Pairs(b, width) {
      StepRight(d.text);
    }
  }

  lemma StepRight(x: Text)
    requires x.right != ""
    ensures Applied(x, Result(true, None, 0, 0, 1)) == Text(x.left + [x.right[0]], x.right[1..])
  {
    assert x.left[..|x.left|] == x.left && x.right[..1] == [x.right[0]];
  }

  /** The mark of the matching closing key: the partner of the one that was opened. */
  lemma ClosingStrokeMark(f: Formatter, b: Ascii, nesting: nat, width: Width)
    requires Opens(b) && f.nesting == nesting + (if b == '<' then 1 else 0)
    ensures var c := Closer(b);
            var mark := TypedMark(f, c, width);
            && mark == (if Pairs(b, width) then ClosingMark(b, nesting) else "｝")
            && |mark| == 1 && PairedClosing(mark) == "" && QuoteOpened(mark, c) == mark
            && AfterMark(f, c) == f.(nesting := nesting)
            && IsPunctuation(c) && forall before :: !KeepsAscii(c, before)
  {
    hide PairedClosing;
    var mark := TypedMark(f, Closer(b), width);
    var outer := f.(nesting := nesting);
    if b == '<' {
      TitleClosesItself(outer);
    }
    PairOf(outer, b);
    ClosingIsNotOpening(ChineseMark(outer, b));
    OneMark(b, nesting);
    BraceOpensNothing();
    assert mark[0] in "）】}｝》〉";
    NotTurned(mark, Closer(b));
  }

  lemma BraceOpensNothing()
    ensures PairedClosing("｝") == ""
  {
    assert "｝"[0] !in "“‘【{《〈（";
  }

  lemma OneMark(c: Ascii, nesting: nat)
    ensures |ClosingMark(c, nesting)| == 1 && ClosingMark(c, nesting) != "｝" && ClosingMark(c, nesting) != "｛"
  {
    assert ClosingMark(c, nesting)[0] in "）】}》〉";
  }

  // ------------------------------------------------------------------------------------------------- all strokes

  lemma ClosingsSnoc(open: seq<Ascii>, c: Ascii, outer: nat, width: Width)
    ensures var mark := ClosingMark(c, outer + Titles(open));
            var more := if Pairs(c, width) then [mark] else [];
            && ClosingsOf(open + [c], outer, width) == ClosingsOf(open, outer, width) + more
            && Upcoming(ClosingsOf(open + [c], outer, width)) ==
               (if Pairs(c, width) then mark else "") + Upcoming(ClosingsOf(open, outer, width))
    ensures Titles(open + [c]) == Titles(open) + (if c == '<' then 1 else 0)
  {
    assert (open + [c])[..|open|] == open;
    var cs := ClosingsOf(open, outer, width);
    var mark := ClosingMark(c, outer + Titles(open));
    assert (cs + [mark])[..|cs|] == cs;
    assert cs + [] == cs && "" + Upcoming(cs) == Upcoming(cs);
  }

  lemma OpenKeepsRelated(o: Options, width: Width, a: Desk, b: Desk, base: seq<string>, rest: string, open: seq<Ascii>,
                         outer: nat, c: Ascii, now: int)
    requires Related(a, b, base, rest, open, outer, width) && Opens(c)
    ensures Related(After(o.(paired := true), width, a, Press(c, now)),
                    After(o.(paired := false), width, b, Press(c, now)), base, rest, open + [c], outer, width)
  {
    hide After, ChineseMark, ClosingMark, ClosingsOf, Titles, Upcoming, TypedMark, Pairs, Opens;
    assert NoWideBrace(b.typing.pending, width);
    OpenStroke(o.(paired := true), width, a, c, now);
    OpenStroke(o.(paired := false), width, b, c, now);
    ClosingsSnoc(open, c, outer, width);
    OneMark(c, outer + Titles(open));
    NestingAfterOpen(a.typing.formatter, c);
  }

  lemma NestingAfterOpen(f: Formatter, c: Ascii)
    requires Opens(c)
    ensures AfterMark(f, c).nesting == f.nesting + (if c == '<' then 1 else 0)
  {
  }

  lemma NoBraceInPart(base: seq<string>, some: seq<string>, all: seq<string>, width: Width)
    requires NoWideBrace(base + all, width) && some <= all
    ensures NoWideBrace(base, width) && NoWideBrace(base + some, width)
  {
    assert base + all == base + some + all[|some|..];
  }

  lemma CloseKeepsRelated(o: Options, width: Width, a: Desk, b: Desk, base: seq<string>, rest: string,
                          open: seq<Ascii>, outer: nat, now: int)
    requires open != [] && Related(a, b, base, rest, open, outer, width)
    ensures var c := Closer(open[|open| - 1]);
            Related(After(o.(paired := true), width, a, Press(c, now)),
                    After(o.(paired := false), width, b, Press(c, now)), base, rest, open[..|open| - 1], outer, width)
  {
    hide After, Related, ClosingMark, ClosingsOf, Titles, Upcoming, Pairs, NoWideBrace;
    var init, last := open[..|open| - 1], open[|open| - 1];
    assert open == init + [last];
    CloseReady(a, b, base, rest, init, last, outer, width);
    CloseStroke(o.(paired := true), width, a, last, now, outer + Titles(init));
    CloseStroke(o.(paired := false), width, b, last, now, outer + Titles(init));
    if Pairs(last, width) {
      CloseRelatesPair(a, b, base, rest, init, last, outer, width);
    } else {
      CloseRelatesBrace(a, b, base, rest, init, last, outer, width);
    }
  }

  /** Related desks are ready for the key that closes the innermost bracket. */
  lemma CloseReady(a: Desk, b: Desk, base: seq<string>, rest: string, init: seq<Ascii>, last: Ascii, outer: nat,
                   width: Width)
    requires Related(a, b, base, rest, init + [last], outer, width)
    ensures Opens(last) && Remembers(a.typing) && Remembers(b.typing)
    ensures NoWideBrace(a.typing.pending, width) && NoWideBrace(b.typing.pending, width)
    ensures a.typing.formatter == b.typing.formatter
    ensures a.typing.formatter.nesting == outer + Titles(init) + (if last == '<' then 1 else 0)
    ensures var mark := ClosingMark(last, outer + Titles(init));
            Pairs(last, width) ==>
              && a.typing.pending == base + ClosingsOf(init, outer, width) + [mark]
              && a.text.right == mark + (Upcoming(ClosingsOf(init, outer, width)) + rest)
              && [a.text.right[0]] == mark
  {
    hide ClosingMark, ClosingsOf, Titles, Upcoming, Pairs, NoWideBrace;
    ClosingsSnoc(init, last, outer, width);
    OneMark(last, outer + Titles(init));
    NoBraceInPart(base, ClosingsOf(init + [last], outer, width), ClosingsOf(init + [last], outer, width), width);
    assert (init + [last])[|init|] == last;
    if Pairs(last, width) {
      var mark := ClosingMark(last, outer + Titles(init));
      assert base + (ClosingsOf(init, outer, width) + [mark]) == base + ClosingsOf(init, outer, width) + [mark];
      assert mark + Upcoming(ClosingsOf(init, outer, width)) + rest ==
        mark + (Upcoming(ClosingsOf(init, outer, width)) + rest);
    }
  }

  lemma CloseRelatesPair(a: Desk, b: Desk, base: seq<string>, rest: string, init: seq<Ascii>, last: Ascii, outer: nat,
                         width: Width)
    requires Related(a, b, base, rest, init + [last], outer, width) && Pairs(last, width)
    ensures var mark := ClosingMark(last, outer + Titles(init));
            var formatter := a.typing.formatter.(nesting := outer + Titles(init));
            && a.typing.pending != [] && a.text.right != ""
            && Related(Desk(Text(a.text.left + mark, a.text.right[1..]),
                            Forgotten(a.typing.(formatter := formatter,
                                                pending := a.typing.pending[..|a.typing.pending| - 1]))),
                       Desk(b.text.(left := b.text.left + mark), Forgotten(b.typing.(formatter := formatter))),
                       base, rest, init, outer, width)
  {
    hide ClosingMark, ClosingsOf, Titles, Upcoming, Pairs, NoWideBrace;
    CloseReady(a, b, base, rest, init, last, outer, width);
    ClosingsSnoc(init, last, outer, width);
    OneMark(last, outer + Titles(init));
    NoBraceInPart(base, ClosingsOf(init, outer, width), ClosingsOf(init + [last], outer, width), width);
    var pending := a.typing.pending;
    assert pending[..|pending| - 1] == base + ClosingsOf(init, outer, width);
    OpensInit(init, last);
  }

  lemma CloseRelatesBrace(a: Desk, b: Desk, base: seq<string>, rest: string, init: seq<Ascii>, last: Ascii, outer: nat,
                          width: Width)
    requires Related(a, b, base, rest, init + [last], outer, width) && !Pairs(last, width)
    ensures var formatter := a.typing.formatter.(nesting := outer + Titles(init));
            Related(Desk(a.text.(left := a.text.left + "｝"), Forgotten(a.typing.(formatter := formatter))),
                    Desk(b.text.(left := b.text.left + "｝"), Forgotten(b.typing.(formatter := formatter))),
                    base, rest, init, outer, width)
  {
    hide ClosingMark, ClosingsOf, Titles, Upcoming, Pairs, NoWideBrace;
    ClosingsSnoc(init, last, outer, width);
    assert ClosingsOf(init, outer, width) + [] == ClosingsOf(init, outer, width);
    assert "" + Upcoming(ClosingsOf(init, outer, width)) == Upcoming(ClosingsOf(init, outer, width));
    OpensInit(init, last);
  }

  lemma OpensInit(init: seq<Ascii>, last: Ascii)
    ensures (forall i :: 0 <= i < |init + [last]| ==> Opens((init + [last])[i])) ==> forall i :: 0 <= i < |init| ==>
      Opens(init[i])
  {
    if forall i :: 0 <= i < |init + [last]| ==> Opens((init + [last])[i]) {
      forall i | 0 <= i < |init| ensures Opens(init[i]) {
        assert Opens((init + [last])[i]);
      }
    }
  }

  lemma WordsKeepRelated(o: Options, width: Width, a: Desk, b: Desk, base: seq<string>, rest: string, open: seq<Ascii>,
                         outer: nat, text: string)
    requires Related(a, b, base, rest, open, outer, width)
    ensures Related(After(o.(paired := true), width, a, Words(text)), After(o.(paired := false), width, b, Words(text)),
                    base, rest, open, outer, width)
  {
    hide ClosingMark, ClosingsOf, Titles, Upcoming;
    assert a.text.left[..|a.text.left|] == a.text.left;
  }

  lemma {:induction false} TypingKeepsRelated(o: Options, width: Width, a: Desk, b: Desk, strokes: seq<Stroke>,
                                              base: seq<string>, rest: string, open: seq<Ascii>, outer: nat)
    requires Related(a, b, base, rest, open, outer, width) && WellNested(strokes, open)
    ensures Related(AfterAll(o.(paired := true), width, a, strokes), AfterAll(o.(paired := false), width, b, strokes),
                    base, rest, [], outer, width)
    decreases |strokes|
  {
    hide Related, After;
    if strokes != [] {
      var a', b' := After(o.(paired := true), width, a, strokes[0]), After(o.(paired := false), width, b, strokes[0]);
      match strokes[0] {
        case Words(text) =>
          WordsKeepRelated(o, width, a, b, base, rest, open, outer, text);
          TypingKeepsRelated(o, width, a', b', strokes[1..], base, rest, open, outer);
        case Press(c, now) =>
          if Opens(c) {
            OpenKeepsRelated(o, width, a, b, base, rest, open, outer, c, now);
            TypingKeepsRelated(o, width, a', b', strokes[1..], base, rest, open + [c], outer);
          } else {
            CloseKeepsRelated(o, width, a, b, base, rest, open, outer, now);
            TypingKeepsRelated(o, width, a', b', strokes[1..], base, rest, open[..|open| - 1], outer);
          }
      }
    }
  }

  /** Both ways of typing start from the same desk. */
  lemma StartsRelated(d: Desk, width: Width)
    requires Remembers(d.typing) && NoWideBrace(d.typing.pending, width)
    ensures Related(d, d, d.typing.pending, d.text.right, [], d.typing.formatter.nesting, width)
  {
    assert d.typing.pending + [] == d.typing.pending;
  }

  /** For every well-nested sequence of bracket and book-title keys, of any depth, at either width and with committed
      words in between, automatic pairing leaves the same text before and after the caret, the same pending stack and
      the same formatter as typing without it - and the stack it started from. A full-width closing brace is never on
      the stack. */
  lemma PairingChangesNoText(o: Options, width: Width, d: Desk, strokes: seq<Stroke>)
    requires WellNested(strokes, []) && Remembers(d.typing) && NoWideBrace(d.typing.pending, width)
    ensures var a := AfterAll(o.(paired := true), width, d, strokes);
            var b := AfterAll(o.(paired := false), width, d, strokes);
            && a.text == b.text && a.text.right == d.text.right
            && a.typing.pending == b.typing.pending == d.typing.pending
            && a.typing.formatter == b.typing.formatter && a.typing.formatter.nesting == d.typing.formatter.nesting
  {
    StartsRelated(d, width);
    TypingKeepsRelated(o, width, d, d, strokes, d.typing.pending, d.text.right, [], d.typing.formatter.nesting);
  }

  // ------------------------------------------------------------------------------------------------------- quotes

  predicate IsQuoteKey(stroke: Stroke) {
    stroke.Press? && (stroke.ascii == '"' || stroke.ascii == '\'')
  }

  function WithoutQuotes(strokes: seq<Stroke>): seq<Stroke> {
    if strokes == [] then []
    else (if IsQuoteKey(strokes[0]) then [] else [strokes[0]]) + WithoutQuotes(strokes[1..])
  }

  predicate NoQuotes(strokes: seq<Stroke>) {
    forall i :: 0 <= i < |strokes| ==> !IsQuoteKey(strokes[i])
  }

  lemma {:induction false} NothingToLeaveOut(strokes: seq<Stroke>)
    requires NoQuotes(strokes)
    ensures WithoutQuotes(strokes) == strokes
  {
    if strokes != [] {
      NothingToLeaveOut(strokes[1..]);
    }
  }

  /** Without pairing no stroke ever changes the text right of the caret. */
  lemma UnpairedKeepsRight(o: Options, width: Width, d: Desk, stroke: Stroke)
    requires !o.paired
    ensures After(o, width, d, stroke).text.right == d.text.right
  {
    hide Applied, ChineseMark, MarkFor, AfterMark, KeepsAscii, PairedClosing;
    match stroke {
      case Words(text) => StayedPut(d.text, Result(true, Some(text), 0, 0, 0));
      case Press(c, now) =>
        StayedPut(d.text,
                  Punctuate(o, ChineseMarks, width, Seen(d.typing, c), c, Preceding(d.text), now, false, UNHANDLED).1);
    }
  }

  lemma {:induction false} UnpairedRunKeepsRight(o: Options, width: Width, d: Desk, strokes: seq<Stroke>)
    requires !o.paired
    ensures AfterAll(o, width, d, strokes).text.right == d.text.right
    decreases |strokes|
  {
    hide After;
    if strokes != [] {
      UnpairedKeepsRight(o, width, d, strokes[0]);
      UnpairedRunKeepsRight(o, width, After(o, width, d, strokes[0]), strokes[1..]);
    }
  }

  /** A closing quote lies on the stack at `n`, and the text right of the caret is `extra` longer than the stack. */
  predicate Stuck(d: Desk, n: nat, extra: int) {
    && Closings(d.typing.pending) && n < |d.typing.pending| && IsQuote(d.typing.pending[n])
    && |d.text.right| == |d.typing.pending| + extra && extra + n >= 0
  }

  /** Nothing typed ever steps over a quote, so it stays there. */
  lemma StuckStays(o: Options, width: Width, d: Desk, stroke: Stroke, n: nat, extra: int)
    requires Stuck(d, n, extra)
    ensures Stuck(After(o, width, d, stroke), n, extra)
  {
    hide Applied, Punctuate, Closings, IsQuote, ChineseMark;
    match stroke {
      case Words(text) => StayedPut(d.text, Result(true, Some(text), 0, 0, 0));
      case Press(c, now) =>
        var t := Seen(d.typing, c);
        var r := Punctuate(o, ChineseMarks, width, t, c, Preceding(d.text), now, false, UNHANDLED).1;
        PunctuateRespectsStack(o, ChineseMarks, width, t, c, Preceding(d.text), now, false, UNHANDLED);
        if r.cursorRight > 0 {
          SteppedAway(d.text, r);
        } else if r.cursorLeft > 0 {
          SteppedInside(d.text, r);
        } else {
          StayedPut(d.text, r);
        }
    }
  }

  lemma SteppedAway(x: Text, r: Result)
    requires x.right != "" && r.deleteBefore == 0 && r.cursorLeft == 0 && r.cursorRight == 1
    ensures Applied(x, r).right == x.right[1..]
  {
  }

  lemma {:induction false} StuckRun(o: Options, width: Width, d: Desk, strokes: seq<Stroke>, n: nat, extra: int)
    requires Stuck(d, n, extra)
    ensures Stuck(AfterAll(o, width, d, strokes), n, extra)
    decreases |strokes|
  {
    hide After, Stuck;
    if strokes != [] {
      StuckStays(o, width, d, strokes[0], n, extra);
      StuckRun(o, width, After(o, width, d, strokes[0]), strokes[1..], n, extra);
    }
  }

  /** A quote key with pairing always opens a pair: one more mark on the stack and right of the caret. */
  lemma QuoteStroke(o: Options, width: Width, d: Desk, stroke: Stroke)
    requires o.paired && IsQuoteKey(stroke) && Remembers(d.typing)
    ensures var d' := After(o, width, d, stroke);
            && |d'.typing.pending| == |d.typing.pending| + 1
              && d'.typing.pending[..|d.typing.pending|] == d.typing.pending
            && IsQuote(d'.typing.pending[|d.typing.pending|]) && |d'.text.right| == |d.text.right| + 1
  {
    hide Applied, AfterMark, Punctuate, KeepsAscii, IsPunctuation, TypedMark, ToFullWidth, ChineseMark, PairedClosing,
      QuoteOpened;
    var c := stroke.ascii;
    QuoteMark(d.typing.formatter, c, width);
    QuoteTyped(o, width, Seen(d.typing, c), c, Preceding(d.text), stroke.now);
    var r := Punctuate(o, ChineseMarks, width, Seen(d.typing, c), c, Preceding(d.text), stroke.now, false, UNHANDLED).1;
    SteppedInside(d.text, r);
  }

  lemma QuoteMark(f: Formatter, c: Ascii, width: Width)
    requires c == '"' || c == '\''
    ensures var mark := TypedMark(f, c, width);
            && mark == ChineseMark(f, c) != "" && IsPunctuation(c) && (forall before :: !KeepsAscii(c, before))
            && IsQuote(PairedClosing(QuoteOpened(mark, c))) && |PairedClosing(QuoteOpened(mark, c))| == 1
  {
    hide AfterMark, ToFullWidth;
    assert "”"[0] != '"' && "“"[0] != '"' && "’"[0] != '\'' && "‘"[0] != '\'';
    assert "”"[0] != "“"[0] && "‘"[0] != "“"[0] && "’"[0] != "‘"[0];
  }

  /** Whatever was kept as ASCII before, a quote key is paired: it is never itself kept. */
  lemma QuoteTyped(o: Options, width: Width, t: Typing, c: Ascii, before: Option<char>, now: int)
    requires o.paired && IsPunctuation(c) && !KeepsAscii(c, before) && !(t.active && t.key == c)
    requires TypedMark(t.formatter, c, width) != ""
             && IsQuote(PairedClosing(QuoteOpened(TypedMark(t.formatter, c, width), c)))
    ensures var closing := PairedClosing(QuoteOpened(TypedMark(t.formatter, c, width), c));
            var (t', r) := Punctuate(o, ChineseMarks, width, t, c, before, now, false, UNHANDLED);
            && t'.pending == t.pending + [closing] && r.cursorLeft == 1 && r.cursorRight == 0 && r.deleteBefore == 0
            && r.commit.Some? && r.commit.value != ""
  {
    hide Punctuate, ChineseMark, AfterMark, KeepsAscii, IsPunctuation, PairedClosing, QuoteOpened, TypedMark;
    PlainMark(o, width, t, c, before, now);
  }

  /** From related desks, a quote among well-nested brackets leaves more text right of the caret than unpaired
      typing. */
  lemma {:induction false} QuoteAddsText(o: Options, width: Width, a: Desk, b: Desk, strokes: seq<Stroke>,
                                         base: seq<string>, rest: string, open: seq<Ascii>, outer: nat)
    requires Related(a, b, base, rest, open, outer, width) && Closings(a.typing.pending)
    requires WellNested(WithoutQuotes(strokes), open) && !NoQuotes(strokes)
    ensures |AfterAll(o.(paired := true), width, a, strokes).text.right| >
            |AfterAll(o.(paired := false), width, b, strokes).text.right|
    decreases |strokes|
  {
    hide Related, After;
    var paired, plain := o.(paired := true), o.(paired := false);
    var a', b', tail := After(paired, width, a, strokes[0]), After(plain, width, b, strokes[0]), strokes[1..];
    if IsQuoteKey(strokes[0]) {
      QuoteSticks(paired, width, a, b, strokes[0], base, rest, open, outer);
      StuckRun(paired, width, a', tail, |a.typing.pending|, |rest| - |base|);
      RestOf(a, b, base, rest, open, outer, width);
      StuckIsLonger(AfterAll(paired, width, a', tail), base, rest, open, outer, width, |a.typing.pending|);
      UnpairedRunKeepsRight(plain, width, b, strokes);
    } else {
      assert WithoutQuotes(strokes) == [strokes[0]] + WithoutQuotes(tail);
      assert WithoutQuotes(strokes)[1..] == WithoutQuotes(tail);
      assert !NoQuotes(tail);
      ClosingsStay(paired, width, a, strokes[0]);
      match strokes[0] {
        case Words(text) =>
          WordsKeepRelated(o, width, a, b, base, rest, open, outer, text);
          QuoteAddsText(o, width, a', b', tail, base, rest, open, outer);
        case Press(c, now) =>
          if Opens(c) {
            OpenKeepsRelated(o, width, a, b, base, rest, open, outer, c, now);
            QuoteAddsText(o, width, a', b', tail, base, rest, open + [c], outer);
          } else {
            CloseKeepsRelated(o, width, a, b, base, rest, open, outer, now);
            QuoteAddsText(o, width, a', b', tail, base, rest, open[..|open| - 1], outer);
          }
      }
    }
  }

  lemma ClosingsStay(o: Options, width: Width, d: Desk, stroke: Stroke)
    requires Closings(d.typing.pending)
    ensures Closings(After(o, width, d, stroke).typing.pending)
  {
    hide Applied, Punctuate, Closings;
    match stroke {
      case Words(_) =>
      case Press(c, now) =>
        PunctuateRespectsStack(o, ChineseMarks, width, Seen(d.typing, c), c, Preceding(d.text), now, false, UNHANDLED);
    }
  }

  lemma {:induction false} UpcomingLength(pending: seq<string>)
    requires Closings(pending)
    ensures |Upcoming(pending)| == |pending|
  {
    if pending != [] {
      UpcomingLength(pending[..|pending| - 1]);
    }
  }

  lemma RestOf(a: Desk, b: Desk, base: seq<string>, rest: string, open: seq<Ascii>, outer: nat, width: Width)
    requires Related(a, b, base, rest, open, outer, width) && Closings(a.typing.pending)
    ensures b.text.right == rest && |a.text.right| == |a.typing.pending| - |base| + |rest| && Remembers(a.typing)
    ensures |base| <= |a.typing.pending|
  {
    var cs := ClosingsOf(open, outer, width);
    forall i | 0 <= i < |cs| ensures IsClosing(cs[i]) {
      assert cs[i] == a.typing.pending[|base| + i];
    }
    UpcomingLength(cs);
  }

  lemma QuoteSticks(o: Options, width: Width, a: Desk, b: Desk, stroke: Stroke, base: seq<string>, rest: string,
                    open: seq<Ascii>, outer: nat)
    requires o.paired && IsQuoteKey(stroke) && Related(a, b, base, rest, open, outer, width)
             && Closings(a.typing.pending)
    ensures Stuck(After(o, width, a, stroke), |a.typing.pending|, |rest| - |base|)
  {
    hide Related, After, Closings, IsQuoteKey;
    RestOf(a, b, base, rest, open, outer, width);
    QuoteStroke(o, width, a, stroke);
    ClosingsStay(o, width, a, stroke);
  }

  lemma StuckIsLonger(d: Desk, base: seq<string>, rest: string, open: seq<Ascii>, outer: nat, width: Width, n: nat)
    requires Stuck(d, n, |rest| - |base|) && |base| <= n
    ensures |d.text.right| > |rest|
  {
  }

  /** Exactly when automatic pairing changes no text: strokes whose brackets nest when quotes are left out give the same
      text in both ways of typing if and only if there is no quote among them. */
  lemma SameTextIffNoQuotes(o: Options, width: Width, d: Desk, strokes: seq<Stroke>)
    requires WellNested(WithoutQuotes(strokes), []) && Remembers(d.typing) && Closings(d.typing.pending)
    ensures var a := AfterAll(o.(paired := true), width, d, strokes);
            var b := AfterAll(o.(paired := false), width, d, strokes);
            a.text == b.text <==> NoQuotes(strokes)
  {
    ClosingsAreNoBraces(d.typing.pending, width);
    if NoQuotes(strokes) {
      NothingToLeaveOut(strokes);
      PairingChangesNoText(o, width, d, strokes);
    } else {
      StartsRelated(d, width);
      QuoteAddsText(o, width, d, d, strokes, d.typing.pending, d.text.right, [], d.typing.formatter.nesting);
    }
  }

  lemma ClosingsAreNoBraces(pending: seq<string>, width: Width)
    requires Closings(pending)
    ensures NoWideBrace(pending, width)
  {
    assert "｛"[0] !in CLOSING_MARKS && "｝"[0] !in CLOSING_MARKS;
    forall i | 0 <= i < |pending| ensures pending[i] != "｛" && pending[i] != "｝" {
      assert IsClosing(pending[i]);
    }
  }

  const EMPTY_DESK: Desk := Desk(Text("", ""), Typing(INITIAL, [], false, '\0', 0))
  const TWO_QUOTES: seq<Stroke> := [Press('"', 0), Press('"', 1)]

  /** Two presses of the quote key on an empty line: four marks with pairing, two without. */
  lemma TwoQuotes(o: Options)
    ensures WellNested(WithoutQuotes(TWO_QUOTES), [])
    ensures AfterAll(o.(paired := true), Half, EMPTY_DESK, TWO_QUOTES).text == Text("““", "””")
    ensures AfterAll(o.(paired := false), Half, EMPTY_DESK, TWO_QUOTES).text == Text("“”", "")
  {
    hide After, AfterAll;
    assert TWO_QUOTES[1..] == [Press('"', 1)] && TWO_QUOTES[1..][1..] == [];
    TwoStrokes(o.(paired := true), Half, EMPTY_DESK, Press('"', 0), Press('"', 1));
    TwoStrokes(o.(paired := false), Half, EMPTY_DESK, Press('"', 0), Press('"', 1));
    TwoPairedQuotes(o.(paired := true));
    TwoPlainQuotes(o.(paired := false));
  }

  lemma TwoPairedQuotes(o: Options)
    requires o.paired
    ensures After(o, Half, After(o, Half, EMPTY_DESK, Press('"', 0)), Press('"', 1)).text == Text("““", "””")
  {
    hide After, ChineseMark, AfterMark;
    PairedQuote(o, EMPTY_DESK, 0);
    PairedQuote(o, After(o, Half, EMPTY_DESK, Press('"', 0)), 1);
    assert "" + "“" + "“" == "““" && "”" + ("”" + "") == "””";
  }

  lemma TwoPlainQuotes(o: Options)
    requires !o.paired
    ensures After(o, Half, After(o, Half, EMPTY_DESK, Press('"', 0)), Press('"', 1)).text == Text("“”", "")
  {
    hide After;
    PlainQuote(o, EMPTY_DESK, 0);
    PlainQuote(o, After(o, Half, EMPTY_DESK, Press('"', 0)), 1);
    assert "" + "“" + "”" == "“”";
  }

  lemma TwoStrokes(o: Options, width: Width, d: Desk, x: Stroke, y: Stroke)
    ensures AfterAll(o, width, d, [x, y]) == After(o, width, After(o, width, d, x), y)
  {
    hide After;
    assert [x, y][1..] == [y] && [y][1..] == [];
    var d' := After(o, width, d, x);
    assert AfterAll(o, width, d', [y]) == AfterAll(o, width, After(o, width, d', y), [y][1..]);
    assert AfterAll(o, width, d, [x, y]) == AfterAll(o, width, After(o, width, d, [x, y][0]), [x, y][1..]);
  }

  lemma PairedQuote(o: Options, d: Desk, now: int)
    requires o.paired && !d.typing.active && d.typing.key == '\0'
    ensures After(o, Half, d, Press('"', now)) ==
            Desk(Text(d.text.left + "“", "”" + d.text.right),
                 Forgotten(d.typing.(formatter := AfterMark(d.typing.formatter, '"'),
                                     pending := d.typing.pending + ["”"])))
  {
    hide Applied, Punctuate;
    QuoteMark(d.typing.formatter, '"', Half);
    PlainMark(o, Half, Seen(d.typing, '"'), '"', Preceding(d.text), now);
    InsertedPair(d.text, "“", "”");
  }

  lemma PlainQuote(o: Options, d: Desk, now: int)
    requires !o.paired && !d.typing.active && d.typing.key == '\0'
    ensures After(o, Half, d, Press('"', now)) ==
            Desk(d.text.(left := d.text.left + ChineseMark(d.typing.formatter, '"')),
                 Forgotten(d.typing.(formatter := AfterMark(d.typing.formatter, '"'))))
  {
    hide Applied, Punctuate;
    QuoteMark(d.typing.formatter, '"', Half);
    PlainMark(o, Half, Seen(d.typing, '"'), '"', Preceding(d.text), now);
    InsertedPair(d.text, ChineseMark(d.typing.formatter, '"'), "”");
  }
}
