/** Turning ASCII keys into Chinese or full-width marks. A `char` here is one Unicode character. */
module TextTransform {
  import opened Optional

  /** The characters a key press can carry. */
  type Ascii = c: char | c as int <= 0x7f witness 'a'

  /** The formatter's memory: which quote comes next, and how deep book titles are nested. */
  datatype Formatter = Formatter(doubleOpen: bool, singleOpen: bool, nesting: nat)

  const INITIAL: Formatter := Formatter(true, true, 0)

  function ChineseMark(f: Formatter, ascii: Ascii): string {
    match ascii
    case '"' => if f.doubleOpen then "“" else "”"
    case '\'' => if f.singleOpen then "‘" else "’"
    case '`' => "·"
    case '~' => "~"
    case '!' => "！"
    case '@' => "@"
    case '#' => "#"
    case '$' => "￥"
    case '%' => "%"
    case '^' => "……"
    case '&' => "&"
    case '*' => "*"
    case '(' => "（"
    case ')' => "）"
    case '_' => "——"
    case '[' => "【"
    case ']' => "】"
    case '{' => "{"
    case '}' => "}"
    case '\\' => "、"
    case ';' => "；"
    case ':' => "："
    case ',' => "，"
    case '<' => if f.nesting == 0 then "《" else "〈"
    case '.' => "。"
    case '>' => if f.nesting <= 1 then "》" else "〉"
    case '?' => "？"
    case _ => ""
  }

  function AfterMark(f: Formatter, ascii: Ascii): Formatter {
    match ascii
    case '"' => f.(doubleOpen := !f.doubleOpen)
    case '\'' => f.(singleOpen := !f.singleOpen)
    case '<' => f.(nesting := f.nesting + 1)
    case '>' => f.(nesting := if f.nesting > 0 then f.nesting - 1 else 0)
    case _ => f
  }

  class PunctuationFormatter {
    var doubleQuoteOpen: bool
    var singleQuoteOpen: bool
    var bookTitleNesting: nat

    function State(): Formatter
      reads this
    {
      Formatter(doubleQuoteOpen, singleQuoteOpen, bookTitleNesting)
    }

    constructor ()
      ensures State() == INITIAL
    {
      doubleQuoteOpen, singleQuoteOpen, bookTitleNesting := true, true, 0;
    }

    method Chinese(ascii: Ascii) returns (mark: string)
      modifies this
      ensures mark == ChineseMark(old(State()), ascii) && State() == AfterMark(old(State()), ascii)
    {
      match ascii {
        case '"' =>
          mark := if doubleQuoteOpen then "“" else "”";
          doubleQuoteOpen := !doubleQuoteOpen;
        case '\'' =>
          mark := if singleQuoteOpen then "‘" else "’";
          singleQuoteOpen := !singleQuoteOpen;
        case '<' =>
          bookTitleNesting := bookTitleNesting + 1;
          mark := if bookTitleNesting == 1 then "《" else "〈";
        case '>' =>
          if bookTitleNesting > 0 {
            bookTitleNesting := bookTitleNesting - 1;
            mark := if bookTitleNesting == 0 then "》" else "〉";
          } else {
            mark := "》";
          }
        case _ => mark := ChineseMark(State(), ascii);
      }
    }

    method Reset()
      modifies this
      ensures State() == INITIAL
    {
      doubleQuoteOpen, singleQuoteOpen, bookTitleNesting := true, true, 0;
    }
  }

  predicate IsPunctuation(ascii: Ascii) {
    ascii in "\"'`~!@#$%^&*()_[]{}\\;:,<.>?"
  }

  predicate AsciiWordChar(c: char) {
    '0' <= c <= '9' || 'A' <= c <= 'Z' || 'a' <= c <= 'z'
  }

  predicate KeepsAscii(ascii: Ascii, before: Option<char>) {
    (ascii == ',' || ascii == '.' || ascii == ':') && before.Some? && AsciiWordChar(before.value)
  }

  function PairedClosing(opening: string): string {
    if opening == "“" then "”"
    else if opening == "‘" then "’"
    else if opening == "【" then "】"
    else if opening == "{" then "}"
    else if opening == "《" then "》"
    else if opening == "〈" then "〉"
    else if opening == "（" then "）"
    else ""
  }

  function ToFullWidth(ascii: Ascii): string {
    var value := ascii as int;
    if value == 0x20 then ['\U{3000}']
    else if value < 0x21 || value > 0x7e then ""
    else [(0xff01 + value - 0x21) as char]
  }

  /** A mark is the closing of at most one opening mark, and never an opening mark itself. */
  lemma ClosingIsNotOpening(opening: string)
    ensures PairedClosing(opening) != "" ==>
      |PairedClosing(opening)| == 1 && PairedClosing(PairedClosing(opening)) == ""
  {
    var c := PairedClosing(opening);
    if c != "" {
      assert c[0] in "”’】}》〉）";
    }
  }

  /** Book titles of any depth close with the partner of the mark they opened with. */
  lemma TitleClosesItself(f: Formatter)
    ensures ChineseMark(AfterMark(f, '<'), '>') == PairedClosing(ChineseMark(f, '<'))
    ensures AfterMark(AfterMark(f, '<'), '>') == f
  {
    if f.nesting > 0 {
      assert "〈"[0] != "《"[0];
    }
  }

  /** The keys with one fixed mark, and their marks in the same order. */
  const FIXED_KEYS: string := "`~!@#$%^&*()_[]{}\\;:,.?"
  const FIXED_MARKS: seq<string> :=
    ["·", "~", "！", "@", "#", "￥", "%", "……", "&", "*", "（", "）", "——", "【", "】", "{", "}", "、", "；", "：", "，",
     "。", "？"]

  /** Every key with a fixed mark gives it whatever was typed before, and leaves quotes and titles as they are. */
  lemma FixedMarks(f: Formatter, i: nat)
    requires i < |FIXED_KEYS|
    ensures |FIXED_KEYS| == |FIXED_MARKS| == 23 && FIXED_KEYS[i] as int <= 0x7f
    ensures ChineseMark(f, FIXED_KEYS[i]) == FIXED_MARKS[i] && AfterMark(f, FIXED_KEYS[i]) == f
  {
    hide ChineseMark, AfterMark;
    assert i == 0 || i == 1 || i == 2 || i == 3 || i == 4 || i == 5 || i == 6 || i == 7 || i == 8 || i == 9 || i == 10
           || i == 11 || i == 12 || i == 13 || i == 14 || i == 15 || i == 16 || i == 17 || i == 18 || i == 19 || i == 20
           || i == 21 || i == 22;
    FixedMark(f, FIXED_KEYS[i]);
  }

  lemma FixedMark(f: Formatter, c: Ascii)
    ensures c == '`' ==> ChineseMark(f, c) == "·"
    ensures c == '~' ==> ChineseMark(f, c) == "~"
    ensures c == '!' ==> ChineseMark(f, c) == "！"
    ensures c == '@' ==> ChineseMark(f, c) == "@"
    ensures c == '#' ==> ChineseMark(f, c) == "#"
    ensures c == '$' ==> ChineseMark(f, c) == "￥"
    ensures c == '%' ==> ChineseMark(f, c) == "%"
    ensures c == '^' ==> ChineseMark(f, c) == "……"
    ensures c == '&' ==> ChineseMark(f, c) == "&"
    ensures c == '*' ==> ChineseMark(f, c) == "*"
    ensures c == '(' ==> ChineseMark(f, c) == "（"
    ensures c == ')' ==> ChineseMark(f, c) == "）"
    ensures c == '_' ==> ChineseMark(f, c) == "——"
    ensures c == '[' ==> ChineseMark(f, c) == "【"
    ensures c == ']' ==> ChineseMark(f, c) == "】"
    ensures c == '{' ==> ChineseMark(f, c) == "{"
    ensures c == '}' ==> ChineseMark(f, c) == "}"
    ensures c == '\\' ==> ChineseMark(f, c) == "、"
    ensures c == ';' ==> ChineseMark(f, c) == "；"
    ensures c == ':' ==> ChineseMark(f, c) == "："
    ensures c == ',' ==> ChineseMark(f, c) == "，"
    ensures c == '.' ==> ChineseMark(f, c) == "。"
    ensures c == '?' ==> ChineseMark(f, c) == "？"
    ensures c != '"' && c != '\'' && c != '<' && c != '>' ==> AfterMark(f, c) == f
  {
  }

  /** Quotes alternate, opening first, each kind by itself. */
  lemma QuotesAlternate(f: Formatter)
    ensures ChineseMark(f, '"') == (if f.doubleOpen then "“" else "”")
    ensures ChineseMark(f, '\'') == (if f.singleOpen then "‘" else "’")
    ensures AfterMark(f, '"') == Formatter(!f.doubleOpen, f.singleOpen, f.nesting)
    ensures AfterMark(f, '\'') == Formatter(f.doubleOpen, !f.singleOpen, f.nesting)
    ensures INITIAL.doubleOpen && INITIAL.singleOpen && INITIAL.nesting == 0
  {
  }

  /** The outermost book title has double marks, those inside it single ones; a surplus closing title stays double. */
  lemma TitleMarks(f: Formatter)
    ensures ChineseMark(f, '<') == (if f.nesting == 0 then "《" else "〈") && AfterMark(f, '<').nesting == f.nesting + 1
    ensures ChineseMark(f, '>') == (if f.nesting <= 1 then "》" else "〉")
    ensures f.nesting == 0 ==> AfterMark(f, '>') == f
  {
  }

  /** What closes a pair automatically is what the user would have typed to close it. */
  lemma PairsAreTypedPairs(f: Formatter)
    ensures PairedClosing(ChineseMark(f, '(')) == ChineseMark(f, ')')
    ensures PairedClosing(ChineseMark(f, '[')) == ChineseMark(f, ']')
    ensures PairedClosing(ChineseMark(f, '{')) == ChineseMark(f, '}')
    ensures PairedClosing(ChineseMark(f, '<')) == ChineseMark(AfterMark(f, '<'), '>')
    ensures f.doubleOpen ==> PairedClosing(ChineseMark(f, '"')) == ChineseMark(AfterMark(f, '"'), '"')
    ensures f.singleOpen ==> PairedClosing(ChineseMark(f, '\'')) == ChineseMark(AfterMark(f, '\''), '\'')
  {
  }

  /** Only an opening mark is paired. */
  lemma OnlyOpeningsArePaired(f: Formatter, c: Ascii)
    ensures PairedClosing(ChineseMark(f, c)) != "" <==>
            || c == '(' || c == '[' || c == '{' || c == '<'
            || (c == '"' && f.doubleOpen) || (c == '\'' && f.singleOpen)
  {
  }

  /** The keys that are punctuation are exactly those with a Chinese mark. */
  lemma PunctuationIffMark(f: Formatter, c: Ascii)
    ensures IsPunctuation(c) <==> ChineseMark(f, c) != ""
  {
    hide AfterMark, IsPunctuation;
    PunctuationKeys(c);
  }

  lemma PunctuationKeys(c: Ascii)
    ensures IsPunctuation(c) <==>
            || c == '"' || c == '\'' || c == '`' || c == '~' || c == '!' || c == '@' || c == '#' || c == '$' || c == '%'
            || c == '^' || c == '&' || c == '*' || c == '(' || c == ')' || c == '_' || c == '[' || c == ']' || c == '{'
            || c == '}' || c == '\\' || c == ';' || c == ':' || c == ',' || c == '<' || c == '.' || c == '>' || c == '?'
  {
  }

  /** A comma, full stop or colon stays ASCII exactly behind an ASCII letter or digit. */
  lemma KeepsAsciiIff(c: Ascii, before: Option<char>)
    ensures KeepsAscii(c, before) <==>
            && c in {',', '.', ':'} && before != None
            && var code := before.value as int; 48 <= code <= 57 || 65 <= code <= 90 || 97 <= code <= 122
  {
  }

  /** Full-width forms lie at a fixed distance, the space apart; no two keys share one. */
  lemma FullWidthIsShifted(c: Ascii, d: Ascii)
    ensures '!' <= c <= '~' ==> |ToFullWidth(c)| == 1 && ToFullWidth(c)[0] as int == c as int + 65248
    ensures c == ' ' ==> ToFullWidth(c) == ['\U{3000}']
    ensures c < ' ' || c > '~' ==> ToFullWidth(c) == ""
    ensures ToFullWidth(c) == ToFullWidth(d) != "" ==> c == d
  {
    if ToFullWidth(c) == ToFullWidth(d) != "" {
      assert ToFullWidth(c)[0] == ToFullWidth(d)[0];
    }
  }
}
