/** The key handler of one input context. The engine session is foreign: it answers every input as it likes, but an
    input it does not handle leaves its snapshot as it was. */
module InputController {
  import opened Optional
  import opened TextTransform
  import opened PairedPunctuation

  datatype LocalMode = NoLocal | Unicode | SuperJianpin | TemporaryEnglish | TemporaryJapanese
  datatype Snapshot = Snapshot(preedit: string, candidates: seq<string>, localMode: LocalMode, english: bool,
                               scheme: int)
  datatype InputMode = Ime | Direct
  datatype Lock = Follow | LockChinese | LockEnglish
  datatype Edge = FirstHan | LastHan
  datatype Command = Backspace | CommitRaw | Cancel | CommitCandidate
  datatype SessionInput =
    | Character(c: Ascii, shiftOnly: bool)
    | Do(command: Command)
    | Select(index: nat)
    | SelectEdge(at: nat, edge: Edge)
    | Finish(highlighted: nat)
  /** What the session is told rather than asked. */
  datatype Order = Dedicated(on: bool) | Scheme(scheme: int)

  datatype KeyResult = KeyResult(handled: bool, commit: Option<string>)

  datatype Key =
    | CharacterKey | PunctuationKey | BackspaceKey | EnterKey | EscapeKey | SpaceKey | DigitKey
    | UpKey | DownKey | PageUpKey | PageDownKey | TogglePunctuation | ToggleWidth | ToggleEnglish

  type Digit = n: nat | n <= 9

  datatype KeyEvent = KeyEvent(key: Key, character: Ascii, digit: Digit, hostShortcut: bool, preceding: Option<char>,
                               shiftOnly: bool)

  /** The vendored session; `asked` is every input it was given and `answers` what it said, `told` every other order
      and `offered` the online candidates with its verdicts. */
  class Session {
    var snapshot: Snapshot
    ghost var asked: seq<SessionInput>
    ghost var answers: seq<KeyResult>
    ghost var told: seq<Order>
    ghost var offered: seq<(string, bool)>

    constructor (snapshot: Snapshot)
      ensures this.snapshot == snapshot && asked == [] && answers == [] && told == [] && offered == []
    {
      this.snapshot, asked, answers, told, offered := snapshot, [], [], [], [];
    }

    method Ask(input: SessionInput) returns (r: KeyResult)
      modifies this`snapshot, this`asked, this`answers
      ensures !r.handled ==> snapshot == old(snapshot)
      ensures asked == old(asked) + [input] && answers == old(answers) + [r]
    {
      var handled: bool, commit: Option<string> := *, *;
      if handled { snapshot := *; }
      r := KeyResult(handled, commit);
      asked, answers := asked + [input], answers + [r];
    }

    method SetDedicatedEnglish(on: bool)
      modifies this`snapshot, this`told
      ensures told == old(told) + [Dedicated(on)]
    {
      snapshot, told := *, told + [Dedicated(on)];
    }

    method SwitchScheme(scheme: int)
      modifies this`snapshot, this`told
      ensures told == old(told) + [Scheme(scheme)]
    {
      snapshot, told := *, told + [Scheme(scheme)];
    }

    /** Adds a candidate for the query it was asked about, or refuses. */
    method ApplyOnline(candidate: string) returns (accepted: bool)
      modifies this`snapshot, this`offered
      ensures offered == old(offered) + [(candidate, accepted)]
      ensures !accepted ==> snapshot == old(snapshot)
      ensures accepted ==> snapshot.candidates != [] && snapshot == old(snapshot).(candidates := snapshot.candidates)
    {
      accepted := *;
      offered := offered + [(candidate, accepted)];
      if accepted {
        var more: seq<string> := *;
        snapshot := snapshot.(candidates := [candidate] + more);
      }
    }
  }

  function FromAnswer(k: KeyResult): Result {
    Result(k.handled, k.commit, 0, 0, 0)
  }

  /** What a punctuation key in input-method mode is for: it turns the candidate page, goes to the session, goes to the
      session first and is committed as a mark if refused, is committed as a mark, or does nothing. */
  datatype Route = Turn(forward: bool) | Offer(input: SessionInput) | OfferFirst(input: SessionInput) | Mark | Nothing

  /** What a punctuation lock demands, or the mode without one. */
  function Locked(lock: Lock, mode: InputMode): PunctuationMode {
    match lock
    case LockChinese => ChineseMarks
    case LockEnglish => EnglishMarks
    case Follow => if mode.Ime? then ChineseMarks else EnglishMarks
  }

  function Other(mode: PunctuationMode): PunctuationMode {
    if mode.ChineseMarks? then EnglishMarks else ChineseMarks
  }

  /** The process-wide number behind every online generation. */
  class Sequence {
    var value: nat

    constructor ()
      ensures value == 0
    {
      value := 0;
    }

    method Next() returns (n: nat)
      modifies this
      ensures n == value == old(value) + 1
    {
      value := value + 1;
      n := value;
    }
  }

  const SHIFTED_DIGITS: string := "!@#$%^&*("

  /** One to nine for the symbols on the digit keys, zero for anything else. */
  function ShiftedDigit(c: char): (n: nat)
    ensures n <= 9
  {
    ShiftedFrom(c, 0)
  }

  /** Exactly the nine symbols select, each its own place. */
  lemma ShiftedDigitIsExact(c: char)
    ensures ShiftedDigit(c) > 0 <==> c in SHIFTED_DIGITS
    ensures ShiftedDigit(c) > 0 ==> SHIFTED_DIGITS[ShiftedDigit(c) - 1] == c
  {
    assert SHIFTED_DIGITS[0..] == SHIFTED_DIGITS;
  }

  function ShiftedFrom(c: char, i: nat): (n: nat)
    requires i <= 9
    ensures n <= 9 && (n > 0 <==> c in SHIFTED_DIGITS[i..]) && (n > 0 ==> SHIFTED_DIGITS[n - 1] == c)
    decreases 9 - i
  {
    if i == 9 then 0 else if SHIFTED_DIGITS[i] == c then i + 1 else ShiftedFrom(c, i + 1)
  }

  /** `step` candidates on or back, without leaving the list. */
  function Moved(highlighted: nat, count: nat, forward: bool, step: nat): (h: nat)
    requires count > 0
    ensures highlighted < count ==> h < count
    ensures forward ==> h == highlighted + step || (h == count - 1 && highlighted + step > h)
    ensures !forward ==> h + step == highlighted || (h == 0 && highlighted <= step)
  {
    if forward then Least(highlighted + step, count - 1) else if highlighted > step then highlighted - step else 0
  }

  /** A key, when it was pressed, and the answer to it. */
  datatype Given = Given(event: KeyEvent, now: int, result: Result)

  /** The answers a controller has given to keys. */
  class KeyLog {
    ghost var given: seq<Given>

    constructor ()
      ensures given == []
    {
      given := [];
    }
  }

  class Controller {
    const session: Session
    const log: KeyLog
    const formatter: PunctuationFormatter
    const sequence: Sequence
    const options: Options
    const pageSize: nat
    const bracketPaging: bool
    const wordToCharacter: bool
    const commaPeriodPaging: bool
    var snapshot: Snapshot
    var mode: InputMode
    var highlighted: nat
    var punctuationMode: PunctuationMode
    var lock: Lock
    var width: Width
    var pending: seq<string>
    var historyActive: bool
    var historyKey: Ascii
    var historyTime: int
    var generation: nat

    ghost predicate Valid()
      reads this, session, sequence
    {
      && snapshot == session.snapshot && |session.asked| == |session.answers| && pageSize > 0
      && Closings(pending)
      && (historyActive ==> historyKey == ',' || historyKey == '.' || historyKey == ':')
      && generation <= sequence.value
      && (highlighted == 0 || highlighted < |snapshot.candidates|)
    }

    function Typing(): PairedPunctuation.Typing
      reads this, formatter
    {
      PairedPunctuation.Typing(formatter.State(), pending, historyActive, historyKey, historyTime)
    }

    constructor (session: Session, sequence: Sequence, options: Options, pageSize: nat, bracketPaging: bool,
                 wordToCharacter: bool, commaPeriodPaging: bool, punctuationMode: PunctuationMode, width: Width)
      requires pageSize > 0 && |session.asked| == |session.answers|
      modifies sequence
      ensures Valid() && pending == [] && this.session == session && this.sequence == sequence && fresh(formatter)
              && fresh(log) && log.given == []
      ensures generation == sequence.value == old(sequence.value) + 1
      ensures mode == Ime && lock == Follow && this.width == width && this.options == options
              && this.pageSize == pageSize
      ensures this.bracketPaging == bracketPaging && this.wordToCharacter == wordToCharacter
      ensures this.commaPeriodPaging == commaPeriodPaging
    {
      this.session, this.sequence, this.options, this.pageSize := session, sequence, options, pageSize;
      this.bracketPaging, this.wordToCharacter, this.commaPeriodPaging :=
        bracketPaging, wordToCharacter, commaPeriodPaging;
      this.formatter := new PunctuationFormatter();
      this.log := new KeyLog();
      this.snapshot := session.snapshot;
      this.mode, this.highlighted, this.lock := Ime, 0, Follow;
      this.punctuationMode, this.width, this.pending := punctuationMode, width, [];
      this.historyActive, this.historyKey, this.historyTime := false, '\0', 0;
      new;
      generation := sequence.Next();
    }

    predicate HasComposition()
      reads this`snapshot
    {
      snapshot.preedit != ""
    }

    function PageStart(): nat
      requires pageSize > 0
      reads this`highlighted
    {
      highlighted / pageSize * pageSize
    }

    /** What every operation promises about generations: a new one whenever the session's state may have changed, and
        never one that has been drawn before. */
    twostate predicate Draws()
      reads this, session, sequence
    {
      && old(sequence.value) <= sequence.value
      && (generation == old(generation) || generation > old(sequence.value))
      && (snapshot != old(snapshot) ==> generation > old(sequence.value))
    }

    /** The session was asked exactly this. */
    twostate predicate Asked(inputs: seq<SessionInput>)
      reads session
    {
      session.asked == old(session.asked) + inputs && old(session.answers) <= session.answers
    }

    ghost function LastAnswer(): Result
      reads session
    {
      if session.answers == [] then UNHANDLED else FromAnswer(session.answers[|session.answers| - 1])
    }

    /** The composition was finished and the key answered as `Punctuate` says of what was remembered in `t`. */
    twostate predicate Punctuates(e: KeyEvent, now: int, t: PairedPunctuation.Typing, r: Result)
      reads this, session, formatter
    {
      (Typing(), r) ==
        Punctuate(options, old(punctuationMode), old(width), t, e.character, e.preceding, now, old(HasComposition()),
                                 LastAnswer())
    }

    /** The direction a paging key turns to. */
    function Paged(c: char): Option<bool>
    {
      if bracketPaging && (c == '[' || c == ']') then Some(c == ']')
      else if c == '-' || c == '_' then Some(false)
      else if c == '=' || c == '+' then Some(true)
      else if commaPeriodPaging && (c == ',' || c == '.') then Some(c == '.')
      else None
    }

    /** What a punctuation key is for in a local mode. */
    function LocalRoute(e: KeyEvent): Route
      requires pageSize > 0
      reads this`snapshot, this`highlighted
    {
      var selection := ShiftedDigit(e.character);
      if e.shiftOnly && selection > 0 then
        if HasComposition() && selection <= pageSize then Offer(Select(PageStart() + selection - 1)) else Nothing
      else if (snapshot.localMode.TemporaryEnglish? || snapshot.localMode.TemporaryJapanese?) && HasComposition()
              && Paged(e.character).Some?
      then Turn(Paged(e.character).value)
      else OfferFirst(Character(e.character, e.shiftOnly))
    }

    /** What a punctuation key is for in input-method mode. */
    function RouteOf(e: KeyEvent): Route
      requires pageSize > 0
      reads this`snapshot, this`highlighted
    {
      if !snapshot.localMode.NoLocal? then LocalRoute(e)
      else if !HasComposition() then Mark
      else if e.character == '\'' then Offer(Character(e.character, false))
      else if Paged(e.character).Some? then Turn(Paged(e.character).value)
      else if wordToCharacter && (e.character == '[' || e.character == ']') then
        OfferFirst(SelectEdge(highlighted, if e.character == '[' then FirstHan else LastHan))
      else Mark
    }

    /** The key has gone its way. */
    twostate predicate Goes(route: Route, e: KeyEvent, now: int, t: PairedPunctuation.Typing, r: Result)
      reads this, session, formatter
    {
      match route
      case Turn(forward) =>
        var count := |old(snapshot).candidates|;
        && Asked([]) && pending == old(pending) && r == Result(count > 0, None, 0, 0, 0)
        && highlighted == if count > 0 then Moved(old(highlighted), count, forward, pageSize) else old(highlighted)
      case Offer(input) => Asked([input]) && pending == old(pending) && r == LastAnswer()
      case OfferFirst(input) =>
        || (Asked([input]) && pending == old(pending) && r == LastAnswer() && r.handled)
        || (Asked([input, Finish(old(highlighted))]) && |session.answers| > |old(session.answers)|
            && !session.answers[|old(session.answers)|].handled && Punctuates(e, now, t, r))
      case Mark => Asked([Finish(old(highlighted))]) && Punctuates(e, now, t, r)
      case Nothing => Asked([]) && pending == old(pending) && r == UNHANDLED
    }

    method ClearHistory()
      modifies this`historyActive, this`historyKey, this`historyTime
      ensures !historyActive && historyKey == '\0' && historyTime == 0
    {
      historyActive, historyKey, historyTime := false, '\0', 0;
    }

    /** `finish_composition_mutation`: adopt the session's snapshot; an input it handled is a new composition. */
    method Adopt(r: Result) returns (result: Result)
      requires |session.asked| == |session.answers|
      requires Valid() || (pageSize > 0 && Closings(pending) && generation <= sequence.value
                           && (historyActive ==> historyKey == ',' || historyKey == '.' || historyKey == ':'))
      requires !r.handled ==> Valid()
      modifies this`snapshot, this`generation, this`highlighted, sequence
      ensures Valid() && result == r && snapshot == session.snapshot
      ensures sequence.value >= old(sequence.value)
      ensures if r.handled then generation > old(sequence.value)
        else generation == old(generation) && snapshot == old(snapshot)
      ensures highlighted == if r.handled then 0 else old(highlighted)
    {
      snapshot := session.snapshot;
      if r.handled {
        generation := sequence.Next();
        highlighted := 0;
      }
      result := r;
    }

    /** Ask the session and adopt what it says. */
    method Ask(input: SessionInput) returns (r: Result)
      requires Valid()
      modifies this`snapshot, this`generation, this`highlighted, session, sequence
      ensures Valid() && Draws() && Plain(r) && r == LastAnswer() && Asked([input])
      ensures highlighted == if r.handled then 0 else old(highlighted)
      ensures !r.handled ==> snapshot == old(snapshot)
      ensures session.told == old(session.told) && session.offered == old(session.offered)
    {
      var answer := session.Ask(input);
      r := Adopt(Result(answer.handled, answer.commit, 0, 0, 0));
    }

    method FinishComposition() returns (r: Result)
      requires Valid()
      modifies this`snapshot, this`generation, this`highlighted, session, sequence
      ensures Valid() && Draws() && Plain(r) && r == LastAnswer() && Asked([Finish(old(highlighted))])
      ensures session.told == old(session.told) && (!r.handled ==> snapshot == old(snapshot))
    {
      r := Ask(Finish(highlighted));
    }

    method SelectCandidate(index: nat) returns (r: Result)
      requires Valid()
      modifies this`snapshot, this`generation, this`highlighted, session, sequence
      ensures Valid() && Draws() && Plain(r) && r == LastAnswer() && Asked([Select(index)])
    {
      r := Ask(Select(index));
    }

    method SelectPageCandidate(index: nat) returns (r: Result)
      requires Valid()
      modifies this`snapshot, this`generation, this`highlighted, session, sequence
      ensures Valid() && Draws() && Plain(r)
      ensures old(!HasComposition()) || index >= pageSize ==> r == UNHANDLED && Asked([])
      ensures old(HasComposition()) && index < pageSize ==>
        r == LastAnswer() && Asked([Select(old(PageStart()) + index)])
    {
      if !HasComposition() || index >= pageSize { return UNHANDLED; }
      r := SelectCandidate(PageStart() + index);
    }

    method CommitHighlighted() returns (r: Result)
      requires Valid()
      modifies this`snapshot, this`generation, this`highlighted, session, sequence
      ensures Valid() && Draws() && Plain(r)
      ensures Asked(old(Highlighted())) && r == if old(HasComposition()) then LastAnswer() else UNHANDLED
    {
      if !HasComposition() { return UNHANDLED; }
      if snapshot.candidates == [] {
        r := Ask(Do(CommitCandidate));
      } else {
        r := SelectCandidate(highlighted);
      }
    }

    /** What committing the highlighted candidate asks of the session. */
    function Highlighted(): seq<SessionInput>
      reads this`snapshot, this`highlighted
    {
      if !HasComposition() then [] else if snapshot.candidates == [] then [Do(CommitCandidate)]
        else [Select(highlighted)]
    }

    /** What a key other than punctuation asks of the session while the controller is in input-method mode. A digit
        chooses from the page the highlight is on. */
    function Routed(e: KeyEvent): seq<SessionInput>
      requires pageSize > 0
      reads this`snapshot, this`highlighted
    {
      match e.key
      case CharacterKey => [Character(e.character, e.shiftOnly)]
      case BackspaceKey => [Do(Backspace)]
      case EnterKey => [Do(CommitRaw)]
      case EscapeKey => [Do(Cancel)]
      case SpaceKey => Highlighted()
      case DigitKey =>
        if snapshot.localMode.Unicode? && !e.shiftOnly then [Character((48 + e.digit) as char, false)]
        else if HasComposition() && 1 <= e.digit <= pageSize && PageStart() + e.digit <= |snapshot.candidates|
        then [Select(PageStart() + e.digit - 1)]
        else []
      case _ => []
    }

    /** The answer to a key nobody composed: full-width characters, spaces and digits. */
    function Tail(e: KeyEvent): Result
      reads this`width
    {
      match e.key
      case CharacterKey => Widened(e.character)
      case SpaceKey => Widened(' ')
      case DigitKey => Widened((48 + e.digit) as char)
      case _ => UNHANDLED
    }

    /** The answer in input-method mode to a key, other than punctuation, that asks the session nothing. */
    function Unasked(e: KeyEvent): Result
      reads this`snapshot, this`width
    {
      match e.key
      case UpKey => Result(HasComposition() && snapshot.candidates != [], None, 0, 0, 0)
      case DownKey => Result(HasComposition() && snapshot.candidates != [], None, 0, 0, 0)
      case PageUpKey => Result(HasComposition() && snapshot.candidates != [], None, 0, 0, 0)
      case PageDownKey => Result(HasComposition() && snapshot.candidates != [], None, 0, 0, 0)
      case DigitKey => if HasComposition() then Result(e.digit >= 1, None, 0, 0, 0) else Tail(e)
      case _ => Tail(e)
    }

    /** Where a navigation key moves the highlight, if it is one. */
    function Navigated(e: KeyEvent): nat
      reads this`snapshot, this`highlighted
    {
      if !HasComposition() || snapshot.candidates == [] then highlighted
      else match e.key
        case UpKey => Moved(highlighted, |snapshot.candidates|, false, 1)
        case DownKey => Moved(highlighted, |snapshot.candidates|, true, 1)
        case PageUpKey => Moved(highlighted, |snapshot.candidates|, false, pageSize)
        case PageDownKey => Moved(highlighted, |snapshot.candidates|, true, pageSize)
        case _ => highlighted
    }

    /** The highlight moves by `step` but stays on a candidate. */
    method MoveBy(forward: bool, step: nat) returns (r: Result)
      requires Valid()
      modifies this`highlighted
      ensures Valid() && Plain(r) && r.commit.None?
      ensures r.handled <==> HasComposition() && snapshot.candidates != []
      ensures highlighted == if r.handled then Moved(old(highlighted), |snapshot.candidates|, forward, step)
        else old(highlighted)
    {
      if !HasComposition() || snapshot.candidates == [] { return UNHANDLED; }
      if forward {
        highlighted := Least(highlighted + step, |snapshot.candidates| - 1);
      } else {
        highlighted := if highlighted > step then highlighted - step else 0;
      }
      r := Result(true, None, 0, 0, 0);
    }

    method MoveCursor(forward: bool) returns (r: Result)
      requires Valid()
      modifies this`highlighted
      ensures Valid() && Plain(r) && r.commit.None?
      ensures r.handled <==> HasComposition() && snapshot.candidates != []
      ensures highlighted == if r.handled then Moved(old(highlighted), |snapshot.candidates|, forward, 1)
        else old(highlighted)
    {
      r := MoveBy(forward, 1);
    }

    method MovePage(forward: bool) returns (r: Result)
      requires Valid()
      modifies this`highlighted
      ensures Valid() && Plain(r) && r.commit.None?
      ensures r.handled <==> HasComposition() && snapshot.candidates != []
      ensures highlighted == if r.handled then Moved(old(highlighted), |snapshot.candidates|, forward, pageSize)
        else old(highlighted)
    {
      r := MoveBy(forward, pageSize);
    }

    /** The mark of a punctuation key once the composition has been finished: exactly `Punctuate`. */
    method EmitPunctuation(ascii: Ascii, preceding: Option<char>, now: int, had: bool, finished: Result)
      returns (r: Result)
      modifies this`pending, this`historyActive, this`historyKey, this`historyTime, formatter
      ensures (Typing(), r) ==
        Punctuate(options, punctuationMode, width, old(Typing()), ascii, preceding, now, had, finished)
    {
      hide ChineseMark, AfterMark, Emit;
      var before := preceding;
      if finished.commit.Some? && finished.commit.value != "" {
        before := LastAscii(finished.commit.value);
      }
      if punctuationMode.ChineseMarks? && options.smart && options.repeatToChinese && !had && historyActive
         && historyKey == ascii && before == Some(ascii) && now >= historyTime && now - historyTime <= REPEAT_SECONDS {
        ClearHistory();
        var chinese := formatter.Chinese(ascii);
        if chinese != "" { return Result(true, Some(chinese), 1, 0, 0); }
      }
      r := EmitMark(ascii, before, now, had, finished);
    }

    method EmitMark(ascii: Ascii, before: Option<char>, now: int, had: bool, finished: Result) returns (r: Result)
      modifies this`pending, this`historyActive, this`historyKey, this`historyTime, formatter
      ensures (Typing(), r) == Emit(options, punctuationMode, width, old(Typing()), ascii, before, now, had, finished)
    {
      hide MarkFor, Paired, KeepsAscii;
      var mark := ComputeMark(ascii, before, had);
      if mark == "" {
        ClearHistory();
        return finished;
      }
      var kept := punctuationMode.ChineseMarks? && options.smart && mark == [ascii] && KeepsAscii(ascii, before);
      r := PairUp(ascii, mark, finished, kept, now);
    }

    method ComputeMark(ascii: Ascii, before: Option<char>, had: bool) returns (mark: string)
      modifies formatter
      ensures (mark, formatter.State()) ==
        MarkFor(options, punctuationMode, width, old(formatter.State()), ascii, before, had)
    {
      hide ChineseMark, AfterMark, ToFullWidth, KeepsAscii, IsPunctuation;
      mark := "";
      if punctuationMode.ChineseMarks? && IsPunctuation(ascii) {
        if options.smart && KeepsAscii(ascii, before) {
          mark := [ascii];
        } else {
          mark := formatter.Chinese(ascii);
          if !had && width.Full? && mark == [ascii] {
            mark := ToFullWidth(ascii);
          }
        }
      } else if !had && width.Full? {
        mark := ToFullWidth(ascii);
      } else if had {
        mark := [ascii];
      }
    }

    method PairUp(ascii: Ascii, plain: string, finished: Result, kept: bool, now: int) returns (r: Result)
      modifies this`pending, this`historyActive, this`historyKey, this`historyTime
      ensures (Typing(), r) == Paired(options, punctuationMode, old(Typing()), ascii, plain, finished, kept, now)
    {
      hide PairedClosing, QuoteOpened, Remembered;
      QuotesTurned(plain, ascii);
      r := finished;
      var mark := plain;
      if options.paired && punctuationMode.ChineseMarks? {
        if ascii == '"' && mark == "”" {
          mark := "“";
        } else if ascii == '\'' && mark == "’" {
          mark := "‘";
        }
        assert mark == QuoteOpened(plain, ascii);
        var closing := PairedClosing(mark);
        if closing != "" {
          mark := mark + closing;
          r := r.(cursorLeft := 1);
          pending := pending + [closing];
        } else if pending != [] && pending[|pending| - 1] == mark {
          pending := pending[..|pending| - 1];
          ClearHistory();
          assert Typing() == Forgotten(old(Typing()).(pending := pending));
          return r.(handled := true, cursorRight := 1);
        }
      }
      r := r.(handled := true, commit := Some(if r.commit.Some? then r.commit.value + mark else mark));
      Remember(kept, ascii, now);
    }

    method Remember(kept: bool, ascii: Ascii, now: int)
      modifies this`historyActive, this`historyKey, this`historyTime
      ensures Typing() == Remembered(old(Typing()), ascii, kept, now)
    {
      if kept {
        historyActive, historyKey, historyTime := true, ascii, now;
      } else {
        ClearHistory();
      }
    }

    method CommitPunctuation(e: KeyEvent, now: int) returns (r: Result)
      requires Valid()
      modifies this, session, sequence, formatter
      ensures Valid() && Draws() && Stacked(old(pending), r, pending) && (!r.handled ==> Plain(r))
      ensures r.cursorRight > 0 ==> old(pending)[|old(pending)| - 1] == ChineseMark(old(formatter.State()), e.character)
      ensures r.deleteBefore > 0 ==> old(historyActive) && old(historyKey) == e.character
      ensures Asked([Finish(old(highlighted))]) && Punctuates(e, now, old(Typing()), r)
    {
      hide Punctuate, ChineseMark, Stacked, Closings;
      var had := HasComposition();
      var finished := FinishComposition();
      label done:
      PunctuateRespectsStack(options, punctuationMode, width, Typing(), e.character, e.preceding, now, had, finished);
      PunctuateRemembers(options, punctuationMode, width, Typing(), e.character, e.preceding, now, had, finished);
      r := EmitPunctuation(e.character, e.preceding, now, had, finished);
      assert Typing().pending == pending && Typing().active == historyActive && Typing().key == historyKey;
    }

    /** The answer that commits a key's full-width form, if there is one and the width is full. */
    function Widened(ascii: Ascii): Result
      reads this`width
    {
      if width.Full? && ToFullWidth(ascii) != "" then Result(true, Some(ToFullWidth(ascii)), 0, 0, 0) else UNHANDLED
    }

    method CommitFullWidth(ascii: Ascii) returns (r: Result)
      ensures r == Widened(ascii)
    {
      if !width.Full? { return UNHANDLED; }
      var converted := ToFullWidth(ascii);
      if converted == "" { return UNHANDLED; }
      r := Result(true, Some(converted), 0, 0, 0);
    }

    method SetPunctuationMode(m: PunctuationMode) returns (r: Result)
      requires Valid()
      modifies this`punctuationMode, this`generation, this`historyActive, this`historyKey, this`historyTime, sequence
      ensures Valid() && Draws() && punctuationMode == m
      ensures r == Result(old(punctuationMode) != m, None, 0, 0, 0)
      ensures if r.handled then generation > old(sequence.value) else generation == old(generation)
      ensures !historyActive
    {
      ClearHistory();
      if punctuationMode == m { return UNHANDLED; }
      punctuationMode := m;
      generation := sequence.Next();
      r := Result(true, None, 0, 0, 0);
    }

    method ApplyLock()
      requires Valid()
      modifies this`punctuationMode, this`generation, this`historyActive, this`historyKey, this`historyTime, sequence
      ensures Valid() && Draws() && punctuationMode == Locked(lock, mode) && !historyActive
    {
      var ignored;
      match lock {
        case LockChinese => ignored := SetPunctuationMode(ChineseMarks);
        case LockEnglish => ignored := SetPunctuationMode(EnglishMarks);
        case Follow => ignored := SetPunctuationMode(if mode.Ime? then ChineseMarks else EnglishMarks);
      }
    }

    method SetPunctuationLock(l: Lock)
      requires Valid()
      modifies this`lock, this`punctuationMode, this`generation, this`historyActive, this`historyKey, this`historyTime,
        sequence
      ensures Valid() && Draws() && lock == l && punctuationMode == Locked(l, mode) && !historyActive
    {
      lock := l;
      ApplyLock();
    }

    method SetCharacterWidth(w: Width) returns (r: Result)
      requires Valid()
      modifies this`width, this`generation, this`historyActive, this`historyKey, this`historyTime, sequence
      ensures Valid() && Draws() && width == w
      ensures r == Result(old(width) != w, None, 0, 0, 0)
      ensures if r.handled then generation > old(sequence.value) else generation == old(generation)
      ensures !historyActive
    {
      ClearHistory();
      if width == w { return UNHANDLED; }
      width := w;
      generation := sequence.Next();
      r := Result(true, None, 0, 0, 0);
    }

    /** Forget the composition's state after a call that replaced it, and draw a generation. */
    method Renew()
      requires pageSize > 0 && Closings(pending) && generation <= sequence.value && !historyActive
      requires |session.asked| == |session.answers|
      modifies this`snapshot, this`generation, this`highlighted, sequence
      ensures Valid() && sequence.value == old(sequence.value) + 1 && generation == sequence.value && highlighted == 0
    {
      snapshot := session.snapshot;
      highlighted := 0;
      generation := sequence.Next();
    }

    method SetMode(m: InputMode) returns (r: Result)
      requires Valid()
      modifies this, session, sequence
      ensures Valid() && Draws() && Plain(r) && mode == m && pending == old(pending)
      ensures width == old(width) && lock == old(lock)
      ensures old(mode) == m ==> r == UNHANDLED && Asked([]) && generation == old(generation)
      ensures old(mode) != m ==>
        && r.handled && highlighted == 0 && generation > old(sequence.value)
        && session.told == old(session.told) + [Dedicated(false)]
        && Asked(if m.Direct? then [Finish(old(highlighted))] else [])
        && r.commit == if m.Direct? then LastAnswer().commit else None
      ensures punctuationMode == (if old(mode) == m then old(punctuationMode) else Locked(lock, m)) && !historyActive
    {
      ClearHistory();
      if mode == m { return UNHANDLED; }
      r := UNHANDLED;
      if m.Direct? {
        r := FinishComposition();
      }
      session.SetDedicatedEnglish(false);
      snapshot := session.snapshot;
      mode := m;
      highlighted := 0;
      ApplyLock();
      r := r.(handled := true);
      generation := sequence.Next();
    }

    method ToggleDedicatedEnglish() returns (r: Result)
      requires Valid()
      modifies this, session, sequence
      ensures Valid() && Draws() && Plain(r) && r.handled && pending == old(pending) && mode == old(mode)
      ensures width == old(width) && punctuationMode == old(punctuationMode)
      ensures old(mode).Direct? ==> r.commit.None? && Asked([]) && session.told == old(session.told)
      ensures old(mode).Ime? ==>
        && Asked([Finish(old(highlighted))]) && r.commit == LastAnswer().commit && generation > old(sequence.value)
        && highlighted == 0 && |session.told| == |old(session.told)| + 1 && session.told[|old(session.told)|].Dedicated?
        && (!LastAnswer().handled ==> session.told[|old(session.told)|].on == !old(snapshot).english)
      ensures !historyActive
    {
      ClearHistory();
      if !mode.Ime? { return Result(true, None, 0, 0, 0); }
      r := FinishComposition();
      session.SetDedicatedEnglish(!snapshot.english);
      Renew();
      r := r.(handled := true);
    }

    method ChangeScheme(scheme: int) returns (r: Result)
      requires Valid()
      modifies this, session, sequence
      ensures Valid() && Draws() && Plain(r) && pending == old(pending)
      ensures old(snapshot).scheme == scheme && old(snapshot).localMode.NoLocal? ==>
        r == UNHANDLED && Asked([]) && session.told == old(session.told) && generation == old(generation)
      ensures !(old(snapshot).scheme == scheme && old(snapshot).localMode.NoLocal?) ==>
        && r.handled && Asked([Finish(old(highlighted))]) && r.commit == LastAnswer().commit
        && session.told == old(session.told) + [Dedicated(false), Scheme(scheme)]
        && generation > old(sequence.value) && highlighted == 0
      ensures !historyActive
    {
      ClearHistory();
      if snapshot.scheme == scheme && snapshot.localMode.NoLocal? { return UNHANDLED; }
      r := FinishComposition();
      session.SetDedicatedEnglish(false);
      session.SwitchScheme(scheme);
      Renew();
      r := r.(handled := true);
    }

    /** Nothing the controller inserted is known to be right of the caret any more. */
    method InvalidateContext()
      requires Valid()
      modifies this, sequence, formatter
      ensures Valid() && Draws() && pending == [] && formatter.State() == INITIAL && snapshot == old(snapshot)
      ensures mode == old(mode) && width == old(width) && punctuationMode == old(punctuationMode) && lock == old(lock)
      ensures generation > old(sequence.value)
      ensures !historyActive
    {
      ClearHistory();
      pending := [];
      formatter.Reset();
      generation := sequence.Next();
    }

    method Reset()
      requires Valid()
      modifies this, session, sequence, formatter
      ensures Valid() && Draws() && pending == [] && Asked([Do(Cancel)])
      ensures formatter.State() == INITIAL && !historyActive
    {
      var ignored := Ask(Do(Cancel));
      InvalidateContext();
    }

    method ApplyOnlineCandidate(g: nat, candidate: string) returns (applied: bool)
      requires Valid()
      modifies this`snapshot, this`highlighted, session
      ensures Valid() && (applied ==> g == generation)
      ensures session.offered == old(session.offered) + (if g == generation then [(candidate, applied)] else [])
      ensures snapshot == old(snapshot).(candidates := snapshot.candidates)
      ensures !applied ==> snapshot == old(snapshot) && highlighted == old(highlighted)
      ensures applied ==>
        highlighted == if old(highlighted) < |snapshot.candidates| then old(highlighted) else |snapshot.candidates| - 1
    {
      if g != generation { return false; }
      var previous := |snapshot.candidates|;
      applied := session.ApplyOnline(candidate);
      if !applied { return; }
      snapshot := session.snapshot;
      if |snapshot.candidates| != previous && snapshot.candidates != [] {
        highlighted := Least(highlighted, |snapshot.candidates| - 1);
      }
    }

    // ---------------------------------------------------------------------------------------------------- key events

    /** Paging keys of a composition, and the keys that pick one end of the highlighted word. */
    method PagingKey(c: Ascii, edges: bool) returns (taken: bool, r: Result)
      requires Valid() && HasComposition()
      modifies this`snapshot, this`generation, this`highlighted, session, sequence
      ensures Valid() && Draws() && Plain(r)
      ensures Paged(c).Some? ==>
        var count := |old(snapshot).candidates|;
        && taken && Asked([]) && r == Result(count > 0, None, 0, 0, 0)
        && highlighted == if count > 0 then Moved(old(highlighted), count, Paged(c).value, pageSize)
          else old(highlighted)
      ensures Paged(c).None? && edges && wordToCharacter && (c == '[' || c == ']') ==>
        && Asked([SelectEdge(old(highlighted), if c == '[' then FirstHan else LastHan)])
        && taken == LastAnswer().handled && (taken ==> r == LastAnswer())
      ensures Paged(c).None? && !(edges && wordToCharacter && (c == '[' || c == ']')) ==> !taken && Asked([])
      ensures !taken ==> snapshot == old(snapshot) && highlighted == old(highlighted)
    {
      if bracketPaging && (c == '[' || c == ']') {
        r := MovePage(c == ']');
        return true, r;
      }
      if edges && wordToCharacter && !bracketPaging && (c == '[' || c == ']') {
        r := Ask(SelectEdge(highlighted, if c == '[' then FirstHan else LastHan));
        if r.handled { return true, r; }
      }
      if c == '-' || c == '_' {
        r := MovePage(false);
        return true, r;
      }
      if c == '=' || c == '+' {
        r := MovePage(true);
        return true, r;
      }
      if commaPeriodPaging && (c == ',' || c == '.') {
        r := MovePage(c == '.');
        return true, r;
      }
      taken, r := false, UNHANDLED;
    }

    method ImePunctuation(e: KeyEvent, now: int) returns (r: Result)
      requires Valid() && e.key.PunctuationKey?
      modifies this, session, sequence, formatter
      ensures Valid() && Draws() && Stacked(old(pending), r, pending) && (!r.handled ==> Plain(r))
      ensures r.cursorRight > 0 ==> old(pending)[|old(pending)| - 1] == ChineseMark(old(formatter.State()), e.character)
      ensures r.deleteBefore > 0 ==> old(historyActive) && old(historyKey) == e.character
      ensures Goes(old(RouteOf(e)), e, now, old(Typing()), r)
    {
      hide ChineseMark, Closings, Punctuate, Goes, Stacked, LocalRoute;
      if !snapshot.localMode.NoLocal? {
        r := LocalPunctuation(e, now);
      } else if HasComposition() {
        r := ComposingPunctuation(e, now);
      } else {
        r := IdlePunctuation(e, now);
      }
    }

    method IdlePunctuation(e: KeyEvent, now: int) returns (r: Result)
      requires Valid() && snapshot.localMode.NoLocal? && !HasComposition()
      modifies this, session, sequence, formatter
      ensures Valid() && Draws() && Stacked(old(pending), r, pending) && (!r.handled ==> Plain(r))
      ensures r.cursorRight > 0 ==> old(pending)[|old(pending)| - 1] == ChineseMark(old(formatter.State()), e.character)
      ensures r.deleteBefore > 0 ==> old(historyActive) && old(historyKey) == e.character
      ensures Goes(old(RouteOf(e)), e, now, old(Typing()), r)
    {
      hide ChineseMark, Closings, Punctuate;
      r := CommitPunctuation(e, now);
    }

    /** Punctuation in a local mode: shifted digits select, the temporary modes page, and the session sees the rest
        first. */
    method LocalPunctuation(e: KeyEvent, now: int) returns (r: Result)
      requires Valid() && !snapshot.localMode.NoLocal?
      modifies this, session, sequence, formatter
      ensures Valid() && Draws() && Stacked(old(pending), r, pending) && (!r.handled ==> Plain(r))
      ensures r.cursorRight > 0 ==> old(pending)[|old(pending)| - 1] == ChineseMark(old(formatter.State()), e.character)
      ensures r.deleteBefore > 0 ==> old(historyActive) && old(historyKey) == e.character
      ensures Goes(old(LocalRoute(e)), e, now, old(Typing()), r)
    {
      hide ChineseMark, Closings, Punctuate, Goes, Stacked, ShiftedDigit;
      if e.shiftOnly {
        var selection := ShiftedDigit(e.character);
        if selection != 0 {
          r := SelectShifted(selection, e, now);
          return;
        }
      }
      if (snapshot.localMode.TemporaryEnglish? || snapshot.localMode.TemporaryJapanese?) && HasComposition()
         && Paged(e.character).Some? {
        r := TurnPage(e, now);
        return;
      }
      r := Refusable(Character(e.character, e.shiftOnly), e, now);
    }

    method SelectShifted(selection: nat, e: KeyEvent, ghost now: int) returns (r: Result)
      requires Valid() && selection > 0
      modifies this`snapshot, this`generation, this`highlighted, session, sequence
      ensures Valid() && Draws() && Plain(r) && Stacked(pending, r, pending)
      ensures Goes(if old(HasComposition()) && selection <= pageSize
                   then Offer(Select(old(PageStart()) + selection - 1)) else Nothing,
                   e, now, old(Typing()), r)
    {
      r := SelectPageCandidate(selection - 1);
    }

    method TurnPage(e: KeyEvent, ghost now: int) returns (r: Result)
      requires Valid() && HasComposition() && Paged(e.character).Some?
      modifies this`snapshot, this`generation, this`highlighted, session, sequence
      ensures Valid() && Draws() && Plain(r) && Stacked(pending, r, pending)
      ensures Goes(Turn(Paged(e.character).value), e, now, old(Typing()), r)
    {
      var taken;
      taken, r := PagingKey(e.character, false);
    }

    /** Offer the key to the session, and commit its mark when it is refused. */
    method Refusable(input: SessionInput, e: KeyEvent, now: int) returns (r: Result)
      requires Valid()
      modifies this, session, sequence, formatter
      ensures Valid() && Draws() && Stacked(old(pending), r, pending) && (!r.handled ==> Plain(r))
      ensures r.cursorRight > 0 ==> old(pending)[|old(pending)| - 1] == ChineseMark(old(formatter.State()), e.character)
      ensures r.deleteBefore > 0 ==> old(historyActive) && old(historyKey) == e.character
      ensures Goes(OfferFirst(input), e, now, old(Typing()), r)
    {
      hide ChineseMark, Closings, Punctuate;
      r := Ask(input);
      if r.handled { return; }
      r := CommitPunctuation(e, now);
    }

    /** Punctuation while something is composed. */
    method ComposingPunctuation(e: KeyEvent, now: int) returns (r: Result)
      requires Valid() && snapshot.localMode.NoLocal? && HasComposition()
      modifies this, session, sequence, formatter
      ensures Valid() && Draws() && Stacked(old(pending), r, pending) && (!r.handled ==> Plain(r))
      ensures r.cursorRight > 0 ==> old(pending)[|old(pending)| - 1] == ChineseMark(old(formatter.State()), e.character)
      ensures r.deleteBefore > 0 ==> old(historyActive) && old(historyKey) == e.character
      ensures Goes(old(RouteOf(e)), e, now, old(Typing()), r)
    {
      hide ChineseMark, Closings, Punctuate;
      if e.character == '\'' {
        r := Ask(Character(e.character, false));
        return;
      }
      var taken;
      taken, r := PagingKey(e.character, true);
      if taken { return; }
      r := CommitPunctuation(e, now);
    }

    method ImeDigit(e: KeyEvent) returns (taken: bool, r: Result)
      requires Valid() && e.key.DigitKey?
      modifies this`snapshot, this`generation, this`highlighted, session, sequence
      ensures Valid() && Draws() && Plain(r)
      ensures Asked(old(Routed(e))) && (old(Routed(e)) != [] ==> r == LastAnswer())
      ensures taken && old(Routed(e)) == [] ==> r == old(Unasked(e))
      ensures taken <==> old(HasComposition()) || old(Routed(e)) != []
      ensures !taken ==> !HasComposition() && r == UNHANDLED && old(Routed(e)) == []
    {
      if snapshot.localMode.Unicode? && !e.shiftOnly {
        r := Ask(Character((48 + e.digit) as char, false));
        return true, r;
      }
      if !HasComposition() { return false, UNHANDLED; }
      if e.digit < 1 || e.digit > 9 { return true, UNHANDLED; }
      if e.digit > pageSize { return true, Result(true, None, 0, 0, 0); }
      var index := PageStart() + e.digit - 1;
      if index < |snapshot.candidates| {
        r := SelectCandidate(index);
        return true, r;
      }
      return true, Result(true, None, 0, 0, 0);
    }

    /** A key that switches punctuation, width or dedicated English. */
    predicate Toggles(e: KeyEvent) {
      e.key.TogglePunctuation? || e.key.ToggleWidth? || e.key.ToggleEnglish?
    }

    /** A key that moves the highlight. */
    predicate Navigates(e: KeyEvent) {
      e.key.UpKey? || e.key.DownKey? || e.key.PageUpKey? || e.key.PageDownKey?
    }

    /** The keys an IME-mode session sees first; what it leaves falls through to the shared tail. */
    method ImeKey(e: KeyEvent, now: int) returns (taken: bool, r: Result)
      requires Valid()
      modifies this, session, sequence, formatter
      ensures Valid() && Draws() && Stacked(old(pending), r, pending) && (!r.handled ==> Plain(r))
      ensures r.cursorRight > 0 ==>
        e.key.PunctuationKey? && old(pending)[|old(pending)| - 1] == ChineseMark(old(formatter.State()), e.character)
      ensures r.deleteBefore > 0 ==> e.key.PunctuationKey? && old(historyActive) && old(historyKey) == e.character
      ensures !taken ==> Plain(r) && pending == old(pending) && formatter.State() == old(formatter.State())
                         && historyActive == old(historyActive) && historyKey == old(historyKey)
                         && !e.key.PunctuationKey?
      ensures !e.key.PunctuationKey? ==> Asked(old(Routed(e)))
      ensures !e.key.PunctuationKey? && taken && old(Routed(e)) != [] ==> r == LastAnswer()
      ensures !taken && !e.key.CharacterKey? ==> old(Routed(e)) == []
      ensures !taken ==> width == old(width) && !Navigates(e)
      ensures taken && !e.key.PunctuationKey? && old(Routed(e)) == [] ==> r == old(Unasked(e))
      ensures !taken && e.key.DigitKey? ==> !old(HasComposition())
      ensures e.key.CharacterKey? ==> taken == (LastAnswer().handled || old(HasComposition()))
      ensures Navigates(e) ==> highlighted == old(Navigated(e))
      ensures e.key.PunctuationKey? ==> Goes(old(RouteOf(e)), e, now, old(Typing()), r)
      ensures !e.key.PunctuationKey? ==> historyActive == old(historyActive)
    {
      hide ChineseMark, Closings, Punctuate;
      match e.key {
        case CharacterKey =>
          r := Ask(Character(e.character, e.shiftOnly));
          taken := r.handled || HasComposition();
        case PunctuationKey =>
          r := ImePunctuation(e, now);
          taken := true;
        case BackspaceKey =>
          r := Ask(Do(Backspace));
          taken := true;
        case EnterKey =>
          r := Ask(Do(CommitRaw));
          taken := true;
        case EscapeKey =>
          r := Ask(Do(Cancel));
          taken := true;
        case SpaceKey =>
          taken, r := HasComposition(), UNHANDLED;
          if taken { r := CommitHighlighted(); }
        case DigitKey => taken, r := ImeDigit(e);
        case UpKey =>
          r := MoveCursor(false);
          taken := true;
        case DownKey =>
          r := MoveCursor(true);
          taken := true;
        case PageUpKey =>
          r := MovePage(false);
          taken := true;
        case PageDownKey =>
          r := MovePage(true);
          taken := true;
        case _ => taken, r := false, UNHANDLED;
      }
    }

    /** Keys nothing composed: punctuation, and full-width conversion. */
    method SharedTail(e: KeyEvent, now: int) returns (r: Result)
      requires Valid()
      modifies this, session, sequence, formatter
      ensures Valid() && Draws() && Stacked(old(pending), r, pending) && (!r.handled ==> Plain(r))
      ensures r.cursorRight > 0 ==>
        e.key.PunctuationKey? && old(pending)[|old(pending)| - 1] == ChineseMark(old(formatter.State()), e.character)
      ensures r.deleteBefore > 0 ==> e.key.PunctuationKey? && old(historyActive) && old(historyKey) == e.character
      ensures !e.key.PunctuationKey? ==>
        Asked([]) && highlighted == old(highlighted) && session.answers == old(session.answers) && r == old(Tail(e))
      ensures e.key.PunctuationKey? ==> Asked([Finish(old(highlighted))]) && Punctuates(e, now, old(Typing()), r)
      ensures !e.key.PunctuationKey? ==> historyActive == old(historyActive)
    {
      hide ChineseMark, Closings, Punctuate;
      match e.key {
        case CharacterKey => r := CommitFullWidth(e.character);
        case PunctuationKey => r := CommitPunctuation(e, now);
        case SpaceKey => r := CommitFullWidth(' ');
        case DigitKey =>
          r := UNHANDLED;
          if e.digit <= 9 { r := CommitFullWidth((48 + e.digit) as char); }
        case _ => r := UNHANDLED;
      }
    }

    /** Every key keeps the controller valid, draws a fresh generation whenever the composition may have changed, and
        does to the pending stack exactly what its answer does to the text. What it asks of the session and how it
        moves the highlight is told by `RouteOf` for punctuation and by `Routed` and `Navigated` for the rest. A key
        for the host finishes the composition and clears the stack. */
    method HandleKey(e: KeyEvent, now: int) returns (r: Result)
      requires Valid()
      modifies this, session, sequence, formatter, log
      ensures log.given == old(log.given) + [Given(e, now, r)]
      ensures Valid() && Draws() && Stacked(old(pending), r, pending) && (!r.handled ==> Plain(r))
      ensures r.cursorRight > 0 ==>
        e.key.PunctuationKey? && old(pending)[|old(pending)| - 1] == ChineseMark(old(formatter.State()), e.character)
      ensures r.deleteBefore > 0 ==> e.key.PunctuationKey? && old(historyActive) && old(historyKey) == e.character
      ensures e.hostShortcut ==>
        && pending == [] && formatter.State() == INITIAL
        && Asked([Finish(old(highlighted))]) && r == LastAnswer().(handled := false)
      ensures !e.hostShortcut && !e.key.PunctuationKey? && !Toggles(e) ==>
        && Asked(if old(mode).Ime? then old(Routed(e)) else [])
        && r == (if old(mode).Direct? then old(Tail(e))
                 else if old(Routed(e)) == [] then old(Unasked(e))
                 else if e.key.CharacterKey? && !LastAnswer().handled && !old(HasComposition()) then old(Tail(e))
                 else LastAnswer())
      ensures !e.hostShortcut ==>
        && (e.key.TogglePunctuation? ==>
              r == Result(true, None, 0, 0, 0) && punctuationMode == Other(old(punctuationMode)) && Asked([]))
        && (e.key.ToggleWidth? ==>
              r == Result(true, None, 0, 0, 0) && width == (if old(width).Half? then Full else Half) && Asked([]))
        && (e.key.ToggleEnglish? ==>
              r == Result(true, if old(mode).Ime? then LastAnswer().commit else None, 0, 0, 0)
              && Asked(if old(mode).Ime? then [Finish(old(highlighted))] else []))
      ensures !e.hostShortcut && Navigates(e) ==> highlighted == if old(mode).Ime? then old(Navigated(e))
        else old(highlighted)
      ensures !e.hostShortcut && e.key.PunctuationKey? ==>
        Goes(if old(mode).Ime? then old(RouteOf(e)) else Mark, e, now, Seen(old(Typing()), e.character), r)
      ensures e.hostShortcut || !e.key.PunctuationKey? ==> !historyActive
    {
      hide ChineseMark, Closings, Punctuate, Stacked, RouteOf, Routed, Navigated;
      if !e.key.PunctuationKey? || e.character != historyKey {
        ClearHistory();
      }
      if e.hostShortcut {
        r := HostKey();
      } else {
        r := HandleSeen(e, now);
      }
      log.given := log.given + [Given(e, now, r)];
    }

    /** A key for the host. */
    method HostKey() returns (r: Result)
      requires Valid()
      modifies this, session, sequence, formatter
      ensures Valid() && Draws() && Stacked(old(pending), r, pending) && Plain(r)
      ensures pending == [] && formatter.State() == INITIAL
      ensures Asked([Finish(old(highlighted))]) && r == LastAnswer().(handled := false)
      ensures !historyActive
    {
      r := FinishComposition();
      InvalidateContext();
      r := r.(handled := false);
    }

    /** A key of this input method, after what it cannot follow up has been forgotten. */
    method HandleSeen(e: KeyEvent, now: int) returns (r: Result)
      requires Valid()
      modifies this, session, sequence, formatter
      ensures Valid() && Draws() && Stacked(old(pending), r, pending) && (!r.handled ==> Plain(r))
      ensures r.cursorRight > 0 ==>
        e.key.PunctuationKey? && old(pending)[|old(pending)| - 1] == ChineseMark(old(formatter.State()), e.character)
      ensures r.deleteBefore > 0 ==> e.key.PunctuationKey? && old(historyActive) && old(historyKey) == e.character
      ensures !e.key.PunctuationKey? && !Toggles(e) ==>
        && Asked(if old(mode).Ime? then old(Routed(e)) else [])
        && r == (if old(mode).Direct? then old(Tail(e))
                 else if old(Routed(e)) == [] then old(Unasked(e))
                 else if e.key.CharacterKey? && !LastAnswer().handled && !old(HasComposition()) then old(Tail(e))
                 else LastAnswer())
      ensures Toggles(e) ==>
        && (e.key.TogglePunctuation? ==>
              r == Result(true, None, 0, 0, 0) && punctuationMode == Other(old(punctuationMode)) && Asked([]))
        && (e.key.ToggleWidth? ==>
              r == Result(true, None, 0, 0, 0) && width == (if old(width).Half? then Full else Half) && Asked([]))
        && (e.key.ToggleEnglish? ==>
              r == Result(true, if old(mode).Ime? then LastAnswer().commit else None, 0, 0, 0)
              && Asked(if old(mode).Ime? then [Finish(old(highlighted))] else []))
      ensures Navigates(e) ==> highlighted == if old(mode).Ime? then old(Navigated(e)) else old(highlighted)
      ensures e.key.PunctuationKey? ==> Goes(if old(mode).Ime? then old(RouteOf(e)) else Mark, e, now, old(Typing()), r)
      ensures !e.key.PunctuationKey? && !old(historyActive) ==> !historyActive
    {
      hide ChineseMark, Closings, Punctuate, RouteOf;
      if e.key.TogglePunctuation? {
        r := SetPunctuationMode(if punctuationMode.ChineseMarks? then EnglishMarks else ChineseMarks);
        return;
      }
      if e.key.ToggleWidth? {
        r := SetCharacterWidth(if width.Half? then Full else Half);
        return;
      }
      if e.key.ToggleEnglish? {
        r := ToggleDedicatedEnglish();
        return;
      }
      if mode.Ime? {
        var taken;
        taken, r := ImeKey(e, now);
        if taken { return; }
      }
      r := SharedTail(e, now);
    }
  }

  lemma QuotesTurned(mark: string, ascii: Ascii)
    ensures QuoteOpened(mark, ascii) ==
            if ascii == '"' && mark == "”" then "“" else if ascii == '\'' && mark == "’" then "‘" else mark
  {
  }

  /** A mark kept as ASCII is one of the three that can be. */
  lemma PunctuateRemembers(o: Options, mode: PunctuationMode, width: Width, t: Typing, ascii: Ascii,
                           before: Option<char>, now: int, had: bool, finished: Result)
    requires t.active ==> t.key == ',' || t.key == '.' || t.key == ':'
    ensures var t' := Punctuate(o, mode, width, t, ascii, before, now, had, finished).0;
            t'.active ==> t'.key == ',' || t'.key == '.' || t'.key == ':'
  {
    hide ChineseMark, AfterMark, Emit;
    var preceding := Before(finished, before);
    EmitRemembers(o, mode, width, t, ascii, preceding, now, had, finished);
    EmitRemembers(o, mode, width, Forgotten(t).(formatter := AfterMark(t.formatter, ascii)), ascii, preceding, now,
                  had, finished);
  }

  lemma EmitRemembers(o: Options, mode: PunctuationMode, width: Width, t: Typing, ascii: Ascii, before: Option<char>,
                      now: int, had: bool, finished: Result)
    ensures var t' := Emit(o, mode, width, t, ascii, before, now, had, finished).0;
            t'.active ==> t'.key == ',' || t'.key == '.' || t'.key == ':'
  {
    hide MarkFor, PairedClosing, QuoteOpened;
  }
}
