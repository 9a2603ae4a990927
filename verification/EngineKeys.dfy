/** The engine between the client and the controller: key events, focus changes, clicks, property changes and reloads,
    each applied to the client's text. */
module EngineKeys {
  import opened Optional
  import opened TextTransform
  import opened PairedPunctuation
  import opened InputController
  import ModeToggle

  /** How a key event is dispatched once the mode-toggle tracker has seen it. */
  datatype Translation = Ignore | Forward | Dispatch(event: KeyEvent)

  /** A raw event: what the tracker sees, and what the key translates to. */
  datatype RawKey = RawKey(observed: ModeToggle.KeyEvent, translation: Translation)

  datatype Event =
    | Press(raw: RawKey, now: int)
    | FocusIn
    | FocusOut
    | ClientReset
    | Enable
    | Disable
    | Click(index: nat)
    | Navigate(event: KeyEvent, now: int)
    | ActivateMode(mode: InputMode)
    | ActivatePunctuation(marks: PunctuationMode)
    | ActivateWidth(width: Width)
    | ActivateScheme(scheme: int)
    | Reload(settings: Settings)
    | DeliverOnline(generation: nat, candidate: string)

  /** Settings with any other page size are not accepted. */
  type PageSize = n: nat | n > 0 witness 1

  /** The saved settings a controller is created from, and those the engine reads itself. */
  datatype Settings = Settings(
    mode: InputMode, lock: Lock, marks: PunctuationMode, width: Width, options: Options, pageSize: PageSize,
      brackets: bool,
    edges: bool, periods: bool, defaultMode: InputMode, bindings: ModeToggle.Bindings)

  class Engine {
    const editor: Editor
    const tracker: ModeToggle.Tracker
    const sequence: Sequence
    var controller: Controller
    var defaultMode: InputMode
    /** Whether this input method is the selected one; keys go elsewhere while it is not. */
    var enabled: bool

    /** Besides the controller's own consistency: while the engine is in use, the text right of the caret begins with
        the pending closing marks, innermost first. */
    ghost predicate Valid()
      reads this, editor, sequence, controller, controller.session
    {
      && controller.sequence == sequence && controller.Valid()
      && (enabled ==> Guarded(editor.Around(), controller.pending))
    }

    constructor (controller: Controller, editor: Editor, defaultMode: InputMode, bindings: ModeToggle.Bindings)
      requires controller.Valid() && controller.pending == []
      ensures Valid() && enabled && this.controller == controller && this.editor == editor && fresh(tracker)
    {
      this.controller, this.editor, this.sequence := controller, editor, controller.sequence;
      this.defaultMode, enabled := defaultMode, true;
      tracker := new ModeToggle.Tracker(bindings);
    }

    /** No key was given to the controller and the text is as it was. */
    twostate predicate Untouched()
      reads this, editor, controller, controller.log
    {
      editor.Around() == old(editor.Around()) && controller.log.given == old(controller.log.given)
    }

    /** The text has gained what the session's last answer commits, if anything was asked. */
    twostate predicate Finished(asked: bool)
      reads this, editor, controller, controller.session
    {
      editor.Around() == if asked then Committed(old(editor.Around()), controller.LastAnswer())
        else old(editor.Around())
    }

    /** A key for the host was given to the controller, and what that committed is in the text. */
    twostate predicate Passed()
      reads this, editor, controller, controller.log
    {
      var n := |old(controller.log.given)|;
      && old(controller) == controller && |controller.log.given| == n + 1
        && old(controller.log.given) <= controller.log.given
      && controller.log.given[n].event.hostShortcut
      && editor.Around() == Committed(old(editor.Around()), controller.log.given[n].result)
    }

    /** Exactly this key was given to the controller, with what the client reports in front of the caret. It is
        consumed if the controller handled it, and then its answer is applied to the text; otherwise only a key for
        the host follows. */
    twostate predicate Dispatched(event: KeyEvent, now: int, consumed: bool)
      reads this, editor, controller, controller.log
    {
      var n := |old(controller.log.given)|;
      && old(controller) == controller && |controller.log.given| == n + (if consumed then 1 else 2)
      && old(controller.log.given) <= controller.log.given
      && var first := controller.log.given[n];
      && first.now == now && first.event == event.(preceding := first.event.preceding)
      && (if event.key.PunctuationKey? then Reported(old(editor.Around()), first.event.preceding)
          else first.event.preceding == event.preceding)
      && first.result.handled == consumed
      && (if consumed then editor.Around() == Applied(old(editor.Around()), first.result)
          else controller.log.given[n + 1].event.hostShortcut
               && editor.Around() == Committed(old(editor.Around()), controller.log.given[n + 1].result))
    }

    /** Apply an answer to the client's text; the stack has already been changed to match. */
    method ApplyResult(r: Result, ghost before: seq<string>)
      requires enabled && controller.Valid() && controller.sequence == sequence
      requires Guarded(editor.Around(), before) && Stacked(before, r, controller.pending)
      modifies editor
      ensures Valid() && editor.Around() == Applied(old(editor.Around()), r)
    {
      ApplyKeepsGuard(editor.Around(), before, r, controller.pending);
      editor.Apply(r);
    }

    /** Before the application sees a key: the session is asked to finish, what it commits goes in front of the caret,
        and every pending mark is forgotten. */
    method CommitForPassthrough()
      requires Valid()
      modifies editor, sequence, controller, controller.session, controller.formatter, controller.log
      ensures Valid() && controller.pending == [] && Guarded(editor.Around(), []) && Passed()
      ensures controller.Asked([Finish(old(controller.highlighted))])
      ensures editor.Around() == Committed(old(editor.Around()), controller.LastAnswer())
              && editor.right == old(editor.right)
      ensures sequence.value >= old(sequence.value)
    {
      hide Applied, Stacked, Guarded;
      var r := controller.HandleKey(KeyEvent(CharacterKey, '\0', 0, true, None, false), 0);
      PlainCommits(editor.Around(), r);
      EmptyIsGuarded(Applied(editor.Around(), r));
      editor.Apply(r);
    }

    /** The other mode; leaving input-method mode commits. */
    method ToggleMode()
      requires Valid() && enabled
      modifies editor, sequence, controller, controller.session
      ensures Valid() && controller.pending == old(controller.pending) && editor.right == old(editor.right)
      ensures controller.mode == (if old(controller.mode).Ime? then Direct else Ime)
      ensures Untouched() || old(controller.mode).Ime?
      ensures Finished(old(controller.mode).Ime?) && controller.log.given == old(controller.log.given)
    {
      hide Applied, Guarded;
      var r := controller.SetMode(if controller.mode.Ime? then Direct else Ime);
      RightStays(editor.Around(), r);
      PlainCommits(editor.Around(), r);
      ApplyResult(r, old(controller.pending));
    }

    /** What the client reports in front of the caret, when it reports anything. */
    method Preceding() returns (c: Option<char>)
      ensures Reported(editor.Around(), c)
    {
      var reported: bool := *;
      c := if reported && editor.left != "" then Some(editor.left[|editor.left| - 1]) else None;
    }

    /** A dispatched key is consumed and its answer applied, or handed back with an empty stack. The text right of the
        caret stays, or gains exactly the closing mark that was pushed, or loses exactly the mark the key would have
        typed. */
    method DispatchKey(event: KeyEvent, now: int) returns (consumed: bool)
      requires Valid() && enabled
      modifies editor, sequence, controller, controller.session, controller.formatter, controller.log
      ensures Valid() && Dispatched(event, now, consumed)
      ensures !consumed ==> controller.pending == [] && editor.right == old(editor.right)
      ensures |editor.right| == |old(editor.right)| ==> editor.right == old(editor.right)
      ensures |editor.right| > |old(editor.right)| ==>
        editor.right[1..] == old(editor.right) && controller.pending == old(controller.pending) + [[editor.right[0]]]
      ensures |editor.right| < |old(editor.right)| ==>
        && event.key.PunctuationKey? && editor.right == old(editor.right)[1..]
        && [old(editor.right)[0]] == ChineseMark(old(controller.formatter.State()), event.character)
    {
      hide Applied, ChineseMark, Guarded, Stacked;
      var r := GiveKey(event, now);
      ghost var given := controller.log.given;
      if !r.handled {
        UnhandledStack(old(controller.pending), r, controller.pending);
        UnhandledKeepsGuard(editor.Around(), old(controller.pending), controller.pending);
        CommitForPassthrough();
        return false;
      }
      ApplyResult(r, old(controller.pending));
      consumed := true;
    }

    /** The key as the controller sees it, and what its answer will do to the text right of the caret. */
    method GiveKey(event: KeyEvent, now: int) returns (r: Result)
      requires Valid() && enabled
      modifies sequence, controller, controller.session, controller.formatter, controller.log
      ensures controller.Valid() && Stacked(old(controller.pending), r, controller.pending) && (!r.handled ==> Plain(r))
      ensures |controller.log.given| == |old(controller.log.given)| + 1
              && old(controller.log.given) <= controller.log.given
      ensures var first := controller.log.given[|old(controller.log.given)|];
              && first == Given(event.(preceding := first.event.preceding), now, r)
              && (if event.key.PunctuationKey? then Reported(old(editor.Around()), first.event.preceding)
                  else first.event.preceding == event.preceding)
      ensures var right := Applied(editor.Around(), r).right;
              if r.cursorRight > 0 then
                && editor.right != "" && right == editor.right[1..] && event.key.PunctuationKey?
                && [editor.right[0]] == ChineseMark(old(controller.formatter.State()), event.character)
              else if r.cursorLeft > 0 then
                right != "" && right[1..] == editor.right
                  && controller.pending == old(controller.pending) + [[right[0]]]
              else right == editor.right
    {
      hide Applied, ChineseMark, Guarded, Stacked;
      var seen := event;
      if event.key.PunctuationKey? {
        var before := Preceding();
        seen := event.(preceding := before);
      }
      r := controller.HandleKey(seen, now);
      RightEffect(editor.Around(), old(controller.pending), r, controller.pending);
    }

    /** What a raw key leads to: a change of mode, nothing, a key for the host, or a key for the controller. */
    twostate predicate Processed(raw: RawKey, now: int, consumed: bool, acts: bool)
      reads this, editor, tracker, controller, controller.session, controller.log
    {
      && tracker.State() == ModeToggle.Observed(old(tracker.State()), raw.observed)
      && if ModeToggle.Toggles(old(tracker.State()), raw.observed) then
           && consumed == tracker.chordHeld && !acts
             && controller.mode == (if old(controller.mode).Ime? then Direct else Ime)
           && Finished(old(controller.mode).Ime?) && controller.log.given == old(controller.log.given)
         else if tracker.chordHeld then consumed && !acts && Untouched()
         else match raw.translation
           case Ignore => !consumed && !acts && Untouched()
           case Forward => !consumed && acts && Passed()
           case Dispatch(event) => acts == !consumed && Dispatched(event, now, consumed)
    }

    /** `process_key_event`: whether the key is consumed, and whether the application may act on it. */
    method ProcessKey(raw: RawKey, now: int) returns (consumed: bool, acts: bool)
      requires Valid() && enabled
      modifies editor, tracker, sequence, controller, controller.session, controller.formatter, controller.log
      ensures Valid() && (acts ==> !consumed) && Processed(raw, now, consumed, acts)
      ensures acts ==> controller.pending == [] && editor.right == old(editor.right)
      ensures !consumed && !acts ==> editor.right == old(editor.right) && controller.pending == old(controller.pending)
    {
      hide Applied, Guarded, Committed, ModeToggle.Toggles, ModeToggle.Observed, Reported;
      KeepsHeld(tracker.State(), raw.observed);
      var toggled := tracker.Observe(raw.observed);
      if toggled {
        ToggleMode();
        return tracker.chordHeld, false;
      }
      if tracker.chordHeld { return true, false; }
      match raw.translation {
        case Ignore => return false, false;
        case Forward =>
          CommitForPassthrough();
          return false, true;
        case Dispatch(event) =>
          consumed := DispatchKey(event, now);
          acts := !consumed;
      }
    }

    /** An answer that moves no caret, whatever produced it. */
    method ApplyPlain(r: Result)
      requires Valid() && Plain(r)
      modifies editor
      ensures Valid() && controller.pending == old(controller.pending) && editor.right == old(editor.right)
      ensures editor.Around() == Committed(old(editor.Around()), r)
    {
      hide Applied;
      StayedPut(editor.Around(), r);
      PlainCommits(editor.Around(), r);
      editor.Apply(r);
    }

    /** Nothing is known about the text any more: forget every pending mark. */
    method Invalidated()
      requires controller.sequence == sequence && controller.Valid()
      modifies sequence, controller, controller.formatter
      ensures Valid() && controller.pending == [] && Guarded(editor.Around(), [])
      ensures controller.mode == old(controller.mode)
    {
      controller.InvalidateContext();
      EmptyIsGuarded(editor.Around());
    }

    /** `enable` starts in the default mode and forgets what came before; the text may have been changed by other input
        methods in between. */
    method Enabling()
      requires Valid()
      modifies this`enabled, editor, sequence, controller, controller.session, controller.formatter
      ensures Valid() && enabled && controller.pending == [] && controller.mode == defaultMode
      ensures Finished(old(controller.mode).Ime? && defaultMode.Direct?)
    {
      hide Applied, Guarded;
      enabled := false;
      var r := controller.SetMode(defaultMode);
      if r.handled { ApplyPlain(r); }
      Invalidated();
      enabled := true;
    }

    /** `focus_out` and `reset`: the composition is cancelled, not committed. */
    method Cancelled()
      requires Valid()
      modifies sequence, controller, controller.session, controller.formatter
      ensures Valid() && controller.pending == [] && controller.Asked([Do(Cancel)])
    {
      hide Guarded;
      controller.Reset();
      EmptyIsGuarded(editor.Around());
    }

    /** A click on the visible page asks for that candidate, and nothing else is ever asked. */
    method Clicked(index: nat)
      requires Valid()
      modifies editor, sequence, controller, controller.session
      ensures Valid() && controller.pending == old(controller.pending)
              && controller.log.given == old(controller.log.given)
      ensures if old(controller.HasComposition()) && index < controller.pageSize
              then controller.Asked([Select(old(controller.PageStart()) + index)])
                && Finished(controller.LastAnswer().handled)
              else controller.Asked([]) && Finished(false)
    {
      hide Committed, Guarded;
      var r := controller.SelectPageCandidate(index);
      if r.handled { ApplyPlain(r); }
    }

    /** The user's focus or choice of input method moves: nothing is committed to the text that is left, and nothing is
        known about the text from then on. */
    method MoveFocus(event: Event) returns (free: bool)
      requires Valid() && (event.FocusIn? || event.FocusOut? || event.ClientReset? || event.Disable?)
      modifies this`enabled, sequence, controller, controller.session, controller.formatter
      ensures Valid() && (free ==> controller.pending == [] || !enabled) && free
      ensures enabled == (old(enabled) && !event.Disable?)
      ensures event.FocusIn? || event.FocusOut? || event.ClientReset? ==> controller.pending == []
      ensures event.FocusOut? || event.ClientReset? ==> controller.Asked([Do(Cancel)])
    {
      hide Guarded;
      free := true;
      match event {
        case FocusIn =>
          controller.InvalidateContext();
          EmptyIsGuarded(editor.Around());
        case FocusOut => Cancelled();
        case ClientReset => Cancelled();
        case Disable => enabled := false;
      }
    }

    predicate IsProperty(event: Event) {
      event.ActivateMode? || event.ActivatePunctuation? || event.ActivateWidth? || event.ActivateScheme?
    }

    /** A property of the panel is activated. */
    method Activated(event: Event)
      requires Valid() && IsProperty(event)
      modifies editor, sequence, controller, controller.session
      ensures Valid()
      ensures event.ActivateMode? ==>
        controller.mode == event.mode && Finished(old(controller.mode).Ime? && event.mode.Direct?)
      ensures event.ActivatePunctuation? ==> controller.punctuationMode == event.marks && Finished(false)
      ensures event.ActivateWidth? ==> controller.width == event.width && Finished(false)
      ensures event.ActivateScheme? ==>
        Finished(!(old(controller.snapshot).scheme == event.scheme && old(controller.snapshot).localMode.NoLocal?))
    {
      hide Applied, Guarded, Committed;
      var r: Result;
      match event {
        case ActivateMode(mode) => r := controller.SetMode(mode);
        case ActivatePunctuation(marks) => r := controller.SetPunctuationMode(marks);
        case ActivateWidth(width) => r := controller.SetCharacterWidth(width);
        case ActivateScheme(scheme) => r := controller.ChangeScheme(scheme);
      }
      CommitsWhatItSays(editor.Around(), r);
      CommitsAlike(editor.Around(), r, controller.LastAnswer());
      ApplyPlain(r);
    }

    /** One event, and whether the application may now act or the user be elsewhere. What the engine itself does to the
        text is what the controller's answers say, and nothing for focus changes, resets and deliveries. */
    method Handle(event: Event) returns (free: bool)
      requires Valid()
      modifies this, editor, tracker, sequence
      modifies controller, controller.session, controller.formatter, controller.log
      ensures Valid() && (free ==> controller.pending == [] || !enabled)
      ensures controller == old(controller)
              || (event.Reload? && fresh(controller) && fresh(controller.session) && fresh(controller.formatter)
                  && fresh(controller.log))
      ensures enabled == (if event.Enable? then true else if event.Disable? then false else old(enabled))
      ensures event.Press? && old(enabled) ==> exists consumed :: Processed(event.raw, event.now, consumed, free)
      ensures (event.Press? || event.Navigate?) && !old(enabled) ==> editor.Around() == old(editor.Around()) && !free
      ensures event.Navigate? && old(enabled) ==> Navigated(event.event, event.now)
      ensures event.FocusIn? || event.FocusOut? || event.ClientReset? || event.Disable? ==>
        editor.Around() == old(editor.Around()) && free
      ensures event.FocusIn? || event.FocusOut? || event.ClientReset? ==> controller.pending == []
      ensures event.FocusOut? || event.ClientReset? ==> controller.Asked([Do(Cancel)])
      ensures event.Enable? ==>
        controller.mode == old(defaultMode) && controller.pending == []
        && Finished(old(controller.mode).Ime? && old(defaultMode).Direct?)
      ensures event.Click? ==>
        if old(controller.HasComposition()) && event.index < controller.pageSize
        then controller.Asked([Select(old(controller.PageStart()) + event.index)])
          && Finished(controller.LastAnswer().handled)
        else Finished(false)
      ensures event.ActivateMode? ==>
        controller.mode == event.mode && Finished(old(controller.mode).Ime? && event.mode.Direct?)
      ensures event.ActivatePunctuation? ==> controller.punctuationMode == event.marks && Finished(false)
      ensures event.ActivateWidth? ==> controller.width == event.width && Finished(false)
      ensures event.ActivateScheme? ==>
        Finished(!(old(controller.snapshot).scheme == event.scheme && old(controller.snapshot).localMode.NoLocal?))
      ensures event.Reload? ==>
        controller.pending == [] && controller.mode == event.settings.mode
        && editor.Around() == Committed(old(editor.Around()), old(controller).LastAnswer())
      ensures event.DeliverOnline? ==>
        editor.Around() == old(editor.Around()) && controller.pending == old(controller.pending)
    {
      hide Applied, Guarded, Committed, Dispatched, Passed, Processed, Finished, Navigated;
      free := false;
      if event.Press? {
        if enabled {
          var consumed;
          consumed, free := ProcessKey(event.raw, event.now);
        }
      } else if event.Navigate? {
        if enabled { NavigateTo(event.event, event.now); }
      } else if event.Click? {
        Clicked(event.index);
      } else if event.Enable? {
        Enabling();
      } else if IsProperty(event) {
        Activated(event);
      } else if event.Reload? {
        Rebuild(event.settings);
      } else if event.DeliverOnline? {
        var applied := controller.ApplyOnlineCandidate(event.generation, event.candidate);
      } else {
        free := MoveFocus(event);
      }
    }

    /** Exactly this key was given to the controller, and its answer is applied if it handled the key. */
    twostate predicate Navigated(key: KeyEvent, now: int)
      reads this, editor, controller, controller.log
    {
      var n := |old(controller.log.given)|;
      && old(controller) == controller && |controller.log.given| == n + 1
      && controller.log.given[n].event == key && controller.log.given[n].now == now
      && editor.Around() == if controller.log.given[n].result.handled
                            then Applied(old(editor.Around()), controller.log.given[n].result) else old(editor.Around())
    }

    /** A key from the candidate window: its answer is applied if the controller handled it. */
    method NavigateTo(key: KeyEvent, now: int)
      requires Valid() && enabled
      modifies editor, sequence, controller, controller.session, controller.formatter, controller.log
      ensures Valid() && Navigated(key, now)
    {
      hide Applied, Guarded, ChineseMark, Stacked;
      var r := controller.HandleKey(key, now);
      if r.handled {
        ApplyResult(r, old(controller.pending));
      } else {
        UnhandledStack(old(controller.pending), r, controller.pending);
        UnhandledKeepsGuard(editor.Around(), old(controller.pending), controller.pending);
      }
    }

    /** `create_controller`: the mode, then the lock, and without a lock the punctuation that was saved. */
    method CreateController(s: Settings) returns (c: Controller)
      modifies sequence
      ensures fresh(c) && fresh(c.session) && fresh(c.formatter) && fresh(c.log)
      ensures c.sequence == sequence && c.Valid() && c.pending == []
      ensures c.generation > old(sequence.value) && sequence.value >= old(sequence.value)
      ensures c.mode == s.mode && c.lock == s.lock && c.width == s.width
      ensures c.options == s.options && c.pageSize == s.pageSize && c.bracketPaging == s.brackets
              && c.wordToCharacter == s.edges && c.commaPeriodPaging == s.periods
      ensures c.punctuationMode ==
              match s.lock case LockChinese => ChineseMarks case LockEnglish => EnglishMarks case Follow => s.marks
    {
      var snapshot: Snapshot := *;
      var session := new Session(snapshot);
      c := new Controller(session, sequence, s.options, s.pageSize, s.brackets, s.edges, s.periods, s.marks, s.width);
      var ignored := c.SetMode(s.mode);
      c.SetPunctuationLock(s.lock);
      if s.lock.Follow? {
        ignored := c.SetPunctuationMode(s.marks);
      }
    }

    /** `reload_settings`: the session of the old controller is asked to finish, and a new controller starts with an
        empty stack, the saved modes and a number no other controller has had. */
    method Rebuild(s: Settings)
      requires Valid()
      modifies this, editor, tracker, sequence
      modifies controller, controller.session, controller.formatter, controller.log
      ensures Valid() && fresh(controller) && fresh(controller.session) && fresh(controller.formatter)
              && fresh(controller.log)
      ensures controller.pending == [] && controller.generation > old(sequence.value)
      ensures controller.mode == s.mode && controller.lock == s.lock && controller.width == s.width
      ensures s.lock.Follow? ==> controller.punctuationMode == s.marks
      ensures defaultMode == s.defaultMode && tracker.bindings == s.bindings && enabled == old(enabled)
      ensures editor.Around() == Committed(old(editor.Around()), old(controller).LastAnswer())
    {
      hide Committed;
      CommitForPassthrough();
      controller := CreateController(s);
      defaultMode := s.defaultMode;
      tracker.Configure(s.bindings);
      EmptyIsGuarded(editor.Around());
    }
  }

  /** What a client may say stands in front of the caret: nothing, or the character that does. */
  predicate Reported(x: Text, c: Option<char>) {
    c.Some? ==> x.left != "" && c.value == x.left[|x.left| - 1]
  }

  lemma UnhandledStack(before: seq<string>, r: Result, after: seq<string>)
    requires Stacked(before, r, after) && Plain(r)
    ensures after == before || after == []
  {
  }

  lemma CommitsWhatItSays(x: Text, r: Result)
    ensures r.commit.None? ==> Committed(x, r) == x
  {
  }

  lemma CommitsAlike(x: Text, r: Result, other: Result)
    ensures r.commit == other.commit ==> Committed(x, r) == Committed(x, other)
  {
  }

  lemma KeepsHeld(m: ModeToggle.Memory, e: ModeToggle.KeyEvent)
    ensures ModeToggle.Observed(m, e).chordHeld <==> ModeToggle.IsChord(m.bindings, e)
  {
  }

  /** The text with what an answer commits in front of the caret. */
  function Committed(x: Text, r: Result): Text {
    if r.commit.Some? then x.(left := x.left + r.commit.value) else x
  }

  lemma PlainCommits(x: Text, r: Result)
    requires Plain(r)
    ensures Applied(x, r) == Committed(x, r)
  {
    assert x.left[..|x.left|] == x.left;
  }

  lemma RightStays(x: Text, r: Result)
    requires Plain(r)
    ensures Applied(x, r).right == x.right
  {
  }

  lemma EmptyIsGuarded(x: Text)
    ensures Guarded(x, [])
  {
  }

  lemma UnhandledKeepsGuard(x: Text, before: seq<string>, after: seq<string>)
    requires Guarded(x, before) && (after == before || after == [])
    ensures Guarded(x, after)
  {
    EmptyIsGuarded(x);
  }

  /** Over every run of events, whatever the session answers and whatever the application does with the keys it gets,
      the text right of the caret begins with the pending closing marks, innermost first. */
  method MainLoop(engine: Engine, events: seq<Event>)
    requires engine.Valid()
    modifies engine, engine.editor, engine.tracker, engine.sequence
    modifies engine.controller, engine.controller.session, engine.controller.formatter, engine.controller.log
    ensures engine.Valid()
    ensures engine.enabled ==> Upcoming(engine.controller.pending) <= engine.editor.right
  {
    var i := 0;
    while i < |events|
      invariant 0 <= i <= |events| && engine.Valid()
      invariant engine.controller == old(engine.controller) || fresh(engine.controller)
      invariant engine.controller.session == old(engine.controller.session) || fresh(engine.controller.session)
      invariant engine.controller.formatter == old(engine.controller.formatter) || fresh(engine.controller.formatter)
      invariant engine.controller.log == old(engine.controller.log) || fresh(engine.controller.log)
    {
      var free := engine.Handle(events[i]);
      if free {
        engine.editor.Anything();
        EmptyIsGuarded(engine.editor.Around());
      }
      i := i + 1;
    }
  }
}
