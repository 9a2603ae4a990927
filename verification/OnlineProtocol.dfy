/** Online candidates: every input context has a controller and a service with one worker thread per source. Keys,
    submissions, worker wake-ups, timeouts, fetches and queued deliveries interleave freely; the counter that numbers
    generations belongs to the process and survives every controller. */
module OnlineProtocol {
  import opened Optional

  const MAX_SEQUENCE: nat := 0xFFFF_FFFF_FFFF_FFFF

  /** What the session would ask online providers. */
  datatype Query = Query(text: string, cloud: bool, ai: bool)

  /** The engine session of a controller. `composition` stands for everything but the candidate list. */
  datatype Session = Session(composition: string, online: Option<Query>, candidates: seq<string>)

  /** The sources that are switched on, and whether the AI provider's credential could be read. */
  datatype Settings = Settings(cloud: bool, ai: bool, credential: bool)

  datatype Request = Request(generation: nat, query: Query)
  datatype Pending = Pending(request: Request, context: string, aiEnabled: bool)
  datatype Source = Cloud | Ai
  datatype Delivery = Delivery(request: Request, candidate: string, source: Source)

  datatype Pc =
    | Waiting
    | Debouncing(deadline: nat)
    | Fetching(job: Pending)
    | Fetched(job: Pending, candidate: string)
    | Passed(job: Pending, candidate: string)
    | Gone

  /** One worker thread; `fetched` records the token of every provider call it made. */
  datatype Worker = Worker(pc: Pc, observed: nat, fetched: seq<nat>)

  /** An input context: its live controller's session and generation, its service, and the deliveries queued for it. */
  datatype Context = Context(
    alive: bool,
    settings: Settings,
    session: Session,
    generation: nat,
    debounce: nat,
    latest: Option<Pending>,
    updated: nat,
    token: nat,
    stopping: bool,
    workers: map<Source, Worker>,
    inbox: seq<Delivery>)

  datatype State = State(contexts: map<nat, Context>, sequence: nat, clock: nat)

  datatype Step =
    | Create(settings: Settings, session: Session, draws: nat, debounce: nat, sources: set<Source>)
    | Compose(session: Session, draws: nat)   // anything the session handled, a mode change, a rebuilt controller
    | Invalidate(draws: nat)                  // a new generation for the same composition
    | Ignored                                 // an input the session did not handle
    | Configure(settings: Settings)           // reloaded settings, or a credential that has been read
    | Submit(pending: Pending)
    | Clear
    | Stop
    | Finalize
    | Deliver(index: nat, accepted: bool, candidates: seq<string>)
    | Tick(now: nat)
    | Wake(source: Source)
    | Retarget(source: Source)
    | Timeout(source: Source)
    | Answer(source: Source, candidate: Option<string>)
    | CheckCancelled(source: Source)
    | Callback(source: Source, threw: bool)
    | Leave(source: Source)

  /** The request the frontend builds: the controller's own, with the sources that are switched off removed; without any
      source left it clears instead. */
  predicate Requested(c: Context, p: Pending) {
    && c.session.online.Some?
    && p.request.generation == c.generation
    && p.request.query.text == c.session.online.value.text
    && p.request.query.cloud == (c.session.online.value.cloud && c.settings.cloud)
    && p.request.query.ai == (c.session.online.value.ai && c.settings.ai && c.settings.credential)
    && p.aiEnabled == c.settings.ai && (p.request.query.cloud || p.request.query.ai)
  }

  predicate Eligible(c: Context, p: Pending, source: Source) {
    if source.Cloud? then p.request.query.cloud else Ai in c.workers && p.aiEnabled && p.request.query.ai
  }

  /** `submit` clears instead when no worker could use the request. */
  predicate Useful(c: Context, p: Pending) {
    p.request.query.text != "" && (Eligible(c, p, Cloud) || Eligible(c, p, Ai))
  }

  function Replaced(c: Context, latest: Option<Pending>, now: nat): Context {
    c.(latest := latest, updated := now, token := c.token + 1)
  }

  function SetWorker(c: Context, source: Source, w: Worker): Context {
    c.(workers := c.workers[source := w])
  }

  predicate Cancelled(c: Context, w: Worker) {
    c.stopping || c.token != w.observed
  }

  predicate Drawn(s: State, draws: nat, s': State) {
    draws >= 1 && s.sequence + draws <= MAX_SEQUENCE && s'.sequence == s.sequence + draws && s'.clock == s.clock
  }

  predicate Same(s: State, s': State) {
    s'.sequence == s.sequence && s'.clock == s.clock
  }

  /** The candidate of delivery `index` reaches the session. */
  predicate Applies(c: Context, index: nat, accepted: bool) {
    index < |c.inbox| && c.alive && accepted && c.inbox[index].request.generation == c.generation
  }

  function Without<T>(s: seq<T>, i: nat): seq<T>
    requires i < |s|
  {
    s[..i] + s[i + 1..]
  }

  /** Steps of a worker under its service's mutex, or between two lock regions. */
  predicate WorkerStep(now: nat, c: Context, step: Step, c': Context) {
    match step
    case Wake(source) =>
      && source in c.workers && c.workers[source].pc.Waiting? && !c.stopping && c.token != c.workers[source].observed
      && c' == SetWorker(c, source, c.workers[source].(pc := Debouncing(c.updated + c.debounce), observed := c.token))
    case Retarget(source) =>
      && source in c.workers && c.workers[source].pc.Debouncing? && !c.stopping && c.token != c.workers[source].observed
      && c' == SetWorker(c, source, c.workers[source].(pc := Debouncing(c.updated + c.debounce), observed := c.token))
    case Timeout(source) =>
      && source in c.workers && c.workers[source].pc.Debouncing? && !c.stopping && c.token == c.workers[source].observed
      && c.workers[source].pc.deadline <= now
      && var w := c.workers[source];
         c' == SetWorker(c, source,
           if c.latest.Some? && Eligible(c, c.latest.value, source)
           then w.(pc := Fetching(c.latest.value), fetched := w.fetched + [w.observed])
           else w.(pc := Waiting))
    case Answer(source, candidate) =>
      && source in c.workers && c.workers[source].pc.Fetching?
      && var w := c.workers[source];
         c' == SetWorker(c, source, w.(pc := if candidate.Some? then Fetched(w.pc.job, candidate.value) else Waiting))
    case CheckCancelled(source) =>
      && source in c.workers && c.workers[source].pc.Fetched?
      && var w := c.workers[source];
         c' == SetWorker(c, source, w.(pc := if Cancelled(c, w) then Waiting else Passed(w.pc.job, w.pc.candidate)))
    case Callback(source, threw) =>
      && source in c.workers && c.workers[source].pc.Passed?
      && var w := c.workers[source];
         c' == SetWorker(c, source, w.(pc := Waiting)).(
                 inbox := if threw then c.inbox else c.inbox + [Delivery(w.pc.job.request, w.pc.candidate, source)])
    case Leave(source) =>
      && source in c.workers && (c.workers[source].pc.Waiting? || c.workers[source].pc.Debouncing?) && c.stopping
      && c' == SetWorker(c, source, c.workers[source].(pc := Gone))
    case _ => false
  }

  /** Steps of the main loop on one context that draw no generation. */
  predicate MainStep(now: nat, c: Context, step: Step, c': Context) {
    match step
    case Ignored => c' == c
    case Configure(settings) => c' == c.(settings := settings)
    case Submit(p) =>
      && c.alive && Requested(c, p)
      && c' == if c.stopping then c else Replaced(c, if Useful(c, p) then Some(p) else None, now)
    case Clear => c.alive && c' == if c.stopping then c else Replaced(c, None, now)
    case Stop => c' == if c.stopping then c else c.(stopping := true, token := c.token + 1)
    case Finalize => c.stopping && c' == c.(alive := false)
    case Deliver(index, accepted, candidates) =>
      && index < |c.inbox|
      && c' == c.(inbox := Without(c.inbox, index),
                  session := if Applies(c, index, accepted) then c.session.(candidates := candidates) else c.session)
    case _ => false
  }

  predicate Fresh(settings: Settings, session: Session, debounce: nat, sources: set<Source>, sequence: nat,
                  c: Context) {
    && c == Context(true, settings, session, sequence, debounce, None, 0, 0, false, c.workers, [])
    && c.workers == (map source | source in sources :: Worker(Waiting, 0, []))
  }

  predicate Next(s: State, id: nat, step: Step, s': State) {
    match step
    case Create(settings, session, draws, debounce, sources) =>
      && id !in s.contexts && Cloud in sources && Drawn(s, draws, s')
      && s'.contexts.Keys == s.contexts.Keys + {id} && s'.contexts == s.contexts[id := s'.contexts[id]]
      && Fresh(settings, session, debounce, sources, s'.sequence, s'.contexts[id])
    case Compose(session, draws) =>
      && id in s.contexts && s.contexts[id].alive && Drawn(s, draws, s')
      && s'.contexts == s.contexts[id := s.contexts[id].(session := session, generation := s'.sequence)]
    case Invalidate(draws) =>
      && id in s.contexts && s.contexts[id].alive && Drawn(s, draws, s')
      && s'.contexts == s.contexts[id := s.contexts[id].(generation := s'.sequence)]
    case Tick(now) => now >= s.clock && s' == s.(clock := now)
    case _ =>
      && id in s.contexts && Same(s, s') && id in s'.contexts
      && s'.contexts == s.contexts[id := s'.contexts[id]]
      && (MainStep(s.clock, s.contexts[id], step, s'.contexts[id])
          || WorkerStep(s.clock, s.contexts[id], step, s'.contexts[id]))
  }

  datatype Event = Event(id: nat, step: Step)

  /** A run from a process with no contexts: `events[i]` leads from `run[i]` to `run[i + 1]`. */
  predicate Behavior(run: seq<State>, events: seq<Event>) {
    && |run| == |events| + 1 && run[0].contexts == map[]
    && forall i :: 0 <= i < |events| ==> Next(run[i], events[i].id, events[i].step, run[i + 1])
  }

  // ------------------------------------------------------------------------------------------------------ generations

  predicate GenerationsInv(s: State) {
    && (forall c :: c in s.contexts ==> s.contexts[c].generation <= s.sequence)
    && (forall c, d :: c in s.contexts && d in s.contexts && c != d ==>
          s.contexts[c].generation != s.contexts[d].generation)
  }

  lemma NextKeepsGenerations(s: State, id: nat, step: Step, s': State)
    requires GenerationsInv(s) && Next(s, id, step, s')
    ensures GenerationsInv(s') && s.sequence <= s'.sequence
  {
    hide WorkerStep, MainStep;
    if Works(s, id, step, s') {
      ContextKeepsGeneration(s.clock, s.contexts[id], step, s'.contexts[id]);
    }
  }

  /** A step that goes to one context and draws nothing. */
  predicate Works(s: State, id: nat, step: Step, s': State) {
    && Next(s, id, step, s') && !step.Create? && !step.Compose? && !step.Invalidate? && !step.Tick?
  }

  lemma ContextKeepsGeneration(now: nat, c: Context, step: Step, c': Context)
    requires MainStep(now, c, step, c') || WorkerStep(now, c, step, c')
    ensures c'.generation == c.generation
    ensures c'.session.composition == c.session.composition && c'.session.online == c.session.online
  {
  }

  lemma {:induction false} GenerationsHold(run: seq<State>, events: seq<Event>, i: nat)
    requires Behavior(run, events) && i < |run|
    ensures GenerationsInv(run[i])
  {
    if i > 0 {
      GenerationsHold(run, events, i - 1);
      NextKeepsGenerations(run[i - 1], events[i - 1].id, events[i - 1].step, run[i]);
    }
  }

  /** A step either leaves a context's generation and composition alone, or draws a generation nobody had. */
  lemma StepDrawsOrKeeps(s: State, id: nat, step: Step, s': State, c: nat)
    requires Next(s, id, step, s') && c in s'.contexts
    ensures s'.contexts[c].generation > s.sequence ||
      (c in s.contexts && s'.contexts[c].generation == s.contexts[c].generation
       && s'.contexts[c].session.composition == s.contexts[c].session.composition
       && s'.contexts[c].session.online == s.contexts[c].session.online)
    ensures s.sequence <= s'.sequence
  {
    hide WorkerStep, MainStep;
    if c == id && Works(s, id, step, s') {
      ContextKeepsGeneration(s.clock, s.contexts[id], step, s'.contexts[id]);
    }
  }

  /** A generation is never used again: two states that show the same one show the same context with the same
      composition and the same query, whatever was rebuilt in between. */
  lemma {:induction false} GenerationNamesOneComposition(run: seq<State>, events: seq<Event>, i: nat, j: nat, c: nat,
                                                         d: nat)
    requires Behavior(run, events) && i <= j < |run| && c in run[i].contexts && d in run[j].contexts
    requires run[i].contexts[c].generation == run[j].contexts[d].generation
    ensures c == d
    ensures run[i].contexts[c].session.composition == run[j].contexts[d].session.composition
    ensures run[i].contexts[c].session.online == run[j].contexts[d].session.online
    ensures forall k :: i <= k <= j ==>
      c in run[k].contexts && run[k].contexts[c].generation == run[i].contexts[c].generation
    decreases j - i
  {
    hide Next;
    GenerationsHold(run, events, i);
    if i < j {
      SequenceGrows(run, events, i, j - 1);
      assert Next(run[j - 1], events[j - 1].id, events[j - 1].step, run[j - 1 + 1]);
      StepDrawsOrKeeps(run[j - 1], events[j - 1].id, events[j - 1].step, run[j], d);
      GenerationNamesOneComposition(run, events, i, j - 1, c, d);
    }
  }

  lemma {:induction false} SequenceGrows(run: seq<State>, events: seq<Event>, i: nat, j: nat)
    requires Behavior(run, events) && i <= j < |run|
    ensures run[i].sequence <= run[j].sequence
    decreases j - i
  {
    hide Next;
    if i < j {
      SequenceGrows(run, events, i, j - 1);
      assert Next(run[j - 1], events[j - 1].id, events[j - 1].step, run[j - 1 + 1]);
      SequenceOnlyGrows(run[j - 1], events[j - 1].id, events[j - 1].step, run[j]);
    }
  }

  lemma SequenceOnlyGrows(s: State, id: nat, step: Step, s': State)
    requires Next(s, id, step, s')
    ensures s.sequence <= s'.sequence
  {
  }

  // ------------------------------------------------------------------------------------------- where answers come from

  function JobOf(w: Worker): Option<Pending> {
    match w.pc
    case Fetching(job) => Some(job)
    case Fetched(job, _) => Some(job)
    case Passed(job, _) => Some(job)
    case _ => None
  }

  /** Request `r` is somewhere in context `c`: waiting, being fetched, or answered and queued. */
  predicate Holds(c: Context, r: Request) {
    || (c.latest.Some? && c.latest.value.request == r)
    || (exists source ::
        source in c.workers && JobOf(c.workers[source]).Some? && JobOf(c.workers[source]).value.request == r)
    || (exists d :: d in c.inbox && d.request == r)
  }

  /** Event `j` submitted `r` for context `c`. */
  predicate SubmittedAt(run: seq<State>, events: seq<Event>, j: nat, c: nat, r: Request)
    requires |run| == |events| + 1
  {
    && j < |events| && events[j].id == c && events[j].step.Submit? && events[j].step.pending.request == r
    && c in run[j].contexts && Requested(run[j].contexts[c], events[j].step.pending)
  }

  lemma WorkerStepHolds(now: nat, c: Context, step: Step, c': Context, r: Request)
    requires WorkerStep(now, c, step, c') && Holds(c', r)
    ensures Holds(c, r)
  {
    if exists d :: d in c'.inbox && d.request == r {
      var d :| d in c'.inbox && d.request == r;
      if d !in c.inbox {
        assert step.Callback?;
        assert JobOf(c.workers[step.source]).value.request == r;
      }
    } else if exists source ::
      source in c'.workers && JobOf(c'.workers[source]).Some? && JobOf(c'.workers[source]).value.request == r {
      var source :| source in c'.workers && JobOf(c'.workers[source]).Some?
        && JobOf(c'.workers[source]).value.request == r;
      assert JobOf(c'.workers[source]) == JobOf(c.workers[source]) || JobOf(c'.workers[source]) == c.latest;
    }
  }

  lemma MainStepHolds(now: nat, c: Context, step: Step, c': Context, r: Request)
    requires MainStep(now, c, step, c') && Holds(c', r)
    ensures Holds(c, r) || (step.Submit? && step.pending.request == r && Requested(c, step.pending))
  {
    if exists d :: d in c'.inbox && d.request == r {
      var d :| d in c'.inbox && d.request == r;
      assert d in c.inbox;
    }
  }

  lemma StepHolds(s: State, id: nat, step: Step, s': State, c: nat, r: Request)
    requires Next(s, id, step, s') && c in s'.contexts && Holds(s'.contexts[c], r)
    ensures (c in s.contexts && Holds(s.contexts[c], r))
            || (id == c && step.Submit? && step.pending.request == r && c in s.contexts
                && Requested(s.contexts[c], step.pending))
  {
    hide WorkerStep, MainStep;
    match step {
      case Create(_, _, _, _, _) =>
      case Compose(_, _) => assert c in s.contexts;
      case Invalidate(_) => assert c in s.contexts;
      case Tick(_) =>
      case _ =>
        if c == id {
          if MainStep(s.clock, s.contexts[id], step, s'.contexts[id]) {
            MainStepHolds(s.clock, s.contexts[id], step, s'.contexts[id], r);
          } else {
            WorkerStepHolds(s.clock, s.contexts[id], step, s'.contexts[id], r);
          }
        }
    }
  }

  /** Every request anywhere in the system was submitted by its own context, for the controller it had then. */
  lemma {:induction false} EveryRequestWasSubmitted(run: seq<State>, events: seq<Event>, i: nat, c: nat, r: Request)
    returns (j: nat)
    requires Behavior(run, events) && i < |run| && c in run[i].contexts && Holds(run[i].contexts[c], r)
    ensures j < i && SubmittedAt(run, events, j, c, r)
  {
    hide Next, Holds, Requested;
    assert i > 0;
    assert Next(run[i - 1], events[i - 1].id, events[i - 1].step, run[i - 1 + 1]);
    StepHolds(run[i - 1], events[i - 1].id, events[i - 1].step, run[i], c, r);
    if c in run[i - 1].contexts && Holds(run[i - 1].contexts[c], r) {
      j := EveryRequestWasSubmitted(run, events, i - 1, c, r);
    } else {
      j := i - 1;
    }
  }

  /** A candidate that is applied was fetched for a request its own context submitted, and since that submission the
      live controller, its composition and its query have not changed: it answers what is on the screen now. */
  lemma AppliedCandidateIsCurrent(run: seq<State>, events: seq<Event>, i: nat) returns (j: nat)
    requires Behavior(run, events) && i < |events| && events[i].step.Deliver?
    requires events[i].id in run[i].contexts && events[i].id in run[i + 1].contexts
    requires run[i + 1].contexts[events[i].id].session != run[i].contexts[events[i].id].session
    ensures events[i].step.index < |run[i].contexts[events[i].id].inbox|
    ensures var c := events[i].id;
            var now := run[i].contexts[c];
            var answered := now.inbox[events[i].step.index].request;
            && j < i && SubmittedAt(run, events, j, c, answered)
            && (forall k :: j <= k <= i ==> c in run[k].contexts && run[k].contexts[c].generation == now.generation)
            && run[j].contexts[c].session.composition == now.session.composition
            && now.session.online.Some? && answered.query.text == now.session.online.value.text
  {
    hide Next;
    var c := events[i].id;
    DeliveredIffCurrent(run[i], c, events[i].step.index, events[i].step.accepted, events[i].step.candidates,
                        run[i + 1]);
    var d := run[i].contexts[c].inbox[events[i].step.index];
    assert d in run[i].contexts[c].inbox;
    j := EveryRequestWasSubmitted(run, events, i, c, d.request);
    GenerationNamesOneComposition(run, events, j, i, c, c);
  }

  // ---------------------------------------------------------------------------------------------------------- workers

  predicate Rising(s: seq<nat>) {
    forall i, j :: 0 <= i < j < |s| ==> s[i] < s[j]
  }

  predicate Below(s: seq<nat>, bound: nat) {
    forall t :: t in s ==> t < bound
  }

  predicate WorkerInv(c: Context, w: Worker, source: Source) {
    && w.observed <= c.token && Rising(w.fetched) && Below(w.fetched, w.observed + 1)
    && (w.pc.Debouncing? ==> Below(w.fetched, w.observed))
    && (w.pc.Debouncing? && w.observed == c.token && !c.stopping ==> w.pc.deadline == c.updated + c.debounce)
    && (w.pc.Waiting? && w.observed == c.token && !c.stopping && c.latest.Some?
        && Eligible(c, c.latest.value, source) ==>
          |w.fetched| > 0 && w.fetched[|w.fetched| - 1] == w.observed)
    && (JobOf(w).Some? ==> |w.fetched| > 0 && w.fetched[|w.fetched| - 1] == w.observed)
    && (JobOf(w).Some? && w.observed == c.token ==> c.latest == JobOf(w))
    && (w.pc.Gone? ==> c.stopping)
  }

  predicate ContextInv(c: Context) {
    forall source :: source in c.workers ==> WorkerInv(c, c.workers[source], source)
  }

  lemma RisingSnoc(s: seq<nat>, t: nat)
    requires Rising(s) && Below(s, t)
    ensures Rising(s + [t]) && Below(s + [t], t + 1)
  {
    forall i, j | 0 <= i < j < |s + [t]| ensures (s + [t])[i] < (s + [t])[j] {
      if j == |s| { assert s[i] in s; }
    }
  }

  /** The worker that takes a step keeps its own invariant. */
  lemma OwnStepKeeps(now: nat, c: Context, step: Step, c': Context)
    requires ContextInv(c) && WorkerStep(now, c, step, c')
    ensures step.source in c.workers && step.source in c'.workers
    ensures WorkerInv(c', c'.workers[step.source], step.source)
  {
    var source := step.source;
    var w := c.workers[source];
    assert WorkerInv(c, w, source);
    if step.Timeout? {
      hide Rising, Below;
      RisingSnoc(w.fetched, w.observed);
      LastOf(w.fetched, w.observed);
    }
  }

  lemma LastOf(s: seq<nat>, t: nat)
    ensures (s + [t])[|s + [t]| - 1] == t
  {
  }

  /** A step of one worker leaves the service as the others see it. */
  lemma WorkerStepFrame(now: nat, c: Context, step: Step, c': Context)
    requires WorkerStep(now, c, step, c')
    ensures step.Wake? || step.Retarget? || step.Timeout? || step.Answer? || step.CheckCancelled? || step.Callback?
            || step.Leave?
    ensures c'.latest == c.latest && c'.token == c.token && c'.updated == c.updated && c'.debounce == c.debounce
    ensures c'.stopping == c.stopping && c'.workers.Keys == c.workers.Keys
    ensures forall x :: x in c.workers && x != step.source ==> c'.workers[x] == c.workers[x]
  {
  }

  lemma WorkerStepKeeps(now: nat, c: Context, step: Step, c': Context)
    requires ContextInv(c) && WorkerStep(now, c, step, c')
    ensures ContextInv(c')
  {
    hide WorkerStep, Rising, Below;
    WorkerStepFrame(now, c, step, c');
    OwnStepKeeps(now, c, step, c');
    forall x | x in c'.workers ensures WorkerInv(c', c'.workers[x], x) {
      if x != step.source {
        assert WorkerInv(c, c.workers[x], x);
      }
    }
  }

  lemma MainStepKeeps(now: nat, c: Context, step: Step, c': Context)
    requires ContextInv(c) && MainStep(now, c, step, c')
    ensures ContextInv(c')
  {
    forall x | x in c'.workers ensures WorkerInv(c', c'.workers[x], x) {
      assert WorkerInv(c, c.workers[x], x);
    }
  }

  lemma {:induction false} ContextsHold(run: seq<State>, events: seq<Event>, i: nat, c: nat)
    requires Behavior(run, events) && i < |run| && c in run[i].contexts
    ensures ContextInv(run[i].contexts[c])
  {
    hide WorkerStep, MainStep, WorkerInv;
    assert i > 0;
    var s, s', id, step := run[i - 1], run[i], events[i - 1].id, events[i - 1].step;
    assert Next(s, id, step, run[i - 1 + 1]);
    if c in s.contexts {
      ContextsHold(run, events, i - 1, c);
    }
    NextKeepsContext(s, id, step, s', c);
  }

  lemma NextKeepsContext(s: State, id: nat, step: Step, s': State, c: nat)
    requires Next(s, id, step, s') && c in s'.contexts && (c in s.contexts ==> ContextInv(s.contexts[c]))
    ensures ContextInv(s'.contexts[c])
  {
    hide WorkerStep, MainStep;
    if c == id && c in s.contexts && !step.Compose? && !step.Invalidate? && !step.Tick? {
      if MainStep(s.clock, s.contexts[id], step, s'.contexts[id]) {
        MainStepKeeps(s.clock, s.contexts[id], step, s'.contexts[id]);
      } else {
        WorkerStepKeeps(s.clock, s.contexts[id], step, s'.contexts[id]);
      }
    } else if c in s.contexts {
      forall x | x in s'.contexts[c].workers ensures WorkerInv(s'.contexts[c], s'.contexts[c].workers[x], x) {
        assert WorkerInv(s.contexts[c], s.contexts[c].workers[x], x);
      }
    }
  }

  predicate Fetches(run: seq<State>, events: seq<Event>, i: nat, c: nat, source: Source)
    requires |run| == |events| + 1
  {
    && i < |events| && events[i] == Event(c, Timeout(source))
    && c in run[i].contexts && source in run[i].contexts[c].workers
    && c in run[i + 1].contexts && source in run[i + 1].contexts[c].workers
      && run[i + 1].contexts[c].workers[source].pc.Fetching?
  }

  lemma StepKeepsLog(s: State, id: nat, step: Step, s': State, c: nat, source: Source)
    requires Next(s, id, step, s') && c in s.contexts && source in s.contexts[c].workers
    ensures c in s'.contexts && source in s'.contexts[c].workers
    ensures s.contexts[c].workers[source].fetched <= s'.contexts[c].workers[source].fetched
  {
    hide WorkerStep, MainStep;
    if c == id && !step.Create? && !step.Compose? && !step.Invalidate? && !step.Tick? {
      ContextKeepsLog(s.clock, s.contexts[id], step, s'.contexts[id], source);
    }
  }

  lemma ContextKeepsLog(now: nat, c: Context, step: Step, c': Context, source: Source)
    requires source in c.workers && (MainStep(now, c, step, c') || WorkerStep(now, c, step, c'))
    ensures source in c'.workers && c.workers[source].fetched <= c'.workers[source].fetched
  {
  }

  lemma {:induction false} LogGrows(run: seq<State>, events: seq<Event>, i: nat, j: nat, c: nat, source: Source)
    requires Behavior(run, events) && i <= j < |run| && c in run[i].contexts && source in run[i].contexts[c].workers
    ensures c in run[j].contexts && source in run[j].contexts[c].workers
    ensures run[i].contexts[c].workers[source].fetched <= run[j].contexts[c].workers[source].fetched
    decreases j - i
  {
    hide Next;
    if i < j {
      LogGrows(run, events, i, j - 1, c, source);
      assert Next(run[j - 1], events[j - 1].id, events[j - 1].step, run[j - 1 + 1]);
      StepKeepsLog(run[j - 1], events[j - 1].id, events[j - 1].step, run[j], c, source);
    }
  }

  lemma FetchIsLogged(run: seq<State>, events: seq<Event>, i: nat, c: nat, source: Source)
    requires Behavior(run, events) && Fetches(run, events, i, c, source)
    ensures run[i + 1].contexts[c].workers[source].fetched ==
            run[i].contexts[c].workers[source].fetched + [run[i].contexts[c].token]
    ensures run[i].contexts[c].workers[source].pc.Debouncing?
    ensures run[i].contexts[c].workers[source].observed == run[i].contexts[c].token
  {
  }

  /** A worker calls its provider at most once per token: of any two of its calls the later one serves a later token. */
  lemma FetchesOncePerToken(run: seq<State>, events: seq<Event>, i: nat, j: nat, c: nat, source: Source)
    requires Behavior(run, events) && i < j
    requires Fetches(run, events, i, c, source) && Fetches(run, events, j, c, source)
    ensures run[i].contexts[c].token < run[j].contexts[c].token
  {
    FetchIsLogged(run, events, i, c, source);
    FetchIsLogged(run, events, j, c, source);
    LogGrows(run, events, i + 1, j, c, source);
    ContextsHold(run, events, j, c);
    var log := run[j].contexts[c].workers[source].fetched;
    var early := run[i].contexts[c].workers[source].fetched;
    assert log[|early|] == run[i].contexts[c].token && log[|early|] in log;
    assert WorkerInv(run[j].contexts[c], run[j].contexts[c].workers[source], source);
  }

  /** A call starts only for the request that is the latest now, and only after it has stood for the whole debounce. */
  lemma FetchIsDebounced(run: seq<State>, events: seq<Event>, i: nat)
    requires Behavior(run, events) && i < |events| && events[i].step.Timeout?
    requires run[i + 1].contexts[events[i].id].workers[events[i].step.source].pc.Fetching?
    ensures var c, w := run[i].contexts[events[i].id], run[i + 1].contexts[events[i].id].workers[events[i].step.source];
            && run[i].clock >= c.updated + c.debounce
            && c.latest == Some(w.pc.job) && !c.stopping && w.observed == c.token
            && Eligible(c, w.pc.job, events[i].step.source)
            && (events[i].step.source.Cloud? ==> w.pc.job.request.query.cloud)
            && (events[i].step.source.Ai? ==> w.pc.job.aiEnabled && w.pc.job.request.query.ai)
  {
    ContextsHold(run, events, i, events[i].id);
    assert WorkerInv(run[i].contexts[events[i].id], run[i].contexts[events[i].id].workers[events[i].step.source],
                     events[i].step.source);
  }

  lemma StepKeepsLatest(s: State, id: nat, step: Step, s': State, c: nat)
    requires Next(s, id, step, s') && c in s'.contexts && s'.contexts[c].latest.Some? && !s'.contexts[c].stopping
    ensures c in s.contexts && !s.contexts[c].stopping
    ensures if id == c && step.Submit?
            then s'.contexts[c].latest == Some(step.pending) && Requested(s.contexts[c], step.pending)
            else s.contexts[c].latest == s'.contexts[c].latest && !(id == c && step.Clear?)
  {
    hide WorkerStep, Requested;
    if c == id && Works(s, id, step, s') && WorkerStep(s.clock, s.contexts[id], step, s'.contexts[id]) {
      WorkerStepFrame(s.clock, s.contexts[id], step, s'.contexts[id]);
    }
  }

  /** What a running service holds as its latest request is the last thing its frontend said to it. */
  lemma {:induction false} LatestIsLastWord(run: seq<State>, events: seq<Event>, i: nat, id: nat) returns (j: nat)
    requires Behavior(run, events) && i < |run| && id in run[i].contexts
    requires run[i].contexts[id].latest.Some? && !run[i].contexts[id].stopping
    ensures j < i && events[j] == Event(id, Submit(run[i].contexts[id].latest.value))
    ensures id in run[j].contexts && Requested(run[j].contexts[id], run[i].contexts[id].latest.value)
    ensures forall k :: j < k < i && events[k].id == id ==> !events[k].step.Submit? && !events[k].step.Clear?
  {
    hide Next, Requested;
    assert i > 0;
    assert Next(run[i - 1], events[i - 1].id, events[i - 1].step, run[i - 1 + 1]);
    StepKeepsLatest(run[i - 1], events[i - 1].id, events[i - 1].step, run[i], id);
    j := i - 1;
    if events[j].id != id || !events[j].step.Submit? {
      j := LatestIsLastWord(run, events, i - 1, id);
    }
  }

  /** A source is called only for the last thing the frontend said, which the controller wanted while the source was
      switched on, with its credential at hand where it needs one. */
  lemma FetchWasSwitchedOn(run: seq<State>, events: seq<Event>, i: nat) returns (j: nat)
    requires Behavior(run, events) && i < |events| && events[i].step.Timeout?
    requires run[i + 1].contexts[events[i].id].workers[events[i].step.source].pc.Fetching?
    ensures var id, source := events[i].id, events[i].step.source;
            var job := run[i + 1].contexts[id].workers[source].pc.job;
            && j < i && events[j] == Event(id, Submit(job)) && SubmittedAt(run, events, j, id, job.request)
            && (forall k :: j < k < i && events[k].id == id ==> !events[k].step.Submit? && !events[k].step.Clear?)
            && var c := run[j].contexts[id];
               c.session.online.Some? && job.request.query.text == c.session.online.value.text
               && (source.Cloud? ==> c.settings.cloud && c.session.online.value.cloud)
               && (source.Ai? ==> c.settings.ai && c.settings.credential && c.session.online.value.ai)
  {
    hide WorkerStep, MainStep;
    FetchIsDebounced(run, events, i);
    j := LatestIsLastWord(run, events, i, events[i].id);
  }

  /** When the debounce of the latest request is over, the worker of every source it is eligible for calls its
      provider, and no other does. */
  lemma DueTimeoutFetches(s: State, id: nat, source: Source, s': State)
    requires Next(s, id, Timeout(source), s')
    ensures id in s.contexts && source in s.contexts[id].workers && id in s'.contexts
            && source in s'.contexts[id].workers
    ensures var c, w := s.contexts[id], s'.contexts[id].workers[source];
            var wanted := c.latest.Some? && match source
              case Cloud => c.latest.value.request.query.cloud
              case Ai => c.latest.value.aiEnabled && c.latest.value.request.query.ai && Ai in c.workers;
            if wanted then w.pc == Fetching(c.latest.value) else w.pc.Waiting?
  {
  }

  /** Submitting replaces the latest request under a new token if some worker can use it, and drops it otherwise; a
      stopped service ignores it. */
  lemma SubmitIsLatest(s: State, id: nat, p: Pending, s': State)
    requires Next(s, id, Submit(p), s')
    ensures id in s.contexts && id in s'.contexts
    ensures var c, c' := s.contexts[id], s'.contexts[id];
            var usable := p.request.query.text != ""
                          && (p.request.query.cloud || (Ai in c.workers && p.aiEnabled && p.request.query.ai));
            if c.stopping then c' == c
            else c'.latest == (if usable then Some(p) else None) && c'.token == c.token + 1 && c'.updated == s.clock
  {
  }

  /** Nothing is forgotten: a worker that waits without anything new to look at has called its provider for the latest
      request, if that wants its source. */
  lemma WaitingHasServed(run: seq<State>, events: seq<Event>, i: nat, id: nat, source: Source)
    requires Behavior(run, events) && i < |run| && id in run[i].contexts && source in run[i].contexts[id].workers
    requires var c := run[i].contexts[id];
             var w := c.workers[source];
             w.pc.Waiting? && w.observed == c.token && !c.stopping && c.latest.Some?
             && (if source.Cloud? then c.latest.value.request.query.cloud
                 else c.latest.value.aiEnabled && c.latest.value.request.query.ai)
    ensures run[i].contexts[id].token in run[i].contexts[id].workers[source].fetched
  {
    ContextsHold(run, events, i, id);
    assert WorkerInv(run[i].contexts[id], run[i].contexts[id].workers[source], source);
  }

  /** Steps from `run[0]` on, whatever happened before. */
  predicate Moves(run: seq<State>, events: seq<Event>) {
    |run| == |events| + 1 && forall i :: 0 <= i < |events| ==> Next(run[i], events[i].id, events[i].step, run[i + 1])
  }

  /** Time passes, this worker goes on, or the main loop delivers to its context. */
  predicate Serving(e: Event, id: nat, source: Source) {
    e.step.Tick? || (e.id == id && (e.step.Deliver? || (WorkerOf(e.step) == Some(source) && !e.step.Leave?)))
  }

  function WorkerOf(step: Step): Option<Source> {
    match step
    case Wake(source) => Some(source)
    case Retarget(source) => Some(source)
    case Timeout(source) => Some(source)
    case Answer(source, _) => Some(source)
    case CheckCancelled(source) => Some(source)
    case Callback(source, _) => Some(source)
    case Leave(source) => Some(source)
    case _ => None
  }

  /** The latest request still stands, wants this source, and the source's worker is not done with it. */
  predicate Outstanding(c: Context, source: Source) {
    && c.alive && !c.stopping && c.latest.Some? && Eligible(c, c.latest.value, source)
    && c.latest.value.request.generation == c.generation
    && source in c.workers && (c.workers[source].pc.Waiting? ==> c.workers[source].observed != c.token)
  }

  /** How many moves are left until the answer of the latest request is queued. */
  function Remaining(c: Context, w: Worker, now: nat): nat {
    if w.observed != c.token then (if w.pc.Waiting? then 7 else 8) else
    match w.pc
    case Debouncing(deadline) => if deadline > now then 6 else 5
    case Fetching(_) => 4
    case Fetched(_, _) => 3
    case _ => 2
  }

  /** The next move towards the answer; it changes the worker alone, until its answer is queued. */
  lemma ServingStep(s: State, id: nat, source: Source) returns (e: Event, s': State)
    requires id in s.contexts && Outstanding(s.contexts[id], source)
    requires WorkerInv(s.contexts[id], s.contexts[id].workers[source], source)
    ensures Next(s, e.id, e.step, s') && Serving(e, id, source) && id in s'.contexts
    ensures var c, c' := s.contexts[id], s'.contexts[id];
            if c'.inbox == c.inbox then
              && source in c'.workers && c' == SetWorker(c, source, c'.workers[source])
              && Outstanding(c', source) && WorkerInv(c', c'.workers[source], source)
              && Remaining(c', c'.workers[source], s'.clock) < Remaining(c, c.workers[source], s.clock)
            else
              && |c'.inbox| == |c.inbox| + 1 && c'.inbox[|c.inbox|].request == c.latest.value.request
              && c'.alive && c'.generation == c.generation && c'.session == c.session
  {
    var c := s.contexts[id];
    var w := c.workers[source];
    var idle := w.(pc := Waiting);
    var step, next, now := Wake(source), w, s.clock;
    var inbox := c.inbox;
    match w.pc {
      case Waiting => next := Worker(Debouncing(c.updated + c.debounce), c.token, w.fetched);
      case Debouncing(deadline) =>
        if w.observed != c.token {
          step, next := Retarget(source), Worker(Debouncing(c.updated + c.debounce), c.token, w.fetched);
        } else if deadline > s.clock {
          step, now := Tick(deadline), deadline;
        } else {
          step, next := Timeout(source), Worker(Fetching(c.latest.value), w.observed, w.fetched + [w.observed]);
          RisingSnoc(w.fetched, w.observed);
          LastOf(w.fetched, w.observed);
        }
      case Fetching(job) =>
        if w.observed != c.token { step, next := Answer(source, None), idle; }
        else { step, next := Answer(source, Some("")), w.(pc := Fetched(job, "")); }
      case Fetched(job, candidate) =>
        step, next := CheckCancelled(source), if w.observed != c.token then idle else w.(pc := Passed(job, candidate));
      case Passed(job, candidate) =>
        step, next := Callback(source, w.observed != c.token), idle;
        if w.observed == c.token { inbox := inbox + [Delivery(job.request, candidate, source)]; }
    }
    e := Event(id, step);
    if step.Tick? {
      s' := s.(clock := now);
      assert c == SetWorker(c, source, w);
    } else {
      var c' := SetWorker(c, source, next).(inbox := inbox);
      s' := s.(contexts := s.contexts[id := c']);
      assert WorkerStep(s.clock, c, step, c');
    }
  }

  /** Liveness: whatever the worker is at, the latest request can still be answered, by moves of its worker and of the
      clock alone, and the answer reaches the session. */
  lemma {:induction false} OutstandingCanBeServed(s: State, id: nat, source: Source, candidates: seq<string>)
    returns (run: seq<State>, events: seq<Event>)
    requires id in s.contexts && Outstanding(s.contexts[id], source)
    requires WorkerInv(s.contexts[id], s.contexts[id].workers[source], source)
    ensures Moves(run, events) && run[0] == s && forall e :: e in events ==> Serving(e, id, source)
    ensures id in run[|events|].contexts
    ensures run[|events|].contexts[id].session == s.contexts[id].session.(candidates := candidates)
    decreases Remaining(s.contexts[id], s.contexts[id].workers[source], s.clock)
  {
    hide WorkerStep, WorkerInv, Remaining, Eligible;
    var c := s.contexts[id];
    var e, s' := ServingStep(s, id, source);
    var c' := s'.contexts[id];
    if c'.inbox == c.inbox {
      var run', events' := OutstandingCanBeServed(s', id, source, candidates);
      run, events := [s] + run', [e] + events';
    } else {
      var index := |c.inbox|;
      var last := c'.(inbox := Without(c'.inbox, index), session := c'.session.(candidates := candidates));
      var s'' := s'.(contexts := s'.contexts[id := last]);
      assert MainStep(s'.clock, c', Deliver(index, true, candidates), last);
      run, events := [s, s', s''], [e, Event(id, Deliver(index, true, candidates))];
    }
  }

  /** At any moment of any run, a standing request its worker has not looked at or is busy with can still be
      answered. */
  lemma RequestCanBeServed(run: seq<State>, events: seq<Event>, i: nat, id: nat, source: Source,
                           candidates: seq<string>)
    returns (more: seq<State>, moves: seq<Event>)
    requires Behavior(run, events) && i < |run| && id in run[i].contexts
    requires Outstanding(run[i].contexts[id], source)
    ensures Moves(more, moves) && more[0] == run[i] && forall e :: e in moves ==> Serving(e, id, source)
    ensures id in more[|moves|].contexts
    ensures more[|moves|].contexts[id].session == run[i].contexts[id].session.(candidates := candidates)
  {
    ContextsHold(run, events, i, id);
    more, moves := OutstandingCanBeServed(run[i], id, source, candidates);
  }

  /** A queued answer reaches the session exactly when its context lives, the session takes it and its generation is the
      controller's; it then becomes the candidate list, and nothing else about the session changes. */
  lemma DeliveredIffCurrent(s: State, id: nat, index: nat, accepted: bool, candidates: seq<string>, s': State)
    requires Next(s, id, Deliver(index, accepted, candidates), s')
    ensures id in s.contexts && id in s'.contexts && index < |s.contexts[id].inbox|
    ensures var c := s.contexts[id];
            s'.contexts[id].session ==
            (if c.alive && accepted && c.inbox[index].request.generation == c.generation
             then Session(c.session.composition, c.session.online, candidates) else c.session)
  {
  }

  /** An answer passes the cancellation check only while its request is still the latest one. */
  lemma AnswerPassesOnlyIfLatest(run: seq<State>, events: seq<Event>, i: nat)
    requires Behavior(run, events) && i < |events| && events[i].step.CheckCancelled?
    requires run[i + 1].contexts[events[i].id].workers[events[i].step.source].pc.Passed?
    ensures var c, w := run[i].contexts[events[i].id], run[i + 1].contexts[events[i].id].workers[events[i].step.source];
            !c.stopping && c.latest == Some(w.pc.job)
  {
    ContextsHold(run, events, i, events[i].id);
    assert WorkerInv(run[i].contexts[events[i].id], run[i].contexts[events[i].id].workers[events[i].step.source],
                     events[i].step.source);
  }
}
