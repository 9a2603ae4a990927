/** What processes do with the lease: engines, the replay tool, the dictionary window and the restore review resolve
    the active installation, write journals, stage and discard generations, and publish a new marker. Every action of
    every participant interleaves with every lock call of every other. */
module NativePublication {
  import opened Optional
  import opened ActiveMarker
  import opened DictionaryLease

  /** Where a native session reads its dictionaries. */
  datatype Paths = Legacy | Generation(names: Installed)

  /** A `Publish` call: the reviewed token and journal revision, and the generation to activate. */
  datatype Request = Request(token: string, revision: nat, target: Installed)

  /** How far a participant's publication has come. */
  datatype Work =
    | Idle
    | Requested(request: Request)
    | Compared(request: Request)
    | Checked(request: Request)
    | Renamed(request: Request)
    | Finished

  /** `paths` is what the participant resolved after taking its lease; `doomed` is the generation a discard worker has
      found not to be the active one. */
  datatype Participant = Participant(paths: Option<Paths>, work: Work, doomed: Option<string>)

  /** One successful rename: the marker it replaced, the revision it found and the one its caller had reviewed, and
      the marker it wrote. */
  datatype Publication = Publication(expected: string, reviewed: nat, found: nat, target: Installed, written: string)

  datatype World = World(
    leases: System,
    parts: map<nat, Participant>,
    marker: string,
    prepared: set<Installed>,
    journals: map<Paths, nat>,
    log: seq<Publication>)

  datatype Action =
    | LockCall(step: Step)
    | Resolve
    | WriteJournal(at: Paths, revision: nat)
    | Accept(request: Request)
    | Compare
    | Check
    | Rename
    | Install
    | Recover
    | Stage(names: Installed)
    | DiscardCheck(generation: string)
    | DiscardRemove

  function PathsOf(marker: string): Paths {
    match Decode(marker)
    case Some(names) => Generation(names)
    case None => Legacy
  }

  function ActiveGeneration(marker: string): string {
    match Decode(marker)
    case Some(names) => names.generation
    case None => ""
  }

  function Revision(w: World, p: Paths): nat {
    if p in w.journals then w.journals[p] else 0
  }

  /** `active()` succeeds: the marker is absent, or decodes to a complete generation. */
  predicate MarkerReady(marker: string, prepared: set<Installed>) {
    marker == "" || (Decode(marker).Some? && Decode(marker).value in prepared)
  }

  /** The participant's lease is idle and shared, and no publication of its own is under way. */
  predicate InService(w: World, id: nat) {
    && id in w.leases && id in w.parts
    && w.leases[id].pc.Held? && w.leases[id].mode.SharedLease? && w.parts[id].work.Idle?
  }

  predicate InCritical(w: World, id: nat) {
    id in w.leases && id in w.parts && w.leases[id].pc.Critical?
  }

  /** What the lock calls have to do with publication: the upgrade starts for an accepted request, and `operation()`
      does not end between the rename and the switch of the contexts, which cannot throw. A participant that ends
      loses its native references. */
  predicate LockCallAllowed(p: Participant, step: Step) {
    && (step.Upgrade? ==> p.work.Requested?)
    && (step.OperationEnds? ==> !p.work.Renamed?)
  }

  function AfterLockCall(p: Participant, step: Step): Participant {
    if step.Crash? || step.Destroy? then Participant(None, Idle, None) else p
  }

  ghost predicate Acts(w: World, id: nat, a: Action, w': World) {
    match a
    case LockCall(step) =>
      && Takes(w.leases, id, step, w'.leases)
      && (if step.Open?
          then id !in w.parts && w' == w.(leases := w'.leases, parts := w.parts[id := Participant(None, Idle, None)])
          else id in w.parts && LockCallAllowed(w.parts[id], step)
               && w' == w.(leases := w'.leases, parts := w.parts[id := AfterLockCall(w.parts[id], step)]))
    case Resolve =>
      && InService(w, id) && MarkerReady(w.marker, w.prepared)
      && w' == w.(parts := w.parts[id := w.parts[id].(paths := Some(PathsOf(w.marker)))])
    case WriteJournal(at, revision) =>
      InService(w, id) && w' == w.(journals := w.journals[at := revision])
    case Accept(request) =>
      && InService(w, id) && w.parts[id].paths.Some? && w.parts[id].doomed.None?
      && w' == w.(parts := w.parts[id := w.parts[id].(work := Requested(request))])
    case Compare =>
      && InCritical(w, id) && w.parts[id].work.Requested?
      && var r := w.parts[id].work.request;
      && w.marker == r.token && Revision(w, PathsOf(w.marker)) == r.revision
      && w' == w.(parts := w.parts[id := w.parts[id].(work := Compared(r))])
    case Check =>
      && InCritical(w, id) && w.parts[id].work.Compared?
      && var r := w.parts[id].work.request;
      && ValidNames(r.target) && r.target in w.prepared && w.marker == r.token
      && w' == w.(parts := w.parts[id := w.parts[id].(work := Checked(r))])
    case Rename =>
      && InCritical(w, id) && w.parts[id].work.Checked?
      && var r := w.parts[id].work.request;
      && w' == w.(marker := Encode(r.target),
                  log := w.log + [Publication(w.marker, r.revision, Revision(w, PathsOf(w.marker)), r.target,
                                            Encode(r.target))],
                  parts := w.parts[id := w.parts[id].(work := Renamed(r))])
    case Install =>
      && InCritical(w, id) && w.parts[id].work.Renamed?
      && w' == w.(parts := w.parts[id := w.parts[id].(
                    paths := Some(Generation(w.parts[id].work.request.target)), work := Finished)])
    case Recover =>
      && id in w.leases && id in w.parts && (w.leases[id].pc.Held? || w.leases[id].pc.Broken?)
      && w' == w.(parts := w.parts[id := w.parts[id].(work := Idle)])
    case Stage(names) =>
      InService(w, id) && ValidNames(names) && w' == w.(prepared := w.prepared + {names})
    case DiscardCheck(generation) =>
      && InService(w, id) && ActiveGeneration(w.marker) != generation
      && w' == w.(parts := w.parts[id := w.parts[id].(doomed := Some(generation))])
    case DiscardRemove =>
      && InService(w, id) && w.parts[id].doomed.Some?
      && w' == w.(prepared := set n | n in w.prepared && n.generation != w.parts[id].doomed.value)
  }

  ghost predicate WorldNext(w: World, w': World) {
    exists id: nat, a :: Acts(w, id, a, w')
  }

  /** No process is running; the marker is absent or names a complete generation. */
  predicate Start(w: World) {
    w.leases == map[] && w.parts == map[] && w.log == [] && MarkerReady(w.marker, w.prepared)
  }

  ghost predicate History(run: seq<World>) {
    && |run| > 0 && Start(run[0])
    && forall i :: 0 <= i < |run| - 1 ==> WorldNext(run[i], run[i + 1])
  }

  // ------------------------------------------------------------------------------------------------------ invariant

  /** A participant whose lease protects what it resolved. */
  predicate Serving(l: Lease) {
    (l.pc.Held? && l.mode.SharedLease?) || Upgrading(l)
  }

  predicate PartInv(w: World, id: nat)
    requires id in w.leases && id in w.parts
  {
    var l, p := w.leases[id], w.parts[id];
    && (!Serving(l) ==> p == Participant(None, Idle, None))
    && (Upgrading(l) ==> p.doomed.None?)
    && (l.pc.DropSession? || l.pc.TryExclusive? ==> p.work.Requested?)
    && (!p.work.Idle? ==> p.paths.Some? && p.doomed.None?)
    && (p.paths.Some? && !p.work.Renamed? ==> p.paths.value == PathsOf(w.marker))
    && (p.doomed.Some? ==> p.doomed.value != ActiveGeneration(w.marker))
    && (p.work.Renamed? ==> l.pc.Critical? && PathsOf(w.marker) == Generation(p.work.request.target))
    && (l.pc.Critical? && (p.work.Compared? || p.work.Checked?) ==>
          w.marker == p.work.request.token && Revision(w, PathsOf(w.marker)) == p.work.request.revision)
    && (l.pc.Critical? && p.work.Checked? ==>
          ValidNames(p.work.request.target) && p.work.request.target in w.prepared)
  }

  function MarkerAfter(first: string, log: seq<Publication>, count: nat): string
    requires count <= |log|
  {
    if count == 0 then first else log[count - 1].written
  }

  /** Each publication replaced the marker the one before it wrote, and found the revision its caller had reviewed. */
  predicate Chained(first: string, log: seq<Publication>, marker: string) {
    && marker == MarkerAfter(first, log, |log|)
    && (forall i :: 0 <= i < |log| ==> log[i].found == log[i].reviewed)
    && (forall i {:trigger log[i].expected} :: 0 <= i < |log| ==> log[i].expected == MarkerAfter(first, log, i))
  }

  predicate Sound(p: Publication) {
    Decode(p.written) == Some(p.target)
  }

  predicate LogInv(first: string, log: seq<Publication>, marker: string) {
    Chained(first, log, marker) && forall p :: p in log ==> Sound(p)
  }

  ghost predicate PartsInv(w: World) {
    && Inv(w.leases)
    && w.leases.Keys == w.parts.Keys
    && (forall id :: id in w.leases ==> PartInv(w, id))
  }

  ghost predicate WorldInv(first: string, w: World) {
    && PartsInv(w)
    && MarkerReady(w.marker, w.prepared)
    && LogInv(first, w.log, w.marker)
  }

  /** A lease inside `operation()` and another participant in service exclude each other. */
  lemma CriticalExcludesService(w: World, id: nat, other: nat)
    requires Inv(w.leases) && InCritical(w, id) && other in w.leases && other != id
    ensures !Serving(w.leases[other])
  {
    assert Compatible(w.leases[id].gate, w.leases[other].gate);
    assert Compatible(w.leases[id].session, w.leases[other].session);
    assert LocalInv(w.leases[other]);
  }

  /** What a participant relies on is its own lease and the shared files; nothing else matters to it. */
  lemma Frame(w: World, w': World, k: nat)
    requires k in w.leases && k in w.parts && PartInv(w, k)
    requires w' == w.(leases := w'.leases, parts := w'.parts)
    requires k in w'.leases && k in w'.parts && w'.leases[k] == w.leases[k] && w'.parts[k] == w.parts[k]
    ensures PartInv(w', k)
  {
  }

  lemma LockCallKeepsOwn(l: Lease, p: Participant, w: World, id: nat, step: Step, w': World)
    requires id in w.leases && id in w.parts && l == w.leases[id] && p == w.parts[id]
    requires Inv(w.leases) && PartInv(w, id) && Enabled(w.leases, id, step) && LockCallAllowed(p, step)
    requires w' == w.(leases := w.leases[id := After(l, step)], parts := w.parts[id := AfterLockCall(p, step)])
    ensures PartInv(w', id)
  {
    assert LocalInv(l);
    match step {
      case Call(reply) =>
      case _ =>
    }
  }

  lemma LockCallKeepsParts(w: World, id: nat, step: Step, w': World, k: nat)
    requires PartsInv(w)
    requires Acts(w, id, LockCall(step), w') && k in w'.leases
    ensures PartInv(w', k)
  {
    if k != id {
      Frame(w, w', k);
    } else if !step.Open? {
      LockCallKeepsOwn(w.leases[id], w.parts[id], w, id, step, w');
    }
  }

  lemma LocalActionKeepsParts(w: World, id: nat, a: Action, w': World, k: nat)
    requires PartsInv(w)
    requires Acts(w, id, a, w') && (a.Resolve? || a.Accept? || a.Compare? || a.Check? || a.Install? || a.Recover?)
    requires k in w'.leases
    ensures PartInv(w', k)
  {
    if k != id {
      Frame(w, w', k);
    } else {
      assert PartInv(w, id) && LocalInv(w.leases[id]);
    }
  }

  lemma SharedActionKeepsParts(w: World, id: nat, a: Action, w': World, k: nat)
    requires PartsInv(w)
    requires Acts(w, id, a, w') && (a.WriteJournal? || a.Stage? || a.DiscardCheck? || a.DiscardRemove?)
    requires k in w'.leases
    ensures PartInv(w', k)
  {
    assert PartInv(w, k);
    if w.leases[k].pc.Critical? && k != id {
      CriticalExcludesService(w, k, id);
    }
  }

  lemma RenameKeepsParts(w: World, id: nat, w': World, k: nat)
    requires PartsInv(w)
    requires Acts(w, id, Rename, w') && k in w'.leases
    ensures PartInv(w', k)
  {
    assert PartInv(w, k) && PartInv(w, id);
    DecodeEncode(w.parts[id].work.request.target);
    if k != id {
      CriticalExcludesService(w, id, k);
    }
  }

  lemma LogExtends(first: string, log: seq<Publication>, marker: string, p: Publication)
    requires Chained(first, log, marker) && p.expected == marker && p.found == p.reviewed
    ensures Chained(first, log + [p], p.written)
  {
    var log' := log + [p];
    forall i | 0 <= i < |log'| ensures log'[i].expected == MarkerAfter(first, log', i) {
      if i < |log| {
        assert log[i].expected == MarkerAfter(first, log, i);
      }
    }
  }

  lemma RenameKeepsLog(first: string, w: World, id: nat, w': World)
    requires WorldInv(first, w) && Acts(w, id, Rename, w')
    ensures LogInv(first, w'.log, w'.marker)
    ensures MarkerReady(w'.marker, w'.prepared)
  {
    assert PartInv(w, id);
    var r := w.parts[id].work.request;
    DecodeEncode(r.target);
    LogExtends(first, w.log, w.marker, Publication(w.marker, r.revision, Revision(w, PathsOf(w.marker)), r.target,
                                                Encode(r.target)));
  }

  lemma ActionKeepsMarker(first: string, w: World, id: nat, a: Action, w': World)
    requires WorldInv(first, w) && Acts(w, id, a, w') && !a.Rename?
    ensures LogInv(first, w'.log, w'.marker)
    ensures MarkerReady(w'.marker, w'.prepared)
  {
    if a.DiscardRemove? {
      assert PartInv(w, id);
    }
  }

  lemma ActionKeepsPart(w: World, id: nat, a: Action, w': World, k: nat)
    requires PartsInv(w) && Acts(w, id, a, w') && k in w'.leases
    ensures PartInv(w', k)
  {
    if a.LockCall? {
      LockCallKeepsParts(w, id, a.step, w', k);
    } else if a.Rename? {
      RenameKeepsParts(w, id, w', k);
    } else if a.WriteJournal? || a.Stage? || a.DiscardCheck? || a.DiscardRemove? {
      SharedActionKeepsParts(w, id, a, w', k);
    } else {
      LocalActionKeepsParts(w, id, a, w', k);
    }
  }

  lemma ActionKeepsLeases(w: World, id: nat, a: Action, w': World)
    requires PartsInv(w) && Acts(w, id, a, w')
    ensures Inv(w'.leases) && w'.leases.Keys == w'.parts.Keys
  {
    if a.LockCall? {
      StepKeepsInv(w.leases, id, a.step, w'.leases);
    }
  }

  lemma ActionKeepsInv(first: string, w: World, id: nat, a: Action, w': World)
    requires WorldInv(first, w) && Acts(w, id, a, w')
    ensures WorldInv(first, w')
  {
    ActionKeepsLeases(w, id, a, w');
    if a.Rename? {
      RenameKeepsLog(first, w, id, w');
    } else {
      ActionKeepsMarker(first, w, id, a, w');
    }
    forall k | k in w'.leases ensures PartInv(w', k) {
      ActionKeepsPart(w, id, a, w', k);
    }
  }

  lemma {:induction false} HistoryKeepsInv(run: seq<World>, i: nat)
    requires History(run) && i < |run|
    ensures WorldInv(run[0].marker, run[i])
  {
    if i > 0 {
      HistoryKeepsInv(run, i - 1);
      assert WorldNext(run[i - 1], run[i - 1 + 1]);
      var id: nat, a :| Acts(run[i - 1], id, a, run[i]);
      ActionKeepsInv(run[0].marker, run[i - 1], id, a, run[i]);
    }
  }

  // ------------------------------------------------------------------------------------------------- what it promises

  /** In every reachable state, every participant that resolved the installation and still runs uses exactly the paths
      the marker names, unless it is itself inside `operation()` between its rename and its switch. That includes
      participants waiting for, refused or failed by an upgrade. */
  lemma ParticipantsFollowTheMarker(run: seq<World>, i: nat, id: nat)
    requires History(run) && i < |run| && id in run[i].parts
    requires run[i].parts[id].paths.Some?
    ensures id in run[i].leases
    ensures
      || run[i].parts[id].paths.value == PathsOf(run[i].marker)
      || (run[i].leases[id].pc.Critical? && run[i].parts[id].work.Renamed?)
  {
    HistoryKeepsInv(run, i);
    assert PartInv(run[i], id);
  }

  /** Outside every critical section, any two participants that resolved the installation agree. */
  lemma ParticipantsAgree(run: seq<World>, i: nat, a: nat, b: nat)
    requires History(run) && i < |run| && a in run[i].parts && b in run[i].parts
    requires forall k :: k in run[i].leases ==> !run[i].leases[k].pc.Critical?
    requires run[i].parts[a].paths.Some? && run[i].parts[b].paths.Some?
    ensures run[i].parts[a].paths == run[i].parts[b].paths == Some(PathsOf(run[i].marker))
  {
    HistoryKeepsInv(run, i);
    assert PartInv(run[i], a) && PartInv(run[i], b);
  }

  /** The marker is absent or decodes to a generation that is still complete: no discard worker ever removes it. */
  lemma MarkerAlwaysReady(run: seq<World>, i: nat)
    requires History(run) && i < |run|
    ensures MarkerReady(run[i].marker, run[i].prepared)
  {
    HistoryKeepsInv(run, i);
  }

  /** A participant in service can always resolve the installation, and reads where the marker points. */
  lemma CanAlwaysResolve(run: seq<World>, i: nat, id: nat) returns (w': World)
    requires History(run) && i < |run| && InService(run[i], id)
    ensures Acts(run[i], id, Resolve, w')
    ensures w'.parts[id].paths == Some(if run[i].marker == "" then Legacy else Generation(Decode(run[i].marker).value))
  {
    MarkerAlwaysReady(run, i);
    w' := run[i].(parts := run[i].parts[id := run[i].parts[id].(paths := Some(PathsOf(run[i].marker)))]);
  }

  /** A discard worker finds exactly the generations that are not the active one, and removes all of one generation and
      nothing else. */
  lemma DiscardsOnlyInactive(w: World, id: nat, generation: string, w': World)
    requires InService(w, id) && MarkerReady(w.marker, w.prepared) && generation != ""
    ensures (exists found :: Acts(w, id, DiscardCheck(generation), found)) <==>
            (w.marker == "" || Decode(w.marker).value.generation != generation)
    ensures w.parts[id].doomed == Some(generation) && Acts(w, id, DiscardRemove, w') ==>
      w'.marker == w.marker
      && forall n: Installed :: n in w'.prepared <==> n in w.prepared && n.generation != generation
  {
    var found := w.(parts := w.parts[id := w.parts[id].(doomed := Some(generation))]);
    assert Acts(w, id, DiscardCheck(generation), found) <==> ActiveGeneration(w.marker) != generation;
  }

  /** No update is lost: a publication replaces exactly the marker its caller reviewed, and the journal behind it is at
      exactly the reviewed revision at the moment of the rename, although the comparison was made earlier. */
  lemma PublicationReplacesWhatWasReviewed(run: seq<World>, i: nat, id: nat, w': World)
    requires History(run) && i < |run| && Acts(run[i], id, Rename, w')
    ensures var request := run[i].parts[id].work.request;
            && run[i].marker == request.token
            && Revision(run[i], PathsOf(run[i].marker)) == request.revision
            && request.target in run[i].prepared
            && Decode(w'.marker) == Some(request.target)
  {
    HistoryKeepsInv(run, i);
    assert PartInv(run[i], id);
    DecodeEncode(run[i].parts[id].work.request.target);
  }

  /** No installation that was ever replaced had been active before: every publication but the last wrote names that
      differ from the first marker's and from those of every other publication but the last. */
  predicate NeverReactivated(first: string, log: seq<Publication>) {
    && (forall i, j :: 0 <= i < j < |log| - 1 ==> log[i].target != log[j].target)
    && (forall i :: 0 <= i < |log| - 1 ==> Decode(first) != Some(log[i].target))
  }

  predicate SameToken(log: seq<Publication>, a: nat, b: nat) {
    a < b < |log| && log[a].expected == log[b].expected
  }

  ghost predicate DistinctTokens(log: seq<Publication>) {
    forall a: nat, b: nat :: !SameToken(log, a, b)
  }

  /** Of any number of reviews holding the same token at most one publishes - exactly when no superseded installation
      is ever published again. */
  lemma OnePublicationPerToken(run: seq<World>, i: nat)
    requires History(run) && i < |run|
    ensures DistinctTokens(run[i].log) <==> NeverReactivated(run[0].marker, run[i].log)
  {
    HistoryKeepsInv(run, i);
    DistinctTokensIff(run[0].marker, run[i].log, run[i].marker);
  }

  lemma DistinctTokensIff(first: string, log: seq<Publication>, marker: string)
    requires LogInv(first, log, marker)
    ensures DistinctTokens(log) <==> NeverReactivated(first, log)
  {
    forall a: nat, b: nat | a < b < |log| ensures SameToken(log, a, b) <==> Reactivates(first, log, a, b) {
      TokenNames(first, log, marker, a, b);
    }
    DistinctSuperseded(first, log);
  }

  /** Every publication activates a generation name that no other publication and not the first marker carries. */
  predicate FreshNames(first: string, log: seq<Publication>) {
    && (forall i, j :: 0 <= i < j < |log| ==> log[i].target.generation != log[j].target.generation)
    && (forall i :: 0 <= i < |log| ==> ActiveGeneration(first) != log[i].target.generation)
  }

  /** Fresh generation names guarantee that one token is published at most once. */
  lemma FreshNamesGiveDistinctTokens(run: seq<World>, i: nat)
    requires History(run) && i < |run| && FreshNames(run[0].marker, run[i].log)
    ensures DistinctTokens(run[i].log)
  {
    hide History, DistinctTokens;
    OnePublicationPerToken(run, i);
  }

  /** Without them it can be published twice: A gives way to B, B to A again, and a second review that still holds A's
      token then publishes C. */
  lemma TokenPublishedTwice() returns (first: string, log: seq<Publication>, marker: string)
    ensures LogInv(first, log, marker) && |log| == 3
    ensures SameToken(log, 0, 2) && !DistinctTokens(log) && !NeverReactivated(first, log)
  {
    hide Encode, Decode, ValidNames;
    var a, b, c := Installed("a", "r"), Installed("b", "r"), Installed("c", "r");
    ShortNames(a);
    ShortNames(b);
    ShortNames(c);
    first, log := Encode(a), BackAndForth(a, b, c);
    marker := Encode(c);
    BackAndForthIsSound(a, b, c);
    assert SameToken(log, 0, 2);
    assert log[1].target == a && 1 < |log| - 1;
  }

  lemma ShortNames(n: Installed)
    requires n.generation in {"a", "b", "c"} && n.content == "r"
    ensures ValidNames(n) && Decode(Encode(n)) == Some(n)
  {
    DecodeEncode(n);
  }

  /** B replaces A, A replaces B, and C replaces A. */
  function BackAndForth(a: Installed, b: Installed, c: Installed): (log: seq<Publication>)
    ensures |log| == 3 && log[1].target == a
    ensures log[0].expected == log[2].expected == Encode(a)
  {
    [Publication(Encode(a), 0, 0, b, Encode(b)), Publication(Encode(b), 0, 0, a, Encode(a)),
     Publication(Encode(a), 0, 0, c, Encode(c))]
  }

  lemma BackAndForthIsSound(a: Installed, b: Installed, c: Installed)
    requires Decode(Encode(a)) == Some(a) && Decode(Encode(b)) == Some(b) && Decode(Encode(c)) == Some(c)
    ensures LogInv(Encode(a), BackAndForth(a, b, c), Encode(c))
  {
    hide Encode, Decode;
    var log := BackAndForth(a, b, c);
    forall i | 0 <= i < |log| ensures log[i].expected == MarkerAfter(Encode(a), log, i) {
      assert i == 0 || i == 1 || i == 2;
    }
  }

  /** The installation a publication superseded, as its token names it. */
  function Superseded(first: string, log: seq<Publication>, i: nat): Option<Installed>
    requires i < |log|
  {
    if i == 0 then Decode(first) else Some(log[i - 1].target)
  }

  predicate Reactivates(first: string, log: seq<Publication>, a: nat, b: nat) {
    a < b < |log| && Superseded(first, log, a) == Superseded(first, log, b)
  }

  lemma TokenNames(first: string, log: seq<Publication>, marker: string, a: nat, b: nat)
    requires LogInv(first, log, marker) && a < b < |log|
    ensures SameToken(log, a, b) <==> Reactivates(first, log, a, b)
  {
    assert log[a].expected == MarkerAfter(first, log, a) && log[b].expected == MarkerAfter(first, log, b);
    if a > 0 {
      assert Sound(log[a - 1]);
    }
    assert Sound(log[b - 1]);
    DecodeInjective(log[a].expected, log[b].expected);
  }

  lemma DistinctSuperseded(first: string, log: seq<Publication>)
    ensures NeverReactivated(first, log) <==>
            forall a: nat, b: nat :: !Reactivates(first, log, a, b)
  {
    if NeverReactivated(first, log) {
      forall a: nat, b: nat | a < b < |log| ensures !Reactivates(first, log, a, b) {
        assert log[b - 1].target == Superseded(first, log, b).value;
      }
    } else if i :| 0 <= i < |log| - 1 && Decode(first) == Some(log[i].target) {
      assert Reactivates(first, log, 0, i + 1);
    } else {
      var i, j :| 0 <= i < j < |log| - 1 && log[i].target == log[j].target;
      assert Reactivates(first, log, i + 1, j + 1);
    }
  }
}
