/** `publish_native_dictionary`: one process tears down every native reference, tries to become exclusive, replaces
    the marker, and adopts the new paths in every input context - or goes back to the old ones. Everything the
    environment decides (locks, files, sessions that do not open) is an arbitrary choice. Its locks are those of its
    lease, and all it does is a path of a participant's actions. */
module EnginePublication {
  import opened Optional
  import opened ActiveMarker
  import opened DictionaryLease
  import opened LeaseCalls
  import opened NativePublication
  import opened PublicationCalls

  /** A native session and its provider keep the paths they were opened with. */
  datatype Controller = Controller(paths: Paths, generation: nat)
  datatype Translation = Translation(paths: Paths)
  datatype Replacement = Replacement(paths: Paths, controller: Option<Controller>, translation: Option<Translation>)

  datatype Status = Published | Conflict | Busy
  datatype Answer = Reported(status: Status, durable: bool) | Error | Exited

  class Context {
    var controller: Option<Controller>
    var translation: Option<Translation>
    var paths: Paths
    var composing: bool
    var glosses: set<string>

    constructor (controller: Controller, translation: Translation, paths: Paths)
      ensures this.controller == Some(controller) && this.translation == Some(translation) && this.paths == paths
      ensures !composing && glosses == {}
    {
      this.controller, this.translation, this.paths := Some(controller), Some(translation), paths;
      composing, glosses := false, {};
    }
  }

  /** The process-wide runtime with its lease, the files it shares with other processes, and the counter that numbers
      controllers. */
  class Runtime {
    const lease: LeaseObject
    var paths: Paths
    var legacy: bool
    var marker: string
    var prepared: set<Installed>
    var journals: map<Paths, nat>
    var sequence: nat
    ghost var part: Participant
    ghost var start: Seat
    ghost var moves: seq<Move>
    /** How many calls to the system have failed, and whether the last directory sync succeeded. */
    ghost var faults: nat
    ghost var synced: bool

    ghost function View(): Seat
      reads this, lease
    {
      Seat(lease.View(), part, marker, prepared, journals)
    }

    function CurrentRevision(): nat
      reads this
    {
      if PathsOf(marker) in journals then journals[PathsOf(marker)] else 0
    }

    /** Everything done so far is a path of this participant's actions. */
    ghost predicate OnPath()
      reads this, lease
    {
      lease.OnPath() && LocalInv(lease.View()) && lease.mode.SharedLease? && Path(start, moves, View())
    }

    /** No publication is under way, and the process reads where the marker points. */
    ghost predicate InService()
      reads this, lease
    {
      && (lease.pc.Held? || lease.pc.Broken?) && part == Participant(Some(paths), Idle, None)
      && paths == PathsOf(marker)
    }

    /** A process that has taken its lease and resolved the installation. */
    constructor (lease: LeaseObject, marker: string, prepared: set<Installed>, journals: map<Paths, nat>)
      requires lease.OnPath() && lease.View() == Lease(SharedLease, Held, Unlocked, Shared, false)
      ensures OnPath() && InService() && this.lease == lease && this.marker == marker
      ensures legacy == Decode(marker).None? && sequence == 0 && moves == []
    {
      this.lease, this.marker, this.prepared, this.journals := lease, marker, prepared, journals;
      this.paths, this.legacy, this.sequence := PathsOf(marker), Decode(marker).None?, 0;
      part, moves := Participant(Some(PathsOf(marker)), Idle, None), [];
      faults, synced := 0, false;
      start := Seat(lease.View(), Participant(Some(PathsOf(marker)), Idle, None), marker, prepared, journals);
    }

    /** Reading the marker, opening a session, writing or renaming a file: the system may refuse. */
    method Try() returns (ok: bool)
      modifies this`faults
      ensures faults == old(faults) + if ok then 0 else 1
    {
      ok := *;
      faults := faults + if ok then 0 else 1;
    }

    method Sync() returns (ok: bool)
      modifies this`synced
      ensures synced == ok
    {
      ok := *;
      synced := ok;
    }

    ghost method Log(m: Move, before: Seat)
      requires Path(start, moves, before) && Moves(before, m, View())
      modifies this`moves
      ensures Path(start, moves, View()) && moves == old(moves) + [m]
    {
      PathOne(start, moves, before, m, View());
      moves := moves + [m];
    }

    /** The lease has made calls since it stood at `before`. */
    ghost method LogCalls(before: Seat, made: seq<Step>)
      requires Path(start, moves, before) && View() == before.(lease := lease.View())
      requires lease.OnPath() && made <= lease.steps && Follows(lease.start, made, before.lease)
      requires AllAllowed(part, lease.steps[|made|..])
      modifies this`moves
      ensures Path(start, moves, View()) && moves == old(moves) + LockMoves(lease.steps[|made|..])
    {
      hide Path, Follows;
      assert lease.steps == made + lease.steps[|made|..];
      FollowsRest(lease.start, made, before.lease, lease.steps[|made|..], lease.View());
      LockPath(start, moves, before, lease.steps[|made|..], lease.View());
      moves := moves + LockMoves(lease.steps[|made|..]);
    }

    /** Other participants write journals, stage and discard; they cannot touch the marker this lease protects. */
    method Meanwhile()
      requires OnPath() && InService()
      modifies this`prepared, this`journals, this`moves
      ensures OnPath() && InService() && moves == old(moves) + [Theirs]
    {
      hide Path;
      ghost var before := View();
      prepared, journals := *, *;
      Log(Theirs, before);
    }

    /** The request is taken on, unless the lease has been unusable since an earlier failure. */
    ghost method Accepts(request: Request)
      requires OnPath() && InService()
      modifies this`part, this`moves
      ensures OnPath() && old(moves) <= moves && !Renames(moves[|old(moves)|..])
      ensures part == Participant(Some(paths), if lease.pc.Held? then Requested(request) else Idle, None)
    {
      hide Path;
      if lease.pc.Held? {
        ghost var before := View();
        part := part.(work := Requested(request));
        Log(Mine(Accept(request)), before);
      }
    }

    /** `exclusively` up to its operation. */
    method Enter() returns (attempt: Attempt)
      requires OnPath() && (lease.pc.Held? || lease.pc.Broken?) && (lease.pc.Held? ==> part.work.Requested?)
      modifies this`moves, lease
      ensures OnPath() && old(moves) <= moves && !Renames(moves[|old(moves)|..])
      ensures if attempt.Entered? then lease.pc.Critical? else lease.pc.Held? || lease.pc.Broken?
      ensures attempt.Entered? ==> old(lease.pc).Held?
      ensures attempt.Refused? ==> old(lease.steps) <= lease.steps && Blocked(lease.steps[|old(lease.steps)|..])
      ensures lease.failed >= old(lease.failed) && lease.blocked >= old(lease.blocked)
              && lease.ended == old(lease.ended)
      ensures attempt.Faulted? <==> old(lease.pc).Broken? || lease.failed > old(lease.failed)
      ensures old(lease.pc).Broken? ==> lease.blocked == old(lease.blocked)
      ensures attempt.Refused? <==>
              old(lease.pc).Held? && lease.failed == old(lease.failed) && lease.blocked > old(lease.blocked)
    {
      hide Path, Follows, Renames, OnlyLocks, Blocked, AllAllowed;
      ghost var seat, made, moved := View(), lease.steps, moves;
      attempt := lease.Enter();
      EnterAllowed(part, lease.steps[|made|..]);
      LogCalls(seat, made);
      LockMovesRenameNothing(lease.steps[|made|..]);
      MovedOn(moved, LockMoves(lease.steps[|made|..]), moves);
    }

    /** `exclusively` from the end of its operation on. */
    method Leave(threw: bool) returns (restored: bool)
      requires OnPath() && lease.pc.Critical? && !part.work.Renamed?
      modifies this`moves, lease
      ensures OnPath() && old(moves) <= moves && !Renames(moves[|old(moves)|..])
      ensures lease.pc.Held? || lease.pc.Broken?
      ensures old(lease.steps) <= lease.steps
      ensures lease.failed >= old(lease.failed) && lease.blocked == old(lease.blocked)
      ensures lease.ended == old(lease.ended) + [threw] && (restored <==> lease.failed == old(lease.failed))
    {
      hide Path, Follows, Renames, CallsOnly, AllAllowed;
      ghost var seat, made, moved := View(), lease.steps, moves;
      restored := lease.Leave(threw);
      LeaveAllowed(part, made, threw, lease.steps);
      LogCalls(seat, made);
      LockMovesRenameNothing(lease.steps[|made|..]);
      MovedOn(moved, LockMoves(lease.steps[|made|..]), moves);
    }

    ghost method Recovers()
      requires OnPath() && (lease.pc.Held? || lease.pc.Broken?)
      modifies this`part, this`moves
      ensures OnPath() && part == old(part).(work := Idle) && moves == old(moves) + [Mine(Recover)]
    {
      hide Path;
      ghost var before := View();
      part := part.(work := Idle);
      Log(Mine(Recover), before);
    }
  }

  predicate Renames(moves: seq<Move>) {
    Mine(Rename) in moves
  }

  lemma LockMovesRenameNothing(steps: seq<Step>)
    ensures !Renames(LockMoves(steps))
  {
  }

  lemma RenamesJoin(a: seq<Move>, b: seq<Move>, c: seq<Move>)
    requires a <= b <= c
    ensures Renames(c[|a|..]) <==> Renames(b[|a|..]) || Renames(c[|b|..])
  {
    assert c[|a|..] == b[|a|..] + c[|b|..];
  }

  predicate Distinct(contexts: seq<Context>) {
    forall i, j :: 0 <= i < j < |contexts| ==> contexts[i] != contexts[j]
  }

  /** Every registered context can serve key events, and all of them use the runtime's paths. */
  ghost predicate AllServe(contexts: seq<Context>, paths: Paths)
    reads contexts
  {
    forall i :: 0 <= i < |contexts| ==> Serves(contexts[i], paths)
  }

  ghost predicate Serves(c: Context, paths: Paths)
    reads c
  {
    && c.paths == paths
    && c.controller.Some? && c.controller.value.paths == paths
    && c.translation == Some(Translation(paths))
  }

  /** Replacement controllers carry generations that no earlier controller had. */
  predicate Opened(replacements: seq<Replacement>, paths: Paths, after: nat, sequence: nat) {
    && (forall i :: 0 <= i < |replacements| ==>
          && replacements[i].paths == paths && replacements[i].translation == Some(Translation(paths))
          && replacements[i].controller.Some? && replacements[i].controller.value.paths == paths
          && after < replacements[i].controller.value.generation <= sequence)
    && (forall i, j :: 0 <= i < j < |replacements| ==>
          replacements[i].controller.Some? && replacements[j].controller.Some? &&
          replacements[i].controller.value.generation < replacements[j].controller.value.generation)
  }

  /** `build`: open a session and a provider on `paths` for every context; any of them may fail to open. */
  method Build(runtime: Runtime, blank: seq<Replacement>, paths: Paths, first: nat)
    returns (ok: bool, replacements: seq<Replacement>, sequence: nat)
    modifies runtime`faults
    ensures runtime.faults == old(runtime.faults) + if ok then 0 else 1
    ensures |replacements| == |blank| && sequence >= first
    ensures ok ==> Opened(replacements, paths, first, sequence)
  {
    replacements, sequence := blank, first;
    var i := 0;
    while i < |blank|
      invariant 0 <= i <= |blank| == |replacements| && sequence >= first
      invariant Opened(replacements[..i], paths, first, sequence) && runtime.faults == old(runtime.faults)
    {
      var opens := runtime.Try();
      if !opens { return false, replacements, sequence; }
      var bumps: nat :| bumps > 0;  // construction, mode and punctuation each draw a number
      sequence := sequence + bumps;
      replacements :=
        replacements[i := Replacement(paths, Some(Controller(paths, sequence)), Some(Translation(paths)))];
      assert replacements[..i + 1] == replacements[..i] + [replacements[i]];
      i := i + 1;
    }
    assert replacements == replacements[..i];
    ok := true;
    if replacements == [] {
      ok := runtime.Try();  // no context: one session is still opened on the paths, and dropped
    }
  }

  /** `install`: cannot throw. */
  method Install(contexts: seq<Context>, replacements: seq<Replacement>, paths: Paths, ghost first: nat,
                 ghost sequence: nat)
    requires Distinct(contexts) && |replacements| == |contexts| && Opened(replacements, paths, first, sequence)
    modifies contexts
    ensures AllServe(contexts, paths)
    ensures forall i :: 0 <= i < |contexts| ==> contexts[i].controller == replacements[i].controller
    ensures forall i :: 0 <= i < |contexts| ==>
      contexts[i].glosses == {} && contexts[i].composing == old(contexts[i].composing)
  {
    var i := 0;
    while i < |contexts|
      invariant 0 <= i <= |contexts|
      invariant forall k :: 0 <= k < i ==>
        contexts[k].controller == replacements[k].controller && contexts[k].translation == replacements[k].translation
        && contexts[k].paths == replacements[k].paths && contexts[k].glosses == {}
      invariant forall k :: 0 <= k < |contexts| ==> contexts[k].composing == old(contexts[k].composing)
    {
      var c := contexts[i];
      c.controller, c.translation := replacements[i].controller, replacements[i].translation;
      c.paths := replacements[i].paths;
      c.glosses := {};
      i := i + 1;
    }
  }

  /** Join and destroy every provider and controller before the upgrade. */
  method TearDown(contexts: seq<Context>)
    requires Distinct(contexts)
    modifies contexts
    ensures forall i :: 0 <= i < |contexts| ==> contexts[i].controller.None? && contexts[i].translation.None?
    ensures forall i :: 0 <= i < |contexts| ==> contexts[i].composing == old(contexts[i].composing)
  {
    var i := 0;
    while i < |contexts|
      invariant 0 <= i <= |contexts|
      invariant forall k :: 0 <= k < i ==> contexts[k].controller.None? && contexts[k].translation.None?
      invariant forall k :: 0 <= k < |contexts| ==> contexts[k].composing == old(contexts[k].composing)
    {
      contexts[i].translation := None;
      contexts[i].controller := None;
      i := i + 1;
    }
  }

  method AnyComposing(contexts: seq<Context>) returns (busy: bool)
    ensures busy <==> exists i :: 0 <= i < |contexts| && contexts[i].composing
  {
    var i := 0;
    while i < |contexts|
      invariant 0 <= i <= |contexts|
      invariant forall k :: 0 <= k < i ==> !contexts[k].composing
    {
      if contexts[i].composing { return true; }
      i := i + 1;
    }
    busy := false;
  }

  /** `recover`: reopen the previous paths, or end the process before another event is handled. */
  method ReopenPrevious(contexts: seq<Context>, runtime: Runtime) returns (exited: bool)
    requires Distinct(contexts)
    modifies contexts, runtime`sequence, runtime`faults
    ensures runtime.faults == old(runtime.faults) + if exited then 1 else 0
    ensures runtime.sequence >= old(runtime.sequence)
    ensures !exited ==> AllServe(contexts, runtime.paths)
    ensures !exited ==> FreshControllers(contexts, old(runtime.sequence))
  {
    var blank := seq(|contexts|, _ => Replacement(Legacy, None, None));
    var first := runtime.sequence;
    var ok, replacements, sequence := Build(runtime, blank, runtime.paths, first);
    runtime.sequence := sequence;
    if !ok { return true; }
    Install(contexts, replacements, runtime.paths, first, sequence);
    exited := false;
  }

  /** Every controller was created after the counter stood at `after`, and no two share a generation: whatever an
      earlier controller asked for online can no longer be taken for an answer to one of these. */
  ghost predicate FreshControllers(contexts: seq<Context>, after: nat)
    reads contexts
  {
    && (forall i :: 0 <= i < |contexts| ==>
        contexts[i].controller.Some? && contexts[i].controller.value.generation > after)
    && (forall i, j :: 0 <= i < j < |contexts| ==>
          contexts[i].controller.Some? && contexts[j].controller.Some? &&
          contexts[i].controller.value.generation != contexts[j].controller.value.generation)
  }

  /** The callback of `exclusively`; reading the installation, opening a session or writing the marker may throw. */
  method Operation(contexts: seq<Context>, runtime: Runtime, request: Request)
    returns (published: bool, durable: bool, threw: bool)
    requires Distinct(contexts) && ValidNames(request.target) && runtime.OnPath() && runtime.lease.pc.Critical?
    requires runtime.part == Participant(Some(runtime.paths), Requested(request), None)
             && runtime.paths == PathsOf(runtime.marker)
    modifies contexts, runtime
    ensures runtime.OnPath() && runtime.sequence >= old(runtime.sequence) && runtime.journals == old(runtime.journals)
    ensures old(runtime.moves) <= runtime.moves && (Renames(runtime.moves[|old(runtime.moves)|..]) <==> published)
    ensures runtime.part.paths == Some(runtime.paths) && runtime.part.doomed.None? && !runtime.part.work.Renamed?
    ensures runtime.paths == PathsOf(runtime.marker)
    ensures published ==>
      && old(runtime.marker) == request.token && old(runtime.CurrentRevision()) == request.revision && !threw
      && runtime.marker == Encode(request.target) && runtime.paths == Generation(request.target) && !runtime.legacy
      && AllServe(contexts, runtime.paths) && FreshControllers(contexts, old(runtime.sequence))
    ensures !published ==>
      && runtime.marker == old(runtime.marker) && runtime.paths == old(runtime.paths)
        && runtime.legacy == old(runtime.legacy)
      && !durable
    ensures !published && !threw ==>
      old(runtime.marker) != request.token || old(runtime.CurrentRevision()) != request.revision
    ensures runtime.faults >= old(runtime.faults) && runtime.prepared == old(runtime.prepared)
    ensures published ==> !threw && durable == runtime.synced
    ensures threw ==>
      || runtime.faults > old(runtime.faults)
      || (old(runtime.marker) == request.token && old(runtime.CurrentRevision()) == request.revision
          && request.target !in runtime.prepared)
  {
    hide Path, Follows, Renames, LocalInv, PathsOf, Opened, FreshControllers;
    NoMoves(runtime.moves);
    published, durable, threw := false, false, false;
    var readable := runtime.Try();
    if !readable { return false, false, true; }
    ghost var moved := runtime.moves;
    var same := Compares(runtime, request);
    if !same { return; }
    ghost var compared := runtime.moves;
    var blank := seq(|contexts|, _ => Replacement(Legacy, None, None));
    var first := runtime.sequence;
    var ok, replacements, sequence := Build(runtime, blank, Generation(request.target), first);
    runtime.sequence := sequence;
    if !ok || request.target !in runtime.prepared { return false, false, true; }
    var renamed := runtime.Try();
    if !renamed { return false, false, true; }
    Commit(contexts, runtime, request, replacements, first);
    RenamesJoin(moved, compared, runtime.moves);
    published := true;
    durable := runtime.Sync();
  }

  /** The token and the journal's revision, as they are now. */
  method Compares(runtime: Runtime, request: Request) returns (same: bool)
    requires runtime.OnPath() && runtime.lease.pc.Critical? && runtime.part.work == Requested(request)
    modifies runtime`part, runtime`moves
    ensures same <==> runtime.marker == request.token && runtime.CurrentRevision() == request.revision
    ensures runtime.OnPath() && old(runtime.moves) <= runtime.moves && !Renames(runtime.moves[|old(runtime.moves)|..])
    ensures runtime.part == if same then old(runtime.part).(work := Compared(request)) else old(runtime.part)
  {
    hide Path;
    NoMoves(runtime.moves);
    same := runtime.marker == request.token && runtime.CurrentRevision() == request.revision;
    if same {
      ghost var before := runtime.View();
      runtime.part := runtime.part.(work := Compared(request));
      runtime.Log(Mine(Compare), before);
      OneMove(old(runtime.moves), Mine(Compare), runtime.moves);
    }
  }

  /** `publish` and `install`: the marker is replaced, and every context and the runtime take up the new paths. The
      token is compared once more first; the exclusive locks have kept it as it was. */
  method Commit(contexts: seq<Context>, runtime: Runtime, request: Request, replacements: seq<Replacement>,
                ghost first: nat)
    requires Distinct(contexts) && |replacements| == |contexts|
    requires Opened(replacements, Generation(request.target), first, runtime.sequence)
    requires runtime.OnPath() && runtime.lease.pc.Critical? && runtime.part.work == Compared(request)
    requires ValidNames(request.target) && request.target in runtime.prepared && runtime.marker == request.token
    modifies contexts, runtime`marker, runtime`paths, runtime`legacy, runtime`part, runtime`moves
    ensures runtime.OnPath() && old(runtime.moves) <= runtime.moves && Renames(runtime.moves[|old(runtime.moves)|..])
    ensures runtime.marker == Encode(request.target)
            && runtime.paths == Generation(request.target) == PathsOf(runtime.marker)
    ensures runtime.part == old(runtime.part).(paths := Some(runtime.paths), work := Finished) && !runtime.legacy
    ensures AllServe(contexts, runtime.paths) && FreshControllers(contexts, first)
  {
    hide Path, Renames, LocalInv, Follows;
    Adopt(runtime, request);
    Renaming(old(runtime.moves), runtime.moves);
    Install(contexts, replacements, Generation(request.target), first, runtime.sequence);
    runtime.paths, runtime.legacy := Generation(request.target), false;
    DecodeEncode(request.target);
  }

  /** The check, the rename, and the switch that cannot fail. */
  method Adopt(runtime: Runtime, request: Request)
    requires runtime.OnPath() && runtime.lease.pc.Critical? && runtime.part.work == Compared(request)
    requires ValidNames(request.target) && request.target in runtime.prepared && runtime.marker == request.token
    modifies runtime`marker, runtime`part, runtime`moves
    ensures runtime.OnPath() && runtime.marker == Encode(request.target)
    ensures runtime.part == old(runtime.part).(paths := Some(Generation(request.target)), work := Finished)
    ensures runtime.moves == old(runtime.moves) + [Mine(Check), Mine(Rename), Mine(NativePublication.Install)]
  {
    hide Path;
    ghost var before := runtime.View();
    runtime.part := runtime.part.(work := Checked(request));
    runtime.Log(Mine(Check), before);
    before := runtime.View();
    runtime.marker := Encode(request.target);
    runtime.part := runtime.part.(work := Renamed(request));
    runtime.Log(Mine(Rename), before);
    before := runtime.View();
    runtime.part := runtime.part.(paths := Some(Generation(request.target)), work := Finished);
    runtime.Log(Mine(NativePublication.Install), before);
  }

  lemma NoMoves(moves: seq<Move>)
    ensures !Renames(moves[|moves|..])
  {
  }

  lemma OneMove(before: seq<Move>, m: Move, moves: seq<Move>)
    requires moves == before + [m]
    ensures before <= moves && (Renames(moves[|before|..]) <==> m == Mine(Rename))
  {
    assert moves[|before|..] == [m];
  }

  lemma Renaming(before: seq<Move>, moves: seq<Move>)
    requires moves == before + [Mine(Check), Mine(Rename), Mine(NativePublication.Install)]
    ensures before <= moves && Renames(moves[|before|..])
  {
    assert moves[|before|..][1] == Mine(Rename);
  }

  /** `exclusively` around the operation: what it does to the lease, and to everything else if it gets that far. */
  method Exclusive(contexts: seq<Context>, runtime: Runtime, request: Request)
    returns (attempt: Attempt, published: bool, durable: bool, threw: bool)
    requires Distinct(contexts) && ValidNames(request.target) && runtime.OnPath()
    requires runtime.lease.pc.Held? || runtime.lease.pc.Broken?
    requires runtime.part ==
      Participant(Some(runtime.paths), if runtime.lease.pc.Held? then Requested(request) else Idle, None)
    requires runtime.paths == PathsOf(runtime.marker)
    modifies contexts, runtime, runtime.lease
    ensures runtime.OnPath() && (runtime.lease.pc.Held? || runtime.lease.pc.Broken?)
    ensures runtime.sequence >= old(runtime.sequence) && runtime.journals == old(runtime.journals)
    ensures old(runtime.moves) <= runtime.moves && (Renames(runtime.moves[|old(runtime.moves)|..]) <==> published)
    ensures runtime.part.paths == Some(runtime.paths) && runtime.part.doomed.None?
            && runtime.paths == PathsOf(runtime.marker)
    ensures published ==>
      && attempt.Entered? && old(runtime.marker) == request.token && old(runtime.CurrentRevision()) == request.revision
      && runtime.marker == Encode(request.target) && runtime.paths == Generation(request.target)
      && AllServe(contexts, runtime.paths) && FreshControllers(contexts, old(runtime.sequence))
    ensures !published ==> runtime.marker == old(runtime.marker) && runtime.paths == old(runtime.paths)
    ensures attempt.Entered? && !published && !threw ==>
      old(runtime.marker) != request.token || old(runtime.CurrentRevision()) != request.revision
    ensures attempt.Refused? ==>
      !threw && old(runtime.lease.steps) <= runtime.lease.steps
      && Blocked(runtime.lease.steps[|old(runtime.lease.steps)|..])
    ensures attempt.Faulted? ==> threw
    ensures !attempt.Entered? ==> unchanged(contexts)
    ensures runtime.prepared == old(runtime.prepared) && runtime.faults >= old(runtime.faults)
    ensures published ==> durable == runtime.synced
    ensures runtime.lease.failed >= old(runtime.lease.failed) && runtime.lease.blocked >= old(runtime.lease.blocked)
    ensures attempt.Faulted? ==>
      || runtime.lease.failed > old(runtime.lease.failed)
      || (old(runtime.lease.pc).Broken? && runtime.lease.blocked == old(runtime.lease.blocked))
    ensures attempt.Refused? ==>
      runtime.lease.failed == old(runtime.lease.failed) && runtime.lease.blocked > old(runtime.lease.blocked)
    ensures if attempt.Entered? then |runtime.lease.ended| == |old(runtime.lease.ended)| + 1
            else runtime.lease.ended == old(runtime.lease.ended)
    ensures attempt.Entered? ==>
      && runtime.lease.blocked == old(runtime.lease.blocked)
      && (published ==> !runtime.lease.ended[|old(runtime.lease.ended)|])
      && (threw <==>
          runtime.lease.ended[|old(runtime.lease.ended)|] || runtime.lease.failed > old(runtime.lease.failed))
      && (runtime.lease.ended[|old(runtime.lease.ended)|] ==>
          || runtime.faults > old(runtime.faults)
          || (Matches(old(runtime.marker), old(runtime.paths), runtime.journals, request)
              && request.target !in runtime.prepared))
      && (!runtime.lease.ended[|old(runtime.lease.ended)|] ==>
          (published <==> Matches(old(runtime.marker), old(runtime.paths), runtime.journals, request)))
  {
    hide Path, Follows, Renames, CallsOnly, OnlyLocks, Blocked, AllServe, FreshControllers, LocalInv, PathsOf;
    published, durable := false, false;
    ghost var moved := runtime.moves;
    attempt := runtime.Enter();
    threw := attempt.Faulted?;
    if attempt.Entered? {
      ghost var entered := runtime.moves;
      published, durable, threw := Operation(contexts, runtime, request);
      ghost var operated := runtime.moves;
      RenamesJoin(moved, entered, operated);
      var restored := runtime.Leave(threw);
      RenamesJoin(moved, operated, runtime.moves);
      threw := threw || !restored;
    }
  }

  lemma MovedOn(before: seq<Move>, more: seq<Move>, moves: seq<Move>)
    requires moves == before + more
    ensures before <= moves && moves[|before|..] == more
  {
  }

  lemma EnterAllowed(p: Participant, steps: seq<Step>)
    requires OnlyLocks(steps) && (p.work.Requested? || steps == [])
    ensures AllAllowed(p, steps)
  {
  }

  lemma LeaveAllowed(p: Participant, made: seq<Step>, threw: bool, steps: seq<Step>)
    requires CallsOnly(made + [OperationEnds(threw)], steps) && !p.work.Renamed?
    ensures made <= steps && AllAllowed(p, steps[|made|..])
  {
    var first := made + [OperationEnds(threw)];
    assert made == first[..|made|] == steps[..|made|];
    forall i | |made| <= i < |steps| ensures LockCallAllowed(p, steps[i]) {
      if i == |made| {
        assert steps[i] == first[i];
      }
    }
  }

  function RevisionAt(journals: map<Paths, nat>, paths: Paths): nat {
    if paths in journals then journals[paths] else 0
  }

  /** The marker and the journal behind it are those that were reviewed. */
  predicate Matches(marker: string, paths: Paths, journals: map<Paths, nat>, request: Request) {
    marker == request.token && RevisionAt(journals, paths) == request.revision
  }

  /** The request, the exclusive operation, and the way back into service. */
  method TryToPublish(contexts: seq<Context>, runtime: Runtime, request: Request)
    returns (attempt: Attempt, published: bool, durable: bool, threw: bool)
    requires Distinct(contexts) && ValidNames(request.target) && runtime.OnPath() && runtime.InService()
    modifies contexts, runtime, runtime.lease
    ensures runtime.OnPath() && runtime.InService()
    ensures runtime.sequence >= old(runtime.sequence)
    ensures old(runtime.moves) <= runtime.moves && (Renames(runtime.moves[|old(runtime.moves)|..]) <==> published)
    ensures published ==>
      && attempt.Entered? && old(runtime.marker) == request.token
        && RevisionAt(runtime.journals, old(runtime.paths)) == request.revision
      && runtime.marker == Encode(request.target) && runtime.paths == Generation(request.target)
      && AllServe(contexts, runtime.paths) && FreshControllers(contexts, old(runtime.sequence))
    ensures !published ==> runtime.marker == old(runtime.marker) && runtime.paths == old(runtime.paths)
    ensures attempt.Entered? && !published && !threw ==>
      old(runtime.marker) != request.token || RevisionAt(runtime.journals, old(runtime.paths)) != request.revision
    ensures attempt.Refused? ==>
      !threw && old(runtime.lease.steps) <= runtime.lease.steps
      && Blocked(runtime.lease.steps[|old(runtime.lease.steps)|..])
    ensures attempt.Faulted? ==> threw
    ensures !attempt.Entered? ==> unchanged(contexts)
    ensures runtime.faults >= old(runtime.faults) && (published ==> durable == runtime.synced)
    ensures runtime.lease.failed >= old(runtime.lease.failed) && runtime.lease.blocked >= old(runtime.lease.blocked)
    ensures attempt.Faulted? ==>
      || runtime.lease.failed > old(runtime.lease.failed)
      || (old(runtime.lease.pc).Broken? && runtime.lease.blocked == old(runtime.lease.blocked))
    ensures attempt.Refused? ==>
      runtime.lease.failed == old(runtime.lease.failed) && runtime.lease.blocked > old(runtime.lease.blocked)
    ensures if attempt.Entered? then |runtime.lease.ended| == |old(runtime.lease.ended)| + 1
            else runtime.lease.ended == old(runtime.lease.ended)
    ensures attempt.Entered? ==>
      && runtime.lease.blocked == old(runtime.lease.blocked)
      && (published ==> !runtime.lease.ended[|old(runtime.lease.ended)|])
      && (threw <==>
          runtime.lease.ended[|old(runtime.lease.ended)|] || runtime.lease.failed > old(runtime.lease.failed))
      && (runtime.lease.ended[|old(runtime.lease.ended)|] ==>
          runtime.faults > old(runtime.faults)
          || (Matches(old(runtime.marker), old(runtime.paths), runtime.journals, request)
              && request.target !in runtime.prepared))
      && (!runtime.lease.ended[|old(runtime.lease.ended)|] ==>
          (published <==> Matches(old(runtime.marker), old(runtime.paths), runtime.journals, request)))
  {
    hide Matches, Path, Follows, Renames, Blocked, LocalInv, Encode, FreshControllers, AllServe;
    ghost var moved := runtime.moves;
    runtime.Meanwhile();
    OneMove(moved, Theirs, runtime.moves);
    ghost var met := runtime.moves;
    runtime.Accepts(request);
    RenamesJoin(moved, met, runtime.moves);
    met := runtime.moves;
    attempt, published, durable, threw := Exclusive(contexts, runtime, request);
    RenamesJoin(moved, met, runtime.moves);
    met := runtime.moves;
    runtime.Recovers();
    OneMove(met, Mine(Recover), runtime.moves);
    RenamesJoin(moved, met, runtime.moves);
  }

  /** After `publish_native_dictionary` comes back to the main loop by any path, every registered context has a live
      controller and translation service, and all contexts and the runtime share one path set: the target exactly when
      the marker was replaced, the old one otherwise. What it did, down to its lock calls, is a path of a participant's
      actions, with a rename in it exactly when it reports a publication. */
  method PublishNativeDictionary(contexts: seq<Context>, runtime: Runtime, request: Request, wellFormed: bool)
    returns (answer: Answer)
    requires Distinct(contexts) && AllServe(contexts, runtime.paths) && runtime.OnPath() && runtime.InService()
    modifies contexts, runtime, runtime.lease
    ensures runtime.OnPath() && runtime.InService()
    ensures old(runtime.moves) <= runtime.moves
    ensures Renames(runtime.moves[|old(runtime.moves)|..]) <==> answer.Reported? && answer.status.Published?
    ensures !answer.Exited? ==> AllServe(contexts, runtime.paths)
    ensures answer.Reported? && answer.status.Published? ==>
      && runtime.marker == Encode(request.target) && runtime.paths == Generation(request.target)
      && old(runtime.marker) == request.token
      && RevisionAt(runtime.journals, old(runtime.paths)) == request.revision
      && FreshControllers(contexts, old(runtime.sequence))
    ensures !(answer.Reported? && answer.status.Published?) ==>
      && runtime.marker == old(runtime.marker) && runtime.paths == old(runtime.paths)
    ensures answer.Reported? && !answer.status.Published? ==> !answer.durable
    ensures answer.Reported? && answer.status.Conflict? ==>
      runtime.marker != request.token || runtime.CurrentRevision() != request.revision
    ensures answer.Reported? && answer.status.Busy? ==>
      || (exists i :: 0 <= i < |contexts| && old(contexts[i].composing))
      || (old(runtime.lease.steps) <= runtime.lease.steps && Blocked(runtime.lease.steps[|old(runtime.lease.steps)|..]))
    ensures !wellFormed ==> answer.Error? && unchanged(runtime)
    ensures wellFormed && (exists i :: 0 <= i < |contexts| && old(contexts[i].composing)) ==>
      answer == Reported(Status.Busy, false) && unchanged(runtime)
    ensures runtime.lease.blocked > old(runtime.lease.blocked) && runtime.lease.failed == old(runtime.lease.failed) ==>
      answer == Reported(Status.Busy, false) || answer.Exited?
    ensures runtime.lease.ended == old(runtime.lease.ended) + [false] ==>
      if Matches(old(runtime.marker), old(runtime.paths), runtime.journals, request)
      then answer == Reported(Published, runtime.synced)
      else
        var reported := if runtime.lease.failed == old(runtime.lease.failed) then Reported(Conflict, false) else Error;
        answer == reported || answer.Exited?
    ensures runtime.lease.ended == old(runtime.lease.ended) + [true] ==> answer.Error? || answer.Exited?
    ensures answer.Exited? ==> runtime.faults > old(runtime.faults)
    ensures answer.Error? ==>
      || !wellFormed || !ValidNames(request.target) || request.target !in old(runtime.prepared)
      || old(runtime.lease.pc).Broken? || runtime.lease.failed > old(runtime.lease.failed)
      || runtime.faults > old(runtime.faults)
      || (Matches(old(runtime.marker), old(runtime.paths), runtime.journals, request)
          && request.target !in runtime.prepared)
  {
    hide Path, Follows, Renames, Blocked, LocalInv, PathsOf, Encode, FreshControllers, Matches, AllServe;
    NoMoves(runtime.moves);
    if !wellFormed { return Error; }
    var composing := AnyComposing(contexts);
    if composing { return Reported(Status.Busy, false); }
    var readable := runtime.Try();
    if !readable || !ValidNames(request.target) || request.target !in runtime.prepared { return Error; }
    TearDown(contexts);
    ghost var ended := runtime.lease.ended;
    var attempt, published, durable, threw := TryToPublish(contexts, runtime, request);
    if attempt.Entered? {
      LastEnd(ended, runtime.lease.ended);
    }
    if published { return Reported(Published, durable); }
    var exited := ReopenPrevious(contexts, runtime);
    if exited { return Exited; }
    if threw { return Error; }
    answer := Reported(if attempt.Entered? then Conflict else Status.Busy, false);
  }

  lemma LastEnd(before: seq<bool>, after: seq<bool>)
    requires |after| == |before| + 1
    ensures forall threw :: after == before + [threw] ==> after[|before|] == threw
  {
  }
}
