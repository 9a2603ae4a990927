/** One participant's side of the publication protocol: what it holds and sees, the actions it may take on that, and
    why a program that takes only those actions is a run of `NativePublication`, whatever the others do in between. */
module PublicationCalls {
  import opened Optional
  import opened ActiveMarker
  import opened DictionaryLease
  import opened LeaseCalls
  import opened NativePublication

  datatype Seat = Seat(
    lease: Lease, part: Participant, marker: string, prepared: set<Installed>, journals: map<Paths, nat>)

  ghost function SeatOf(w: World, id: nat): Seat
    requires id in w.leases && id in w.parts
  {
    Seat(w.leases[id], w.parts[id], w.marker, w.prepared, w.journals)
  }

  predicate Idles(s: Seat) {
    s.lease.pc.Held? && s.lease.mode.SharedLease? && s.part.work.Idle?
  }

  function JournalRevision(s: Seat): nat {
    var paths := PathsOf(s.marker);
    if paths in s.journals then s.journals[paths] else 0
  }

  /** The actions of a publisher, as far as its own seat goes. */
  ghost predicate Does(s: Seat, a: Action, s': Seat) {
    match a
    case LockCall(step) =>
      && Permitted(s.lease, step) && LockCallAllowed(s.part, step)
      && s' == s.(lease := After(s.lease, step))
    case Accept(request) =>
      && Idles(s) && s.part.paths.Some? && s.part.doomed.None?
      && s' == s.(part := s.part.(work := Requested(request)))
    case Compare =>
      && s.lease.pc.Critical? && s.part.work.Requested?
      && s.marker == s.part.work.request.token && JournalRevision(s) == s.part.work.request.revision
      && s' == s.(part := s.part.(work := Compared(s.part.work.request)))
    case Check =>
      && s.lease.pc.Critical? && s.part.work.Compared?
      && ValidNames(s.part.work.request.target) && s.part.work.request.target in s.prepared
      && s.marker == s.part.work.request.token
      && s' == s.(part := s.part.(work := Checked(s.part.work.request)))
    case Rename =>
      && s.lease.pc.Critical? && s.part.work.Checked?
      && s' == s.(marker := Encode(s.part.work.request.target), part := s.part.(work := Renamed(s.part.work.request)))
    case Install =>
      && s.lease.pc.Critical? && s.part.work.Renamed?
      && s' == s.(part := s.part.(paths := Some(Generation(s.part.work.request.target)), work := Finished))
    case Recover =>
      && (s.lease.pc.Held? || s.lease.pc.Broken?)
      && s' == s.(part := s.part.(work := Idle))
    case _ => false
  }

  /** The kernel can give the reply that the step names. */
  ghost predicate KernelAgrees(s: System, id: nat, a: Action)
    requires id in s
  {
    a.LockCall? ==>
      && (a.step.Call? ==> Answers(s, id, a.step.reply))
      && (a.step.Upgrade? ==> a.step.reply.Failed? || (a.step.reply.Granted? <==> GateFree(s, id, Exclusive)))
  }

  /** What a participant does at its seat it does in the world. */
  lemma DoesIsAct(w: World, id: nat, a: Action, s': Seat) returns (w': World)
    requires id in w.leases && id in w.parts && Does(SeatOf(w, id), a, s') && KernelAgrees(w.leases, id, a)
    ensures Acts(w, id, a, w') && id in w'.leases && id in w'.parts && SeatOf(w', id) == s'
  {
    w' := w.(leases := w.leases[id := s'.lease], parts := w.parts[id := s'.part], marker := s'.marker);
    if a.LockCall? {
      PermittedIsStep(w.leases, id, a.step);
      assert AfterLockCall(w.parts[id], a.step) == w.parts[id];
      assert w.parts[id := w.parts[id]] == w.parts;
    } else {
      assert w.leases[id := w.leases[id]] == w.leases;
      if a.Rename? {
        var r := w.parts[id].work.request;
        w' := w'.(log := w.log + [Publication(w.marker, r.revision, Revision(w, PathsOf(w.marker)), r.target,
                                              Encode(r.target))]);
      }
    }
  }

  /** And the other way round: every lock call of a participant, short of ending, is one its seat allows. */
  lemma LockCallIsDone(w: World, id: nat, step: Step, w': World)
    requires Acts(w, id, LockCall(step), w') && !step.Open? && !step.Destroy? && !step.Crash?
    ensures id in w.leases && id in w.parts && id in w'.leases && id in w'.parts
    ensures Does(SeatOf(w, id), LockCall(step), SeatOf(w', id))
  {
    EnabledIsPermitted(w.leases, id, step);
  }

  /** What the others may have done meanwhile: nothing to this participant's lease and work, nothing to the marker
      while its lease protects it, and nothing at all while it is inside `operation()`. */
  ghost predicate Elsewhere(s: Seat, s': Seat) {
    && s'.lease == s.lease && s'.part == s.part
    && (Serving(s.lease) ==> s'.marker == s.marker)
    && (s.lease.pc.Critical? ==> s' == s)
  }

  /** Every action of every other participant, in any state of any run, is such a step for this one. */
  lemma OthersStayElsewhere(run: seq<World>, i: nat, other: nat, a: Action, w': World, id: nat)
    requires History(run) && i < |run| && Acts(run[i], other, a, w') && other != id
    requires id in run[i].leases && id in run[i].parts
    ensures id in w'.leases && id in w'.parts && Elsewhere(SeatOf(run[i], id), SeatOf(w', id))
  {
    HistoryKeepsInv(run, i);
    var w := run[i];
    if a.Rename? {
      CriticalExcludesService(w, other, id);
    }
    if w.leases[id].pc.Critical? && (a.WriteJournal? || a.Stage? || a.DiscardCheck? || a.DiscardRemove?) {
      CriticalExcludesService(w, id, other);
    }
  }

  // ------------------------------------------------------------------------------------------------------- paths

  datatype Move = Mine(action: Action) | Theirs

  ghost predicate Moves(s: Seat, m: Move, s': Seat) {
    match m
    case Mine(a) => Does(s, a, s')
    case Theirs => Elsewhere(s, s')
  }

  /** The moves lead from one seat to the other. */
  ghost predicate Path(from: Seat, moves: seq<Move>, to: Seat) {
    if moves == [] then from == to
    else
      var n := |moves| - 1;
      exists middle :: Path(from, moves[..n], middle) && Moves(middle, moves[n], to)
  }

  lemma PathOne(from: Seat, moves: seq<Move>, middle: Seat, m: Move, to: Seat)
    requires Path(from, moves, middle) && Moves(middle, m, to)
    ensures Path(from, moves + [m], to)
  {
    assert (moves + [m])[..|moves|] == moves;
  }

  /** Lock calls as moves. */
  function LockMoves(steps: seq<Step>): seq<Move> {
    seq(|steps|, i requires 0 <= i < |steps| => Mine(LockCall(steps[i])))
  }

  predicate AllAllowed(p: Participant, steps: seq<Step>) {
    forall step :: step in steps ==> LockCallAllowed(p, step)
  }

  /** The calls of a lease, which follow its automaton, are moves of the participant that owns it. */
  lemma {:induction false} LockPath(from: Seat, moves: seq<Move>, s: Seat, steps: seq<Step>, lease: Lease)
    requires Path(from, moves, s) && Follows(s.lease, steps, lease) && AllAllowed(s.part, steps)
    ensures Path(from, moves + LockMoves(steps), s.(lease := lease))
  {
    hide Path, Permitted, After;
    if steps == [] {
      assert moves + LockMoves(steps) == moves;
    } else {
      var n := |steps| - 1;
      var middle :| Follows(s.lease, steps[..n], middle) && Permitted(middle, steps[n])
        && lease == After(middle, steps[n]);
      assert AllAllowed(s.part, steps[..n]);
      LockPath(from, moves, s, steps[..n], middle);
      PathOne(from, moves + LockMoves(steps[..n]), s.(lease := middle), Mine(LockCall(steps[n])), s.(lease := lease));
      assert moves + LockMoves(steps) == moves + LockMoves(steps[..n]) + [Mine(LockCall(steps[n]))];
    }
  }

  /** What follows a prefix of a lease's calls follows from where the prefix led. */
  lemma {:induction false} FollowsRest(from: Lease, a: seq<Step>, middle: Lease, b: seq<Step>, to: Lease)
    requires Follows(from, a, middle) && Follows(from, a + b, to)
    ensures Follows(middle, b, to)
  {
    if b == [] {
      assert a + b == a;
      FollowsOnce(from, a, middle, to);
    } else {
      var n := |b| - 1;
      assert (a + b)[..|a| + n] == a + b[..n];
      var m :| Follows(from, (a + b)[..|a| + n], m) && Permitted(m, b[n]) && to == After(m, b[n]);
      FollowsRest(from, a, middle, b[..n], m);
    }
  }

  lemma {:induction false} FollowsOnce(from: Lease, a: seq<Step>, x: Lease, y: Lease)
    requires Follows(from, a, x) && Follows(from, a, y)
    ensures x == y
  {
    if a != [] {
      var n := |a| - 1;
      var m :| Follows(from, a[..n], m) && Permitted(m, a[n]) && x == After(m, a[n]);
      var k :| Follows(from, a[..n], k) && Permitted(k, a[n]) && y == After(k, a[n]);
      FollowsOnce(from, a[..n], m, k);
    }
  }
}
