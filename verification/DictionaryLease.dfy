/** The dictionary lease: an unbounded number of leases, in any number of processes, share a publication gate and a
    session lock through `flock`. Every `flock` call is one step of the system. A conversion is two steps (the kernel
    releases, then acquires); a failed unlock keeps the lock, and a failed acquisition leaves nothing behind. */
module DictionaryLease {

  /** What one open file description holds on one lock file. */
  datatype Lock = Unlocked | Shared | Exclusive

  datatype Mode = SharedLease | ExclusiveLease

  /** How `exclusively` is going to end once its locks are restored. */
  datatype Exit = Busy | Done | Thrown

  /** The call a lease performs next. */
  datatype Pc =
    | TryGate
    | TrySession
    | DropGate
    | Held
    | DropSession
    | TryExclusive
    | Critical
    | RestoreRelease(exit: Exit)
    | RestoreWait(exit: Exit)
    | RestoreGate(exit: Exit)
    | Broken
    | Closing

  datatype Lease = Lease(mode: Mode, pc: Pc, gate: Lock, session: Lock, publishing: bool)

  type System = map<nat, Lease>

  datatype Reply = Granted | WouldBlock | Failed

  datatype Step =
    | Open(mode: Mode)
    | Call(reply: Reply)
    | Upgrade(reply: Reply)
    | OperationEnds(threw: bool)
    | Destroy
    | Crash
    | CloseGate
    | CloseSession

  predicate Compatible(a: Lock, b: Lock) {
    a.Unlocked? || b.Unlocked? || (a.Shared? && b.Shared?)
  }

  ghost predicate GateFree(s: System, id: nat, want: Lock) {
    forall j :: j in s && j != id ==> Compatible(s[j].gate, want)
  }

  ghost predicate SessionFree(s: System, id: nat, want: Lock) {
    forall j :: j in s && j != id ==> Compatible(s[j].session, want)
  }

  /** What `flock` answers: a shared lock is granted exactly while nobody else holds it exclusively, an exclusive one
      exactly while nobody else holds it at all. */
  lemma KernelAnswers(s: System, id: nat)
    requires id in s
    ensures s[id].pc.TryGate? && s[id].mode.SharedLease? ==>
      (Answers(s, id, Granted) <==> forall j :: j in s && j != id ==> !s[j].gate.Exclusive?)
    ensures s[id].pc.TryGate? && s[id].mode.ExclusiveLease? ==>
      (Answers(s, id, Granted) <==> forall j :: j in s && j != id ==> s[j].gate.Unlocked?)
    ensures s[id].pc.TrySession? && s[id].mode.SharedLease? ==>
      (Answers(s, id, Granted) <==> forall j :: j in s && j != id ==> !s[j].session.Exclusive?)
    ensures s[id].pc.TrySession? && s[id].mode.ExclusiveLease? ==>
      (Answers(s, id, Granted) <==> forall j :: j in s && j != id ==> s[j].session.Unlocked?)
    ensures s[id].pc.TryExclusive? ==>
      (Answers(s, id, Granted) <==> forall j :: j in s && j != id ==> s[j].session.Unlocked?)
    ensures s[id].pc.TryGate? || s[id].pc.TrySession? || s[id].pc.TryExclusive? ==>
      (Answers(s, id, WouldBlock) <==> !Answers(s, id, Granted)) && Answers(s, id, Failed)
  {
  }

  /** A shared lease that is idle may ask for the gate, and gets it exactly while nobody else holds it. */
  lemma UpgradeGrantedIff(s: System, id: nat)
    requires id in s && s[id] == Lease(SharedLease, Held, Unlocked, Shared, false)
    ensures Enabled(s, id, Upgrade(Granted)) <==> forall j :: j in s && j != id ==> s[j].gate.Unlocked?
    ensures Enabled(s, id, Upgrade(WouldBlock)) <==> !Enabled(s, id, Upgrade(Granted))
  {
  }

  function Wanted(mode: Mode): Lock {
    if mode.SharedLease? then Shared else Exclusive
  }

  /** A call on a lock that could block answers `Granted` only when it is compatible with every other holder, and
      `WouldBlock` only when it is not. `RestoreWait` is the one blocking call, so it has no `WouldBlock` reply. */
  ghost predicate Answers(s: System, id: nat, reply: Reply)
    requires id in s
  {
    var l := s[id];
    match l.pc
    case TryGate => reply.Failed? || (reply.Granted? <==> GateFree(s, id, Wanted(l.mode)))
    case TrySession => reply.Failed? || (reply.Granted? <==> SessionFree(s, id, Wanted(l.mode)))
    case TryExclusive => reply.Failed? || (reply.Granted? <==> SessionFree(s, id, Exclusive))
    case RestoreRelease(_) => reply.Granted?
    case RestoreWait(_) => reply.Failed? || (reply.Granted? && SessionFree(s, id, Shared))
    case DropGate => !reply.WouldBlock?
    case DropSession => !reply.WouldBlock?
    case RestoreGate(_) => !reply.WouldBlock?
    case _ => false
  }

  ghost predicate Enabled(s: System, id: nat, step: Step)
    requires id in s
  {
    var l := s[id];
    match step
    case Open(_) => false
    case Call(reply) => Answers(s, id, reply)
    case Upgrade(reply) =>
      && l.pc.Held? && l.mode.SharedLease? && !l.publishing
      && (reply.Failed? || (reply.Granted? <==> GateFree(s, id, Exclusive)))
    case OperationEnds(_) => l.pc.Critical?
    case Destroy => l.pc.Held? || l.pc.Broken?
    case Crash => !l.pc.Closing?
    case CloseGate => l.pc.Closing?
    case CloseSession => l.pc.Closing?
  }

  /** `restore` failed: inside the busy path the exception is caught and `restore` runs once more; everywhere else it
      escapes and `publishing_` stays set. */
  function RestoreFailed(l: Lease, exit: Exit): Lease {
    l.(pc := if exit.Busy? then RestoreRelease(Thrown) else Broken)
  }

  function AfterCall(l: Lease, reply: Reply): Lease {
    match l.pc
    case TryGate =>
      if reply.Granted? then l.(gate := Wanted(l.mode), pc := TrySession) else l.(pc := Closing)
    case TrySession =>
      if !reply.Granted? then l.(pc := Closing)
      else l.(session := Wanted(l.mode), pc := if l.mode.SharedLease? then DropGate else Held)
    case DropGate =>
      if reply.Granted? then l.(gate := Unlocked, pc := Held) else l.(pc := Closing)
    case DropSession =>
      if reply.Granted? then l.(session := Unlocked, pc := TryExclusive) else l.(pc := RestoreRelease(Thrown))
    case TryExclusive =>
      (match reply
       case Granted => l.(session := Exclusive, pc := Critical)
       case WouldBlock => l.(pc := RestoreRelease(Busy))
       case Failed => l.(pc := RestoreRelease(Thrown)))
    case RestoreRelease(exit) => l.(session := Unlocked, pc := RestoreWait(exit))
    case RestoreWait(exit) =>
      if reply.Granted? then l.(session := Shared, pc := RestoreGate(exit)) else RestoreFailed(l, exit)
    case RestoreGate(exit) =>
      if reply.Granted? then l.(gate := Unlocked, publishing := false, pc := Held) else RestoreFailed(l, exit)
    case _ => l
  }

  function After(l: Lease, step: Step): Lease {
    match step
    case Open(_) => l
    case Call(reply) => AfterCall(l, reply)
    case Upgrade(reply) =>
      if reply.Granted? then l.(gate := Exclusive, publishing := true, pc := DropSession) else l
    case OperationEnds(threw) => l.(pc := RestoreRelease(if threw then Thrown else Done))
    case Destroy => l.(pc := Closing)
    case Crash => l.(pc := Closing)
    case CloseGate => l.(gate := Unlocked)
    case CloseSession => l.(session := Unlocked)
  }

  ghost predicate Takes(s: System, id: nat, step: Step, s': System) {
    if step.Open? then id !in s && s' == s[id := Lease(step.mode, TryGate, Unlocked, Unlocked, false)]
    else id in s && Enabled(s, id, step) && s' == s[id := After(s[id], step)]
  }

  ghost predicate Next(s: System, s': System) {
    exists id: nat, step :: Takes(s, id, step, s')
  }

  ghost predicate Behavior(run: seq<System>) {
    && |run| > 0 && run[0] == map[]
    && forall i :: 0 <= i < |run| - 1 ==> Next(run[i], run[i + 1])
  }

  // ------------------------------------------------------------------------------------------------------ invariant

  /** Between the gate's upgrade and its release (or for good, when `restore` failed). */
  predicate Upgrading(l: Lease) {
    match l.pc
    case DropSession | TryExclusive | Critical => true
    case RestoreRelease(_) | RestoreWait(_) | RestoreGate(_) => true
    case Broken => true
    case _ => false
  }

  predicate LocalInv(l: Lease) {
    match l.pc
    case TryGate => l.gate.Unlocked? && l.session.Unlocked? && !l.publishing
    case TrySession => l.gate == Wanted(l.mode) && l.session.Unlocked? && !l.publishing
    case DropGate => l.mode.SharedLease? && l.gate.Shared? && l.session.Shared? && !l.publishing
    case Held =>
      && !l.publishing && l.session == Wanted(l.mode)
      && l.gate == (if l.mode.SharedLease? then Unlocked else Exclusive)
    case Closing => true
    case _ =>
      && l.mode.SharedLease? && l.publishing && l.gate.Exclusive?
      && (l.pc.DropSession? ==> l.session.Shared?)
      && (l.pc.TryExclusive? || l.pc.RestoreWait? ==> l.session.Unlocked?)
      && (l.pc.Critical? ==> l.session.Exclusive?)
      && (l.pc.RestoreGate? ==> l.session.Shared?)
      && (l.pc.Broken? ==> !l.session.Exclusive?)
  }

  ghost predicate Excludes(s: System) {
    forall i, j :: i in s && j in s && i != j ==>
      Compatible(s[i].gate, s[j].gate) && Compatible(s[i].session, s[j].session)
  }

  /** While one lease upgrades, no other description holds the session lock exclusively: not even one that is being
      closed by a dying process whose gate is already gone. */
  ghost predicate Quiet(s: System) {
    forall i, j :: i in s && j in s && i != j && Upgrading(s[i]) ==> !s[j].session.Exclusive?
  }

  ghost predicate Inv(s: System) {
    && (forall i :: i in s ==> LocalInv(s[i]))
    && Excludes(s)
    && Quiet(s)
  }

  lemma StepKeepsLocal(s: System, id: nat, step: Step)
    requires id in s && LocalInv(s[id]) && Enabled(s, id, step)
    ensures LocalInv(After(s[id], step))
  {
  }

  lemma StepKeepsExclusion(s: System, id: nat, step: Step, j: nat)
    requires Inv(s) && id in s && j in s && j != id && Enabled(s, id, step)
    ensures Compatible(After(s[id], step).gate, s[j].gate)
    ensures Compatible(After(s[id], step).session, s[j].session)
  {
    assert Compatible(s[id].gate, s[j].gate) && Compatible(s[id].session, s[j].session);
  }

  lemma StepKeepsQuiet(s: System, id: nat, step: Step, j: nat)
    requires Inv(s) && id in s && j in s && j != id && Enabled(s, id, step)
    ensures Upgrading(After(s[id], step)) ==> !s[j].session.Exclusive?
    ensures Upgrading(s[j]) ==> !After(s[id], step).session.Exclusive?
  {
    assert Compatible(s[id].gate, s[j].gate) && Compatible(s[id].session, s[j].session);
    assert LocalInv(s[id]) && LocalInv(s[j]);
  }

  lemma StepKeepsInv(s: System, id: nat, step: Step, s': System)
    requires Inv(s) && Takes(s, id, step, s')
    ensures Inv(s')
  {
    if !step.Open? {
      StepKeepsLocal(s, id, step);
      forall j | j in s && j != id
        ensures Compatible(s'[id].gate, s'[j].gate) && Compatible(s'[id].session, s'[j].session)
        ensures Upgrading(s'[id]) ==> !s'[j].session.Exclusive?
        ensures Upgrading(s'[j]) ==> !s'[id].session.Exclusive?
      {
        StepKeepsExclusion(s, id, step, j);
        StepKeepsQuiet(s, id, step, j);
      }
    }
  }

  lemma {:induction false} EveryStateKeepsInv(run: seq<System>, i: nat)
    requires Behavior(run) && i < |run|
    ensures Inv(run[i])
  {
    if i > 0 {
      EveryStateKeepsInv(run, i - 1);
      assert Next(run[i - 1], run[i - 1 + 1]);
      var id: nat, step :| Takes(run[i - 1], id, step, run[i]);
      StepKeepsInv(run[i - 1], id, step, run[i]);
    }
  }

  // ------------------------------------------------------------------------------------------------- what it promises

  /** In every reachable state the session lock is held exclusively only together with the gate, or by a description
      that is already being closed. */
  lemma SessionExclusiveNeedsGate(run: seq<System>, i: nat, id: nat)
    requires Behavior(run) && i < |run| && id in run[i]
    requires run[i][id].session.Exclusive?
    ensures run[i][id].gate.Exclusive? || run[i][id].pc.Closing?
  {
    EveryStateKeepsInv(run, i);
  }

  /** While `operation()` runs no other lease, in any process, holds either lock, and none can be inside its own. */
  lemma OperationRunsAlone(run: seq<System>, i: nat, id: nat, other: nat)
    requires Behavior(run) && i < |run| && id in run[i] && other in run[i] && other != id
    requires run[i][id].pc.Critical?
    ensures run[i][other].session.Unlocked? && run[i][other].gate.Unlocked?
    ensures !Upgrading(run[i][other]) && !run[i][other].pc.Held?
  {
    EveryStateKeepsInv(run, i);
    assert Compatible(run[i][id].gate, run[i][other].gate);
    assert Compatible(run[i][id].session, run[i][other].session);
  }

  /** The blocking `LOCK_SH` of `restore` is compatible with every other holder the moment it is issued. */
  lemma RestoreNeverWaits(run: seq<System>, i: nat, id: nat)
    requires Behavior(run) && i < |run| && id in run[i]
    requires run[i][id].pc.RestoreWait?
    ensures SessionFree(run[i], id, Shared)
    ensures Enabled(run[i], id, Call(Granted))
  {
    EveryStateKeepsInv(run, i);
  }

  /** The number of calls an upgrading lease still has to make before it is back in service. */
  function CallsLeft(l: Lease): nat {
    match l.pc
    case DropSession => 6
    case TryExclusive => 5
    case Critical => 4
    case RestoreRelease(_) => 3
    case RestoreWait(_) => 2
    case RestoreGate(_) => 1
    case _ => 0
  }

  /** From every reachable upgrading state, whatever the other leases are doing, the lease's own next call can answer
      and brings it closer to `Held`; only a failing lock-restoring call ever leads to `Broken`. */
  lemma UpgradeAlwaysFinishes(run: seq<System>, i: nat, id: nat) returns (step: Step)
    requires Behavior(run) && i < |run| && id in run[i]
    requires Upgrading(run[i][id]) && !run[i][id].pc.Broken?
    ensures step != Crash && Enabled(run[i], id, step)
    ensures step.Call? ==> !step.reply.Failed?
    ensures var l := After(run[i][id], step);
            CallsLeft(l) < CallsLeft(run[i][id]) && !l.pc.Broken? && !l.pc.Closing?
  {
    EveryStateKeepsInv(run, i);
    var l := run[i][id];
    match l.pc {
      case Critical => step := OperationEnds(true);
      case TryExclusive => step := Call(if SessionFree(run[i], id, Exclusive) then Granted else WouldBlock);
      case _ => step := Call(Granted);
    }
  }

  /** Every way out of `exclusively` whose lock-restoring calls succeed - refused at the gate, refused at the session
      lock, an operation that returned, an operation or a call that threw - hands back exactly the lease that went
      in. */
  lemma ExitRestoresTheLease(run: seq<System>, i: nat, id: nat)
    requires Behavior(run) && i < |run| && id in run[i]
    requires run[i][id].pc.Held? && run[i][id].mode.SharedLease?
    ensures run[i][id] == Lease(SharedLease, Held, Unlocked, Shared, false)
  {
    EveryStateKeepsInv(run, i);
  }

  /** An upgrading lease becomes unusable only through a failed call of `restore`, and even then it keeps the gate, so
      nobody else can publish or join before its process ends. */
  lemma BrokenLeaseStillBlocksPublication(run: seq<System>, i: nat, id: nat, other: nat)
    requires Behavior(run) && i < |run| && id in run[i] && other in run[i] && other != id
    requires run[i][id].pc.Broken?
    ensures !run[i][other].pc.TrySession? && !run[i][other].pc.DropGate? && !Upgrading(run[i][other])
    ensures !(run[i][other].pc.Held? && run[i][other].mode.ExclusiveLease?)
  {
    EveryStateKeepsInv(run, i);
    assert Compatible(run[i][id].gate, run[i][other].gate);
  }
}
