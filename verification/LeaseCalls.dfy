/** `acquire`, `exclusively` and its `restore` as the program runs them, one `flock` call after another. Whatever the
    kernel answers, the calls of one lease are steps of the system in `DictionaryLease`, so everything proved there
    about interleavings holds of this code. */
module LeaseCalls {
  import opened DictionaryLease

  /** A step as the lease itself sees it: which calls it may make now, and which replies they have. */
  predicate Permitted(l: Lease, step: Step) {
    match step
    case Call(reply) =>
      (match l.pc
       case TryGate | TrySession | TryExclusive => true
       case RestoreRelease(_) => reply.Granted?
       case RestoreWait(_) | DropGate | DropSession | RestoreGate(_) => !reply.WouldBlock?
       case _ => false)
    case Upgrade(_) => l.pc.Held? && l.mode.SharedLease? && !l.publishing
    case OperationEnds(_) => l.pc.Critical?
    case CloseGate | CloseSession => l.pc.Closing?
    case _ => false
  }

  /** The steps lead from one state of the lease to the other. */
  ghost predicate Follows(from: Lease, steps: seq<Step>, to: Lease) {
    if steps == [] then from == to
    else
      var n := |steps| - 1;
      exists middle :: Follows(from, steps[..n], middle) && Permitted(middle, steps[n]) && to == After(middle, steps[n])
  }

  lemma FollowsOne(from: Lease, steps: seq<Step>, middle: Lease, step: Step)
    requires Follows(from, steps, middle) && Permitted(middle, step)
    ensures Follows(from, steps + [step], After(middle, step))
  {
    assert (steps + [step])[..|steps|] == steps;
  }

  /** Whatever the system lets a lease do besides opening, ending and crashing, its own program permits. */
  lemma EnabledIsPermitted(s: System, id: nat, step: Step)
    requires id in s && Enabled(s, id, step) && !step.Destroy? && !step.Crash?
    ensures Permitted(s[id], step)
  {
  }

  /** A permitted step whose reply the kernel can give is a step of the system, and it changes this lease alone. */
  lemma PermittedIsStep(s: System, id: nat, step: Step)
    requires id in s && Permitted(s[id], step)
    requires step.Call? ==> Answers(s, id, step.reply)
    requires step.Upgrade? ==> step.reply.Failed? || (step.reply.Granted? <==> GateFree(s, id, Exclusive))
    ensures Takes(s, id, step, s[id := After(s[id], step)])
  {
  }

  datatype Outcome = Returned(ran: bool) | Threw

  /** How far `exclusively` gets before its operation: into it, refused by another holder, or stopped by a failed
      call. */
  datatype Attempt = Entered | Refused | Faulted

  class LeaseObject {
    const mode: Mode
    var gate: Lock
    var session: Lock
    var publishing: bool
    ghost var pc: Pc
    ghost var start: Lease
    ghost var steps: seq<Step>
    /** How many calls failed, how many found another holder in the way, and how each operation ended. */
    ghost var failed: nat
    ghost var blocked: nat
    ghost var ended: seq<bool>

    ghost function View(): Lease
      reads this
    {
      Lease(mode, pc, gate, session, publishing)
    }

    /** The calls made so far are a path of the automaton. */
    ghost predicate OnPath()
      reads this
    {
      Follows(start, steps, View())
    }

    constructor (mode: Mode)
      ensures View() == start == Lease(mode, TryGate, Unlocked, Unlocked, false) && steps == [] && OnPath()
    {
      this.mode, gate, session, publishing := mode, Unlocked, Unlocked, false;
      pc, start, steps := TryGate, Lease(mode, TryGate, Unlocked, Unlocked, false), [];
      failed, blocked, ended := 0, 0, [];
    }

    /** `flock` on a lock held as `held`: releasing keeps the lock when it fails; a conversion that fails has
        released. */
    method Flock(held: Lock, want: Lock, blocking: bool) returns (reply: Reply, now: Lock)
      modifies this`failed, this`blocked
      ensures failed == old(failed) + (if reply.Failed? then 1 else 0)
      ensures blocked == old(blocked) + (if reply.WouldBlock? then 1 else 0)
      ensures reply.WouldBlock? ==> !blocking && !want.Unlocked?
      ensures now == if reply.Granted? then want else if want.Unlocked? then held else Unlocked
    {
      reply := *;
      if reply.WouldBlock? && (blocking || want.Unlocked?) {
        reply := Failed;
      }
      failed := failed + if reply.Failed? then 1 else 0;
      blocked := blocked + if reply.WouldBlock? then 1 else 0;
      now := if reply.Granted? then want else if want.Unlocked? then held else Unlocked;
    }

    ghost method Log(step: Step, before: Lease)
      requires Follows(start, steps, before) && Permitted(before, step)
      requires gate == After(before, step).gate && session == After(before, step).session
      requires publishing == After(before, step).publishing && mode == before.mode
      modifies this`pc, this`steps
      ensures View() == After(before, step) && OnPath() && steps == old(steps) + [step]
    {
      FollowsOne(start, steps, before, step);
      pc := After(before, step).pc;
      steps := steps + [step];
    }

    /** The body of `acquire` once the lock files are open. */
    method Acquire() returns (r: Outcome)
      requires OnPath() && View() == Lease(mode, TryGate, Unlocked, Unlocked, false)
      modifies this
      ensures OnPath() && start == old(start)
      ensures r == Returned(true) ==>
        View() == Lease(mode, Held, if mode.SharedLease? then Unlocked else Exclusive, Wanted(mode), false)
      ensures r != Returned(true) ==> pc.Closing? && !publishing
      ensures r == Returned(true) <==> failed == old(failed) && blocked == old(blocked)
      ensures r == Returned(false) <==> blocked > old(blocked)
      ensures r == Threw <==> failed > old(failed)
    {
      hide Follows;
      var reply;
      ghost var before := View();
      reply, gate := Flock(gate, Wanted(mode), false);
      Log(Call(reply), before);
      if !reply.Granted? { return if reply.WouldBlock? then Returned(false) else Threw; }
      before := View();
      reply, session := Flock(session, Wanted(mode), false);
      Log(Call(reply), before);
      if !reply.Granted? { return if reply.WouldBlock? then Returned(false) else Threw; }
      if mode.SharedLease? {
        before := View();
        reply, gate := Flock(gate, Unlocked, true);
        Log(Call(reply), before);
        if !reply.Granted? { return Threw; }
      }
      r := Returned(true);
    }

    /** `restore`: share the session lock again, then let the gate go. */
    method Restore(ghost exit: Exit) returns (ok: bool)
      requires OnPath() && mode.SharedLease? && pc == RestoreRelease(exit) && gate.Exclusive? && publishing
      modifies this`gate, this`session, this`publishing, this`pc, this`steps, this`failed, this`blocked, this`ended
      ensures OnPath() && CallsOnly(old(steps), steps)
      ensures blocked == old(blocked) && ended == old(ended) && failed >= old(failed)
      ensures ok <==> failed == old(failed)
      ensures ok ==> View() == Lease(SharedLease, Held, Unlocked, Shared, false)
      ensures !ok ==> gate.Exclusive? && publishing && !session.Exclusive?
                      && pc == (if exit.Busy? then RestoreRelease(Thrown) else Broken)
    {
      hide Follows;
      ok := ShareAgain(exit);
      if ok { ok := FreeGate(exit); }
    }

    /** The blocking conversion back to a shared session lock: the kernel releases, then acquires. */
    method ShareAgain(ghost exit: Exit) returns (ok: bool)
      requires OnPath() && mode.SharedLease? && pc == RestoreRelease(exit) && gate.Exclusive? && publishing
      modifies this`session, this`pc, this`steps, this`failed, this`blocked
      ensures OnPath() && CallsOnly(old(steps), steps)
      ensures blocked == old(blocked) && failed >= old(failed) && (ok <==> failed == old(failed))
      ensures ok ==> View() == Lease(SharedLease, RestoreGate(exit), Exclusive, Shared, true)
      ensures !ok ==> !session.Exclusive? && pc == (if exit.Busy? then RestoreRelease(Thrown) else Broken)
    {
      hide Follows;
      var reply;
      ghost var before := View();
      reply, session := Flock(session, Shared, true);
      var after := session;
      session := Unlocked;  // the conversion's release
      Log(Call(Granted), before);
      before := View();
      session := after;
      Log(Call(reply), before);
      ok := reply.Granted?;
    }

    method FreeGate(ghost exit: Exit) returns (ok: bool)
      requires OnPath() && View() == Lease(SharedLease, RestoreGate(exit), Exclusive, Shared, true)
      modifies this`gate, this`publishing, this`pc, this`steps, this`failed, this`blocked
      ensures OnPath() && CallsOnly(old(steps), steps)
      ensures blocked == old(blocked) && failed >= old(failed) && (ok <==> failed == old(failed))
      ensures ok ==> View() == Lease(SharedLease, Held, Unlocked, Shared, false)
      ensures !ok ==> gate.Exclusive? && publishing && pc == (if exit.Busy? then RestoreRelease(Thrown) else Broken)
    {
      hide Follows;
      var reply;
      ghost var before := View();
      reply, gate := Flock(gate, Unlocked, true);
      ok := reply.Granted?;
      if ok { publishing := false; }
      Log(Call(reply), before);
    }

    /** The first half of the `try` block: let the shared session lock go and ask for it exclusively. */
    method Convert() returns (reply: Reply)
      requires OnPath() && View() == Lease(SharedLease, DropSession, Exclusive, Shared, true)
      modifies this`session, this`pc, this`steps, this`failed, this`blocked
      ensures OnPath() && CallsOnly(old(steps), steps)
      ensures reply.Granted? ==> View() == Lease(SharedLease, Critical, Exclusive, Exclusive, true)
      ensures !reply.Granted? ==> pc == RestoreRelease(if reply.WouldBlock? then Busy else Thrown)
      ensures reply.Failed? <==> failed > old(failed)
      ensures failed >= old(failed) && blocked == old(blocked) + (if reply.WouldBlock? then 1 else 0)
      ensures reply.WouldBlock? ==> |steps| > |old(steps)| && steps[|steps| - 1] == Call(WouldBlock)
    {
      hide Follows;
      ghost var before := View();
      reply, session := Flock(session, Unlocked, true);
      Log(Call(reply), before);
      if !reply.Granted? { return Failed; }
      before := View();
      reply, session := Flock(session, Exclusive, false);
      Log(Call(reply), before);
    }

    /** Leaving without having run the operation. When restoring fails on the busy path, the `catch` tries once more. */
    method GiveBack(busy: bool) returns (r: Outcome)
      requires OnPath() && mode.SharedLease? && pc == RestoreRelease(if busy then Busy else Thrown) && gate.Exclusive?
               && publishing
      modifies this`gate, this`session, this`publishing, this`pc, this`steps, this`failed, this`blocked, this`ended
      ensures OnPath() && CallsOnly(old(steps), steps)
      ensures r.Threw? || (r == Returned(false) && busy)
      ensures blocked == old(blocked) && ended == old(ended) && failed >= old(failed)
      ensures r.Returned? <==> busy && failed == old(failed)
      ensures View() == Lease(SharedLease, Held, Unlocked, Shared, false)
              || (r.Threw? && pc.Broken? && gate.Exclusive? && publishing && !session.Exclusive?)
    {
      hide Follows;
      var restored := Restore(if busy then Busy else Thrown);
      if !busy { return Threw; }
      if restored { return Returned(false); }
      restored := Restore(Thrown);
      r := Threw;
    }

    /** `exclusively` up to its operation. */
    method Enter() returns (r: Attempt)
      requires OnPath() && (pc.Held? || pc.Broken?) && LocalInv(View())
      modifies this`gate, this`session, this`publishing, this`pc, this`steps, this`failed, this`blocked, this`ended
      ensures OnPath() && LocalInv(View()) && old(steps) <= steps && OnlyLocks(steps[|old(steps)|..])
      ensures !mode.SharedLease? || old(publishing) ==>
        r.Faulted? && View() == old(View()) && steps == old(steps) && failed == old(failed) && blocked == old(blocked)
      ensures r.Entered? ==> View() == Lease(SharedLease, Critical, Exclusive, Exclusive, true)
      ensures failed >= old(failed) && blocked >= old(blocked) && ended == old(ended)
      ensures r.Faulted? <==> !mode.SharedLease? || old(publishing) || failed > old(failed)
      ensures r.Refused? <==> mode.SharedLease? && !old(publishing) && failed == old(failed) && blocked > old(blocked)
      ensures r.Refused? ==> View() == old(View()) && Blocked(steps[|old(steps)|..])
      ensures r.Faulted? ==>
        View() == old(View()) || (pc.Broken? && gate.Exclusive? && publishing && !session.Exclusive?)
    {
      hide Follows, CallsOnly, OnlyLocks, Blocked;
      NothingDone(steps);
      if !mode.SharedLease? || publishing { return Faulted; }
      ghost var before := View();
      var reply;
      reply, gate := Flock(gate, Exclusive, false);
      if !reply.Granted? {
        Log(Upgrade(reply), before);
        UpgradeOnly(old(steps), Upgrade(reply), steps);
        return if reply.WouldBlock? then Refused else Faulted;
      }
      publishing := true;
      Log(Upgrade(reply), before);
      ghost var upgraded := steps;
      reply := Convert();
      ghost var converted := steps;
      if reply.Granted? {
        UpgradeThenCalls(old(steps), Upgrade(Granted), upgraded, converted, converted);
        return Entered;
      }
      var back := GiveBack(reply.WouldBlock?);
      UpgradeThenCalls(old(steps), Upgrade(Granted), upgraded, converted, steps);
      r := if back.Returned? then Refused else Faulted;
    }

    /** `exclusively` from the end of its operation on. */
    method Leave(threw: bool) returns (ok: bool)
      requires OnPath() && View() == Lease(SharedLease, Critical, Exclusive, Exclusive, true)
      modifies this`gate, this`session, this`publishing, this`pc, this`steps, this`failed, this`blocked, this`ended
      ensures OnPath() && LocalInv(View()) && CallsOnly(old(steps) + [OperationEnds(threw)], steps)
      ensures blocked == old(blocked) && ended == old(ended) + [threw] && failed >= old(failed)
      ensures ok <==> failed == old(failed)
      ensures ok ==> View() == Lease(SharedLease, Held, Unlocked, Shared, false)
      ensures !ok ==> mode.SharedLease? && pc.Broken? && gate.Exclusive? && publishing && !session.Exclusive?
    {
      hide Follows, CallsOnly;
      ghost var before := View();
      Log(OperationEnds(threw), before);
      ended := ended + [threw];
      ok := Restore(if threw then Thrown else Done);
    }

    /** `exclusively`. However it ends, a lease whose restoring calls succeed is the lease that went in; it returns true
        exactly when the operation ran to its end, which it does only under both exclusive locks. */
    method Exclusively() returns (r: Outcome)
      requires OnPath() && (pc.Held? || pc.Broken?) && LocalInv(View())
      modifies this`gate, this`session, this`publishing, this`pc, this`steps, this`failed, this`blocked, this`ended
      ensures OnPath() && LocalInv(View()) && old(steps) <= steps
      ensures !mode.SharedLease? || old(publishing) ==> r.Threw? && View() == old(View()) && steps == old(steps)
      ensures r.Returned? ==> View() == old(View())
      ensures r.Threw? ==> View() == old(View()) || (pc.Broken? && gate.Exclusive? && publishing && !session.Exclusive?)
      ensures r.Returned? ==> (r.ran <==> OperationEnds(false) in steps[|old(steps)|..])
      ensures r == Returned(false) ==> Blocked(steps[|old(steps)|..])
      ensures OperationEnds(true) in steps[|old(steps)|..] ==> r.Threw?
      ensures failed >= old(failed) && blocked >= old(blocked)
      ensures r == Returned(true) <==> ended == old(ended) + [false] && failed == old(failed)
      ensures r == Returned(false) <==>
              mode.SharedLease? && !old(publishing) && failed == old(failed) && blocked > old(blocked)
      ensures r.Threw? <==>
              !mode.SharedLease? || old(publishing) || failed > old(failed) || ended == old(ended) + [true]
    {
      hide Follows, CallsOnly, OnlyLocks, Blocked;
      var attempt := Enter();
      ghost var entered := steps;
      if !attempt.Entered? {
        NoOperation(steps[|old(steps)|..]);
        return if attempt.Refused? then Returned(false) else Threw;
      }
      var threw: bool := *;
      var restored := Leave(threw);
      assert ended[|ended| - 1] == threw;
      OneOperation(old(steps), entered, threw, steps);
      r := if restored && !threw then Returned(true) else Threw;
    }
  }

  /** Everything made since is a lock call. */
  predicate CallsOnly(before: seq<Step>, now: seq<Step>) {
    before <= now && forall i :: |before| <= i < |now| ==> now[i].Call?
  }

  /** Upgrades and lock calls, and no operation. */
  predicate OnlyLocks(steps: seq<Step>) {
    forall step :: step in steps ==> step.Upgrade? || step.Call?
  }

  /** Some other holder stood in the way. */
  predicate Blocked(steps: seq<Step>) {
    Upgrade(WouldBlock) in steps || Call(WouldBlock) in steps
  }

  lemma NothingDone(steps: seq<Step>)
    ensures OnlyLocks(steps[|steps|..])
  {
  }

  lemma UpgradeOnly(a: seq<Step>, step: Step, b: seq<Step>)
    requires b == a + [step] && step.Upgrade?
    ensures a <= b && OnlyLocks(b[|a|..]) && (step.reply.WouldBlock? ==> Blocked(b[|a|..]))
  {
    assert b[|a|..] == [step];
  }

  lemma UpgradeThenCalls(a: seq<Step>, step: Step, b: seq<Step>, c: seq<Step>, d: seq<Step>)
    requires b == a + [step] && step.Upgrade? && CallsOnly(b, c) && CallsOnly(c, d)
    ensures a <= d && OnlyLocks(d[|a|..])
    ensures |c| > |b| && c[|c| - 1] == Call(WouldBlock) ==> Blocked(d[|a|..])
  {
    forall i | |a| <= i < |d| ensures d[i].Call? || d[i].Upgrade? {
      if i == |a| {
        assert d[i] == b[i];
      } else if i < |c| {
        assert d[i] == c[i];
      }
    }
    assert a == b[..|a|] == c[..|a|] == d[..|a|];
    if |c| > |b| && c[|c| - 1] == Call(WouldBlock) {
      assert d[|a|..][|c| - 1 - |a|] == d[|c| - 1] == c[|c| - 1];
    }
  }

  lemma NoOperation(steps: seq<Step>)
    requires OnlyLocks(steps)
    ensures forall threw :: OperationEnds(threw) !in steps
  {
  }

  lemma OneOperation(a: seq<Step>, c: seq<Step>, threw: bool, e: seq<Step>)
    requires a <= c && OnlyLocks(c[|a|..]) && CallsOnly(c + [OperationEnds(threw)], e)
    ensures a <= e && OperationEnds(threw) in e[|a|..] && OperationEnds(!threw) !in e[|a|..]
  {
    var d := c + [OperationEnds(threw)];
    forall i | |a| <= i < |e| ensures e[i] != OperationEnds(!threw) {
      if i < |c| {
        assert e[i] == d[i] == c[i];
        assert c[i] in c[|a|..];
      } else if i == |c| {
        assert e[i] == d[i];
      }
    }
    assert e[|a|..][|c| - |a|] == e[|c|] == d[|c|];
    assert a == c[..|a|] == d[..|a|] == e[..|a|];
  }
}
