// The exit/wait protocol: fork, exit, wait, sleep, wakeup and the scheduler's hand-over of p->lock, as
// interleaved steps of any number of processes. A section that holds a single p->lock and takes no other
// lock is one step, enabled when that lock is free.
module Proc {
  import opened Options

  datatype State = UNUSED | USED | SLEEPING | RUNNABLE | RUNNING | ZOMBIE

  datatype Channel = NoChan | OnProc(p: nat) | Elsewhere(c: nat)

  /** Who holds a p->lock: no one, the kernel thread of a process, or a scheduler loop. */
  datatype Holder = Nobody | Thread(q: nat) | Scheduler

  /** Where sched() returns to. */
  datatype Return = ToKernel | ToWait | ToAgain | ToUnlocked(t: nat) | ToLinked(t: nat) | Never

  datatype Pc =
    | Kernel                              // outside the protocol, holding neither wait_lock nor a p->lock
    | Sched(back: Return)                 // in sched(), or switched out there
    | ForkFilling(t: nat)                 // fork: allocproc returned t, locked
    | ForkUnlocked(t: nat)                // fork: before taking wait_lock
    | ForkLinked(t: nat)                  // fork: parent set, before making t runnable
    | Reparent(i: nat)                    // exit: at slot i of reparent's scan
    | WakeInit(i: nat, j: nat)            // exit: slot i given to init, wakeup(initproc) at slot j
    | WakeParent(j: nat)                  // exit: wakeup(p->parent) at slot j
    | ExitUnlock                          // exit: a zombie, before releasing wait_lock
    | Scan(i: nat, kids: bool)            // wait: at slot i of the scan
    | WaitReturn                          // wait: before releasing wait_lock and returning
    | SleepWanted                         // wait: has decided to sleep, before taking its own lock
    | SleepLocked                         // sleep: own lock taken, before releasing wait_lock
    | SleepReleased                       // sleep: wait_lock released, before going to sleep
    | WaitAgain                           // sleep: woken, before taking wait_lock back

  datatype Process = Process(state: State, chan: Channel, killed: bool, xstate: int, pid: nat,
                             parent: Option<nat>, lock: Holder, onCpu: bool, pc: Pc)

  /** The rest records history: who forked each process, the status it exited with, and what wait
      returned: a pid, its status, and the pid of the caller. */
  datatype Sys = Sys(procs: seq<Process>, initproc: nat, waitLock: Option<nat>, nextpid: nat,
                     born: map<nat, nat>, exits: map<nat, int>, reaps: seq<(nat, int, nat)>)

  datatype Step =
    | SchedLook(t: nat) | Dispatch(t: nat) | SchedRelease(t: nat) | SwitchOut(p: nat) | Resume(p: nat)
    | Yield(p: nat) | SleepElsewhere(p: nat, c: nat) | WakeElsewhere(t: nat, c: nat) | Kill(t: nat)
    | ForkAlloc(p: nat, t: nat) | ForkFail(p: nat) | ForkUnlock(p: nat) | ForkLink(p: nat) | ForkStart(p: nat)
    | ExitStart(p: nat) | ReparentOne(p: nat) | WakeInitOne(p: nat) | WakeParentOne(p: nat)
    | BecomeZombie(p: nat, status: int) | ExitRelease(p: nat)
    | WaitStart(p: nat) | ScanOne(p: nat) | CopyFail(p: nat) | Reap(p: nat) | WaitGiveUp(p: nat)
    | WaitFinish(p: nat) | WaitOn(p: nat) | SleepLock(p: nat) | SleepRelease(p: nat) | SleepNow(p: nat)
    | WaitRetake(p: nat)

  // ---- The steps --------------------------------------------------------------------------------

  function Who(step: Step): (p: nat) {
    match step
    case SchedLook(t) => t case Dispatch(t) => t case SchedRelease(t) => t
    case WakeElsewhere(t, _) => t case Kill(t) => t
    case SwitchOut(p) => p case Resume(p) => p case Yield(p) => p case SleepElsewhere(p, _) => p
    case ForkAlloc(p, _) => p case ForkFail(p) => p case ForkUnlock(p) => p case ForkLink(p) => p
    case ForkStart(p) => p
    case ExitStart(p) => p case ReparentOne(p) => p case WakeInitOne(p) => p case WakeParentOne(p) => p
    case BecomeZombie(p, _) => p case ExitRelease(p) => p
    case WaitStart(p) => p case ScanOne(p) => p case CopyFail(p) => p case Reap(p) => p
    case WaitGiveUp(p) => p case WaitFinish(p) => p case WaitOn(p) => p case SleepLock(p) => p
    case SleepRelease(p) => p case SleepNow(p) => p case WaitRetake(p) => p
  }

  predicate Fits(s: Sys) {
    s.initproc < |s.procs|
  }

  /** Slot t of a scan by p is a child of p that has exited, and its lock is free. */
  predicate AtZombie(s: Sys, p: nat) {
    && p < |s.procs| && s.procs[p].pc.Scan? && s.procs[p].pc.i < |s.procs|
    && var c := s.procs[s.procs[p].pc.i];
       c.parent == Some(p) && c.lock == Nobody && c.state == ZOMBIE
  }

  /** No lock is held, so interrupts are on and the timer may cause a yield. */
  predicate Preemptible(pc: Pc) {
    pc == Kernel || pc.ForkUnlocked? || pc.ForkLinked? || pc == WaitAgain
  }

  function Preempted(pc: Pc): (back: Return)
    requires Preemptible(pc)
    ensures BackAt(back) == pc
  {
    match pc
    case Kernel => ToKernel
    case ForkUnlocked(t) => ToUnlocked(t)
    case ForkLinked(t) => ToLinked(t)
    case WaitAgain => ToAgain
  }

  function BackAt(back: Return): (pc: Pc) {
    match back
    case ToWait => WaitAgain
    case ToAgain => WaitAgain
    case ToUnlocked(t) => ForkUnlocked(t)
    case ToLinked(t) => ForkLinked(t)
    case _ => Kernel
  }

  predicate Enabled(s: Sys, step: Step) {
    && Who(step) < |s.procs|
    && var p := Who(step);
       var me := s.procs[p];
       var n := |s.procs|;
       match step
       // scheduler
       case SchedLook(t) => me.lock == Nobody
       case Dispatch(t) => me.lock == Nobody && me.state == RUNNABLE
       case SchedRelease(t) => me.lock == Scheduler
       case WakeElsewhere(t, c) => me.lock == Nobody && me.state == SLEEPING && me.chan == Elsewhere(c)
       case Kill(t) => me.lock == Nobody
       // threads
       case SwitchOut(_) => me.onCpu && me.pc.Sched? && me.lock == Thread(p) && me.state != RUNNING
       case Resume(_) => me.onCpu && me.pc.Sched? && me.lock == Thread(p) && me.state == RUNNING
       case Yield(_) => me.onCpu && Preemptible(me.pc) && me.lock == Nobody
       case SleepElsewhere(_, c) => me.onCpu && me.pc == Kernel && me.lock == Nobody
       case ForkAlloc(_, t) =>
         me.onCpu && me.pc == Kernel && t < n && s.procs[t].state == UNUSED && s.procs[t].lock == Nobody
       case ForkFail(_) => me.onCpu && me.pc.ForkFilling? && me.pc.t < n
       case ForkUnlock(_) => me.onCpu && me.pc.ForkFilling? && me.pc.t < n
       case ForkLink(_) => me.onCpu && me.pc.ForkUnlocked? && me.pc.t < n && s.waitLock == None
       case ForkStart(_) => me.onCpu && me.pc.ForkLinked? && me.pc.t < n && s.procs[me.pc.t].lock == Nobody
       case ExitStart(_) => me.onCpu && me.pc == Kernel && p != s.initproc && s.waitLock == None
       case ReparentOne(_) => me.onCpu && me.pc.Reparent? && s.initproc < n
       case WakeInitOne(_) =>
         me.onCpu && me.pc.WakeInit? && (me.pc.j < n && me.pc.j != p ==> s.procs[me.pc.j].lock == Nobody)
       case WakeParentOne(_) =>
         me.onCpu && me.pc.WakeParent? && me.pc.j < n && (me.pc.j != p ==> s.procs[me.pc.j].lock == Nobody)
       case BecomeZombie(_, _) => me.onCpu && me.pc.WakeParent? && me.pc.j == n && me.lock == Nobody
       case ExitRelease(_) => me.onCpu && me.pc == ExitUnlock
       case WaitStart(_) => me.onCpu && me.pc == Kernel && s.waitLock == None
       case ScanOne(_) =>
         && me.onCpu && me.pc.Scan? && me.pc.i < n
         && (s.procs[me.pc.i].parent == Some(p) ==>
               s.procs[me.pc.i].lock == Nobody && s.procs[me.pc.i].state != ZOMBIE)
       case CopyFail(_) => me.onCpu && AtZombie(s, p)
       case Reap(_) => me.onCpu && AtZombie(s, p)
       case WaitGiveUp(_) => me.onCpu && me.pc.Scan? && me.pc.i == n && (!me.pc.kids || me.killed)
       case WaitFinish(_) => me.onCpu && me.pc == WaitReturn
       case WaitOn(_) => me.onCpu && me.pc.Scan? && me.pc.i == n && me.pc.kids && !me.killed
       case SleepLock(_) => me.onCpu && me.pc == SleepWanted && me.lock == Nobody
       case SleepRelease(_) => me.onCpu && me.pc == SleepLocked
       case SleepNow(_) => me.onCpu && me.pc == SleepReleased
       case WaitRetake(_) => me.onCpu && me.pc == WaitAgain && s.waitLock == None
  }

  /** wakeup's work on one slot. */
  function Woken(x: Process, chan: Channel): (r: Process) {
    if x.state == SLEEPING && x.chan == chan then x.(state := RUNNABLE) else x
  }

  /** freeproc: the slot is empty and its next owner starts at forkret. */
  function Freed(x: Process): (r: Process) {
    x.(state := UNUSED, chan := NoChan, killed := false, xstate := 0, pid := 0, parent := None,
       lock := Nobody, pc := Sched(ToKernel))
  }

  function ChanOf(parent: Option<nat>): (c: Channel) {
    match parent case None => NoChan case Some(q) => OnProc(q)
  }

  /** What a step does: the acting slot's new contents, the one other slot it writes, and wait_lock. */
  datatype Effect = Effect(mine: Process, other: Option<(nat, Process)>, waitLock: Option<nat>)

  function Own(s: Sys, x: Process): (e: Effect) {
    Effect(x, None, s.waitLock)
  }

  function Both(s: Sys, x: Process, t: nat, y: Process): (e: Effect) {
    Effect(x, Some((t, y)), s.waitLock)
  }

  /** wakeup by p at slot j. */
  function WakeSlot(s: Sys, p: nat, j: nat, chan: Channel, x: Process): (e: Effect) {
    if j < |s.procs| && j != p then Both(s, x, j, Woken(s.procs[j], chan)) else Own(s, x)
  }

  function Act(s: Sys, step: Step): (e: Effect)
    requires Enabled(s, step)
  {
    var p := Who(step);
    var me := s.procs[p];
    var n := |s.procs|;
    match step
    case SchedLook(_) => Own(s, me.(lock := Scheduler))
    case Dispatch(_) => Own(s, me.(lock := Thread(p), state := RUNNING, onCpu := true))
    case SchedRelease(_) => Own(s, me.(lock := Nobody))
    case WakeElsewhere(_, c) => Own(s, Woken(me, Elsewhere(c)))
    case Kill(_) => Own(s, me.(killed := true, state := if me.state == SLEEPING then RUNNABLE else me.state))
    case SwitchOut(_) => Own(s, me.(lock := Scheduler, onCpu := false))
    case Resume(_) => Own(s, me.(lock := Nobody, chan := NoChan, pc := BackAt(me.pc.back)))
    case Yield(_) => Own(s, me.(lock := Thread(p), state := RUNNABLE, pc := Sched(Preempted(me.pc))))
    case SleepElsewhere(_, c) =>
      Own(s, me.(lock := Thread(p), state := SLEEPING, chan := Elsewhere(c), pc := Sched(ToKernel)))
    case ForkAlloc(_, t) =>
      Both(s, me.(pc := ForkFilling(t)), t,
           s.procs[t].(state := USED, pid := s.nextpid, lock := Thread(p), pc := Sched(ToKernel)))
    case ForkFail(_) => Both(s, me.(pc := Kernel), me.pc.t, Freed(s.procs[me.pc.t]))
    case ForkUnlock(_) => Both(s, me.(pc := ForkUnlocked(me.pc.t)), me.pc.t, s.procs[me.pc.t].(lock := Nobody))
    case ForkLink(_) => Both(s, me.(pc := ForkLinked(me.pc.t)), me.pc.t, s.procs[me.pc.t].(parent := Some(p)))
    case ForkStart(_) => Both(s, me.(pc := Kernel), me.pc.t, s.procs[me.pc.t].(state := RUNNABLE))
    case ExitStart(_) => Effect(me.(pc := Reparent(0)), None, Some(p))
    case ReparentOne(_) =>
      var i := me.pc.i;
      if i >= n then Own(s, me.(pc := WakeParent(0)))
      else if s.procs[i].parent == Some(p) then
        Both(s, me.(pc := WakeInit(i, 0)), i, s.procs[i].(parent := Some(s.initproc)))
      else Own(s, me.(pc := Reparent(i + 1)))
    case WakeInitOne(_) =>
      var next := if me.pc.j < n then WakeInit(me.pc.i, me.pc.j + 1) else Reparent(me.pc.i + 1);
      WakeSlot(s, p, me.pc.j, OnProc(s.initproc), me.(pc := next))
    case WakeParentOne(_) => WakeSlot(s, p, me.pc.j, ChanOf(me.parent), me.(pc := WakeParent(me.pc.j + 1)))
    case BecomeZombie(_, status) => Own(s, me.(lock := Thread(p), xstate := status, state := ZOMBIE, pc := ExitUnlock))
    case ExitRelease(_) => Effect(me.(pc := Sched(Never)), None, None)
    case WaitStart(_) => Effect(me.(pc := Scan(0, false)), None, Some(p))
    case ScanOne(_) => Own(s, me.(pc := Scan(me.pc.i + 1, me.pc.kids || s.procs[me.pc.i].parent == Some(p))))
    case CopyFail(_) => Own(s, me.(pc := WaitReturn))
    case Reap(_) => Both(s, me.(pc := WaitReturn), me.pc.i, Freed(s.procs[me.pc.i]))
    case WaitGiveUp(_) => Own(s, me.(pc := WaitReturn))
    case WaitFinish(_) => Effect(me.(pc := Kernel), None, None)
    case WaitOn(_) => Own(s, me.(pc := SleepWanted))
    case SleepLock(_) => Own(s, me.(lock := Thread(p), pc := SleepLocked))
    case SleepRelease(_) => Effect(me.(pc := SleepReleased), None, None)
    case SleepNow(_) => Own(s, me.(chan := OnProc(p), state := SLEEPING, pc := Sched(ToWait)))
    case WaitRetake(_) => Effect(me.(pc := Scan(0, false)), None, Some(p))
  }

  function Written(procs: seq<Process>, p: nat, e: Effect): (r: seq<Process>)
    requires p < |procs|
    ensures |r| == |procs|
    ensures forall i :: 0 <= i < |r| ==>
              r[i] == if i == p then e.mine
                      else if e.other.Some? && e.other.value.0 == i then e.other.value.1
                      else procs[i]
  {
    var q := if e.other.Some? && e.other.value.0 < |procs| then procs[e.other.value.0 := e.other.value.1] else procs;
    q[p := e.mine]
  }

  function Do(s: Sys, step: Step): (r: Sys)
    requires Enabled(s, step)
  {
    var p, e := Who(step), Act(s, step);
    Sys(Written(s.procs, p, e), s.initproc, e.waitLock,
        if step.ForkAlloc? then s.nextpid + 1 else s.nextpid,
        if step.ForkAlloc? then s.born[s.nextpid := s.procs[p].pid] else s.born,
        if step.BecomeZombie? then s.exits[s.procs[p].pid := step.status] else s.exits,
        if step.Reap? then var c := s.procs[s.procs[p].pc.i]; s.reaps + [(c.pid, c.xstate, s.procs[p].pid)] else s.reaps)
  }

  // ---- What every step keeps --------------------------------------------------------------------

  predicate HoldsWait(pc: Pc) {
    || pc.Reparent? || pc.WakeInit? || pc.WakeParent? || pc == ExitUnlock
    || pc.Scan? || pc == WaitReturn || pc == SleepWanted || pc == SleepLocked
  }

  predicate HoldsOwn(x: Process) {
    x.onCpu && (x.pc.Sched? || x.pc == ExitUnlock || x.pc == SleepLocked || x.pc == SleepReleased)
  }

  predicate Alive(x: Process) {
    x.state == SLEEPING || x.state == RUNNABLE || x.state == RUNNING
  }

  /** The place a process has reached fixes its state, the locks it holds and whether it is on a CPU. */
  predicate Local(x: Process, p: nat, waitLock: Option<nat>) {
    && (HoldsWait(x.pc) <==> waitLock == Some(p))
    && (x.lock == Thread(p) <==> HoldsOwn(x))
    && (!x.onCpu ==> x.pc.Sched?)
    && (x.onCpu && !x.pc.Sched? && x.pc != ExitUnlock ==> x.state == RUNNING)
    && (x.state == ZOMBIE <==> x.pc == ExitUnlock || x.pc == Sched(Never))
    && (x.state == UNUSED || x.state == USED ==> !x.onCpu && x.pc == Sched(ToKernel))
    && (x.state == RUNNING ==> x.onCpu)
    && (x.state == SLEEPING && x.pc == Sched(ToWait) ==> x.chan == OnProc(p))
  }

  predicate LocalOk(s: Sys) {
    && (s.waitLock.Some? ==> s.waitLock.value < |s.procs|)
    && (forall p :: 0 <= p < |s.procs| ==> Local(s.procs[p], p, s.waitLock))
  }

  /** How far a fork has got, preempted or not. */
  datatype Stage = Idle | Filling(t: nat) | Unlocked(t: nat) | Linked(t: nat)

  function Fork(pc: Pc): (f: Stage) {
    match pc
    case ForkFilling(t) => Filling(t)
    case ForkUnlocked(t) => Unlocked(t)
    case ForkLinked(t) => Linked(t)
    case Sched(ToUnlocked(t)) => Unlocked(t)
    case Sched(ToLinked(t)) => Linked(t)
    case _ => Idle
  }

  /** The slot fork is filling in. */
  function Target(pc: Pc): (t: Option<nat>) {
    var f := Fork(pc);
    if f.Idle? then None else Some(f.t)
  }

  /** A slot's lock is held from one step to the next only by its own thread, the scheduler or the
      process that is forking into it. */
  predicate HolderOk(s: Sys, p: nat)
    requires p < |s.procs|
  {
    s.procs[p].lock.Thread? && s.procs[p].lock.q != p ==>
      s.procs[p].lock.q < |s.procs| && s.procs[s.procs[p].lock.q].pc == ForkFilling(p)
  }

  /** A slot being filled in is USED, unlinked until fork links it, and its forker's alone. */
  predicate TargetOk(s: Sys, p: nat)
    requires p < |s.procs|
  {
    var pc := s.procs[p].pc;
    Target(pc).Some? ==>
      var t := Target(pc).value;
      && t < |s.procs| && t != p && s.procs[t].state == USED
      && s.procs[t].parent == (if Fork(pc).Linked? then Some(p) else None)
      && (pc.ForkFilling? ==> s.procs[t].lock == Thread(p))
  }

  /** A linked slot that has not started is still being forked. */
  predicate NewOk(s: Sys, t: nat)
    requires t < |s.procs|
  {
    s.procs[t].state == USED && s.procs[t].parent.Some? ==>
      var q := s.procs[t].parent.value;
      q < |s.procs| && Fork(s.procs[q].pc) == Linked(t)
  }

  predicate ForkOk(s: Sys) {
    && (forall p :: 0 <= p < |s.procs| ==> HolderOk(s, p) && TargetOk(s, p) && NewOk(s, p))
    && (forall p, q :: 0 <= p < q < |s.procs| && Target(s.procs[p].pc).Some? ==>
          Target(s.procs[p].pc) != Target(s.procs[q].pc))
  }

  /** The slots a step touches, and wait_lock, stay consistent. */
  predicate LocalAct(s: Sys, p: nat, e: Effect) {
    && p < |s.procs| && Local(e.mine, p, e.waitLock)
    && (e.other.Some? ==> e.other.value.0 < |s.procs| && e.other.value.0 != p && Local(e.other.value.1, e.other.value.0, e.waitLock))
    && (e.waitLock == s.waitLock || (s.waitLock == None && e.waitLock == Some(p)) || (s.waitLock == Some(p) && e.waitLock == None))
  }

  /** How far p's exit has given its children away: no slot below this is p's child. */
  function Cleared(pc: Pc, n: nat): (k: nat) {
    match pc
    case Reparent(i) => i
    case WakeInit(i, _) => i + 1
    case WakeParent(_) => n
    case _ => 0
  }

  /** t's parent pointer, if set, names a live process other than t. */
  predicate ParentAt(s: Sys, t: nat)
    requires t < |s.procs|
  {
    && (s.procs[t].parent.Some? ==>
          var q := s.procs[t].parent.value;
          q < |s.procs| && q != t && Alive(s.procs[q]) && s.procs[t].state != UNUSED
          && t >= Cleared(s.procs[q].pc, |s.procs|))
    && (t != s.initproc && (Alive(s.procs[t]) || s.procs[t].state == ZOMBIE) ==> s.procs[t].parent.Some?)
  }

  predicate InitOk(s: Sys)
    requires Fits(s)
  {
    var x := s.procs[s.initproc];
    Alive(x) && x.parent == None && !x.pc.Reparent? && !x.pc.WakeInit? && !x.pc.WakeParent?
  }

  predicate ParentOk(s: Sys) {
    Fits(s) && InitOk(s) && (forall t :: 0 <= t < |s.procs| ==> ParentAt(s, t))
  }

  predicate Scheduling(step: Step) {
    || step.SchedLook? || step.Dispatch? || step.SchedRelease? || step.WakeElsewhere? || step.Kill?
    || step.SwitchOut? || step.Resume? || step.Yield? || step.SleepElsewhere?
  }

  predicate Forking(step: Step) {
    step.ForkAlloc? || step.ForkFail? || step.ForkUnlock? || step.ForkLink? || step.ForkStart?
  }

  predicate Exiting(step: Step) {
    || step.ExitStart? || step.ReparentOne? || step.WakeInitOne? || step.WakeParentOne? || step.BecomeZombie?
    || step.ExitRelease?
  }

  lemma ActLocalScheduling(s: Sys, step: Step)
    requires Enabled(s, step) && Scheduling(step) && Local(s.procs[Who(step)], Who(step), s.waitLock)
    ensures LocalAct(s, Who(step), Act(s, step))
  {
  }

  lemma ActLocalForking(s: Sys, step: Step)
    requires LocalOk(s) && ForkOk(s) && Enabled(s, step) && Forking(step)
    ensures LocalAct(s, Who(step), Act(s, step))
  {
    hide LocalOk, ForkOk;
    LocalAt(s, Who(step));
    ForkAt(s, Who(step));
    var e := Act(s, step);
    LocalAt(s, e.other.value.0);
  }

  lemma ActLocalReparent(s: Sys, step: Step)
    requires LocalOk(s) && ParentOk(s) && Enabled(s, step) && step.ReparentOne?
    ensures LocalAct(s, Who(step), Act(s, step))
  {
    hide LocalOk, ParentOk, Cleared;
    LocalAt(s, Who(step));
    var e := Act(s, step);
    if e.other.Some? {
      LocalAt(s, e.other.value.0);
      ParentsAt(s, e.other.value.0);
    }
  }

  lemma ActLocalWaking(s: Sys, step: Step)
    requires LocalOk(s) && Enabled(s, step) && (step.WakeInitOne? || step.WakeParentOne?)
    ensures LocalAct(s, Who(step), Act(s, step))
  {
    hide LocalOk;
    LocalAt(s, Who(step));
    var e := Act(s, step);
    if e.other.Some? { LocalAt(s, e.other.value.0); }
  }

  lemma ActLocalExiting(s: Sys, step: Step)
    requires LocalOk(s) && Enabled(s, step) && (step.ExitStart? || step.BecomeZombie? || step.ExitRelease?)
    ensures LocalAct(s, Who(step), Act(s, step))
  {
    hide LocalOk;
    LocalAt(s, Who(step));
  }

  lemma ActLocalWaiting(s: Sys, step: Step)
    requires LocalOk(s) && ParentOk(s) && Enabled(s, step) && !Scheduling(step) && !Forking(step) && !Exiting(step) && !step.Reap?
    ensures LocalAct(s, Who(step), Act(s, step))
  {
    hide LocalOk, ParentOk;
    LocalAt(s, Who(step));
  }

  lemma ActLocalReap(s: Sys, step: Step)
    requires LocalOk(s) && ParentOk(s) && Enabled(s, step) && step.Reap?
    ensures LocalAct(s, Who(step), Act(s, step))
  {
    hide LocalOk, ParentOk;
    LocalAt(s, Who(step));
    LocalAt(s, s.procs[step.p].pc.i);
    ParentsAt(s, s.procs[step.p].pc.i);
  }

  lemma LocalAt(s: Sys, p: nat)
    requires LocalOk(s) && p < |s.procs|
    ensures Local(s.procs[p], p, s.waitLock)
  {
  }

  lemma ForkAt(s: Sys, p: nat)
    requires ForkOk(s) && p < |s.procs|
    ensures HolderOk(s, p) && TargetOk(s, p) && NewOk(s, p)
  {
  }

  lemma ParentsAt(s: Sys, p: nat)
    requires ParentOk(s) && p < |s.procs|
    ensures ParentAt(s, p)
  {
  }

  lemma ActLocal(s: Sys, step: Step)
    requires LocalOk(s) && ForkOk(s) && ParentOk(s) && Enabled(s, step)
    ensures LocalAct(s, Who(step), Act(s, step))
  {
    hide Act, LocalOk, ForkOk, ParentOk, LocalAct, Local;
    if Scheduling(step) { LocalAt(s, Who(step)); ActLocalScheduling(s, step); }
    else if Forking(step) { ActLocalForking(s, step); }
    else if step.ReparentOne? { ActLocalReparent(s, step); }
    else if step.WakeInitOne? || step.WakeParentOne? { ActLocalWaking(s, step); }
    else if Exiting(step) { ActLocalExiting(s, step); }
    else if step.Reap? { ActLocalReap(s, step); }
    else { ActLocalWaiting(s, step); }
  }

  lemma StepKeepsLocal(s: Sys, step: Step)
    requires LocalOk(s) && ForkOk(s) && ParentOk(s) && Enabled(s, step)
    ensures LocalOk(Do(s, step))
  {
    hide Act, ForkOk, ParentOk, Local, Enabled, Written;
    ActLocal(s, step);
    var p, e := Who(step), Act(s, step);
    forall i | 0 <= i < |s.procs| ensures Local(Do(s, step).procs[i], i, e.waitLock) {
      LocalFrame(s.procs[i], i, s.waitLock, e.waitLock, p);
    }
  }

  lemma LocalFrame(x: Process, i: nat, w: Option<nat>, v: Option<nat>, p: nat)
    requires Local(x, i, w)
    requires v == w || (w == None && v == Some(p)) || (w == Some(p) && v == None)
    ensures i != p ==> Local(x, i, v)
  {
  }

  // ---- Forks ------------------------------------------------------------------------------------

  /** A change to slot i that no fork in progress can notice. */
  predicate Quiet(x: Process, y: Process, i: nat) {
    && Fork(y.pc) == Fork(x.pc)
    && (x.state == USED <==> y.state == USED)
    && (x.state == USED ==> y.parent == x.parent)
    && (y.lock.Thread? && y.lock.q != i ==> y.lock == x.lock)
    && (x.lock.Thread? && x.lock.q != i ==> y.lock == x.lock)
  }

  predicate QuietAct(s: Sys, p: nat, e: Effect) {
    && p < |s.procs| && Quiet(s.procs[p], e.mine, p)
    && (e.other.Some? ==>
          var t := e.other.value.0;
          t < |s.procs| && t != p && Quiet(s.procs[t], e.other.value.1, t))
  }

  lemma ActQuietScheduling(s: Sys, step: Step)
    requires Enabled(s, step) && Scheduling(step) && Local(s.procs[Who(step)], Who(step), s.waitLock)
    ensures QuietAct(s, Who(step), Act(s, step))
  {
  }

  lemma ActQuietReparent(s: Sys, step: Step)
    requires LocalOk(s) && ForkOk(s) && ParentOk(s) && Enabled(s, step) && step.ReparentOne?
    ensures QuietAct(s, Who(step), Act(s, step))
  {
    hide LocalOk, ParentOk, ForkOk, HolderOk, TargetOk, Cleared;
    LocalAt(s, Who(step));
    var e := Act(s, step);
    if e.other.Some? {
      ParentsAt(s, e.other.value.0);
      ForkAt(s, e.other.value.0);
    }
  }

  lemma ActQuietExiting(s: Sys, step: Step)
    requires LocalOk(s) && Enabled(s, step) && Exiting(step) && !step.ReparentOne?
    ensures QuietAct(s, Who(step), Act(s, step))
  {
    hide LocalOk;
    LocalAt(s, Who(step));
  }

  lemma ActQuietWaiting(s: Sys, step: Step)
    requires LocalOk(s) && ForkOk(s) && ParentOk(s) && Enabled(s, step)
    requires !Scheduling(step) && !Forking(step) && !Exiting(step)
    ensures QuietAct(s, Who(step), Act(s, step))
  {
    hide LocalOk, ParentOk, ForkOk;
    LocalAt(s, Who(step));
    ForkAt(s, Who(step));
    if step.Reap? {
      LocalAt(s, s.procs[step.p].pc.i);
      ParentsAt(s, s.procs[step.p].pc.i);
    }
  }

  lemma QuietKeepsFork(s: Sys, r: Sys, p: nat, e: Effect)
    requires ForkOk(s) && QuietAct(s, p, e) && r.procs == Written(s.procs, p, e)
    ensures ForkOk(r)
  {
    hide Written;
    forall i | 0 <= i < |s.procs| ensures Quiet(s.procs[i], r.procs[i], i) {
    }
    forall i | 0 <= i < |s.procs| ensures HolderOk(r, i) && TargetOk(r, i) && NewOk(r, i) {
      assert HolderOk(s, i) && TargetOk(s, i) && NewOk(s, i);
    }
  }

  /** p's fork is at slot t or at none. */
  predicate ForksAt(s: Sys, p: nat, t: nat)
    requires p < |s.procs|
  {
    Target(s.procs[p].pc) == None || Target(s.procs[p].pc) == Some(t)
  }

  lemma ForkFrame(s: Sys, r: Sys, p: nat, t: nat)
    requires ForkOk(s) && p < |s.procs| == |r.procs| && t < |s.procs| && p != t
    requires forall i :: 0 <= i < |s.procs| && i != p && i != t ==> r.procs[i] == s.procs[i]
    requires forall i :: 0 <= i < |s.procs| && i != p ==> Target(s.procs[i].pc) != Some(t)
    requires Target(s.procs[t].pc) == None && Target(r.procs[t].pc) == None
    requires ForksAt(s, p, t) && ForksAt(r, p, t) && s.procs[p].state != USED
    requires HolderOk(r, p) && HolderOk(r, t) && TargetOk(r, p) && NewOk(r, p) && NewOk(r, t)
    ensures ForkOk(r)
  {
    forall i | 0 <= i < |s.procs| ensures HolderOk(r, i) && TargetOk(r, i) && NewOk(r, i) {
      assert HolderOk(s, i) && TargetOk(s, i) && NewOk(s, i);
    }
  }

  lemma ForkFacts(s: Sys, p: nat, t: nat)
    requires LocalOk(s) && ForkOk(s) && ParentOk(s) && p < |s.procs| && t < |s.procs|
    ensures Local(s.procs[p], p, s.waitLock) && Local(s.procs[t], t, s.waitLock)
    ensures HolderOk(s, p) && TargetOk(s, p) && NewOk(s, p) && HolderOk(s, t) && TargetOk(s, t) && NewOk(s, t)
    ensures s.procs[t].state == UNUSED ==> s.procs[t].parent == None
    ensures s.procs[t].state != USED || Target(s.procs[p].pc) == Some(t) ==>
              forall i :: 0 <= i < |s.procs| && i != p ==> Target(s.procs[i].pc) != Some(t)
  {
    ParentsAt(s, t);
    if s.procs[t].state != USED || Target(s.procs[p].pc) == Some(t) { OnlyTarget(s, p, t); }
  }

  lemma AllocKeepsFork(s: Sys, step: Step)
    requires LocalOk(s) && ForkOk(s) && ParentOk(s) && Enabled(s, step) && step.ForkAlloc?
    ensures ForkOk(Do(s, step))
  {
    hide LocalOk, ForkOk, ParentOk, Written;
    var p, e, r := Who(step), Act(s, step), Do(s, step);
    var t := e.other.value.0;
    ForkFacts(s, p, t);
    ForkFrame(s, r, p, t);
  }

  lemma FailKeepsFork(s: Sys, step: Step)
    requires LocalOk(s) && ForkOk(s) && ParentOk(s) && Enabled(s, step) && step.ForkFail?
    ensures ForkOk(Do(s, step))
  {
    hide LocalOk, ForkOk, ParentOk, Written;
    var p, e, r := Who(step), Act(s, step), Do(s, step);
    var t := e.other.value.0;
    ForkFacts(s, p, t);
    ForkFrame(s, r, p, t);
  }

  lemma UnlockKeepsFork(s: Sys, step: Step)
    requires LocalOk(s) && ForkOk(s) && ParentOk(s) && Enabled(s, step) && step.ForkUnlock?
    ensures ForkOk(Do(s, step))
  {
    hide LocalOk, ForkOk, ParentOk, Written;
    var p, e, r := Who(step), Act(s, step), Do(s, step);
    var t := e.other.value.0;
    ForkFacts(s, p, t);
    ForkFrame(s, r, p, t);
  }

  lemma LinkKeepsFork(s: Sys, step: Step)
    requires LocalOk(s) && ForkOk(s) && ParentOk(s) && Enabled(s, step) && step.ForkLink?
    ensures ForkOk(Do(s, step))
  {
    hide LocalOk, ForkOk, ParentOk, Written;
    var p, e, r := Who(step), Act(s, step), Do(s, step);
    var t := e.other.value.0;
    ForkFacts(s, p, t);
    ForkFrame(s, r, p, t);
  }

  lemma StartKeepsFork(s: Sys, step: Step)
    requires LocalOk(s) && ForkOk(s) && ParentOk(s) && Enabled(s, step) && step.ForkStart?
    ensures ForkOk(Do(s, step))
  {
    hide LocalOk, ForkOk, ParentOk, Written;
    var p, e, r := Who(step), Act(s, step), Do(s, step);
    var t := e.other.value.0;
    ForkFacts(s, p, t);
    ForkFrame(s, r, p, t);
  }

  lemma OnlyTarget(s: Sys, p: nat, t: nat)
    requires ForkOk(s) && p < |s.procs| && t < |s.procs|
    requires s.procs[t].state != USED || Target(s.procs[p].pc) == Some(t)
    ensures forall i :: 0 <= i < |s.procs| && i != p ==> Target(s.procs[i].pc) != Some(t)
  {
    forall i | 0 <= i < |s.procs| && i != p ensures Target(s.procs[i].pc) != Some(t) {
      assert TargetOk(s, i);
    }
  }

  lemma StepKeepsFork(s: Sys, step: Step)
    requires LocalOk(s) && ForkOk(s) && ParentOk(s) && Enabled(s, step)
    ensures ForkOk(Do(s, step))
  {
    hide Act, LocalOk, ForkOk, ParentOk, QuietAct, Local, Written;
    if Forking(step) {
      match step
      case ForkAlloc(_, _) => AllocKeepsFork(s, step);
      case ForkFail(_) => FailKeepsFork(s, step);
      case ForkUnlock(_) => UnlockKeepsFork(s, step);
      case ForkLink(_) => LinkKeepsFork(s, step);
      case ForkStart(_) => StartKeepsFork(s, step);
    } else {
      if Scheduling(step) { LocalAt(s, Who(step)); ActQuietScheduling(s, step); }
      else if step.ReparentOne? { ActQuietReparent(s, step); }
      else if Exiting(step) { ActQuietExiting(s, step); }
      else { ActQuietWaiting(s, step); }
      QuietKeepsFork(s, Do(s, step), Who(step), Act(s, step));
    }
  }

  // ---- Parents ----------------------------------------------------------------------------------

  predicate InExit(pc: Pc) {
    pc.Reparent? || pc.WakeInit? || pc.WakeParent?
  }

  /** A change to a slot that leaves the family tree alone. */
  predicate Kin(x: Process, y: Process, n: nat) {
    && y.parent == x.parent
    && (Alive(x) <==> Alive(y)) && (x.state == ZOMBIE <==> y.state == ZOMBIE)
    && (y.state == UNUSED ==> x.state == UNUSED)
    && Cleared(y.pc, n) <= Cleared(x.pc, n)
  }

  predicate KinAct(s: Sys, p: nat, e: Effect) {
    && p < |s.procs| && Kin(s.procs[p], e.mine, |s.procs|)
    && (p == s.initproc ==> !InExit(e.mine.pc))
    && (e.other.Some? ==>
          var t := e.other.value.0;
          && t < |s.procs| && t != p && Kin(s.procs[t], e.other.value.1, |s.procs|)
          && (t == s.initproc ==> !InExit(e.other.value.1.pc)))
  }

  predicate Kindred(step: Step) {
    && !step.ForkFail? && !step.ForkLink? && !step.ForkStart?
    && !step.ReparentOne? && !step.BecomeZombie? && !step.Reap?
  }

  lemma ActKinScheduling(s: Sys, step: Step)
    requires ParentOk(s) && Enabled(s, step) && Scheduling(step) && Local(s.procs[Who(step)], Who(step), s.waitLock)
    ensures KinAct(s, Who(step), Act(s, step))
  {
  }

  lemma ActKinForking(s: Sys, step: Step)
    requires LocalOk(s) && ForkOk(s) && ParentOk(s) && Enabled(s, step) && Forking(step) && Kindred(step)
    ensures KinAct(s, Who(step), Act(s, step))
  {
    hide LocalOk, ForkOk;
    LocalAt(s, Who(step));
    ForkAt(s, Who(step));
    LocalAt(s, Act(s, step).other.value.0);
  }

  lemma ActKinOther(s: Sys, step: Step)
    requires LocalOk(s) && ParentOk(s) && Enabled(s, step) && Kindred(step) && !Scheduling(step) && !Forking(step)
    ensures KinAct(s, Who(step), Act(s, step))
  {
    hide LocalOk;
    LocalAt(s, Who(step));
  }

  lemma KinKeepsParents(s: Sys, r: Sys, p: nat, e: Effect)
    requires ParentOk(s) && KinAct(s, p, e) && r.procs == Written(s.procs, p, e) && r.initproc == s.initproc
    ensures ParentOk(r)
  {
    hide Written, Cleared, Alive;
    forall i | 0 <= i < |s.procs| ensures Kin(s.procs[i], r.procs[i], |s.procs|) {
    }
    forall i | 0 <= i < |s.procs| ensures ParentAt(r, i) {
      assert ParentAt(s, i);
    }
  }

  /** The children of a, other than t, may keep a as their parent once its slot holds y. */
  predicate KidsFit(s: Sys, a: nat, t: nat, y: Process) {
    forall i :: 0 <= i < |s.procs| && i != t && s.procs[i].parent == Some(a) ==>
      Alive(y) && i >= Cleared(y.pc, |s.procs|)
  }

  lemma ParentFrame(s: Sys, r: Sys, p: nat, t: nat)
    requires ParentOk(s) && p < |s.procs| == |r.procs| && t < |s.procs| && r.initproc == s.initproc
    requires forall i :: 0 <= i < |s.procs| && i != p && i != t ==> r.procs[i] == s.procs[i]
    requires KidsFit(s, p, t, r.procs[p]) && KidsFit(s, t, t, r.procs[t])
    requires ParentAt(r, p) && ParentAt(r, t) && InitOk(r)
    ensures ParentOk(r)
  {
    hide Cleared, Alive, InitOk;
    forall i | 0 <= i < |s.procs| && i != p && i != t ensures ParentAt(r, i) {
      assert ParentAt(s, i);
    }
  }

  lemma Childless(s: Sys, a: nat, t: nat, y: Process)
    requires ParentOk(s) && a < |s.procs| && (!Alive(s.procs[a]) || Cleared(s.procs[a].pc, |s.procs|) >= |s.procs|)
    ensures KidsFit(s, a, t, y)
    ensures forall i :: 0 <= i < |s.procs| ==> s.procs[i].parent != Some(a)
  {
    forall i | 0 <= i < |s.procs| ensures s.procs[i].parent != Some(a) {
      assert ParentAt(s, i);
    }
  }

  lemma KidsStay(s: Sys, a: nat, t: nat, y: Process)
    requires ParentOk(s) && a < |s.procs| && Alive(y) && Cleared(y.pc, |s.procs|) <= Cleared(s.procs[a].pc, |s.procs|)
    ensures KidsFit(s, a, t, y)
  {
    forall i | 0 <= i < |s.procs| && s.procs[i].parent == Some(a) ensures i >= Cleared(y.pc, |s.procs|) {
      assert ParentAt(s, i);
    }
  }

  /** p, which is filling in slot t, changes both; t has no children. */
  lemma SlotKeepsParents(s: Sys, r: Sys, p: nat, t: nat)
    requires ParentOk(s) && p < |s.procs| == |r.procs| && t < |s.procs| && r.initproc == s.initproc
    requires forall i :: 0 <= i < |s.procs| && i != p && i != t ==> r.procs[i] == s.procs[i]
    requires Alive(r.procs[p]) && Cleared(r.procs[p].pc, |s.procs|) <= Cleared(s.procs[p].pc, |s.procs|)
    requires !Alive(s.procs[t]) || Cleared(s.procs[t].pc, |s.procs|) >= |s.procs|
    requires ParentAt(r, p) && ParentAt(r, t) && InitOk(r)
    ensures ParentOk(r)
  {
    hide ParentOk, KidsFit, ParentAt, InitOk, Cleared, Alive;
    Childless(s, t, t, r.procs[t]);
    KidsStay(s, p, t, r.procs[p]);
    ParentFrame(s, r, p, t);
  }

  /** fork gives the new slot up. */
  lemma FailKeepsParents(s: Sys, step: Step)
    requires LocalOk(s) && ForkOk(s) && ParentOk(s) && Enabled(s, step) && step.ForkFail?
    ensures ParentOk(Do(s, step))
  {
    hide LocalOk, ForkOk, ParentOk, Written, KidsFit, HolderOk;
    var p, e, r := Who(step), Act(s, step), Do(s, step);
    var t := e.other.value.0;
    ForkFacts(s, p, t);
    ParentsAt(s, p);
    ParentsAt(s, t);
    InitAt(s);
    SlotKeepsParents(s, r, p, t);
  }

  /** fork gives the new slot its parent. */
  lemma LinkKeepsParents(s: Sys, step: Step)
    requires LocalOk(s) && ForkOk(s) && ParentOk(s) && Enabled(s, step) && step.ForkLink?
    ensures ParentOk(Do(s, step))
  {
    hide LocalOk, ForkOk, ParentOk, Written, KidsFit, HolderOk;
    var p, e, r := Who(step), Act(s, step), Do(s, step);
    var t := e.other.value.0;
    ForkFacts(s, p, t);
    ParentsAt(s, p);
    ParentsAt(s, t);
    InitAt(s);
    SlotKeepsParents(s, r, p, t);
  }

  /** fork makes the new slot runnable. */
  lemma StartKeepsParents(s: Sys, step: Step)
    requires LocalOk(s) && ForkOk(s) && ParentOk(s) && Enabled(s, step) && step.ForkStart?
    ensures ParentOk(Do(s, step))
  {
    hide LocalOk, ForkOk, ParentOk, Written, KidsFit, HolderOk;
    var p, e, r := Who(step), Act(s, step), Do(s, step);
    var t := e.other.value.0;
    ForkFacts(s, p, t);
    ParentsAt(s, p);
    ParentsAt(s, t);
    InitAt(s);
    SlotKeepsParents(s, r, p, t);
  }

  lemma InitAt(s: Sys)
    requires ParentOk(s)
    ensures Fits(s) && InitOk(s)
  {
  }

  /** reparent passes over a slot that is not p's child. */
  lemma PassKeepsParents(s: Sys, step: Step)
    requires LocalOk(s) && ParentOk(s) && Enabled(s, step) && step.ReparentOne? && Act(s, step).other.None?
    ensures ParentOk(Do(s, step))
  {
    hide LocalOk, ParentOk, Written, KidsFit;
    var p, r := Who(step), Do(s, step);
    LocalAt(s, p);
    InitAt(s);
    ParentsAt(s, p);
    KidsPassed(s, p, r.procs[p]);
    ParentFrame(s, r, p, p);
  }

  lemma KidsPassed(s: Sys, p: nat, y: Process)
    requires ParentOk(s) && p < |s.procs| && s.procs[p].pc.Reparent? && Alive(y)
    requires var i := s.procs[p].pc.i;
             if i < |s.procs| then s.procs[i].parent != Some(p) && Cleared(y.pc, |s.procs|) == i + 1 else Cleared(y.pc, |s.procs|) <= i
    ensures KidsFit(s, p, p, y)
  {
    KidsBeyond(s, p, s.procs[p].pc.i);
  }

  /** reparent gives p's child in slot t to init. */
  lemma GiveKeepsParents(s: Sys, step: Step)
    requires LocalOk(s) && ParentOk(s) && Enabled(s, step) && step.ReparentOne? && Act(s, step).other.Some?
    ensures ParentOk(Do(s, step))
  {
    hide LocalOk, ParentOk, Written;
    var p, r := Who(step), Do(s, step);
    var t := s.procs[p].pc.i;
    LocalAt(s, p);
    InitAt(s);
    ParentsAt(s, p);
    ParentsAt(s, t);
    KidsBeyond(s, p, t);
    if Alive(s.procs[t]) { KidsStay(s, t, t, r.procs[t]); } else { Childless(s, t, t, r.procs[t]); }
    ParentFrame(s, r, p, t);
  }

  lemma KidsBeyond(s: Sys, p: nat, i: nat)
    requires ParentOk(s) && p < |s.procs| && s.procs[p].pc == Reparent(i)
    ensures forall k :: 0 <= k < |s.procs| && s.procs[k].parent == Some(p) ==> k >= i
  {
    forall k | 0 <= k < |s.procs| && s.procs[k].parent == Some(p) ensures k >= i {
      assert ParentAt(s, k);
    }
  }

  lemma ZombieKeepsParents(s: Sys, step: Step)
    requires LocalOk(s) && ParentOk(s) && Enabled(s, step) && step.BecomeZombie?
    ensures ParentOk(Do(s, step))
  {
    hide LocalOk, ParentOk, Written, KidsFit;
    var p, r := Who(step), Do(s, step);
    LocalAt(s, p);
    InitAt(s);
    ParentsAt(s, p);
    Childless(s, p, p, r.procs[p]);
    ParentFrame(s, r, p, p);
  }

  lemma ReapKeepsParents(s: Sys, step: Step)
    requires LocalOk(s) && ParentOk(s) && Enabled(s, step) && step.Reap?
    ensures ParentOk(Do(s, step))
  {
    hide LocalOk, ParentOk, Written, KidsFit;
    var p, e, r := Who(step), Act(s, step), Do(s, step);
    var t := e.other.value.0;
    LocalAt(s, p);
    InitAt(s);
    ParentsAt(s, p);
    ParentsAt(s, t);
    Childless(s, t, t, r.procs[t]);
    KidsStay(s, p, t, r.procs[p]);
    ParentFrame(s, r, p, t);
  }

  lemma StepKeepsParents(s: Sys, step: Step)
    requires LocalOk(s) && ForkOk(s) && ParentOk(s) && Enabled(s, step)
    ensures ParentOk(Do(s, step))
  {
    hide Act, LocalOk, ForkOk, ParentOk, KinAct, Local, Written;
    if Kindred(step) {
      if Scheduling(step) { LocalAt(s, Who(step)); ActKinScheduling(s, step); }
      else if Forking(step) { ActKinForking(s, step); }
      else { ActKinOther(s, step); }
      KinKeepsParents(s, Do(s, step), Who(step), Act(s, step));
    } else if step.ForkFail? { FailKeepsParents(s, step); }
    else if step.ForkLink? { LinkKeepsParents(s, step); }
    else if step.ForkStart? { StartKeepsParents(s, step); }
    else if step.ReparentOne? { if Act(s, step).other.Some? { GiveKeepsParents(s, step); } else { PassKeepsParents(s, step); } }
    else if step.BecomeZombie? { ZombieKeepsParents(s, step); }
    else { ReapKeepsParents(s, step); }
  }

  // ---- Wakeups ----------------------------------------------------------------------------------

  /** x is asleep in wait, or has given up wait_lock to go to sleep there. */
  predicate Dozing(x: Process) {
    x.pc == SleepReleased || (x.state == SLEEPING && x.pc == Sched(ToWait))
  }

  /** How many slots x's scan has found not to be exited children of x. */
  function Seen(pc: Pc, n: nat): (k: nat) {
    match pc
    case Scan(i, _) => i
    case SleepWanted => n
    case SleepLocked => n
    case _ => 0
  }

  /** The holder of wait_lock is about to wake init. */
  predicate WillWakeInit(s: Sys) {
    && s.waitLock.Some? && s.waitLock.value < |s.procs|
    && var pc := s.procs[s.waitLock.value].pc;
       pc.WakeInit? && pc.j <= s.initproc
  }

  /** The parent of an exited process is not dozing, unless it is init and is about to be woken; nor has
      its scan passed the exited process by. */
  predicate NoticedAt(s: Sys, c: nat)
    requires c < |s.procs|
  {
    s.procs[c].state == ZOMBIE && s.procs[c].parent.Some? && s.procs[c].parent.value < |s.procs| ==>
      var q := s.procs[c].parent.value;
      && (Dozing(s.procs[q]) ==> q == s.initproc && WillWakeInit(s))
      && c >= Seen(s.procs[q].pc, |s.procs|)
  }

  /** Once p's exit has woken its parent, the parent is not dozing. */
  predicate WokenAt(s: Sys, p: nat)
    requires p < |s.procs|
  {
    var x := s.procs[p];
    x.pc.WakeParent? && x.parent.Some? && x.parent.value < |s.procs| && x.pc.j > x.parent.value ==>
      !Dozing(s.procs[x.parent.value])
  }

  predicate WakeOk(s: Sys) {
    forall c :: 0 <= c < |s.procs| ==> NoticedAt(s, c) && WokenAt(s, c)
  }

  predicate Calm(x: Process, y: Process, n: nat) {
    && (y.state == ZOMBIE ==> x.state == ZOMBIE && y.parent == x.parent)
    && (Dozing(y) ==> Dozing(x))
    && Seen(y.pc, n) <= Seen(x.pc, n)
    && (x.pc.WakeInit? ==> y.pc == x.pc)
    && (y.pc.WakeParent? ==> y.parent == x.parent && (y.pc == x.pc || y.pc.j == 0))
  }

  predicate CalmAct(s: Sys, p: nat, e: Effect) {
    && p < |s.procs| && Calm(s.procs[p], e.mine, |s.procs|)
    && (e.other.Some? ==>
          var t := e.other.value.0;
          t < |s.procs| && t != p && Calm(s.procs[t], e.other.value.1, |s.procs|))
    && (WillWakeInit(s) ==> e.waitLock == s.waitLock)
  }

  predicate Calming(step: Step) {
    && !step.ReparentOne? && !step.WakeInitOne? && !step.WakeParentOne? && !step.BecomeZombie?
    && !step.ScanOne? && !step.SleepRelease?
  }

  lemma ActCalmScheduling(s: Sys, step: Step)
    requires Enabled(s, step) && Scheduling(step) && Local(s.procs[Who(step)], Who(step), s.waitLock)
    ensures CalmAct(s, Who(step), Act(s, step))
  {
  }

  lemma ActCalmForking(s: Sys, step: Step)
    requires LocalOk(s) && ForkOk(s) && Enabled(s, step) && Forking(step)
    ensures CalmAct(s, Who(step), Act(s, step))
  {
    hide LocalOk, ForkOk;
    LocalAt(s, Who(step));
    ForkAt(s, Who(step));
    LocalAt(s, Act(s, step).other.value.0);
  }

  lemma ActCalmOther(s: Sys, step: Step)
    requires LocalOk(s) && ParentOk(s) && Enabled(s, step) && Calming(step) && !Scheduling(step) && !Forking(step)
    ensures CalmAct(s, Who(step), Act(s, step))
  {
    hide LocalOk, ParentOk;
    LocalAt(s, Who(step));
    if step.Reap? {
      LocalAt(s, s.procs[step.p].pc.i);
      ParentsAt(s, s.procs[step.p].pc.i);
    }
  }

  lemma CalmKeepsWake(s: Sys, r: Sys, p: nat, e: Effect)
    requires WakeOk(s) && CalmAct(s, p, e) && r.procs == Written(s.procs, p, e) && r.initproc == s.initproc
    requires r.waitLock == e.waitLock
    ensures WakeOk(r)
  {
    hide Written, Dozing, Seen;
    forall i | 0 <= i < |s.procs| ensures Calm(s.procs[i], r.procs[i], |s.procs|) {
    }
    forall i | 0 <= i < |s.procs| ensures NoticedAt(r, i) && WokenAt(r, i) {
      assert NoticedAt(s, i) && WokenAt(s, i);
    }
  }

  /** While p holds wait_lock no one else is scanning or exiting. */
  lemma HolderAlone(s: Sys, p: nat)
    requires LocalOk(s) && p < |s.procs| && HoldsWait(s.procs[p].pc)
    ensures s.waitLock == Some(p)
    ensures forall i :: 0 <= i < |s.procs| && i != p ==> !HoldsWait(s.procs[i].pc) && Seen(s.procs[i].pc, |s.procs|) == 0
  {
    assert Local(s.procs[p], p, s.waitLock);
    forall i | 0 <= i < |s.procs| && i != p ensures !HoldsWait(s.procs[i].pc) {
      assert Local(s.procs[i], i, s.waitLock);
    }
  }

  /** wakeup on q's own channel, with q's lock free, leaves q awake. */
  lemma Rouses(x: Process, q: nat, w: Option<nat>)
    requires Local(x, q, w) && x.lock == Nobody
    ensures !Dozing(Woken(x, OnProc(q)))
  {
  }

  /** A change that p, holding wait_lock, may make to another slot. */
  predicate Mild(s: Sys, r: Sys, p: nat, x: Process, z: Process) {
    && (z.state == ZOMBIE ==>
          x.state == ZOMBIE && (z.parent == x.parent || (z.parent == Some(s.initproc) && s.initproc != p && WillWakeInit(r))))
    && (Dozing(z) ==> Dozing(x)) && z.pc == x.pc
  }

  lemma HolderKeepsWake(s: Sys, r: Sys, p: nat, e: Effect)
    requires LocalOk(s) && WakeOk(s) && p < |s.procs| && HoldsWait(s.procs[p].pc)
    requires r.procs == Written(s.procs, p, e) && r.initproc == s.initproc < |s.procs| && r.waitLock == s.waitLock
    requires !Dozing(e.mine) && e.mine.state != ZOMBIE && WokenAt(r, p)
    requires e.other.Some? ==> e.other.value.0 < |s.procs| && e.other.value.0 != p
                               && Mild(s, r, p, s.procs[e.other.value.0], e.other.value.1)
    requires WillWakeInit(s) ==> WillWakeInit(r) || !Dozing(r.procs[s.initproc])
    requires forall c :: 0 <= c < |s.procs| && s.procs[c].state == ZOMBIE && s.procs[c].parent == Some(p) ==>
               c >= Seen(e.mine.pc, |s.procs|)
    ensures WakeOk(r)
  {
    hide LocalOk, Written, Dozing, Seen, WillWakeInit;
    HolderAlone(s, p);
    forall i | 0 <= i < |s.procs| && i != p ensures Mild(s, r, p, s.procs[i], r.procs[i]) {
    }
    forall c | 0 <= c < |s.procs| ensures NoticedAt(r, c) && WokenAt(r, c) {
      assert NoticedAt(s, c) && WokenAt(s, c);
    }
  }

  lemma ReparentKeepsWake(s: Sys, step: Step)
    requires LocalOk(s) && ParentOk(s) && WakeOk(s) && Enabled(s, step) && step.ReparentOne?
    ensures WakeOk(Do(s, step))
  {
    hide LocalOk, ParentOk, WakeOk, Written, Act;
    if Act(s, step).other.Some? { GiveKeepsWake(s, step); } else { PassKeepsWake(s, step); }
  }

  lemma GiveKeepsWake(s: Sys, step: Step)
    requires LocalOk(s) && ParentOk(s) && WakeOk(s) && Enabled(s, step) && step.ReparentOne? && Act(s, step).other.Some?
    ensures WakeOk(Do(s, step))
  {
    hide LocalOk, ParentOk, WakeOk, Written;
    var p, e, r := Who(step), Act(s, step), Do(s, step);
    HolderAlone(s, p);
    LocalAt(s, p);
    InitAt(s);
    ParentsAt(s, e.other.value.0);
    HolderKeepsWake(s, r, p, e);
  }

  lemma PassKeepsWake(s: Sys, step: Step)
    requires LocalOk(s) && ParentOk(s) && WakeOk(s) && Enabled(s, step) && step.ReparentOne? && Act(s, step).other.None?
    ensures WakeOk(Do(s, step))
  {
    hide LocalOk, ParentOk, WakeOk, Written;
    var p, e, r := Who(step), Act(s, step), Do(s, step);
    HolderAlone(s, p);
    LocalAt(s, p);
    InitAt(s);
    HolderKeepsWake(s, r, p, e);
  }

  lemma WakeInitKeepsWake(s: Sys, step: Step)
    requires LocalOk(s) && ParentOk(s) && WakeOk(s) && Enabled(s, step) && step.WakeInitOne?
    ensures WakeOk(Do(s, step))
  {
    hide LocalOk, ParentOk, WakeOk, Written;
    var p, e, r := Who(step), Act(s, step), Do(s, step);
    HolderAlone(s, p);
    LocalAt(s, p);
    InitAt(s);
    LocalAt(s, s.initproc);
    if s.procs[p].pc.j == s.initproc { Rouses(s.procs[s.initproc], s.initproc, s.waitLock); }
    HolderKeepsWake(s, r, p, e);
  }

  lemma WakeParentKeepsWake(s: Sys, step: Step)
    requires LocalOk(s) && ParentOk(s) && WakeOk(s) && Enabled(s, step) && step.WakeParentOne?
    ensures WakeOk(Do(s, step))
  {
    hide LocalOk, ParentOk, Written;
    var p, e, r := Who(step), Act(s, step), Do(s, step);
    HolderAlone(s, p);
    LocalAt(s, p);
    InitAt(s);
    ParentsAt(s, p);
    assert WokenAt(s, p);
    if s.procs[p].parent == Some(s.procs[p].pc.j) {
      LocalAt(s, s.procs[p].pc.j);
      Rouses(s.procs[s.procs[p].pc.j], s.procs[p].pc.j, s.waitLock);
    }
    HolderKeepsWake(s, r, p, e);
  }

  lemma ScanKeepsWake(s: Sys, step: Step)
    requires LocalOk(s) && ParentOk(s) && WakeOk(s) && Enabled(s, step) && step.ScanOne?
    ensures WakeOk(Do(s, step))
  {
    hide LocalOk, ParentOk, WakeOk, Written;
    var p, e, r := Who(step), Act(s, step), Do(s, step);
    HolderAlone(s, p);
    LocalAt(s, p);
    InitAt(s);
    ScanPasses(s, p);
    HolderKeepsWake(s, r, p, e);
  }

  lemma ScanPasses(s: Sys, p: nat)
    requires WakeOk(s) && Enabled(s, ScanOne(p))
    ensures forall c :: 0 <= c < |s.procs| && s.procs[c].state == ZOMBIE && s.procs[c].parent == Some(p) ==> c >= s.procs[p].pc.i + 1
  {
    forall c | 0 <= c < |s.procs| && s.procs[c].state == ZOMBIE && s.procs[c].parent == Some(p)
      ensures c >= s.procs[p].pc.i + 1
    {
      assert NoticedAt(s, c);
    }
  }

  lemma ZombieKeepsWake(s: Sys, step: Step)
    requires LocalOk(s) && ParentOk(s) && WakeOk(s) && Enabled(s, step) && step.BecomeZombie?
    ensures WakeOk(Do(s, step))
  {
    hide LocalOk, ParentOk, Written, Dozing;
    var p, r := Who(step), Do(s, step);
    HolderAlone(s, p);
    ParentsAt(s, p);
    assert WokenAt(s, p);
    assert !Dozing(r.procs[p]) by { Awake(r.procs[p]); }
    forall c | 0 <= c < |s.procs| ensures NoticedAt(r, c) && WokenAt(r, c) {
      assert NoticedAt(s, c) && WokenAt(s, c);
    }
  }

  lemma Awake(x: Process)
    requires x.pc == ExitUnlock
    ensures !Dozing(x)
  {
  }

  lemma SleepKeepsWake(s: Sys, step: Step)
    requires LocalOk(s) && WakeOk(s) && Enabled(s, step) && step.SleepRelease?
    ensures WakeOk(Do(s, step))
  {
    hide LocalOk, Written, Dozing;
    var p, r := Who(step), Do(s, step);
    HolderAlone(s, p);
    forall c | 0 <= c < |s.procs| ensures NoticedAt(r, c) && WokenAt(r, c) {
      assert NoticedAt(s, c) && WokenAt(s, c);
    }
  }

  lemma StepKeepsWake(s: Sys, step: Step)
    requires LocalOk(s) && ForkOk(s) && ParentOk(s) && WakeOk(s) && Enabled(s, step)
    ensures WakeOk(Do(s, step))
  {
    hide Act, LocalOk, ForkOk, ParentOk, WakeOk, CalmAct, Local, Written;
    if Calming(step) {
      if Scheduling(step) { LocalAt(s, Who(step)); ActCalmScheduling(s, step); }
      else if Forking(step) { ActCalmForking(s, step); }
      else { ActCalmOther(s, step); }
      CalmKeepsWake(s, Do(s, step), Who(step), Act(s, step));
    }
    else if step.ReparentOne? { ReparentKeepsWake(s, step); }
    else if step.WakeInitOne? { WakeInitKeepsWake(s, step); }
    else if step.WakeParentOne? { WakeParentKeepsWake(s, step); }
    else if step.BecomeZombie? { ZombieKeepsWake(s, step); }
    else if step.ScanOne? { ScanKeepsWake(s, step); }
    else { SleepKeepsWake(s, step); }
  }

  // ---- What wait's scan has found -----------------------------------------------------------------

  /** One of the first k slots is p's child. */
  ghost predicate HasChild(procs: seq<Process>, p: nat, k: nat) {
    exists t :: 0 <= t < k && t < |procs| && procs[t].parent == Some(p)
  }

  /** p's scan has seen a child exactly if there is one in the slots behind it; and while p is about to
      sleep, asleep or being woken in wait, it has one. A scan to wake the parent stays in bounds too. */
  ghost predicate KidsFor(procs: seq<Process>, p: nat, pc: Pc) {
    match pc
    case Scan(i, kids) => i <= |procs| && (kids <==> HasChild(procs, p, i))
    case SleepWanted => HasChild(procs, p, |procs|)
    case SleepLocked => HasChild(procs, p, |procs|)
    case SleepReleased => HasChild(procs, p, |procs|)
    case Sched(ToWait) => HasChild(procs, p, |procs|)
    case WakeParent(j) => j <= |procs|
    case _ => true
  }

  ghost predicate KidsOk(s: Sys) {
    forall p :: 0 <= p < |s.procs| ==> KidsFor(s.procs, p, s.procs[p].pc)
  }

  lemma KidsAt(s: Sys, p: nat)
    requires KidsOk(s) && p < |s.procs|
    ensures KidsFor(s.procs, p, s.procs[p].pc)
  {
  }

  /** The step may change a parent pointer. */
  predicate Familial(step: Step) {
    step.ForkLink? || step.ReparentOne? || step.Reap?
  }

  /** The places this speaks of. */
  predicate Noted(pc: Pc) {
    pc.Scan? || pc == SleepWanted || pc == SleepLocked || pc == SleepReleased || pc == Sched(ToWait) || pc.WakeParent?
  }

  lemma HasChildSame(procs: seq<Process>, procs2: seq<Process>, p: nat, k: nat)
    requires |procs2| == |procs| && forall t :: 0 <= t < |procs| ==> procs2[t].parent == procs[t].parent
    ensures HasChild(procs2, p, k) <==> HasChild(procs, p, k)
  {
    if HasChild(procs, p, k) {
      var t :| 0 <= t < k && t < |procs| && procs[t].parent == Some(p);
      assert procs2[t].parent == Some(p);
    }
    if HasChild(procs2, p, k) {
      var t :| 0 <= t < k && t < |procs2| && procs2[t].parent == Some(p);
      assert procs[t].parent == Some(p);
    }
  }

  lemma HasChildNext(procs: seq<Process>, p: nat, k: nat)
    requires k < |procs|
    ensures HasChild(procs, p, k + 1) <==> HasChild(procs, p, k) || procs[k].parent == Some(p)
    ensures !HasChild(procs, p, 0)
  {
    if HasChild(procs, p, k) {
      var t :| 0 <= t < k && t < |procs| && procs[t].parent == Some(p);
      assert t < k + 1;
    }
  }

  lemma KidsSame(procs: seq<Process>, procs2: seq<Process>, p: nat, pc: Pc)
    requires |procs2| == |procs| && forall t :: 0 <= t < |procs| ==> procs2[t].parent == procs[t].parent
    ensures KidsFor(procs2, p, pc) <==> KidsFor(procs, p, pc)
  {
    HasChildSame(procs, procs2, p, |procs|);
    if pc.Scan? { HasChildSame(procs, procs2, p, pc.i); }
  }

  /** The slots a step touches keep their parents, and what they now say of their scans is so. */
  ghost predicate KidsAct(s: Sys, p: nat, e: Effect) {
    && p < |s.procs| && e.mine.parent == s.procs[p].parent && KidsFor(s.procs, p, e.mine.pc)
    && (e.other.Some? ==>
          var t := e.other.value.0;
          && t < |s.procs| && t != p && e.other.value.1.parent == s.procs[t].parent
          && (Noted(e.other.value.1.pc) ==> e.other.value.1.pc == s.procs[t].pc))
  }

  lemma ActKidsScheduling(s: Sys, step: Step)
    requires Enabled(s, step) && Scheduling(step) && KidsFor(s.procs, Who(step), s.procs[Who(step)].pc)
    ensures KidsAct(s, Who(step), Act(s, step))
  {
    hide HasChild;
  }

  lemma ActKidsForking(s: Sys, step: Step)
    requires LocalOk(s) && ForkOk(s) && Enabled(s, step) && Forking(step) && !Familial(step)
    ensures KidsAct(s, Who(step), Act(s, step))
  {
    hide HasChild, LocalOk, ForkOk;
    LocalAt(s, Who(step));
    ForkAt(s, Who(step));
    LocalAt(s, Act(s, step).other.value.0);
  }

  lemma ActKidsExiting(s: Sys, step: Step)
    requires LocalOk(s) && Enabled(s, step) && Exiting(step) && !Familial(step) && KidsFor(s.procs, Who(step), s.procs[Who(step)].pc)
    ensures KidsAct(s, Who(step), Act(s, step))
  {
    hide HasChild, LocalOk;
    LocalAt(s, Who(step));
  }

  lemma ActKidsWaiting(s: Sys, step: Step)
    requires Enabled(s, step) && !Scheduling(step) && !Forking(step) && !Exiting(step) && !Familial(step)
    requires KidsFor(s.procs, Who(step), s.procs[Who(step)].pc)
    ensures KidsAct(s, Who(step), Act(s, step))
  {
    var p := Who(step);
    if step.ScanOne? {
      HasChildNext(s.procs, p, s.procs[p].pc.i);
    } else {
      if |s.procs| > 0 { HasChildNext(s.procs, p, 0); }
    }
    hide HasChild;
  }

  lemma KidsActKeeps(s: Sys, r: Sys, p: nat, e: Effect)
    requires KidsOk(s) && KidsAct(s, p, e) && r.procs == Written(s.procs, p, e)
    ensures KidsOk(r)
  {
    hide Written, HasChild;
    forall i | 0 <= i < |s.procs| ensures KidsFor(r.procs, i, r.procs[i].pc) {
      assert KidsFor(s.procs, i, s.procs[i].pc);
      KidsSame(s.procs, r.procs, i, r.procs[i].pc);
    }
  }

  /** Children come and go under wait_lock, by the hand of their parent, or of a process that is not
      waiting. */
  lemma FamilialKeepsKids(s: Sys, r: Sys, p: nat, t: nat)
    requires LocalOk(s) && KidsOk(s) && p < |s.procs| == |r.procs| && t < |s.procs| && p != t
    requires forall i :: 0 <= i < |s.procs| && i != p && i != t ==> r.procs[i] == s.procs[i]
    requires !Noted(r.procs[p].pc) && (Noted(r.procs[t].pc) ==> r.procs[t].pc == s.procs[t].pc) && r.procs[p].parent == s.procs[p].parent
    requires s.waitLock == None || s.waitLock == Some(p)
    requires forall q :: q != p && s.procs[t].parent == Some(q) ==> r.procs[t].parent == Some(q)
    ensures KidsOk(r)
  {
    hide LocalOk, HasChild;
    forall i | 0 <= i < |s.procs| ensures KidsFor(r.procs, i, r.procs[i].pc) {
      if i != p && Noted(r.procs[i].pc) {
        LocalAt(s, i);
        KidsAt(s, i);
        ChildStays(s.procs, r.procs, p, t, i);
      }
    }
  }

  lemma ChildStays(procs: seq<Process>, procs2: seq<Process>, p: nat, t: nat, i: nat)
    requires |procs2| == |procs| && p < |procs| && t < |procs| && i != p
    requires forall k :: 0 <= k < |procs| && k != p && k != t ==> procs2[k] == procs[k]
    requires procs2[p].parent == procs[p].parent
    requires procs[t].parent == Some(i) ==> procs2[t].parent == Some(i)
    ensures HasChild(procs, i, |procs|) ==> HasChild(procs2, i, |procs|)
  {
    if HasChild(procs, i, |procs|) {
      var k :| 0 <= k < |procs| && procs[k].parent == Some(i);
      assert procs2[k].parent == Some(i);
    }
  }

  lemma LinkKeepsKids(s: Sys, step: Step)
    requires LocalOk(s) && ForkOk(s) && KidsOk(s) && Enabled(s, step) && step.ForkLink?
    ensures KidsOk(Do(s, step))
  {
    hide LocalOk, ForkOk, KidsOk, Written;
    var p, e, r := Who(step), Act(s, step), Do(s, step);
    ForkAt(s, p);
    FamilialKeepsKids(s, r, p, e.other.value.0);
  }

  lemma ReparentKeepsKids(s: Sys, step: Step)
    requires LocalOk(s) && ParentOk(s) && KidsOk(s) && Enabled(s, step) && step.ReparentOne?
    ensures KidsOk(Do(s, step))
  {
    hide LocalOk, ParentOk, KidsOk, Written;
    var p, e, r := Who(step), Act(s, step), Do(s, step);
    LocalAt(s, p);
    if e.other.Some? {
      ParentsAt(s, e.other.value.0);
      FamilialKeepsKids(s, r, p, e.other.value.0);
    } else {
      KidsActKeeps(s, r, p, e);
    }
  }

  lemma ReapKeepsKids(s: Sys, step: Step)
    requires LocalOk(s) && ParentOk(s) && KidsOk(s) && Enabled(s, step) && step.Reap?
    ensures KidsOk(Do(s, step))
  {
    hide LocalOk, ParentOk, KidsOk, Written;
    var p, e, r := Who(step), Act(s, step), Do(s, step);
    LocalAt(s, p);
    ParentsAt(s, e.other.value.0);
    FamilialKeepsKids(s, r, p, e.other.value.0);
  }

  lemma StepKeepsKids(s: Sys, step: Step)
    requires LocalOk(s) && ForkOk(s) && ParentOk(s) && KidsOk(s) && Enabled(s, step)
    ensures KidsOk(Do(s, step))
  {
    hide Act, LocalOk, ForkOk, ParentOk, KidsOk, KidsAct, KidsFor, Written;
    if step.ForkLink? { LinkKeepsKids(s, step); }
    else if step.ReparentOne? { ReparentKeepsKids(s, step); }
    else if step.Reap? { ReapKeepsKids(s, step); }
    else {
      KidsAt(s, Who(step));
      if Scheduling(step) { ActKidsScheduling(s, step); }
      else if Forking(step) { ActKidsForking(s, step); }
      else if Exiting(step) { ActKidsExiting(s, step); }
      else { ActKidsWaiting(s, step); }
      KidsActKeeps(s, Do(s, step), Who(step), Act(s, step));
    }
  }

  // ---- History ----------------------------------------------------------------------------------

  predicate WasReaped(s: Sys, pid: nat) {
    exists k :: 0 <= k < |s.reaps| && s.reaps[k].0 == pid
  }

  predicate Unclaimed(s: Sys, pid: nat) {
    exists t :: 0 <= t < |s.procs| && s.procs[t].state == ZOMBIE && s.procs[t].pid == pid
  }

  predicate PidAt(s: Sys, t: nat)
    requires t < |s.procs|
  {
    var x := s.procs[t];
    && (x.state != UNUSED ==> x.pid < s.nextpid)
    && (x.state == ZOMBIE ==> x.pid in s.exits && s.exits[x.pid] == x.xstate && !WasReaped(s, x.pid))
    && (x.state != UNUSED && x.state != ZOMBIE ==> x.pid !in s.exits)
  }

  /** Live processes have distinct pids. */
  predicate PidsDiffer(procs: seq<Process>) {
    forall t, u :: 0 <= t < u < |procs| && procs[t].state != UNUSED && procs[u].state != UNUSED ==>
      procs[t].pid != procs[u].pid
  }

  /** What wait has returned: each pid once, and with the status it exited with. */
  predicate ReapsOk(s: Sys) {
    && (forall k, m :: 0 <= k < m < |s.reaps| ==> s.reaps[k].0 != s.reaps[m].0)
    && (forall k :: 0 <= k < |s.reaps| ==> s.reaps[k].0 in s.exits && s.exits[s.reaps[k].0] == s.reaps[k].1)
  }

  /** Every process that has exited was reaped or is still there to be reaped. */
  predicate ExitsOk(s: Sys) {
    forall pid :: pid in s.exits ==> pid < s.nextpid && (WasReaped(s, pid) || Unclaimed(s, pid))
  }

  predicate HistoryOk(s: Sys) {
    && (forall t :: 0 <= t < |s.procs| ==> PidAt(s, t))
    && PidsDiffer(s.procs) && ReapsOk(s) && ExitsOk(s)
  }

  predicate Same(x: Process, y: Process) {
    && y.pid == x.pid && (x.state == UNUSED <==> y.state == UNUSED) && (x.state == ZOMBIE <==> y.state == ZOMBIE)
    && (x.state == ZOMBIE ==> y.xstate == x.xstate)
  }

  predicate SameAct(s: Sys, p: nat, e: Effect) {
    && p < |s.procs| && Same(s.procs[p], e.mine)
    && (e.other.Some? ==>
          e.other.value.0 < |s.procs| && e.other.value.0 != p && Same(s.procs[e.other.value.0], e.other.value.1))
  }

  predicate Eventful(step: Step) {
    step.ForkAlloc? || step.ForkFail? || step.BecomeZombie? || step.Reap?
  }

  lemma ActSameScheduling(s: Sys, step: Step)
    requires Enabled(s, step) && Scheduling(step) && Local(s.procs[Who(step)], Who(step), s.waitLock)
    ensures SameAct(s, Who(step), Act(s, step))
  {
  }

  lemma ActSameOther(s: Sys, step: Step)
    requires LocalOk(s) && ForkOk(s) && ParentOk(s) && Enabled(s, step) && !Scheduling(step) && !Eventful(step)
    ensures SameAct(s, Who(step), Act(s, step))
  {
    hide LocalOk, ForkOk, ParentOk;
    LocalAt(s, Who(step));
    ForkAt(s, Who(step));
    if step.ReparentOne? && Act(s, step).other.Some? { ParentsAt(s, s.procs[step.p].pc.i); }
  }

  lemma SameKeepsHistory(s: Sys, r: Sys, p: nat, e: Effect)
    requires HistoryOk(s) && SameAct(s, p, e) && r.procs == Written(s.procs, p, e)
    requires r.nextpid == s.nextpid && r.exits == s.exits && r.reaps == s.reaps
    ensures HistoryOk(r)
  {
    hide Written;
    forall i | 0 <= i < |s.procs| ensures Same(s.procs[i], r.procs[i]) {
    }
    forall i | 0 <= i < |s.procs| ensures PidAt(r, i) {
      assert PidAt(s, i);
    }
    forall pid | pid in s.exits ensures WasReaped(r, pid) || Unclaimed(r, pid) {
      if Unclaimed(s, pid) {
        var t :| 0 <= t < |s.procs| && s.procs[t].state == ZOMBIE && s.procs[t].pid == pid;
        assert r.procs[t].state == ZOMBIE;
      }
    }
  }

  /** A free slot taken, or a slot that never ran given up. */
  lemma SlotKeepsHistory(s: Sys, r: Sys, p: nat, t: nat)
    requires HistoryOk(s) && p < |s.procs| == |r.procs| && t < |s.procs| && p != t
    requires forall i :: 0 <= i < |s.procs| && i != p && i != t ==> r.procs[i] == s.procs[i]
    requires Same(s.procs[p], r.procs[p]) && s.procs[t].state != ZOMBIE && r.procs[t].state != ZOMBIE
    requires r.exits == s.exits && r.reaps == s.reaps && s.nextpid <= r.nextpid
    requires r.procs[t].state != UNUSED ==> r.procs[t].pid == s.nextpid < r.nextpid
    ensures HistoryOk(r)
  {
    forall i | 0 <= i < |s.procs| ensures PidAt(r, i) {
      assert PidAt(s, i);
    }
    forall pid | pid in s.exits ensures WasReaped(r, pid) || Unclaimed(r, pid) {
      if Unclaimed(s, pid) {
        var u :| 0 <= u < |s.procs| && s.procs[u].state == ZOMBIE && s.procs[u].pid == pid;
        assert r.procs[u].state == ZOMBIE;
      }
    }
    forall i, j | 0 <= i < j < |r.procs| && r.procs[i].state != UNUSED && r.procs[j].state != UNUSED
      ensures r.procs[i].pid != r.procs[j].pid
    {
      assert PidAt(s, i) && PidAt(s, j);
    }
  }

  lemma ForkingKeepsHistory(s: Sys, step: Step)
    requires LocalOk(s) && ForkOk(s) && ParentOk(s) && HistoryOk(s) && Enabled(s, step) && (step.ForkAlloc? || step.ForkFail?)
    ensures HistoryOk(Do(s, step))
  {
    hide LocalOk, ForkOk, ParentOk, HistoryOk, Written;
    var p := Who(step);
    var t := Act(s, step).other.value.0;
    ForkFacts(s, p, t);
    SlotKeepsHistory(s, Do(s, step), p, t);
  }

  lemma ExitKeepsHistory(s: Sys, step: Step)
    requires LocalOk(s) && HistoryOk(s) && Enabled(s, step) && step.BecomeZombie?
    ensures HistoryOk(Do(s, step))
  {
    hide LocalOk, Written;
    var p, r := Who(step), Do(s, step);
    LocalAt(s, p);
    assert PidAt(s, p);
    forall i | 0 <= i < |s.procs| ensures PidAt(r, i) {
      assert PidAt(s, i);
      assert i != p && s.procs[i].state != UNUSED ==> s.procs[i].pid != s.procs[p].pid;
    }
    forall pid | pid in r.exits ensures pid < r.nextpid && (WasReaped(r, pid) || Unclaimed(r, pid)) {
      if pid == s.procs[p].pid {
        assert r.procs[p].state == ZOMBIE;
      } else if Unclaimed(s, pid) {
        var u :| 0 <= u < |s.procs| && s.procs[u].state == ZOMBIE && s.procs[u].pid == pid;
        assert r.procs[u].state == ZOMBIE;
      }
    }
  }

  /** Zombie t is handed to its parent and its slot freed. */
  lemma ReapedPids(s: Sys, r: Sys, t: nat, caller: nat)
    requires HistoryOk(s) && t < |s.procs| == |r.procs| && s.procs[t].state == ZOMBIE && r.procs[t].state == UNUSED
    requires forall i :: 0 <= i < |s.procs| && i != t ==> Same(s.procs[i], r.procs[i])
    requires r.nextpid == s.nextpid && r.exits == s.exits && r.reaps == s.reaps + [(s.procs[t].pid, s.procs[t].xstate, caller)]
    ensures forall i :: 0 <= i < |r.procs| ==> PidAt(r, i)
    ensures ReapsOk(r)
  {
    assert PidAt(s, t);
    forall i | 0 <= i < |s.procs| ensures PidAt(r, i) {
      assert PidAt(s, i);
      assert i != t && s.procs[i].state != UNUSED ==> s.procs[i].pid != s.procs[t].pid;
    }
  }

  lemma ReapedExits(s: Sys, r: Sys, t: nat, caller: nat)
    requires HistoryOk(s) && t < |s.procs| == |r.procs|
    requires forall i :: 0 <= i < |s.procs| && i != t ==> Same(s.procs[i], r.procs[i])
    requires r.nextpid == s.nextpid && r.exits == s.exits && r.reaps == s.reaps + [(s.procs[t].pid, s.procs[t].xstate, caller)]
    ensures ExitsOk(r)
  {
    assert r.reaps[|s.reaps|].0 == s.procs[t].pid;
    forall pid | pid in r.exits ensures WasReaped(r, pid) || Unclaimed(r, pid) {
      if WasReaped(s, pid) {
        var k :| 0 <= k < |s.reaps| && s.reaps[k].0 == pid;
        assert r.reaps[k].0 == pid;
      } else {
        var u :| 0 <= u < |s.procs| && s.procs[u].state == ZOMBIE && s.procs[u].pid == pid;
        assert u != t ==> r.procs[u].state == ZOMBIE;
      }
    }
  }

  lemma ReapKeepsHistory(s: Sys, step: Step)
    requires LocalOk(s) && ParentOk(s) && HistoryOk(s) && Enabled(s, step) && step.Reap?
    ensures HistoryOk(Do(s, step))
  {
    hide LocalOk, ParentOk, Written, PidAt, ReapsOk, ExitsOk;
    var p, r := Who(step), Do(s, step);
    var t := s.procs[p].pc.i;
    LocalAt(s, p);
    ParentsAt(s, t);
    ReapedPids(s, r, t, s.procs[p].pid);
    ReapedExits(s, r, t, s.procs[p].pid);
  }

  lemma StepKeepsHistory(s: Sys, step: Step)
    requires LocalOk(s) && ForkOk(s) && ParentOk(s) && HistoryOk(s) && Enabled(s, step)
    ensures HistoryOk(Do(s, step))
  {
    hide Act, LocalOk, ForkOk, ParentOk, HistoryOk, SameAct, Local, Written;
    if step.ForkAlloc? || step.ForkFail? { ForkingKeepsHistory(s, step); }
    else if step.BecomeZombie? { ExitKeepsHistory(s, step); }
    else if step.Reap? { ReapKeepsHistory(s, step); }
    else {
      if Scheduling(step) { LocalAt(s, Who(step)); ActSameScheduling(s, step); }
      else { ActSameOther(s, step); }
      SameKeepsHistory(s, Do(s, step), Who(step), Act(s, step));
    }
  }

  // ---- Whose child is whose -----------------------------------------------------------------------

  /** A process with this pid may have slot q for its parent: q forked it, or is init. */
  predicate MayParent(s: Sys, pid: nat, q: nat) {
    q < |s.procs| ==> pid in s.born && (s.born[pid] == s.procs[q].pid || q == s.initproc)
  }

  predicate BornAt(s: Sys, t: nat)
    requires t < |s.procs|
  {
    && (s.procs[t].parent.Some? ==> MayParent(s, s.procs[t].pid, s.procs[t].parent.value))
    && (Target(s.procs[t].pc).Some? && Target(s.procs[t].pc).value < |s.procs| ==>
          var c := s.procs[Target(s.procs[t].pc).value];
          c.pid in s.born && s.born[c.pid] == s.procs[t].pid)
  }

  /** wait has returned to each caller its own children only, and orphans to init. */
  predicate ReapersOk(s: Sys)
    requires Fits(s)
  {
    forall k :: 0 <= k < |s.reaps| ==>
      s.reaps[k].0 in s.born && (s.reaps[k].2 == s.born[s.reaps[k].0] || s.reaps[k].2 == s.procs[s.initproc].pid)
  }

  predicate BornOk(s: Sys) {
    && Fits(s) && (forall pid :: pid in s.born ==> pid < s.nextpid)
    && (forall t :: 0 <= t < |s.procs| ==> BornAt(s, t)) && ReapersOk(s)
  }

  lemma BornHere(s: Sys, t: nat)
    requires BornOk(s) && t < |s.procs|
    ensures BornAt(s, t)
  {
  }

  /** A change to slot t that leaves its pid, and gives it no parent or fork that it may not have. */
  predicate Plain(s: Sys, t: nat, x: Process)
    requires t < |s.procs|
  {
    && x.pid == s.procs[t].pid
    && (Target(x.pc) == None || Target(x.pc) == Target(s.procs[t].pc))
    && (x.parent.Some? ==> MayParent(s, x.pid, x.parent.value))
  }

  predicate PlainAct(s: Sys, p: nat, e: Effect) {
    && p < |s.procs| && Plain(s, p, e.mine)
    && (e.other.Some? ==> e.other.value.0 < |s.procs| && e.other.value.0 != p && Plain(s, e.other.value.0, e.other.value.1))
  }

  predicate Renaming(step: Step) {
    step.ForkAlloc? || step.ForkFail? || step.Reap?
  }

  lemma ActPlainScheduling(s: Sys, step: Step)
    requires Enabled(s, step) && Scheduling(step) && BornAt(s, Who(step))
    ensures PlainAct(s, Who(step), Act(s, step))
  {
    hide MayParent;
  }

  lemma ActPlainForking(s: Sys, step: Step)
    requires ForkOk(s) && BornOk(s) && Enabled(s, step) && Forking(step) && !Renaming(step)
    ensures PlainAct(s, Who(step), Act(s, step))
  {
    hide ForkOk, BornOk;
    ForkAt(s, Who(step));
    BornHere(s, Who(step));
    BornHere(s, Act(s, step).other.value.0);
  }

  lemma ActPlainOther(s: Sys, step: Step)
    requires ParentOk(s) && BornOk(s) && Enabled(s, step) && !Scheduling(step) && !Forking(step) && !Renaming(step)
    ensures PlainAct(s, Who(step), Act(s, step))
  {
    hide ParentOk, BornOk;
    BornHere(s, Who(step));
    var e := Act(s, step);
    if e.other.Some? {
      BornHere(s, e.other.value.0);
      ParentsAt(s, e.other.value.0);
      InitAt(s);
    }
  }

  lemma PlainKeepsBorn(s: Sys, r: Sys, p: nat, e: Effect)
    requires BornOk(s) && PlainAct(s, p, e) && r.procs == Written(s.procs, p, e) && r.initproc == s.initproc
    requires r.nextpid == s.nextpid && r.born == s.born && r.reaps == s.reaps
    ensures BornOk(r)
  {
    hide Written;
    forall i | 0 <= i < |s.procs| ensures Plain(s, i, r.procs[i]) {
      assert BornAt(s, i);
    }
    forall i | 0 <= i < |s.procs| ensures BornAt(r, i) {
      assert BornAt(s, i);
    }
  }

  /** Slot t, which no one has for a parent, gets a new pid or none; p keeps its own. */
  lemma RenamedKeepsBorn(s: Sys, r: Sys, p: nat, t: nat)
    requires ParentOk(s) && BornOk(s) && p < |s.procs| == |r.procs| && t < |s.procs| && p != t && r.initproc == s.initproc
    requires forall i :: 0 <= i < |s.procs| && i != p && i != t ==> r.procs[i] == s.procs[i]
    requires r.procs[p].pid == s.procs[p].pid && r.procs[p].parent == s.procs[p].parent
    requires !Alive(s.procs[t]) && r.procs[t].parent == None && Target(r.procs[t].pc) == None
    requires forall i :: 0 <= i < |s.procs| && i != p ==> Target(s.procs[i].pc) != Some(t)
    requires r.nextpid >= s.nextpid && (r.born == s.born || (r.nextpid > s.nextpid && r.born == s.born[s.nextpid := s.procs[p].pid]))
    requires Target(r.procs[p].pc) == None || (Target(r.procs[p].pc) == Some(t) && r.procs[t].pid in r.born && r.born[r.procs[t].pid] == r.procs[p].pid)
    requires ReapersOk(r)
    ensures BornOk(r)
  {
    hide ReapersOk, Alive;
    InitAt(s);
    forall i | 0 <= i < |s.procs| ensures BornAt(r, i) {
      assert BornAt(s, i) && ParentAt(s, i);
    }
  }

  lemma AllocKeepsBorn(s: Sys, step: Step)
    requires LocalOk(s) && ForkOk(s) && ParentOk(s) && BornOk(s) && Enabled(s, step) && step.ForkAlloc?
    ensures BornOk(Do(s, step))
  {
    hide LocalOk, ForkOk, ParentOk, Written;
    var p, e, r := Who(step), Act(s, step), Do(s, step);
    var t := e.other.value.0;
    ForkFacts(s, p, t);
    InitAt(s);
    RenamedKeepsBorn(s, r, p, t);
  }

  lemma FailKeepsBorn(s: Sys, step: Step)
    requires LocalOk(s) && ForkOk(s) && ParentOk(s) && BornOk(s) && Enabled(s, step) && step.ForkFail?
    ensures BornOk(Do(s, step))
  {
    hide LocalOk, ForkOk, ParentOk, Written;
    var p, e, r := Who(step), Act(s, step), Do(s, step);
    var t := e.other.value.0;
    ForkFacts(s, p, t);
    InitAt(s);
    RenamedKeepsBorn(s, r, p, t);
  }

  lemma ReapKeepsBorn(s: Sys, step: Step)
    requires LocalOk(s) && ForkOk(s) && ParentOk(s) && BornOk(s) && Enabled(s, step) && step.Reap?
    ensures BornOk(Do(s, step))
  {
    hide LocalOk, ForkOk, ParentOk, Written, BornOk, ReapersOk;
    var p, e, r := Who(step), Act(s, step), Do(s, step);
    var t := e.other.value.0;
    ForkFacts(s, p, t);
    ParentsAt(s, t);
    BornHere(s, t);
    InitAt(s);
    ReapersMore(s, r, (s.procs[t].pid, s.procs[t].xstate, s.procs[p].pid));
    RenamedKeepsBorn(s, r, p, t);
  }

  lemma ReapersMore(s: Sys, r: Sys, one: (nat, int, nat))
    requires BornOk(s) && Fits(r) && r.initproc == s.initproc && r.procs[r.initproc].pid == s.procs[s.initproc].pid && r.born == s.born
    requires r.reaps == s.reaps + [one] && one.0 in s.born && (one.2 == s.born[one.0] || one.2 == s.procs[s.initproc].pid)
    ensures ReapersOk(r)
  {
  }

  lemma StepKeepsBorn(s: Sys, step: Step)
    requires LocalOk(s) && ForkOk(s) && ParentOk(s) && BornOk(s) && Enabled(s, step)
    ensures BornOk(Do(s, step))
  {
    hide Act, LocalOk, ForkOk, ParentOk, BornOk, PlainAct, Written;
    if step.ForkAlloc? { AllocKeepsBorn(s, step); }
    else if step.ForkFail? { FailKeepsBorn(s, step); }
    else if step.Reap? { ReapKeepsBorn(s, step); }
    else {
      if Scheduling(step) { BornHere(s, Who(step)); ActPlainScheduling(s, step); }
      else if Forking(step) { ActPlainForking(s, step); }
      else { ActPlainOther(s, step); }
      PlainKeepsBorn(s, Do(s, step), Who(step), Act(s, step));
    }
  }

  // ---- Slots in use -------------------------------------------------------------------------------

  ghost predicate ForkedInto(s: Sys, t: nat) {
    exists p :: 0 <= p < |s.procs| && Target(s.procs[p].pc) == Some(t)
  }

  /** A slot that is taken and has not started is being forked into. */
  ghost predicate UsedOk(s: Sys) {
    forall t :: 0 <= t < |s.procs| && s.procs[t].state == USED ==> ForkedInto(s, t)
  }

  lemma QuietKeepsUsed(s: Sys, r: Sys, p: nat, e: Effect)
    requires UsedOk(s) && QuietAct(s, p, e) && r.procs == Written(s.procs, p, e)
    ensures UsedOk(r)
  {
    hide Written, Target;
    forall i | 0 <= i < |s.procs| ensures Quiet(s.procs[i], r.procs[i], i) {
    }
    forall t | 0 <= t < |r.procs| && r.procs[t].state == USED ensures ForkedInto(r, t) {
      var q :| 0 <= q < |s.procs| && Target(s.procs[q].pc) == Some(t);
      SameTarget(s.procs[q].pc, r.procs[q].pc);
    }
  }

  lemma SameTarget(a: Pc, b: Pc)
    requires Fork(a) == Fork(b)
    ensures Target(a) == Target(b)
  {
  }

  /** Only p's fork into t changes. */
  lemma ForkKeepsUsed(s: Sys, r: Sys, p: nat, t: nat)
    requires UsedOk(s) && p < |s.procs| == |r.procs| && t < |s.procs| && p != t
    requires forall i :: 0 <= i < |s.procs| && i != p && i != t ==> r.procs[i] == s.procs[i]
    requires ForksAt(s, p, t) && Target(s.procs[t].pc) == None && (r.procs[p].state == USED ==> s.procs[p].state == USED)
    requires r.procs[t].state == USED ==> Target(r.procs[p].pc) == Some(t)
    ensures UsedOk(r)
  {
    hide Target;
    forall u | 0 <= u < |r.procs| && r.procs[u].state == USED ensures ForkedInto(r, u) {
      if u == t {
        assert Target(r.procs[p].pc) == Some(u);
      } else {
        var q :| 0 <= q < |s.procs| && Target(s.procs[q].pc) == Some(u);
        assert q != p && q != t && Target(r.procs[q].pc) == Some(u);
      }
    }
  }

  lemma ForkingKeepsUsed(s: Sys, step: Step)
    requires LocalOk(s) && ForkOk(s) && UsedOk(s) && Enabled(s, step) && Forking(step)
    ensures UsedOk(Do(s, step))
  {
    hide LocalOk, ForkOk, UsedOk, Written;
    var p, e, r := Who(step), Act(s, step), Do(s, step);
    var t := e.other.value.0;
    LocalAt(s, p);
    LocalAt(s, t);
    ForkAt(s, p);
    ForkKeepsUsed(s, r, p, t);
  }

  lemma StepKeepsUsed(s: Sys, step: Step)
    requires LocalOk(s) && ForkOk(s) && ParentOk(s) && UsedOk(s) && Enabled(s, step)
    ensures UsedOk(Do(s, step))
  {
    hide Act, LocalOk, ForkOk, ParentOk, UsedOk, QuietAct, Local, Written;
    if Forking(step) { ForkingKeepsUsed(s, step); }
    else {
      if Scheduling(step) { LocalAt(s, Who(step)); ActQuietScheduling(s, step); }
      else if step.ReparentOne? { ActQuietReparent(s, step); }
      else if Exiting(step) { ActQuietExiting(s, step); }
      else { ActQuietWaiting(s, step); }
      QuietKeepsUsed(s, Do(s, step), Who(step), Act(s, step));
    }
  }

  // ---- Every run --------------------------------------------------------------------------------

  ghost predicate Inv(s: Sys) {
    LocalOk(s) && ForkOk(s) && ParentOk(s) && WakeOk(s) && KidsOk(s) && HistoryOk(s) && BornOk(s) && UsedOk(s)
  }

  /** After boot: init is runnable and every other slot is free. */
  predicate Booted(s: Sys) {
    && Fits(s) && s.waitLock == None && s.born == map[] && s.exits == map[] && s.reaps == []
    && (forall t :: 0 <= t < |s.procs| ==>
          var x := s.procs[t];
          && x.state == (if t == s.initproc then RUNNABLE else UNUSED)
          && x.chan == NoChan && x.parent == None && x.lock == Nobody && !x.onCpu && x.pc == Sched(ToKernel)
          && x.pid < s.nextpid)
  }

  /** Starting from s, the steps can happen in this order and lead to r. */
  predicate Runs(s: Sys, steps: seq<Step>, r: Sys)
    decreases |steps|
  {
    if steps == [] then r == s
    else Enabled(s, steps[0]) && Runs(Do(s, steps[0]), steps[1..], r)
  }

  lemma StepKeeps(s: Sys, step: Step)
    requires Inv(s) && Enabled(s, step)
    ensures Inv(Do(s, step))
  {
    hide LocalOk, ForkOk, ParentOk, WakeOk, KidsOk, HistoryOk, BornOk, UsedOk, Do;
    StepKeepsLocal(s, step);
    StepKeepsFork(s, step);
    StepKeepsParents(s, step);
    StepKeepsWake(s, step);
    StepKeepsKids(s, step);
    StepKeepsHistory(s, step);
    StepKeepsBorn(s, step);
    StepKeepsUsed(s, step);
  }

  lemma {:induction false} RunKeeps(s: Sys, steps: seq<Step>, r: Sys)
    requires Inv(s) && Runs(s, steps, r)
    ensures Inv(r)
    decreases |steps|
  {
    hide Inv, Enabled, Do;
    if steps != [] {
      StepKeeps(s, steps[0]);
      RunKeeps(Do(s, steps[0]), steps[1..], r);
    }
  }

  lemma BootOk(s: Sys)
    requires Booted(s)
    ensures Inv(s)
  {
  }

  lemma Reached(s: Sys, steps: seq<Step>, r: Sys)
    requires Booted(s) && Runs(s, steps, r)
    ensures LocalOk(r) && ForkOk(r) && ParentOk(r) && WakeOk(r) && KidsOk(r) && HistoryOk(r) && BornOk(r) && UsedOk(r)
  {
    hide LocalOk, ForkOk, ParentOk, WakeOk, KidsOk, HistoryOk, BornOk, UsedOk, Booted, Runs;
    BootOk(s);
    RunKeeps(s, steps, r);
  }

  /** wait gives up, unless the process is killed, only when it has no children. */
  lemma GivesUpChildless(s: Sys, steps: seq<Step>, r: Sys, p: nat, c: nat)
    requires Booted(s) && Runs(s, steps, r) && Enabled(r, WaitGiveUp(p)) && !r.procs[p].killed && c < |r.procs|
    ensures r.procs[c].parent != Some(p)
  {
    hide Booted, Runs, LocalOk, ForkOk, ParentOk, HistoryOk, BornOk, UsedOk;
    Reached(s, steps, r);
    KidsAt(r, p);
  }

  /** wait goes to sleep only when it has children and none of them has exited. */
  lemma SleepsForChildren(s: Sys, steps: seq<Step>, r: Sys, p: nat)
    requires Booted(s) && Runs(s, steps, r) && Enabled(r, SleepLock(p))
    ensures exists c :: 0 <= c < |r.procs| && r.procs[c].parent == Some(p)
    ensures forall c :: 0 <= c < |r.procs| && r.procs[c].parent == Some(p) ==> r.procs[c].state != ZOMBIE
  {
    hide Booted, Runs, LocalOk, ForkOk, ParentOk, HistoryOk, BornOk, UsedOk;
    Reached(s, steps, r);
    KidsAt(r, p);
    forall c | 0 <= c < |r.procs| && r.procs[c].parent == Some(p) ensures r.procs[c].state != ZOMBIE {
      assert NoticedAt(r, c);
    }
  }

  /** A process that sleeps in wait has a child to wait for. */
  lemma SleepersHaveChildren(s: Sys, steps: seq<Step>, r: Sys, p: nat)
    requires Booted(s) && Runs(s, steps, r)
    requires p < |r.procs| && r.procs[p].state == SLEEPING && r.procs[p].pc == Sched(ToWait)
    ensures exists c :: 0 <= c < |r.procs| && r.procs[c].parent == Some(p)
  {
    hide Booted, Runs, LocalOk, ForkOk, ParentOk, HistoryOk, BornOk, UsedOk;
    Reached(s, steps, r);
    KidsAt(r, p);
  }

  /** Whenever wait_lock is free, no process sleeps in wait while it has an exited child. */
  lemma NoLostWakeup(s: Sys, steps: seq<Step>, r: Sys, p: nat, c: nat)
    requires Booted(s) && Runs(s, steps, r) && r.waitLock == None
    requires p < |r.procs| && r.procs[p].state == SLEEPING && r.procs[p].pc == Sched(ToWait)
    requires c < |r.procs| && r.procs[c].parent == Some(p)
    ensures r.procs[c].state != ZOMBIE
  {
    hide Booted, Runs, LocalOk, ForkOk, ParentOk, HistoryOk, BornOk, UsedOk;
    Reached(s, steps, r);
    assert NoticedAt(r, c);
  }

  /** A parent pointer never names an exited process or a free slot, and a process that has exited has a
      live parent to reap it. */
  lemma ParentsLive(s: Sys, steps: seq<Step>, r: Sys, c: nat)
    requires Booted(s) && Runs(s, steps, r) && c < |r.procs|
    ensures r.procs[c].parent.Some? ==>
              var q := r.procs[c].parent.value;
              q < |r.procs| && q != c && r.procs[q].state != ZOMBIE && r.procs[q].state != UNUSED
    ensures r.procs[c].state == ZOMBIE ==> r.procs[c].parent.Some?
  {
    hide Booted, Runs, LocalOk, ForkOk, ParentOk, HistoryOk, BornOk, UsedOk;
    Reached(s, steps, r);
    ParentsAt(r, c);
    InitAt(r);
  }

  /** No slot is lost: each is free, or being forked into by exactly one process, or a process that has a
      parent to reap it, or init. */
  lemma NoSlotLost(s: Sys, steps: seq<Step>, r: Sys, t: nat)
    requires Booted(s) && Runs(s, steps, r) && t < |r.procs|
    ensures r.procs[t].state == UNUSED || t == r.initproc || r.procs[t].parent.Some? || r.procs[t].state == USED
    ensures r.procs[t].state == USED ==>
              exists p :: 0 <= p < |r.procs| && Target(r.procs[p].pc) == Some(t)
                          && forall q :: 0 <= q < |r.procs| && q != p ==> Target(r.procs[q].pc) != Some(t)
  {
    hide Booted, Runs, LocalOk, ParentOk, WakeOk, KidsOk, HistoryOk, BornOk, Target;
    Reached(s, steps, r);
    ParentsAt(r, t);
    if r.procs[t].state == USED {
      assert ForkedInto(r, t);
      var p :| 0 <= p < |r.procs| && Target(r.procs[p].pc) == Some(t);
      assert forall q :: 0 <= q < |r.procs| && q != p ==> Target(r.procs[q].pc) != Some(t);
    }
  }

  /** A child is reaped only after it has left its kernel stack for the last time, and a free or new
      slot's stack is never in use. */
  lemma StackLeft(s: Sys, steps: seq<Step>, r: Sys, p: nat)
    requires Booted(s) && Runs(s, steps, r) && p < |r.procs|
    ensures AtZombie(r, p) ==> !r.procs[r.procs[p].pc.i].onCpu
    ensures r.procs[p].state == UNUSED || r.procs[p].state == USED ==> !r.procs[p].onCpu
  {
    hide Booted, Runs, LocalOk, ForkOk, ParentOk, HistoryOk, BornOk, UsedOk;
    Reached(s, steps, r);
    LocalAt(r, p);
    if AtZombie(r, p) { LocalAt(r, r.procs[p].pc.i); }
  }

  /** wait returns each exited process at most once, with the status it exited with, and none is lost:
      an exited process not yet returned still has its slot. */
  lemma ReapedOnce(s: Sys, steps: seq<Step>, r: Sys)
    requires Booted(s) && Runs(s, steps, r)
    ensures forall k, m :: 0 <= k < m < |r.reaps| ==> r.reaps[k].0 != r.reaps[m].0
    ensures forall k :: 0 <= k < |r.reaps| ==> r.reaps[k].0 in r.exits && r.exits[r.reaps[k].0] == r.reaps[k].1
    ensures forall pid :: pid in r.exits ==> (WasReaped(r, pid) <==> !Unclaimed(r, pid))
  {
    hide Booted, Runs, LocalOk, ForkOk, ParentOk, HistoryOk, BornOk, UsedOk;
    Reached(s, steps, r);
    HistorySays(r);
  }

  /** wait returns to a process only children that it forked, and to init also those whose parent is gone. */
  lemma ReapedByParent(s: Sys, steps: seq<Step>, r: Sys, k: nat)
    requires Booted(s) && Runs(s, steps, r) && k < |r.reaps|
    ensures r.reaps[k].0 in r.born && r.initproc < |r.procs|
    ensures r.reaps[k].2 == r.born[r.reaps[k].0] || r.reaps[k].2 == r.procs[r.initproc].pid
  {
    hide Booted, Runs, LocalOk, ForkOk, ParentOk, WakeOk, KidsOk, HistoryOk;
    Reached(s, steps, r);
  }

  lemma HistorySays(r: Sys)
    requires HistoryOk(r)
    ensures ReapsOk(r)
    ensures forall pid :: pid in r.exits ==> (WasReaped(r, pid) <==> !Unclaimed(r, pid))
  {
    hide WasReaped;
    forall pid | pid in r.exits && Unclaimed(r, pid) ensures !WasReaped(r, pid) {
      var t :| 0 <= t < |r.procs| && r.procs[t].state == ZOMBIE && r.procs[t].pid == pid;
      assert PidAt(r, t);
    }
  }

  // ---- The life of a slot -------------------------------------------------------------------------

  /** What ends a sleep: kill, or wakeup on the channel slept on. */
  predicate Rouse(s: Sys, step: Step, t: nat)
    requires t < |s.procs| && Who(step) < |s.procs|
  {
    || step == Kill(t)
    || (step.WakeElsewhere? && step.t == t && s.procs[t].chan == Elsewhere(step.c))
    || (step.WakeInitOne? && s.procs[t].chan == OnProc(s.initproc))
    || (step.WakeParentOne? && s.procs[step.p].parent.Some? && s.procs[t].chan == OnProc(s.procs[step.p].parent.value))
  }

  /** The state of slot t may go from a to b by this step. */
  predicate Moves(s: Sys, step: Step, t: nat, a: State, b: State)
    requires t < |s.procs| && Who(step) < |s.procs|
  {
    match a
    case UNUSED => b == USED && step.ForkAlloc? && step.t == t
    case USED =>
      || (b == RUNNABLE && step.ForkStart? && Target(s.procs[step.p].pc) == Some(t))
      || (b == UNUSED && step.ForkFail? && Target(s.procs[step.p].pc) == Some(t))
    case RUNNABLE => b == RUNNING && step == Dispatch(t)
    case RUNNING =>
      || (b == RUNNABLE && step == Yield(t))
      || (b == SLEEPING && (step == SleepNow(t) || (step.SleepElsewhere? && step.p == t)))
      || (b == ZOMBIE && step.BecomeZombie? && step.p == t)
    case SLEEPING => b == RUNNABLE && Rouse(s, step, t)
    case ZOMBIE => b == UNUSED && step.Reap? && s.procs[t].parent == Some(step.p)
  }

  lemma MovesScheduling(s: Sys, step: Step)
    requires Enabled(s, step) && Scheduling(step) && Local(s.procs[Who(step)], Who(step), s.waitLock)
    ensures var p, y := Who(step), Act(s, step).mine;
            && (y.state == s.procs[p].state || Moves(s, step, p, s.procs[p].state, y.state))
            && y.killed == (step == Kill(p) || s.procs[p].killed)
  {
  }

  lemma MovesMine(s: Sys, step: Step)
    requires Enabled(s, step) && !Scheduling(step) && Local(s.procs[Who(step)], Who(step), s.waitLock)
    ensures var p, y := Who(step), Act(s, step).mine;
            && (y.state == s.procs[p].state || Moves(s, step, p, s.procs[p].state, y.state))
            && y.killed == (step == Kill(p) || s.procs[p].killed)
  {
  }

  lemma MovesForking(s: Sys, step: Step)
    requires Enabled(s, step) && Forking(step) && TargetOk(s, Who(step)) && Act(s, step).other.Some? && Act(s, step).other.value.0 < |s.procs|
    ensures var t, y := Act(s, step).other.value.0, Act(s, step).other.value.1;
            && (y.state == s.procs[t].state || Moves(s, step, t, s.procs[t].state, y.state))
            && y.killed == (s.procs[t].killed && (y.state == UNUSED ==> s.procs[t].state == UNUSED))
            && step != Kill(t)
  {
  }

  lemma MovesOther(s: Sys, step: Step)
    requires Enabled(s, step) && !Forking(step) && Act(s, step).other.Some? && Act(s, step).other.value.0 < |s.procs|
    requires step.WakeParentOne? ==> s.procs[step.p].parent.Some?
    ensures var t, y := Act(s, step).other.value.0, Act(s, step).other.value.1;
            && (y.state == s.procs[t].state || Moves(s, step, t, s.procs[t].state, y.state))
            && y.killed == (s.procs[t].killed && (y.state == UNUSED ==> s.procs[t].state == UNUSED))
            && step != Kill(t)
  {
  }

  /** A slot's state changes only as it should, and by the step that should change it. The killed flag is
      set by kill and cleared when the slot is freed, and by nothing else. */
  lemma LifeCycle(s: Sys, step: Step, t: nat)
    requires LocalOk(s) && ForkOk(s) && ParentOk(s) && Enabled(s, step) && t < |s.procs|
    ensures var x, y := s.procs[t], Do(s, step).procs[t];
            && (y.state == x.state || Moves(s, step, t, x.state, y.state))
            && y.killed == (step == Kill(t) || (x.killed && (y.state == UNUSED ==> x.state == UNUSED)))
  {
    hide LocalOk, ForkOk, ParentOk, Written, Act, Moves;
    LocalAt(s, Who(step));
    ForkAt(s, Who(step));
    ParentsAt(s, Who(step));
    InitAt(s);
    var e := Act(s, step);
    if t == Who(step) {
      if Scheduling(step) { MovesScheduling(s, step); } else { MovesMine(s, step); }
      NeverFreed(s, step);
    } else if e.other.Some? && e.other.value.0 == t {
      if Forking(step) { MovesForking(s, step); } else { MovesOther(s, step); }
    }
  }

  lemma NeverFreed(s: Sys, step: Step)
    requires Enabled(s, step)
    ensures Act(s, step).mine.state == UNUSED ==> s.procs[Who(step)].state == UNUSED
  {
  }

  // ---- No deadlock --------------------------------------------------------------------------------

  /** A step of a process's own kernel thread. */
  predicate ThreadStep(step: Step) {
    !step.SchedLook? && !step.Dispatch? && !step.SchedRelease? && !step.WakeElsewhere? && !step.Kill?
  }

  ghost predicate CanGo(s: Sys, p: nat) {
    exists step :: ThreadStep(step) && Who(step) == p && Enabled(s, step)
  }

  /** Whoever holds slot t's lock can go on. */
  ghost predicate HolderGoes(s: Sys, t: nat)
    requires t < |s.procs|
  {
    match s.procs[t].lock
    case Nobody => true
    case Scheduler => Enabled(s, SchedRelease(t))
    case Thread(q) => CanGo(s, q)
  }

  /** p waits for the lock of a slot, and its holder can go on. */
  ghost predicate WaitsForSlot(s: Sys, p: nat, t: nat) {
    t < |s.procs| && s.procs[t].lock != Nobody && HolderGoes(s, t)
  }

  /** The slot whose lock p's next step takes, if it takes one. */
  function NextSlot(s: Sys, p: nat): (t: Option<nat>)
    requires p < |s.procs|
  {
    match s.procs[p].pc
    case Kernel => Some(p)
    case ForkUnlocked(_) => Some(p)
    case ForkLinked(t) => Some(t)
    case WakeInit(_, j) => Some(j)
    case WakeParent(j) => if j < |s.procs| then Some(j) else Some(p)
    case Scan(i, _) => Some(i)
    case SleepWanted => Some(p)
    case WaitAgain => Some(p)
    case _ => None
  }

  lemma LockHolderGoes(s: Sys, t: nat)
    requires LocalOk(s) && ForkOk(s) && t < |s.procs|
    ensures HolderGoes(s, t)
  {
    hide LocalOk, ForkOk;
    LocalAt(s, t);
    ForkAt(s, t);
    if s.procs[t].lock.Thread? {
      var q := s.procs[t].lock.q;
      if q == t {
        OwnHolderGoes(s, t);
      } else {
        LocalAt(s, q);
        ForkAt(s, q);
        assert Enabled(s, ForkUnlock(q));
      }
    }
  }

  lemma OwnHolderGoes(s: Sys, t: nat)
    requires t < |s.procs| && HoldsOwn(s.procs[t]) && s.procs[t].lock == Thread(t)
    ensures CanGo(s, t)
  {
    var x := s.procs[t];
    if x.pc.Sched? {
      if x.state == RUNNING { assert Enabled(s, Resume(t)); } else { assert Enabled(s, SwitchOut(t)); }
    } else if x.pc == ExitUnlock {
      assert Enabled(s, ExitRelease(t));
    } else if x.pc == SleepLocked {
      assert Enabled(s, SleepRelease(t));
    } else {
      assert Enabled(s, SleepNow(t));
    }
  }

  /** A process on a CPU can go on, unless it is about to take a slot's lock that is held. */
  lemma ThreadGoes(s: Sys, p: nat)
    requires LocalOk(s) && ForkOk(s) && ParentOk(s) && KidsOk(s) && p < |s.procs| && s.procs[p].onCpu
    ensures CanGo(s, p) || (NextSlot(s, p).Some? && NextSlot(s, p).value < |s.procs| && s.procs[NextSlot(s, p).value].lock != Nobody)
  {
    hide LocalOk, ForkOk, ParentOk, KidsOk, HasChild;
    LocalAt(s, p);
    ForkAt(s, p);
    KidsAt(s, p);
    InitAt(s);
    var x := s.procs[p];
    if HoldsOwn(x) { OwnHolderGoes(s, p); }
    else if x.lock == Nobody && Preemptible(x.pc) { assert Enabled(s, Yield(p)); }
    else if HoldsWait(x.pc) { WaitHolderGoes(s, p); }
    else if x.pc.ForkFilling? { assert Enabled(s, ForkUnlock(p)); }
    else if x.pc.ForkLinked? && s.procs[x.pc.t].lock == Nobody { assert Enabled(s, ForkStart(p)); }
  }

  lemma Goes1(s: Sys, step: Step)
    requires ThreadStep(step) && Enabled(s, step)
    ensures CanGo(s, Who(step))
  {
  }

  lemma ScanGoes(s: Sys, p: nat)
    requires p < |s.procs| && s.procs[p].onCpu && s.procs[p].pc.Scan? && s.procs[p].pc.i <= |s.procs|
    ensures CanGo(s, p) || (s.procs[p].pc.i < |s.procs| && s.procs[s.procs[p].pc.i].lock != Nobody)
  {
    var x, n, i := s.procs[p], |s.procs|, s.procs[p].pc.i;
    if i == n {
      if x.pc.kids && !x.killed { assert Enabled(s, WaitOn(p)); } else { assert Enabled(s, WaitGiveUp(p)); }
    } else if s.procs[i].parent != Some(p) || (s.procs[i].lock == Nobody && s.procs[i].state != ZOMBIE) {
      assert Enabled(s, ScanOne(p));
    } else if s.procs[i].lock == Nobody {
      assert Enabled(s, Reap(p));
    }
  }

  lemma WakingGoes(s: Sys, p: nat)
    requires p < |s.procs| && s.procs[p].onCpu && (s.procs[p].pc.WakeInit? || (s.procs[p].pc.WakeParent? && s.procs[p].pc.j <= |s.procs|))
    ensures CanGo(s, p) || (NextSlot(s, p).Some? && NextSlot(s, p).value < |s.procs| && s.procs[NextSlot(s, p).value].lock != Nobody)
  {
    var x, n, j := s.procs[p], |s.procs|, s.procs[p].pc.j;
    if x.pc.WakeInit? {
      if j >= n || j == p || s.procs[j].lock == Nobody { assert Enabled(s, WakeInitOne(p)); }
    } else if j < n {
      if j == p || s.procs[j].lock == Nobody { assert Enabled(s, WakeParentOne(p)); }
    } else if x.lock == Nobody {
      assert Enabled(s, BecomeZombie(p, 0));
    }
  }

  lemma WaitHolderGoes(s: Sys, p: nat)
    requires p < |s.procs| && s.procs[p].onCpu && HoldsWait(s.procs[p].pc) && !HoldsOwn(s.procs[p]) && s.initproc < |s.procs|
    requires KidsFor(s.procs, p, s.procs[p].pc)
    ensures CanGo(s, p) || (NextSlot(s, p).Some? && NextSlot(s, p).value < |s.procs| && s.procs[NextSlot(s, p).value].lock != Nobody)
  {
    hide HasChild, CanGo;
    var x := s.procs[p];
    match x.pc
    case Reparent(_) => Goes1(s, ReparentOne(p));
    case WakeInit(_, _) => WakingGoes(s, p);
    case WakeParent(_) => WakingGoes(s, p);
    case Scan(_, _) => ScanGoes(s, p);
    case WaitReturn => Goes1(s, WaitFinish(p));
    case SleepWanted => if x.lock == Nobody { Goes1(s, SleepLock(p)); }
    case _ =>
  }

  /** A process on a CPU goes on, or waits for a slot's lock whose holder goes on. A process that wants
      wait_lock waits for one on a CPU that goes on, or waits for such a lock itself. */
  lemma NoDeadlock(s: Sys, steps: seq<Step>, r: Sys, p: nat)
    requires Booted(s) && Runs(s, steps, r) && p < |r.procs|
    ensures r.procs[p].onCpu ==> CanGo(r, p) || (NextSlot(r, p).Some? && WaitsForSlot(r, p, NextSlot(r, p).value))
    ensures r.waitLock == Some(p) ==> r.procs[p].onCpu
    ensures r.procs[p].onCpu && r.waitLock == None ==>
              (r.procs[p].pc.ForkUnlocked? ==> Enabled(r, ForkLink(p))) && (r.procs[p].pc == WaitAgain ==> Enabled(r, WaitRetake(p)))
    ensures !r.procs[p].onCpu && r.procs[p].state == RUNNABLE ==> Enabled(r, Dispatch(p)) || WaitsForSlot(r, p, p)
  {
    hide Booted, Runs, LocalOk, ForkOk, ParentOk, WakeOk, KidsOk, HistoryOk, BornOk, UsedOk, CanGo, HolderGoes;
    Reached(s, steps, r);
    LocalAt(r, p);
    LockHolderGoes(r, p);
    ForkAt(r, p);
    if r.procs[p].onCpu {
      ThreadGoes(r, p);
      if NextSlot(r, p).Some? && NextSlot(r, p).value < |r.procs| { LockHolderGoes(r, NextSlot(r, p).value); }
    }
  }

  // ---- Kill ---------------------------------------------------------------------------------------

  predicate AsleepInWait(x: Process) {
    x.state == SLEEPING && x.pc == Sched(ToWait)
  }

  /** x has been killed, and has not decided to sleep in wait. */
  predicate Doomed(x: Process) {
    x.killed && x.pc != SleepWanted && x.pc != SleepLocked && x.pc != SleepReleased && !AsleepInWait(x)
  }

  /** A killed process stays so, and does not go to sleep in wait, until its slot is freed. */
  lemma StepKeepsDoomed(s: Sys, step: Step, t: nat)
    requires LocalOk(s) && ForkOk(s) && Enabled(s, step) && t < |s.procs| && Doomed(s.procs[t])
    ensures Doomed(Do(s, step).procs[t]) || Do(s, step).procs[t].state == UNUSED
  {
    hide LocalOk, ForkOk, Written, Act, Doomed;
    LocalAt(s, Who(step));
    ForkAt(s, Who(step));
    if t == Who(step) { if Scheduling(step) { DoomedScheduling(s, step); } else { DoomedMine(s, step); } }
    else if Act(s, step).other.Some? && Act(s, step).other.value.0 == t { DoomedOther(s, step); }
  }

  lemma DoomedMine(s: Sys, step: Step)
    requires Enabled(s, step) && !Scheduling(step) && Doomed(s.procs[Who(step)])
    ensures Doomed(Act(s, step).mine)
  {
  }

  lemma DoomedScheduling(s: Sys, step: Step)
    requires Enabled(s, step) && Scheduling(step) && Local(s.procs[Who(step)], Who(step), s.waitLock) && Doomed(s.procs[Who(step)])
    ensures Doomed(Act(s, step).mine)
  {
  }

  lemma DoomedOther(s: Sys, step: Step)
    requires Enabled(s, step) && TargetOk(s, Who(step)) && Act(s, step).other.Some? && Act(s, step).other.value.0 < |s.procs|
    requires Doomed(s.procs[Act(s, step).other.value.0])
    ensures Doomed(Act(s, step).other.value.1) || Act(s, step).other.value.1.state == UNUSED
  {
  }

  /** From s on, through these steps, slot t is never freed. */
  predicate Stays(s: Sys, steps: seq<Step>, t: nat)
    decreases |steps|
  {
    && t < |s.procs| && s.procs[t].state != UNUSED
    && (steps != [] ==> Enabled(s, steps[0]) && Stays(Do(s, steps[0]), steps[1..], t))
  }

  lemma {:induction false} RunKeepsDoomed(s: Sys, steps: seq<Step>, r: Sys, t: nat)
    requires Inv(s) && Runs(s, steps, r) && Stays(s, steps, t) && Doomed(s.procs[t])
    ensures t < |r.procs| && Doomed(r.procs[t])
    decreases |steps|
  {
    hide LocalOk, ForkOk, ParentOk, WakeOk, KidsOk, HistoryOk, BornOk, UsedOk, Enabled, Do, Doomed;
    if steps != [] {
      StepKeeps(s, steps[0]);
      StepKeepsDoomed(s, steps[0], t);
      RunKeepsDoomed(Do(s, steps[0]), steps[1..], r, t);
    }
  }

  /** A process that is killed, wherever it is but for one place, never again sleeps in wait. */
  lemma KillHeeded(s: Sys, steps: seq<Step>, r: Sys, t: nat)
    requires Inv(s) && Enabled(s, Kill(t)) && s.procs[t].pc != SleepWanted
    requires Runs(Do(s, Kill(t)), steps, r) && Stays(Do(s, Kill(t)), steps, t)
    ensures t < |r.procs| && r.procs[t].killed && !AsleepInWait(r.procs[t])
  {
    hide LocalOk, ForkOk, ParentOk, WakeOk, KidsOk, HistoryOk, BornOk, UsedOk, Runs, Stays, Do, Doomed;
    LocalAt(s, t);
    KillDooms(s, t);
    StepKeeps(s, Kill(t));
    RunKeepsDoomed(Do(s, Kill(t)), steps, r, t);
    DoomedIs(r.procs[t]);
  }

  lemma KillDooms(s: Sys, t: nat)
    requires Enabled(s, Kill(t)) && s.procs[t].pc != SleepWanted && Local(s.procs[t], t, s.waitLock)
    ensures |Do(s, Kill(t)).procs| == |s.procs| && Doomed(Do(s, Kill(t)).procs[t])
  {
    hide Written;
  }

  lemma DoomedIs(x: Process)
    requires Doomed(x)
    ensures x.killed && !AsleepInWait(x)
  {
  }

  /** In that one place, between wait's look at killed and its taking its own lock, the kill is lost: it
      goes to sleep all the same. */
  lemma KillLost(s: Sys, t: nat) returns (r: Sys)
    requires Inv(s) && Enabled(s, Kill(t)) && s.procs[t].pc == SleepWanted
    ensures Runs(s, [Kill(t), SleepLock(t), SleepRelease(t), SleepNow(t)], r)
    ensures t < |r.procs| && r.procs[t].killed && AsleepInWait(r.procs[t])
  {
    hide ForkOk, ParentOk, WakeOk, KidsOk, HistoryOk, BornOk, UsedOk;
    LocalAt(s, t);
    hide LocalOk, Runs;
    var s1 := Do(s, Kill(t));
    var s2 := Do(s1, SleepLock(t));
    var s3 := Do(s2, SleepRelease(t));
    r := Do(s3, SleepNow(t));
    RunsOn(s, [Kill(t), SleepLock(t), SleepRelease(t), SleepNow(t)], r);
    RunsOn(s1, [SleepLock(t), SleepRelease(t), SleepNow(t)], r);
    RunsOn(s2, [SleepRelease(t), SleepNow(t)], r);
    RunsOn(s3, [SleepNow(t)], r);
  }

  lemma {:induction false} Then(s: Sys, steps: seq<Step>, r: Sys, step: Step)
    requires Runs(s, steps, r) && Enabled(r, step)
    ensures Runs(s, steps + [step], Do(r, step))
    decreases |steps|
  {
    hide Enabled, Do;
    if steps == [] {
      RunsOn(s, [step], Do(r, step));
      assert [] + [step] == [step];
    } else {
      Then(Do(s, steps[0]), steps[1..], r, step);
      assert (steps + [step])[1..] == steps[1..] + [step];
      RunsOn(s, steps + [step], Do(r, step));
    }
  }

  /** Two slots, the first of them init's. */
  function Two(me: Process, child: Process, waitLock: Option<nat>, nextpid: nat, born: map<nat, nat>): Sys {
    Sys([me, child], 0, waitLock, nextpid, born, map[], [])
  }

  function Me(state: State, lock: Holder, onCpu: bool, killed: bool, chan: Channel, pc: Pc): Process {
    Process(state, chan, killed, 0, 1, None, lock, onCpu, pc)
  }

  function Child(state: State, pid: nat, parent: Option<nat>, lock: Holder): Process {
    Process(state, NoChan, false, 0, pid, parent, lock, false, Sched(ToKernel))
  }

  /** Init, alone with one free slot. */
  function Small(): Sys {
    Two(Me(RUNNABLE, Nobody, false, false, NoChan, Sched(ToKernel)), Child(UNUSED, 0, None, Nobody), None, 2, map[])
  }

  /** Init with a child that it has forked. */
  function Forked(pc: Pc, waitLock: Option<nat>): Sys {
    Two(Me(RUNNING, Nobody, true, false, NoChan, pc), Child(RUNNABLE, 2, Some(0), Nobody), waitLock, 3, map[2 := 1])
  }

  lemma WrittenTwo(procs: seq<Process>, e: Effect)
    requires |procs| == 2 && (e.other.Some? ==> e.other.value.0 == 1)
    ensures Written(procs, 0, e) == [e.mine, if e.other.Some? then e.other.value.1 else procs[1]]
  {
  }

  lemma ForkRun() returns (steps: seq<Step>)
    ensures Runs(Small(), steps, Forked(Kernel, None))
  {
    hide Runs, Written;
    RunsNot(Small());
    var c0 := Child(UNUSED, 0, None, Nobody);
    steps := Goes(Small(), [], Small(), Dispatch(0), Two(Me(RUNNING, Thread(0), true, false, NoChan, Sched(ToKernel)), c0, None, 2, map[]));
    steps := Goes(Small(), steps, Two(Me(RUNNING, Thread(0), true, false, NoChan, Sched(ToKernel)), c0, None, 2, map[]), Resume(0),
                  Two(Me(RUNNING, Nobody, true, false, NoChan, Kernel), c0, None, 2, map[]));
    steps := ForkEnd(steps);
  }

  lemma ForkEnd(before: seq<Step>) returns (steps: seq<Step>)
    requires Runs(Small(), before, Two(Me(RUNNING, Nobody, true, false, NoChan, Kernel), Child(UNUSED, 0, None, Nobody), None, 2, map[]))
    ensures Runs(Small(), steps, Forked(Kernel, None))
  {
    hide Runs, Written;
    var r1 := Two(Me(RUNNING, Nobody, true, false, NoChan, ForkFilling(1)), Child(USED, 2, None, Thread(0)), None, 3, map[2 := 1]);
    var r2 := Two(Me(RUNNING, Nobody, true, false, NoChan, ForkUnlocked(1)), Child(USED, 2, None, Nobody), None, 3, map[2 := 1]);
    var r3 := Two(Me(RUNNING, Nobody, true, false, NoChan, ForkLinked(1)), Child(USED, 2, Some(0), Nobody), None, 3, map[2 := 1]);
    steps := Goes(Small(), before, Two(Me(RUNNING, Nobody, true, false, NoChan, Kernel), Child(UNUSED, 0, None, Nobody), None, 2, map[]), ForkAlloc(0, 1), r1);
    steps := Goes(Small(), steps, r1, ForkUnlock(0), r2);
    steps := Goes(Small(), steps, r2, ForkLink(0), r3);
    steps := Goes(Small(), steps, r3, ForkStart(0), Forked(Kernel, None));
  }

  lemma WaitRun() returns (steps: seq<Step>)
    ensures Runs(Small(), steps, Forked(SleepWanted, Some(0)))
  {
    hide Runs, Written;
    steps := ForkRun();
    steps := Goes(Small(), steps, Forked(Kernel, None), WaitStart(0), Forked(Scan(0, false), Some(0)));
    steps := Goes(Small(), steps, Forked(Scan(0, false), Some(0)), ScanOne(0), Forked(Scan(1, false), Some(0)));
    steps := Goes(Small(), steps, Forked(Scan(1, false), Some(0)), ScanOne(0), Forked(Scan(2, true), Some(0)));
    steps := Goes(Small(), steps, Forked(Scan(2, true), Some(0)), WaitOn(0), Forked(SleepWanted, Some(0)));
  }

  lemma Goes(s: Sys, before: seq<Step>, r: Sys, step: Step, r': Sys) returns (steps: seq<Step>)
    requires Runs(s, before, r) && Enabled(r, step) && |r.procs| == 2 && Who(step) == 0
    requires var e := Act(r, step);
             && (e.other.Some? ==> e.other.value.0 == 1)
             && r' == Sys([e.mine, if e.other.Some? then e.other.value.1 else r.procs[1]], r.initproc, e.waitLock,
                          if step.ForkAlloc? then r.nextpid + 1 else r.nextpid,
                          if step.ForkAlloc? then r.born[r.nextpid := r.procs[0].pid] else r.born, r.exits, r.reaps)
    requires !step.BecomeZombie? && !step.Reap?
    ensures Runs(s, steps, r')
  {
    hide Runs, Act, Enabled;
    WrittenTwo(r.procs, Act(r, step));
    steps := before + [step];
    Then(s, before, r, step);
  }

  /** It happens: init forks, waits for its child, is killed just then, and sleeps. */
  lemma KillCanBeLost() returns (steps: seq<Step>, r: Sys)
    ensures Booted(Small()) && Runs(Small(), steps, r) && |r.procs| == 2
    ensures r.procs[0].killed && AsleepInWait(r.procs[0])
  {
    hide Runs, Written;
    steps := WaitRun();
    var r1 := Two(Me(RUNNING, Nobody, true, true, NoChan, SleepWanted), Child(RUNNABLE, 2, Some(0), Nobody), Some(0), 3, map[2 := 1]);
    var r2 := Two(Me(RUNNING, Thread(0), true, true, NoChan, SleepLocked), Child(RUNNABLE, 2, Some(0), Nobody), Some(0), 3, map[2 := 1]);
    var r3 := Two(Me(RUNNING, Thread(0), true, true, NoChan, SleepReleased), Child(RUNNABLE, 2, Some(0), Nobody), None, 3, map[2 := 1]);
    r := Two(Me(SLEEPING, Thread(0), true, true, OnProc(0), Sched(ToWait)), Child(RUNNABLE, 2, Some(0), Nobody), None, 3, map[2 := 1]);
    steps := Goes(Small(), steps, Forked(SleepWanted, Some(0)), Kill(0), r1);
    steps := Goes(Small(), steps, r1, SleepLock(0), r2);
    steps := Goes(Small(), steps, r2, SleepRelease(0), r3);
    steps := Goes(Small(), steps, r3, SleepNow(0), r);
  }

  lemma RunsNot(s: Sys)
    ensures Runs(s, [], s)
  {
  }

  lemma RunsOn(s: Sys, steps: seq<Step>, r: Sys)
    requires steps != [] && Enabled(s, steps[0])
    ensures Runs(s, steps, r) <==> Runs(Do(s, steps[0]), steps[1..], r)
    ensures |steps| == 1 ==> (Runs(s, steps, r) <==> r == Do(s, steps[0]))
  {
  }
}
