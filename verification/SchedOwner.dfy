/**
 * Who owns kernel stacks and user page tables.  Each is held by one process
 * slot or one deferred slot until it is freed; the current process always has
 * a stack of its own to run on.  What a failing fork or spawn had already been
 * given is kept by nobody and never freed.
 */
module SchedOwner {
  import opened Wrappers
  import opened SchedState
  import opened SchedRun

  const MAX_DEFERRED: nat := 8

  datatype Entry = Entry(kstack: nat, pml4: nat, isUser: bool)

  // stacks and spaces are the addresses that were handed out and are held by somebody;
  // the lost ones were handed out too, but nobody knows them any more.
  datatype Kernel = Kernel(s: State, deferred: seq<Entry>, stacks: set<nat>, spaces: set<nat>,
                           lostStacks: set<nat>, lostSpaces: set<nat>, halted: bool)

  // ---------- holding resources ----------

  // h lists holders; 0 means nothing is held.
  ghost predicate Owns(h: seq<nat>, live: set<nat>) {
    && (forall i :: 0 <= i < |h| && h[i] != 0 ==> h[i] in live)
    && (forall x :: x in live ==> x != 0 && x in h)
    && (forall i, j :: 0 <= i < j < |h| && h[i] != 0 ==> h[i] != h[j])
  }

  lemma OwnsMove(h: seq<nat>, live: set<nat>, i: nat)
    requires Owns(h, live) && i < |h|
    ensures Owns(h[i := 0] + [h[i]], live)
  {
    var g := h[i := 0] + [h[i]];
    forall x | x in live
      ensures x in g
    {
      var j :| 0 <= j < |h| && h[j] == x;
      assert g[if j == i then |h| else j] == x;
    }
  }

  lemma OwnsAdd(h: seq<nat>, live: set<nat>, i: nat, x: nat)
    requires Owns(h, live) && i < |h| && h[i] == 0 && x != 0 && x !in live
    ensures Owns(h[i := x], live + {x})
  {
    var g := h[i := x];
    forall y | y in live + {x}
      ensures y in g
    {
      if y == x {
        assert g[i] == x;
      } else {
        var j :| 0 <= j < |h| && h[j] == y;
        assert g[j] == y;
      }
    }
  }

  lemma OwnsDrop(h: seq<nat>, live: set<nat>, i: nat)
    requires Owns(h, live) && i < |h|
    ensures Owns(h[i := 0], live - {h[i]})
  {
    var g := h[i := 0];
    forall y | y in live - {h[i]}
      ensures y in g
    {
      var j :| 0 <= j < |h| && h[j] == y;
      assert g[j] == y;
    }
  }

  function Members(h: seq<nat>): set<nat> {
    set x | x in h
  }

  // Dropping all holders from n on frees exactly what they held.
  lemma OwnsCut(h: seq<nat>, live: set<nat>, n: nat)
    requires Owns(h, live) && n <= |h|
    ensures Owns(h[..n], live - Members(h[n..]))
  {
    forall j | n <= j < |h|
      ensures h[j] in Members(h[n..])
    {
      assert h[n..][j - n] == h[j];
    }
    forall y | y in live - Members(h[n..])
      ensures y in h[..n]
    {
      var j :| 0 <= j < |h| && h[j] == y;
      assert h[..n][j] == y;
    }
    forall i | 0 <= i < n && h[i] != 0
      ensures h[i] !in Members(h[n..])
    {
    }
  }

  // ---------- the holders ----------

  function StackOf(p: Option<Process>): nat {
    if p.Some? then p.value.kstack else 0
  }

  function SpaceOf(p: Option<Process>): nat {
    if p.Some? && p.value.isUser then p.value.pml4 else 0
  }

  function Space(e: Entry): nat {
    if e.isUser then e.pml4 else 0
  }

  function DeferredStacks(deferred: seq<Entry>): seq<nat> {
    seq(|deferred|, i requires 0 <= i < |deferred| => deferred[i].kstack)
  }

  function DeferredSpaces(deferred: seq<Entry>): seq<nat> {
    seq(|deferred|, i requires 0 <= i < |deferred| => Space(deferred[i]))
  }

  function StackHolders(procs: Procs, deferred: seq<Entry>): (h: seq<nat>)
    ensures |h| == MAX_PROCESSES + |deferred|
  {
    seq(MAX_PROCESSES, i requires 0 <= i < MAX_PROCESSES => StackOf(procs[i])) + DeferredStacks(deferred)
  }

  function SpaceHolders(procs: Procs, deferred: seq<Entry>): (h: seq<nat>)
    ensures |h| == MAX_PROCESSES + |deferred|
  {
    seq(MAX_PROCESSES, i requires 0 <= i < MAX_PROCESSES => SpaceOf(procs[i])) + DeferredSpaces(deferred)
  }

  ghost predicate Owned(k: Kernel) {
    && |k.deferred| <= MAX_DEFERRED
    && Owns(StackHolders(k.s.procs, k.deferred), k.stacks)
    && Owns(SpaceHolders(k.s.procs, k.deferred), k.spaces)
    && k.stacks !! k.lostStacks && k.spaces !! k.lostSpaces
  }

  // A process without a stack is dead for good: a zombie that no wake-up can reach.
  predicate Hollow(p: Process) {
    p.kstack == 0
  }

  predicate DeadForGood(p: Process) {
    p.state == Zombie && !p.wake.WaitForChild?
  }

  // Ready to run, or running.
  predicate Active(p: Process) {
    p.state == Ready || p.state == Running
  }

  predicate AwaitsChild(p: Process) {
    p.wake.WaitForChild?
  }

  // Nobody without a stack comes back; nobody active, and not idle, waits for a child.
  predicate Standing(procs: Procs) {
    && (forall i :: 0 <= i < MAX_PROCESSES && procs[i].Some? && Hollow(procs[i].value) ==> DeadForGood(procs[i].value))
    && (forall i :: 0 <= i < MAX_PROCESSES && procs[i].Some? && Active(procs[i].value) ==> !AwaitsChild(procs[i].value))
    && procs[IDLE].Some? && !procs[IDLE].value.isUser && !Hollow(procs[IDLE].value) && !AwaitsChild(procs[IDLE].value)
    && procs[IDLE].value.state != Zombie
  }

  predicate HasStack(s: State) {
    && s.current.Some? && s.current.value < MAX_PROCESSES && s.procs[s.current.value].Some?
    && !Hollow(s.procs[s.current.value].value)
  }

  predicate OnItsStack(s: State) {
    s.current.Some? ==> HasStack(s) && !AwaitsChild(s.procs[s.current.value].value)
  }

  // The current process as it leaves the processor: it may have blocked, but a dead one does not wait.
  predicate Leaving(s: State) {
    s.current.Some? ==> HasStack(s) && (AwaitsChild(s.procs[s.current.value].value) ==>
                                          s.procs[s.current.value].value.state == Blocked)
  }

  ghost predicate Inv(k: Kernel) {
    Owned(k) && Standing(k.s.procs) && OnItsStack(k.s)
  }

  // The same between blocking and switching away, with interrupts off.
  ghost predicate Parting(k: Kernel) {
    Owned(k) && Standing(k.s.procs) && Leaving(k.s)
  }

  // ---------- what the entry points do ----------

  function DeadEntry(s: State): Entry {
    if s.current.Some? && s.current.value < MAX_PROCESSES && s.procs[s.current.value].Some? then
      var p := s.procs[s.current.value].value;
      Entry(p.kstack, p.pml4, p.isUser)
    else Entry(0, 0, false)
  }

  function Strip(procs: Procs, i: nat): Procs
    requires i < MAX_PROCESSES
  {
    if procs[i].Some? then procs[i := Some(procs[i].value.(kstack := 0, pml4 := 0))] else procs
  }

  // defer_free and the clearing of the dead slot; a full list halts the machine.
  function Defer(k: Kernel, dead: Entry, old_: nat): Kernel
    requires old_ < MAX_PROCESSES
  {
    if dead.kstack == 0 && dead.pml4 == 0 then k
    else if |k.deferred| < MAX_DEFERRED then
      k.(deferred := k.deferred + [dead], s := k.s.(procs := Strip(k.s.procs, old_)))
    else k.(halted := true)
  }

  function CurrentOr(s: State): (i: nat)
    ensures i < MAX_PROCESSES
  {
    if s.current.Some? && s.current.value < MAX_PROCESSES then s.current.value else 0
  }

  // schedule_force: the resources of a zombie are deferred after the switch.
  function ScheduleForce(k: Kernel, frame: Frame): Kernel {
    var dead := if Is(k.s.procs, CurrentOr(k.s), Zombie) && k.s.current.Some? then DeadEntry(k.s)
                else Entry(0, 0, false);
    Defer(k.(s := Force(k.s, frame)), dead, CurrentOr(k.s))
  }

  // context_switch::kill_process.
  function KillProcess(k: Kernel, init: nat): Kernel
    requires init < MAX_PROCESSES
  {
    Defer(k.(s := Kill(k.s, init)), DeadEntry(k.s), CurrentOr(k.s))
  }

  function Drained(k: Kernel): Kernel {
    k.(deferred := [],
       stacks := k.stacks - Members(DeferredStacks(k.deferred)),
       spaces := k.spaces - Members(DeferredSpaces(k.deferred)))
  }

  // schedule: drain, then first dispatch or tick.
  function Schedule(k: Kernel, now: nat, frame: Frame): Kernel {
    var k1 := Drained(k);
    k1.(s := if k1.s.current.None? then DispatchFirst(k1.s) else OnTick(k1.s, now, frame))
  }

  // reap_zombie drops the process, and with it what it still holds.
  function ReapZombie(k: Kernel, pid: nat): Kernel
    requires pid < MAX_PROCESSES
  {
    k.(s := Reap(k.s, pid), stacks := k.stacks - {StackOf(k.s.procs[pid])},
       spaces := k.spaces - {SpaceOf(k.s.procs[pid])})
  }

  // process::spawn_user from the finished address space on.  The stack is only asked for when there
  // is a slot; without either the address space is not given back.
  function UserBirth(k: Kernel, kstack: Option<nat>, pml4: nat, parent: Option<nat>): Kernel {
    var k1 := k.(s := SpawnUser(k.s, kstack, pml4, parent));
    if FreeSlot(k.s.procs).Some? && kstack.Some? then
      k1.(stacks := k.stacks + {kstack.value}, spaces := k.spaces + {pml4})
    else k1.(lostSpaces := k.lostSpaces + {pml4})
  }

  function KernelBirth(k: Kernel, kstack: Option<nat>, pml4: nat): Kernel {
    var k1 := k.(s := SpawnKernel(k.s, kstack, pml4));
    if FreeSlot(k.s.procs).Some? && kstack.Some? then k1.(stacks := k.stacks + {kstack.value}) else k1
  }

  // The process that makes the system call.
  function Caller(s: State): Option<Process> {
    if s.current.Some? && s.current.value < MAX_PROCESSES then s.procs[s.current.value] else None
  }

  // sys_fork: a PML4 (without a frame for it the machine halts), the copy of the pages, a kernel
  // stack, a slot, and a spare stack that is given back at once.  No error path gives anything back.
  function ForkBirth(k: Kernel, pml4: Option<nat>, copied: bool, kstack: Option<nat>, spare: bool): Kernel {
    if Caller(k.s).None? then k
    else if pml4.None? then k.(halted := true)
    else if !copied || kstack.None? then k.(lostSpaces := k.lostSpaces + {pml4.value})
    else if FreeSlot(k.s.procs).None? || !spare then
      k.(lostStacks := k.lostStacks + {kstack.value}, lostSpaces := k.lostSpaces + {pml4.value})
    else
      var k1 := k.(s := Fork(k.s, kstack.value, pml4.value), stacks := k.stacks + {kstack.value});
      if Caller(k.s).value.isUser then k1.(spaces := k.spaces + {pml4.value})
      else k1.(lostSpaces := k.lostSpaces + {pml4.value})
  }

  datatype KOp =
    | Timer(now: nat, frame: Frame)
    | ForcedSwitch(frame: Frame)
    | Blocking(wake: Wake, frame: Frame)
    | UserFault(init: nat)
    | Waitpid(pid: nat)
    | SpawnedUser(kstack: Option<nat>, pml4: nat, parent: Option<nat>)
    | SpawnedKernel(kstack: Option<nat>, pml4: nat)
    | Forked(root: Option<nat>, copied: bool, kstack: Option<nat>, spare: bool)
    | Other(op: Op)

  // Allocators hand out addresses that are not in use; idle neither blocks nor
  // faults; waitpid reaps a zombie other than the caller.  A blocking system call
  // is one step: interrupts are off from entry to the forced switch.
  ghost predicate Allowed(k: Kernel, op: KOp) {
    && !k.halted
    && match op
       case Timer(_, _) => true
       case ForcedSwitch(_) => true
       case Blocking(_, _) => k.s.current != Some(IDLE)
       case UserFault(init) => init < MAX_PROCESSES && k.s.current.Some? && k.s.current.value != IDLE
       case Waitpid(pid) => Is(k.s.procs, pid, Zombie) && k.s.current != Some(pid)
       case SpawnedUser(x, y, _) => FreshStack(k, x) && FreshSpace(k, Some(y))
       case SpawnedKernel(x, _) => FreshStack(k, x)
       case Forked(y, _, x, _) => FreshStack(k, x) && FreshSpace(k, y)
       case Other(o) => Quiet(k.s, o)
  }

  // What an allocator returns, if anything, is not in use.
  ghost predicate FreshStack(k: Kernel, x: Option<nat>) {
    x.Some? ==> x.value != 0 && x.value !in k.stacks && x.value !in k.lostStacks
  }

  ghost predicate FreshSpace(k: Kernel, y: Option<nat>) {
    y.Some? ==> y.value != 0 && y.value !in k.spaces && y.value !in k.lostSpaces
  }

  predicate Quiet(s: State, op: Op) {
    match op
    case ExitCurrent(_, init) => init < MAX_PROCESSES && s.current != Some(IDLE)
    case WakeKeyboard(_) => true
    case WakeChild(_) => true
    case SignalFg(_, _) => true
    case SendSignal(_, _) => true
    case SignalAction(_, _) => true
    case JoinGroup(_, _) => true
    case _ => false
  }

  ghost function KStep(k: Kernel, op: KOp): Kernel
    requires Allowed(k, op)
  {
    match op
    case Timer(now, frame) => Schedule(k, now, frame)
    case ForcedSwitch(frame) => ScheduleForce(k, frame)
    case Blocking(wake, frame) => ScheduleForce(k.(s := Block(k.s, wake)), frame)
    case UserFault(init) => KillProcess(k, init)
    case Waitpid(pid) => ReapZombie(k, pid)
    case SpawnedUser(x, y, parent) => UserBirth(k, x, y, parent)
    case SpawnedKernel(x, y) => KernelBirth(k, x, y)
    case Forked(y, copied, x, spare) => ForkBirth(k, y, copied, x, spare)
    case Other(o) => k.(s := Step(k.s, o))
  }

  // ---------- steps that move no resource ----------

  // The slot keeps its resources, a process dead for good stays so, and nobody
  // starts to wait for a child or becomes active while waiting.
  predicate Tame(p: Option<Process>, p': Option<Process>) {
    && p.Some? == p'.Some?
    && (p.Some? ==>
          && p'.value.kstack == p.value.kstack && p'.value.pml4 == p.value.pml4 && p'.value.isUser == p.value.isUser
          && (Hollow(p.value) && DeadForGood(p.value) ==> DeadForGood(p'.value))
          && (AwaitsChild(p'.value) ==> AwaitsChild(p.value) && (Active(p'.value) ==> Active(p.value))))
  }

  predicate AllTame(procs: Procs, procs': Procs) {
    && (forall i :: 0 <= i < MAX_PROCESSES ==> Tame(procs[i], procs'[i]))
    && (procs[IDLE].Some? && procs[IDLE].value.state != Zombie ==>
          procs'[IDLE].Some? && procs'[IDLE].value.state != Zombie)
  }

  lemma TameTrans(a: Procs, b: Procs, c: Procs)
    requires AllTame(a, b) && AllTame(b, c)
    ensures AllTame(a, c)
  {
  }

  lemma TameStands(procs: Procs, procs': Procs)
    requires Standing(procs) && AllTame(procs, procs')
    ensures Standing(procs')
  {
    forall i | 0 <= i < MAX_PROCESSES && procs'[i].Some? && Hollow(procs'[i].value)
      ensures DeadForGood(procs'[i].value)
    {
      assert Tame(procs[i], procs'[i]);
    }
    forall i | 0 <= i < MAX_PROCESSES && procs'[i].Some? && Active(procs'[i].value)
      ensures !AwaitsChild(procs'[i].value)
    {
      assert Tame(procs[i], procs'[i]);
    }
    assert Tame(procs[IDLE], procs'[IDLE]);
  }

  lemma TameHolds(procs: Procs, procs': Procs, deferred: seq<Entry>)
    requires AllTame(procs, procs')
    ensures StackHolders(procs', deferred) == StackHolders(procs, deferred)
    ensures SpaceHolders(procs', deferred) == SpaceHolders(procs, deferred)
  {
    assert forall i :: 0 <= i < MAX_PROCESSES ==> Tame(procs[i], procs'[i]);
  }

  lemma LeaveTame(procs: Procs, current: Option<nat>)
    ensures AllTame(procs, Leave(procs, current))
  {
  }

  // The chosen process has a stack.
  lemma ChosenStands(procs: Procs, current: Option<nat>)
    requires Standing(procs) && (current.Some? ==> current.value < MAX_PROCESSES)
    ensures var q := Choice(procs, current);
      procs[q].Some? && !Hollow(procs[q].value) && !AwaitsChild(procs[q].value) && procs[q].value.state != Zombie
  {
    SearchFinds(procs, if current.Some? then current.value else 0, 0);
  }

  lemma RunTame(procs: Procs, q: nat)
    requires q < MAX_PROCESSES && procs[q].Some? && !Hollow(procs[q].value) && !AwaitsChild(procs[q].value)
    ensures AllTame(procs, WithState(procs, q, Running))
  {
  }

  lemma DispatchTame(s: State)
    requires Standing(s.procs) && (s.current.Some? ==> s.current.value < MAX_PROCESSES)
    ensures AllTame(s.procs, Dispatch(s).procs) && OnItsStack(Dispatch(s))
  {
    hide Choice, Standing;
    ChosenStands(s.procs, s.current);
    RunTame(s.procs, Choice(s.procs, s.current));
  }

  lemma SwitchTame(s: State)
    requires Standing(s.procs) && (s.current.Some? ==> s.current.value < MAX_PROCESSES)
    ensures AllTame(s.procs, SwitchNext(s).procs) && OnItsStack(SwitchNext(s))
  {
    hide Dispatch, Leave, Standing;
    LeaveTame(s.procs, s.current);
    TameStands(s.procs, Leave(s.procs, s.current));
    DispatchTame(s.(procs := Leave(s.procs, s.current)));
    TameTrans(s.procs, Leave(s.procs, s.current), SwitchNext(s).procs);
  }

  lemma DeliverTame(procs: Procs, pid: nat, frame: Frame)
    requires pid < MAX_PROCESSES && pid != IDLE && Standing(procs) && procs[pid].Some? && !Hollow(procs[pid].value)
    ensures AllTame(procs, DeliverSignal(procs, pid, frame))
  {
    hide PendingSignal, Handler;
  }

  lemma DeliverCurrentTame(s: State, frame: Frame)
    requires Standing(s.procs) && OnItsStack(s)
    ensures AllTame(s.procs, DeliverToCurrent(s, frame).procs) && OnItsStack(DeliverToCurrent(s, frame))
  {
    hide DeliverSignal, Standing;
    if s.current.Some? && s.current.value != IDLE {
      DeliverTame(s.procs, s.current.value, frame);
      assert Tame(s.procs[s.current.value], DeliverToCurrent(s, frame).procs[s.current.value]);
    }
  }

  lemma ForceTame(s: State, frame: Frame)
    requires Standing(s.procs) && (s.current.Some? ==> s.current.value < MAX_PROCESSES)
    ensures AllTame(s.procs, Force(s, frame).procs) && OnItsStack(Force(s, frame))
  {
    hide SwitchNext, DeliverToCurrent, Standing;
    SwitchTame(s);
    TameStands(s.procs, SwitchNext(s).procs);
    DeliverCurrentTame(SwitchNext(s), frame);
    TameTrans(s.procs, SwitchNext(s).procs, Force(s, frame).procs);
  }

  lemma SleepersTame(procs: Procs, now: nat)
    ensures AllTame(procs, WakeSleepers(procs, now))
  {
  }

  lemma TickTame(s: State, now: nat, frame: Frame)
    requires Standing(s.procs) && OnItsStack(s)
    ensures AllTame(s.procs, OnTick(s, now, frame).procs) && OnItsStack(OnTick(s, now, frame))
  {
    hide SwitchNext, DeliverToCurrent, Standing, WakeSleepers, NextReady;
    SleepersTame(s.procs, now);
    var s1 := s.(ticks := s.ticks + 1, procs := WakeSleepers(s.procs, now));
    TameStands(s.procs, s1.procs);
    if s.current.Some? {
      assert Tame(s.procs[s.current.value], s1.procs[s.current.value]);
    }
    if s1.ticks >= QUANTUM {
      var s2 := s1.(ticks := 0);
      ForceTame(s2, frame);
      TameTrans(s.procs, s1.procs, Force(s2, frame).procs);
    }
  }

  lemma FirstTame(s: State)
    requires Standing(s.procs) && OnItsStack(s)
    ensures AllTame(s.procs, DispatchFirst(s).procs) && OnItsStack(DispatchFirst(s))
  {
    SearchFinds(s.procs, 0, 0);
    var next := NextReady(s.procs, 0);
    if s.current.None? && next.Some? {
      RunTame(s.procs, next.value);
    }
  }

  lemma ReparentTame(s: State, i: nat, init: nat)
    requires init < MAX_PROCESSES
    ensures AllTame(s.procs, Reparent(s, i, init).procs)
  {
  }

  lemma KillTame(s: State, init: nat)
    requires Standing(s.procs) && OnItsStack(s) && init < MAX_PROCESSES && s.current.Some? && s.current.value != IDLE
    ensures AllTame(s.procs, Kill(s, init).procs) && OnItsStack(Kill(s, init))
  {
    hide Dispatch, Reparent, Standing;
    var i := s.current.value;
    ReparentTame(s, i, init);
    var s1 := Reparent(s, i, init);
    assert Tame(s.procs[i], s1.procs[i]);
    var procs := WithState(s1.procs, i, Zombie);
    assert AllTame(s1.procs, procs);
    TameTrans(s.procs, s1.procs, procs);
    TameStands(s.procs, procs);
    ReparentCurrent(s, i, init);
    DispatchTame(s1.(procs := procs));
    TameTrans(s.procs, procs, Kill(s, init).procs);
  }

  lemma QuietTame(s: State, op: Op)
    requires Standing(s.procs) && OnItsStack(s) && Quiet(s, op) && Possible(s, op)
    ensures AllTame(s.procs, Step(s, op).procs) && OnItsStack(Step(s, op))
  {
    if op.SignalFg? {
      SignalTame(s, op.signal, op.pipes);
    } else {
      PlainTame(s, op);
    }
  }

  lemma PlainTame(s: State, op: Op)
    requires Standing(s.procs) && OnItsStack(s) && Quiet(s, op) && Possible(s, op) && !op.SignalFg?
    ensures AllTame(s.procs, Step(s, op).procs) && OnItsStack(Step(s, op))
  {
    hide FreeSlot, KeyboardWakes, ChildWakes, Raise, SetHandler, SetGroup;
    match op
    case SendSignal(_, _) => CallTame(s, op);
    case SignalAction(_, _) => CallTame(s, op);
    case JoinGroup(_, _) => CallTame(s, op);
    case WakeKeyboard(_) => WakeTame(s, op);
    case WakeChild(_) => WakeTame(s, op);
    case _ =>
  }

  lemma CallTame(s: State, op: Op)
    requires Standing(s.procs) && OnItsStack(s) && (op.SendSignal? || op.SignalAction? || op.JoinGroup?)
    ensures AllTame(s.procs, Step(s, op).procs) && OnItsStack(Step(s, op))
  {
    hide AllTame, Standing;
    SameTame(s.procs);
    var s' := Step(s, op);
    var i := if op.SignalAction? || op.target == 0 then CurrentOr(s) else op.target;
    if op.SendSignal? {
      i := op.target;
    }
    if s'.procs != s.procs {
      SlotTame(s.procs, i, s'.procs[i].value);
    }
  }

  lemma SameTame(procs: Procs)
    ensures AllTame(procs, procs)
  {
  }

  // One process changed, but not its state, wake reason or resources.
  lemma SlotTame(procs: Procs, i: nat, p: Process)
    requires i < MAX_PROCESSES && procs[i].Some? && p.state == procs[i].value.state && p.wake == procs[i].value.wake
    requires p.kstack == procs[i].value.kstack && p.pml4 == procs[i].value.pml4 && p.isUser == procs[i].value.isUser
    ensures AllTame(procs, procs[i := Some(p)])
  {
  }

  lemma WakeTame(s: State, op: Op)
    requires Standing(s.procs) && OnItsStack(s) && (op.WakeKeyboard? || op.WakeChild?)
    ensures AllTame(s.procs, Step(s, op).procs) && OnItsStack(Step(s, op))
  {
  }

  lemma SignalTame(s: State, signal: nat, pipes: seq<Option<Pipe>>)
    requires Standing(s.procs) && OnItsStack(s)
    ensures AllTame(s.procs, SignalForeground(s, signal, pipes).procs) && OnItsStack(SignalForeground(s, signal, pipes))
  {
    hide Foreground, KilledSet;
    var group := Foreground(s.procs);
    var procs := s.procs;
    if group.Some? {
      var hit := SignalGroup(s.procs, group.value, signal);
      assert AllTame(s.procs, hit);
      TameStands(s.procs, hit);
      procs := WakeWaiters(hit, KilledSet(s.procs, group.value, signal));
      assert AllTame(hit, procs);
      TameTrans(s.procs, hit, procs);
    }
    var last := InlineWake(procs, pipes);
    assert AllTame(procs, last);
    TameTrans(s.procs, procs, last);
    if s.current.Some? {
      assert Tame(s.procs[s.current.value], last[s.current.value]);
    }
  }

  lemma TameInv(k: Kernel, s': State)
    requires Owned(k) && Standing(k.s.procs) && AllTame(k.s.procs, s'.procs) && OnItsStack(s')
    ensures Inv(k.(s := s'))
  {
    hide Standing, OnItsStack, AllTame, Owns, StackHolders, SpaceHolders;
    TameStands(k.s.procs, s'.procs);
    TameHolds(k.s.procs, s'.procs, k.deferred);
  }

  // ---------- deaths ----------

  lemma StripHolders(procs: Procs, deferred: seq<Entry>, i: nat)
    requires i < MAX_PROCESSES && procs[i].Some?
    ensures var e := Entry(procs[i].value.kstack, procs[i].value.pml4, procs[i].value.isUser);
      && StackHolders(Strip(procs, i), deferred + [e])
           == StackHolders(procs, deferred)[i := 0] + [StackHolders(procs, deferred)[i]]
      && SpaceHolders(Strip(procs, i), deferred + [e])
           == SpaceHolders(procs, deferred)[i := 0] + [SpaceHolders(procs, deferred)[i]]
  {
  }

  // The dead process hands its stack and page table to the deferred list.
  lemma DeferInv(k: Kernel, i: nat)
    requires Inv(k) && i < MAX_PROCESSES && k.s.procs[i].Some? && i != IDLE
    requires DeadForGood(k.s.procs[i].value) && k.s.current != Some(i)
    ensures var p := k.s.procs[i].value; Inv(Defer(k, Entry(p.kstack, p.pml4, p.isUser), i))
  {
    hide Owns, StackHolders, SpaceHolders;
    StripHolders(k.s.procs, k.deferred, i);
    OwnsMove(StackHolders(k.s.procs, k.deferred), k.stacks, i);
    OwnsMove(SpaceHolders(k.s.procs, k.deferred), k.spaces, i);
  }

  // A zombie that leaves the processor stays a zombie through the switch.
  lemma ForceLeavesDead(s: State, frame: Frame)
    requires Standing(s.procs) && HasStack(s) && DeadForGood(s.procs[s.current.value].value)
    ensures var s' := Force(s, frame); var i := s.current.value;
      s'.current != Some(i) && s'.procs[i].Some? && DeadForGood(s'.procs[i].value)
  {
    hide PendingSignal, Handler;
    SearchFinds(s.procs, s.current.value, 0);
  }

  lemma KillLeavesDead(s: State, init: nat)
    requires Standing(s.procs) && OnItsStack(s) && init < MAX_PROCESSES && s.current.Some? && s.current.value != IDLE
    ensures var s' := Kill(s, init); var i := s.current.value;
      s'.current != Some(i) && s'.procs[i].Some? && DeadForGood(s'.procs[i].value)
  {
    var s1 := Reparent(s, s.current.value, init);
    SearchFinds(WithState(s1.procs, s.current.value, Zombie), s.current.value, 0);
  }

  lemma ForcedInv(k: Kernel, frame: Frame)
    requires Parting(k)
    ensures Inv(ScheduleForce(k, frame))
  {
    hide Force, Owned, Standing, AllTame;
    ForceTame(k.s, frame);
    var k1 := k.(s := Force(k.s, frame));
    TameInv(k, Force(k.s, frame));
    if k.s.current.Some? && k.s.procs[k.s.current.value].value.state == Zombie {
      var i := k.s.current.value;
      NotIdle(k.s.procs, i);
      ForceLeavesDead(k.s, frame);
      TameAt(k.s.procs, k1.s.procs, i);
      DeferInv(k1, i);
    }
  }

  // Blocking moves no resource.
  lemma BlockParts(k: Kernel, wake: Wake)
    requires Inv(k) && k.s.current != Some(IDLE)
    ensures Parting(k.(s := Block(k.s, wake)))
  {
    hide Owns, StackHolders, SpaceHolders;
    if k.s.current.Some? {
      var i := k.s.current.value;
      var p := Block(k.s, wake).procs[i];
      SlotHolders(k.s.procs, k.deferred, i, p);
      var h, g := StackHolders(k.s.procs, k.deferred), SpaceHolders(k.s.procs, k.deferred);
      assert h[i := StackOf(p)] == h && g[i := SpaceOf(p)] == g;
    }
  }

  lemma InvLeaves(k: Kernel)
    requires Inv(k)
    ensures Parting(k)
  {
  }

  lemma NotIdle(procs: Procs, i: nat)
    requires Standing(procs) && Is(procs, i, Zombie)
    ensures i != IDLE
  {
  }

  lemma TameAt(procs: Procs, procs': Procs, i: nat)
    requires AllTame(procs, procs') && i < MAX_PROCESSES
    ensures Tame(procs[i], procs'[i])
  {
  }

  lemma FaultInv(k: Kernel, init: nat)
    requires Inv(k) && init < MAX_PROCESSES && k.s.current.Some? && k.s.current.value != IDLE
    ensures Inv(KillProcess(k, init))
  {
    hide Kill, Owned, Standing, AllTame;
    var i := k.s.current.value;
    KillTame(k.s, init);
    TameInv(k, Kill(k.s, init));
    KillLeavesDead(k.s, init);
    TameAt(k.s.procs, Kill(k.s, init).procs, i);
    DeferInv(k.(s := Kill(k.s, init)), i);
  }

  // ---------- freeing ----------

  lemma DrainHolders(procs: Procs, deferred: seq<Entry>)
    ensures StackHolders(procs, []) == StackHolders(procs, deferred)[..MAX_PROCESSES]
    ensures SpaceHolders(procs, []) == SpaceHolders(procs, deferred)[..MAX_PROCESSES]
    ensures DeferredStacks(deferred) == StackHolders(procs, deferred)[MAX_PROCESSES..]
    ensures DeferredSpaces(deferred) == SpaceHolders(procs, deferred)[MAX_PROCESSES..]
  {
  }

  lemma DrainInv(k: Kernel)
    requires Inv(k)
    ensures Inv(Drained(k))
  {
    hide StackHolders, SpaceHolders, DeferredStacks, DeferredSpaces, Owns, Standing;
    DrainHolders(k.s.procs, k.deferred);
    OwnsCut(StackHolders(k.s.procs, k.deferred), k.stacks, MAX_PROCESSES);
    OwnsCut(SpaceHolders(k.s.procs, k.deferred), k.spaces, MAX_PROCESSES);
  }

  lemma TimerInv(k: Kernel, now: nat, frame: Frame)
    requires Inv(k)
    ensures Inv(Schedule(k, now, frame))
  {
    hide Drained, OnTick, DispatchFirst, Inv, Owned, Standing, OnItsStack;
    DrainInv(k);
    var k1 := Drained(k);
    InvParts(k1);
    TickTame(k1.s, now, frame);
    FirstTame(k1.s);
    TameInv(k1, OnTick(k1.s, now, frame));
    TameInv(k1, DispatchFirst(k1.s));
  }

  lemma InvParts(k: Kernel)
    requires Inv(k)
    ensures Owned(k) && Standing(k.s.procs) && OnItsStack(k.s)
  {
  }

  lemma SlotHolders(procs: Procs, deferred: seq<Entry>, i: nat, p: Option<Process>)
    requires i < MAX_PROCESSES
    ensures StackHolders(procs[i := p], deferred) == StackHolders(procs, deferred)[i := StackOf(p)]
    ensures SpaceHolders(procs[i := p], deferred) == SpaceHolders(procs, deferred)[i := SpaceOf(p)]
    ensures StackHolders(procs, deferred)[i] == StackOf(procs[i])
    ensures SpaceHolders(procs, deferred)[i] == SpaceOf(procs[i])
  {
  }

  lemma ReapInv(k: Kernel, pid: nat)
    requires Inv(k) && Is(k.s.procs, pid, Zombie) && k.s.current != Some(pid)
    ensures Inv(ReapZombie(k, pid))
  {
    hide StackHolders, SpaceHolders, Owns;
    SlotHolders(k.s.procs, k.deferred, pid, None);
    OwnsDrop(StackHolders(k.s.procs, k.deferred), k.stacks, pid);
    OwnsDrop(SpaceHolders(k.s.procs, k.deferred), k.spaces, pid);
  }

  // ---------- births ----------

  lemma FillInv(k: Kernel, i: nat, p: Process, gens: Generations, spaces: set<nat>)
    requires Inv(k) && i < MAX_PROCESSES && k.s.procs[i].None?
    requires FreshStack(k, Some(p.kstack)) && !AwaitsChild(p)
    requires if p.isUser then FreshSpace(k, Some(p.pml4)) && spaces == k.spaces + {p.pml4} else spaces == k.spaces
    ensures Inv(k.(s := k.s.(procs := k.s.procs[i := Some(p)], gens := gens), stacks := k.stacks + {p.kstack},
                   spaces := spaces))
  {
    hide StackHolders, SpaceHolders, Owns;
    SlotHolders(k.s.procs, k.deferred, i, Some(p));
    OwnsAdd(StackHolders(k.s.procs, k.deferred), k.stacks, i, p.kstack);
    var g := SpaceHolders(k.s.procs, k.deferred);
    if p.isUser {
      OwnsAdd(g, k.spaces, i, p.pml4);
    } else {
      assert g[i := 0] == g;
    }
  }

  // Nobody's holdings change.
  lemma LoseInv(k: Kernel, s': State, lostStacks: set<nat>, lostSpaces: set<nat>, halted: bool)
    requires Inv(k) && s'.procs == k.s.procs && s'.current == k.s.current
    requires k.stacks !! lostStacks && k.spaces !! lostSpaces
    ensures Inv(k.(s := s', lostStacks := lostStacks, lostSpaces := lostSpaces, halted := halted))
  {
    hide StackHolders, SpaceHolders, Owns;
  }

  lemma UserBirthInv(k: Kernel, kstack: Option<nat>, pml4: nat, parent: Option<nat>)
    requires Inv(k) && FreshStack(k, kstack) && FreshSpace(k, Some(pml4))
    ensures Inv(UserBirth(k, kstack, pml4, parent))
  {
    hide Inv, FreeSlot;
    FreeSlotAt(k.s.procs);
    Disjoint(k);
    var k' := UserBirth(k, kstack, pml4, parent);
    if FreeSlot(k.s.procs).Some? && kstack.Some? {
      var i := FreeSlot(k.s.procs).value;
      FillInv(k, i, k'.s.procs[i].value, k'.s.gens, k'.spaces);
    } else {
      LoseInv(k, k'.s, k.lostStacks, k'.lostSpaces, k.halted);
    }
  }

  lemma KernelBirthInv(k: Kernel, kstack: Option<nat>, pml4: nat)
    requires Inv(k) && FreshStack(k, kstack)
    ensures Inv(KernelBirth(k, kstack, pml4))
  {
    hide Inv, FreeSlot;
    FreeSlotAt(k.s.procs);
    Disjoint(k);
    var k' := KernelBirth(k, kstack, pml4);
    if FreeSlot(k.s.procs).Some? && kstack.Some? {
      var i := FreeSlot(k.s.procs).value;
      FillInv(k, i, k'.s.procs[i].value, k'.s.gens, k.spaces);
    } else {
      LoseInv(k, k'.s, k.lostStacks, k.lostSpaces, k.halted);
    }
  }

  lemma ForkBirthInv(k: Kernel, pml4: Option<nat>, copied: bool, kstack: Option<nat>, spare: bool)
    requires Inv(k) && FreshStack(k, kstack) && FreshSpace(k, pml4)
    ensures Inv(ForkBirth(k, pml4, copied, kstack, spare))
  {
    hide Inv, FreeSlot;
    FreeSlotAt(k.s.procs);
    Disjoint(k);
    var k' := ForkBirth(k, pml4, copied, kstack, spare);
    if Caller(k.s).None? || pml4.None? || !copied || kstack.None? || FreeSlot(k.s.procs).None? || !spare {
      LoseInv(k, k.s, k'.lostStacks, k'.lostSpaces, k'.halted);
    } else {
      var i := FreeSlot(k.s.procs).value;
      LoseInv(k, k.s, k.lostStacks, k'.lostSpaces, k.halted);
      FillInv(k.(lostSpaces := k'.lostSpaces), i, k'.s.procs[i].value, k'.s.gens, k'.spaces);
    }
  }

  lemma Disjoint(k: Kernel)
    requires Inv(k)
    ensures k.stacks !! k.lostStacks && k.spaces !! k.lostSpaces
  {
  }

  // Every step keeps one owner for every stack and page table, and a live stack
  // under the current process.
  lemma StepInv(k: Kernel, op: KOp)
    requires Inv(k) && Allowed(k, op)
    ensures Inv(KStep(k, op))
  {
    hide Inv, Schedule, ScheduleForce, KillProcess, ReapZombie, Step, UserBirth, KernelBirth, ForkBirth;
    match op
    case Timer(now, frame) => TimerInv(k, now, frame);
    case ForcedSwitch(frame) =>
      InvLeaves(k);
      ForcedInv(k, frame);
    case Blocking(wake, frame) =>
      BlockParts(k, wake);
      ForcedInv(k.(s := Block(k.s, wake)), frame);
    case UserFault(init) => FaultInv(k, init);
    case Waitpid(pid) => ReapInv(k, pid);
    case SpawnedUser(x, y, parent) => UserBirthInv(k, x, y, parent);
    case SpawnedKernel(x, y) => KernelBirthInv(k, x, y);
    case Forked(y, copied, x, spare) => ForkBirthInv(k, y, copied, x, spare);
    case Other(o) =>
      InvParts(k);
      QuietTame(k.s, o);
      TameInv(k, Step(k.s, o));
  }

  // ---------- freed once, and never the stack in use ----------

  // The stacks a step gives back to the allocator, in order.
  ghost function StacksFreed(k: Kernel, op: KOp): seq<nat>
    requires Allowed(k, op)
  {
    match op
    case Timer(_, _) => DeferredStacks(k.deferred)
    case Waitpid(pid) => [StackOf(k.s.procs[pid])]
    case _ => []
  }

  ghost function SpacesFreed(k: Kernel, op: KOp): seq<nat>
    requires Allowed(k, op)
  {
    match op
    case Timer(_, _) => DeferredSpaces(k.deferred)
    case Waitpid(pid) => [SpaceOf(k.s.procs[pid])]
    case _ => []
  }

  // Free calls on x: each address is live, freed once, and not live afterwards.
  ghost predicate FreedOnce(freed: seq<nat>, live: set<nat>, live': set<nat>) {
    forall i :: 0 <= i < |freed| && freed[i] != 0 ==>
      freed[i] in live && freed[i] !in live' && forall j :: 0 <= j < |freed| && j != i ==> freed[j] != freed[i]
  }

  lemma TailFreedOnce(h: seq<nat>, live: set<nat>, n: nat)
    requires Owns(h, live) && n <= |h|
    ensures FreedOnce(h[n..], live, live - Members(h[n..]))
    ensures forall i :: 0 <= i < n && h[i] != 0 ==> h[i] !in h[n..]
  {
  }

  lemma FreesOnce(k: Kernel, op: KOp)
    requires Inv(k) && Allowed(k, op)
    ensures FreedOnce(StacksFreed(k, op), k.stacks, KStep(k, op).stacks)
    ensures FreedOnce(SpacesFreed(k, op), k.spaces, KStep(k, op).spaces)
    ensures k.s.current.Some? ==> StackOf(k.s.procs[k.s.current.value]) !in StacksFreed(k, op)
  {
    hide OnTick, DispatchFirst, Step, Force, Kill;
    var h, g := StackHolders(k.s.procs, k.deferred), SpaceHolders(k.s.procs, k.deferred);
    if op.Timer? {
      DrainHolders(k.s.procs, k.deferred);
      TailFreedOnce(h, k.stacks, MAX_PROCESSES);
      TailFreedOnce(g, k.spaces, MAX_PROCESSES);
      if k.s.current.Some? {
        assert h[k.s.current.value] == StackOf(k.s.procs[k.s.current.value]);
      }
    } else if op.Waitpid? {
      SlotHolders(k.s.procs, k.deferred, op.pid, None);
      if k.s.current.Some? {
        SlotHolders(k.s.procs, k.deferred, k.s.current.value, None);
      }
    }
  }

  // ---------- runs ----------

  ghost predicate IsKernelRun(ks: seq<Kernel>, ops: seq<KOp>) {
    && |ks| == |ops| + 1
    && forall i :: 0 <= i < |ops| ==> Allowed(ks[i], ops[i]) && ks[i + 1] == KStep(ks[i], ops[i])
  }

  lemma {:induction false} RunOwned(ks: seq<Kernel>, ops: seq<KOp>, i: nat)
    requires IsKernelRun(ks, ops) && Inv(ks[0]) && i < |ks|
    ensures Inv(ks[i])
  {
    hide Inv, KStep, Allowed;
    if i > 0 {
      RunOwned(ks, ops, i - 1);
      StepInv(ks[i - 1], ops[i - 1]);
    }
  }

  lemma BootOwned(idle: Process, kernel: Kernel)
    requires idle.kstack != 0 && !idle.isUser && idle.state == Ready && idle.wake == Awake
    requires kernel == Kernel(State(EmptyTable()[IDLE := Some(idle)], seq(MAX_PROCESSES, _ => 0), None, 0),
                              [], {idle.kstack}, {}, {}, {}, false)
    ensures Inv(kernel)
  {
    var h := StackHolders(kernel.s.procs, kernel.deferred);
    assert h[IDLE] == idle.kstack;
    assert forall i :: 0 < i < |h| ==> h[i] == 0;
    var g := SpaceHolders(kernel.s.procs, kernel.deferred);
    assert forall i :: 0 <= i < |g| ==> g[i] == 0;
  }

  // ---------- lost for good ----------

  // The births that leave nothing behind: those that run to their end, and a fork that fails before
  // it is given anything.
  ghost predicate Complete(k: Kernel, op: KOp) {
    match op
    case SpawnedUser(x, _, _) => x.Some? && FreeSlot(k.s.procs).Some?
    case Forked(y, copied, x, spare) =>
      Caller(k.s).None? || y.None?
      || (copied && x.Some? && spare && FreeSlot(k.s.procs).Some? && Caller(k.s).value.isUser)
    case _ => true
  }

  // What is lost stays lost and is never freed; a step loses something exactly when its birth is cut short.
  lemma LostIff(k: Kernel, op: KOp)
    requires Inv(k) && Allowed(k, op)
    ensures k.lostStacks <= KStep(k, op).lostStacks && k.lostSpaces <= KStep(k, op).lostSpaces
    ensures SameLost(k, KStep(k, op)) <==> Complete(k, op)
    ensures forall x :: x in StacksFreed(k, op) && x != 0 ==> x !in KStep(k, op).lostStacks
    ensures forall x :: x in SpacesFreed(k, op) && x != 0 ==> x !in KStep(k, op).lostSpaces
  {
    hide OnTick, DispatchFirst, Step, Force, Kill, FreeSlot, SpawnUser, SpawnKernel, Fork;
    FreesOnce(k, op);
  }

  predicate SameLost(k: Kernel, k': Kernel) {
    k'.lostStacks == k.lostStacks && k'.lostSpaces == k.lostSpaces
  }

  lemma {:induction false} RunLostIff(ks: seq<Kernel>, ops: seq<KOp>, n: nat)
    requires IsKernelRun(ks, ops) && Inv(ks[0]) && n < |ks|
    ensures ks[0].lostStacks <= ks[n].lostStacks && ks[0].lostSpaces <= ks[n].lostSpaces
    ensures SameLost(ks[0], ks[n]) <==> forall i :: 0 <= i < n ==> Complete(ks[i], ops[i])
  {
    hide Inv, KStep, Allowed, Complete;
    if n > 0 {
      RunLostIff(ks, ops, n - 1);
      RunOwned(ks, ops, n - 1);
      LostIff(ks[n - 1], ops[n - 1]);
    }
  }

  // ---------- zombies that come back ----------

  function KilledBy(procs: Procs, signal: nat): set<nat> {
    var group := Foreground(procs);
    if group.None? then {} else KilledSet(procs, group.value, signal)
  }

  // A signal to the foreground group leaves a dead process dead, whether it was dead
  // before or dies by the signal, unless its wake reason names a process killed
  // by the signal, or any child at all; then it is Ready again.
  lemma RevivedIff(s: State, signal: nat, pipes: seq<Option<Pipe>>, i: nat)
    requires 0 < i < MAX_PROCESSES && (Is(s.procs, i, Zombie) || i in KilledBy(s.procs, signal))
    ensures Is(SignalForeground(s, signal, pipes).procs, i, Ready)
       <==> KilledBy(s.procs, signal) != {} && s.procs[i].value.wake.WaitForChild?
            && (s.procs[i].value.wake.child == 0 || s.procs[i].value.wake.child in KilledBy(s.procs, signal))
    ensures Is(SignalForeground(s, signal, pipes).procs, i, Ready)
            || Is(SignalForeground(s, signal, pipes).procs, i, Zombie)
  {
    hide Foreground;
  }

  // So a parent that waits for a child of its own group survives the signal that kills both.
  lemma WaitingParentSurvives(s: State, group: nat, pipes: seq<Option<Pipe>>, p: nat, c: nat)
    requires p < MAX_PROCESSES && c < MAX_PROCESSES && Foreground(s.procs) == Some(group)
    requires Hit(s.procs, group, 2, p) && Hit(s.procs, group, 2, c) && s.procs[p].value.wake == WaitForChild(c)
    ensures p in KilledBy(s.procs, 2) && Is(SignalForeground(s, 2, pipes).procs, p, Ready)
  {
    hide Foreground;
    assert c in KilledSet(s.procs, group, 2) && p in KilledSet(s.procs, group, 2);
    RevivedIff(s, 2, pipes, p);
  }
}
