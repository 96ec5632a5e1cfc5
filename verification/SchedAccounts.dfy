/**
 * The books of the context switch: every kernel stack and PML4 handed out is
 * held, lost or freed; a dead process's are deferred, or the machine halts; and
 * on the process table each kernel step is a scheduler step.
 */
module SchedAccounts {
  import opened Wrappers
  import opened SchedState
  import opened SchedRun
  import opened SchedOwner

  // ---------- conservation ----------

  ghost predicate HasRoomFor(procs: Procs) {
    exists i :: 0 < i < MAX_PROCESSES && procs[i].None?
  }

  lemma RoomIff(procs: Procs)
    ensures FreeSlot(procs).Some? <==> HasRoomFor(procs)
  {
    FreeSlotIs(procs, 1);
  }

  // Somebody makes the system call.
  ghost predicate Called(s: State) {
    s.current.Some? && s.current.value < MAX_PROCESSES && s.procs[s.current.value].Some?
  }

  // The kernel stack the allocator hands to the step: spawn asks for one when it has a slot,
  // fork when the pages are copied.
  ghost function StackGiven(k: Kernel, op: KOp): set<nat> {
    match op
    case SpawnedUser(Some(x), _, _) => if HasRoomFor(k.s.procs) then {x} else {}
    case SpawnedKernel(Some(x), _) => if HasRoomFor(k.s.procs) then {x} else {}
    case Forked(Some(_), true, Some(x), _) => if Called(k.s) then {x} else {}
    case _ => {}
  }

  // The user PML4 handed to it.
  ghost function SpaceGiven(k: Kernel, op: KOp): set<nat> {
    match op
    case SpawnedUser(_, y, _) => {y}
    case Forked(Some(y), _, _, _) => if Called(k.s) then {y} else {}
    case _ => {}
  }

  // What was handed out is held or lost, until it is freed.
  lemma StacksConserved(k: Kernel, op: KOp, x: nat)
    requires Inv(k) && Allowed(k, op) && x != 0
    ensures var k' := KStep(k, op);
      x in k'.stacks || x in k'.lostStacks <==>
        (x in k.stacks || x in k.lostStacks || x in StackGiven(k, op)) && x !in StacksFreed(k, op)
  {
    hide OnTick, DispatchFirst, Step, Force, Kill, FreeSlot, SpawnUser, SpawnKernel, Fork, Reap, Block, HasRoomFor;
    RoomIff(k.s.procs);
    FreesOnce(k, op);
  }

  lemma SpacesConserved(k: Kernel, op: KOp, y: nat)
    requires Inv(k) && Allowed(k, op) && y != 0
    ensures var k' := KStep(k, op);
      y in k'.spaces || y in k'.lostSpaces <==>
        (y in k.spaces || y in k.lostSpaces || y in SpaceGiven(k, op)) && y !in SpacesFreed(k, op)
  {
    hide OnTick, DispatchFirst, Step, Force, Kill, FreeSlot, SpawnUser, SpawnKernel, Fork, Reap, Block, HasRoomFor;
    RoomIff(k.s.procs);
    FreesOnce(k, op);
  }

  // A stack is lost exactly by a fork that has one but no slot, or no spare one.
  lemma StackLostIff(k: Kernel, op: KOp, x: nat)
    requires Inv(k) && Allowed(k, op) && x !in k.lostStacks
    ensures x in KStep(k, op).lostStacks <==>
      op.Forked? && x in StackGiven(k, op) && (!HasRoomFor(k.s.procs) || !op.spare)
  {
    hide OnTick, DispatchFirst, Step, Force, Kill, FreeSlot, SpawnUser, SpawnKernel, Fork, Reap, Block, HasRoomFor;
    RoomIff(k.s.procs);
  }

  // ---------- the deferred list ----------

  // The current process leaves dead: its stack and PML4 are the last of the deferred ones, the list having
  // eight places, and its slot no longer names them; without a place the machine halts.
  ghost predicate Buried(k: Kernel, k': Kernel, i: nat)
    requires i < MAX_PROCESSES && k.s.procs[i].Some?
  {
    var p := k.s.procs[i].value;
    if p.kstack == 0 && p.pml4 == 0 then k'.deferred == k.deferred && k'.halted == k.halted
    else if |k.deferred| < 8 then
      && k'.deferred == k.deferred + [Entry(p.kstack, p.pml4, p.isUser)] && k'.halted == k.halted
      && (k'.s.procs[i].Some? ==> k'.s.procs[i].value.kstack == 0 && k'.s.procs[i].value.pml4 == 0)
    else k'.deferred == k.deferred && k'.halted
  }

  ghost predicate KeptAll(k: Kernel, k': Kernel) {
    k'.deferred == k.deferred && k'.halted == k.halted
  }

  lemma ForceBuries(k: Kernel, frame: Frame)
    ensures var k' := ScheduleForce(k, frame);
      if Called(k.s) && k.s.procs[k.s.current.value].value.state == Zombie then Buried(k, k', k.s.current.value)
      else KeptAll(k, k')
  {
    hide Force;
  }

  lemma KillBuries(k: Kernel, init: nat)
    requires init < MAX_PROCESSES
    ensures var k' := KillProcess(k, init);
      if Called(k.s) then Buried(k, k', k.s.current.value) else KeptAll(k, k')
  {
    hide Kill;
  }

  // ---------- on the table a scheduler step ----------

  // The same but for the stack and PML4 that one slot names.
  ghost predicate SameButHeld(s: State, s': State, i: nat) {
    && s' == s.(procs := s'.procs)
    && forall j :: 0 <= j < MAX_PROCESSES ==>
         s'.procs[j] == s.procs[j] ||
         (j == i && s.procs[j].Some? && s'.procs[j] == Some(s.procs[j].value.(kstack := 0, pml4 := 0)))
  }

  lemma TimerIs(k: Kernel, now: nat, frame: Frame)
    ensures var k' := Schedule(k, now, frame);
      && (k.s.current == None ==> k'.s == Step(k.s, First))
      && (k.s.current != None ==> k'.s == Step(k.s, Tick(now, frame)))
      && k'.deferred == [] && k'.halted == k.halted
  {
    hide OnTick, DispatchFirst;
  }

  lemma ForceIsStep(k: Kernel, frame: Frame)
    ensures SameButHeld(Step(k.s, ForceSwitch(frame)), ScheduleForce(k, frame).s, CurrentOr(k.s))
  {
    hide Force;
  }

  lemma KillIsStep(k: Kernel, init: nat)
    requires init < MAX_PROCESSES
    ensures SameButHeld(Step(k.s, KillCurrent(init)), KillProcess(k, init).s, CurrentOr(k.s))
  {
    hide Kill;
  }

  // Everything a fork needs is there.
  ghost predicate ForkEnds(k: Kernel, op: KOp)
    requires op.Forked?
  {
    Called(k.s) && op.root.Some? && op.copied && op.kstack.Some? && op.spare && HasRoomFor(k.s.procs)
  }

  // Births and deaths.
  lemma OtherIs(k: Kernel, op: KOp)
    requires Allowed(k, op)
    ensures op.Waitpid? ==> KStep(k, op).s == Step(k.s, ReapSlot(op.pid))
    ensures op.SpawnedUser? ==> KStep(k, op).s == Step(k.s, NewUser(op.kstack, op.pml4, op.parent))
    ensures op.SpawnedKernel? ==> KStep(k, op).s == Step(k.s, NewKernel(op.kstack, op.pml4))
    ensures op.Forked? && ForkEnds(k, op) ==> KStep(k, op).s == Step(k.s, ForkCurrent(op.kstack.value, op.root.value))
    ensures op.Forked? && !ForkEnds(k, op) ==> KStep(k, op).s == k.s
    ensures op.Other? ==> KStep(k, op).s == Step(k.s, op.op)
  {
    hide OnTick, DispatchFirst, Force, Kill, FreeSlot, SpawnUser, SpawnKernel, Fork, Reap, Block, HasRoomFor;
    RoomIff(k.s.procs);
  }
}
