/**
 * The scheduler and the context-switch code as they run: fixed arrays of
 * process, generation and deferred slots, changed in place.  Every method is
 * proved equal to its function on the table.
 */
module SchedKernel {
  import opened Wrappers
  import opened SchedState
  import opened SchedRun
  import opened SchedOwner

  class Scheduler {
    const processes: array<Option<Process>>
    const generations: array<nat>
    const deferred: array<Entry>
    var deferredCount: nat
    var current: Option<nat>
    var ticks: nat
    var halted: bool
    // What the allocators have handed out: held by somebody, or lost.
    ghost var stacks: set<nat>
    ghost var spaces: set<nat>
    ghost var lostStacks: set<nat>
    ghost var lostSpaces: set<nat>

    ghost predicate Valid()
      reads this
    {
      && processes.Length == MAX_PROCESSES && generations.Length == MAX_PROCESSES && deferred.Length == MAX_DEFERRED
      && deferredCount <= MAX_DEFERRED
      && (current.Some? ==> current.value < MAX_PROCESSES)
    }

    ghost function Table(): Procs
      requires Valid()
      reads this, processes
    {
      processes[..]
    }

    ghost function St(): State
      requires Valid()
      reads this, processes, generations
    {
      State(processes[..], generations[..], current, ticks)
    }

    // The process a system call names; 0 stands for the current one.
    ghost function PidOr(target: nat): nat
      reads this
    {
      if target != 0 then target else if current.Some? then current.value else 0
    }

    ghost function K(): Kernel
      requires Valid()
      reads this, processes, generations, deferred
    {
      Kernel(St(), deferred[..deferredCount], stacks, spaces, lostStacks, lostSpaces, halted)
    }

    // Boot: idle alone, Ready in slot 0 with generation 1.
    constructor (idleStack: nat, kernelPml4: nat)
      requires idleStack != 0
      ensures Valid() && fresh(processes) && fresh(generations) && fresh(deferred)
      ensures current.None? && Inv(K())
    {
      var idle := NewProcess(false, idleStack, kernelPml4, 1, None, 0, 0);
      processes := new Option<Process>[MAX_PROCESSES](i => if i == IDLE then Some(idle) else None);
      generations := new nat[MAX_PROCESSES](_ => 0);
      deferred := new Entry[MAX_DEFERRED](_ => Entry(0, 0, false));
      deferredCount, current, ticks, halted := 0, None, 0, false;
      stacks, spaces, lostStacks, lostSpaces := {idleStack}, {}, {}, {};
      new;
      assert processes[..] == EmptyTable()[IDLE := Some(idle)];
      assert generations[..] == seq(MAX_PROCESSES, _ => 0);
      BootOwned(idle, K());
    }

    // ---------- reading ----------

    method FindNextReady(after: nat) returns (r: Option<nat>)
      requires Valid()
      ensures r == NextReady(Table(), after)
    {
      ghost var procs: Procs := processes[..];
      var i := 0;
      while i < MAX_PROCESSES
        invariant i <= MAX_PROCESSES
        invariant Search(procs, after, i) == Search(procs, after, 0)
      {
        var q := (after + 1 + i) % MAX_PROCESSES;
        if q != IDLE && processes[q].Some? && processes[q].value.state == Ready {
          return Some(q);
        }
        i := i + 1;
      }
      if processes[IDLE].Some? && processes[IDLE].value.state == Ready {
        return Some(IDLE);
      }
      return None;
    }

    // First matching zombie, or nothing when there is none.
    method FindAnyZombieChild() returns (r: Option<nat>)
      requires Valid()
      ensures r.Some? ==> ZombieChild(St(), r.value) && forall j :: 0 <= j < r.value ==> !ZombieChild(St(), j)
      ensures r.None? ==> forall j :: 0 <= j < MAX_PROCESSES ==> !ZombieChild(St(), j)
    {
      if current.None? {
        return None;
      }
      var gen := generations[current.value];
      var i := 0;
      while i < MAX_PROCESSES
        invariant i <= MAX_PROCESSES
        invariant forall j :: 0 <= j < i ==> !ZombieChild(St(), j)
      {
        if processes[i].Some? && processes[i].value.parent == current && processes[i].value.parentGeneration == gen
           && processes[i].value.state == Zombie
        {
          return Some(i);
        }
        i := i + 1;
      }
      return None;
    }

    method FindFreeSlot() returns (r: Option<nat>)
      requires Valid()
      ensures r == FreeSlot(Table())
    {
      ghost var procs: Procs := processes[..];
      var i := 1;
      while i < MAX_PROCESSES
        invariant 1 <= i <= MAX_PROCESSES && FreeFrom(procs, i) == FreeFrom(procs, 1)
      {
        if processes[i].None? {
          return Some(i);
        }
        i := i + 1;
      }
      return None;
    }

    // ---------- switching ----------

    method SetState(i: nat, st: Status)
      requires Valid() && i < MAX_PROCESSES
      modifies processes
      ensures Table() == WithState(old(Table()), i, st)
    {
      if processes[i].Some? {
        processes[i] := Some(processes[i].value.(state := st));
      }
    }

    method DispatchNext()
      requires Valid()
      modifies processes, this`current
      ensures Valid() && St() == Dispatch(old(St()))
    {
      ghost var procs: Procs := processes[..];
      var after := if current.Some? then current.value else 0;
      var next := FindNextReady(after);
      var q := if next.Some? then next.value else IDLE;
      assert q == Choice(procs, current);
      SetState(q, Running);
      current := Some(q);
    }

    method LeaveCurrent()
      requires Valid()
      modifies processes
      ensures Table() == Leave(old(Table()), current)
    {
      if current.Some? && processes[current.value].Some? && processes[current.value].value.state == Running {
        SetState(current.value, Ready);
      }
    }

    method SwitchNext()
      requires Valid()
      modifies processes, this`current
      ensures Valid() && St() == SchedState.SwitchNext(old(St()))
    {
      LeaveCurrent();
      DispatchNext();
    }

    method DeliverSignal(pid: nat, frame: Frame)
      requires Valid() && pid < MAX_PROCESSES
      modifies processes
      ensures Table() == SchedState.DeliverSignal(old(Table()), pid, frame)
    {
      if processes[pid].None? || !processes[pid].value.isUser {
        return;
      }
      var p := processes[pid].value;
      var sig := LowestPending(p);
      if sig.None? {
        return;
      }
      var signum := sig.value;
      var handler := Handler(p, signum);
      if handler == 0 {
        processes[pid] := Some(DefaultAction(p, signum));
        WakeParentOf(pid);
      } else if handler == 1 {
        processes[pid] := Some(p.(pending := p.pending - {signum}));
      } else {
        if frame.NoFrame? || p.pml4 == 0 {
          return;
        }
        if frame.BadStack? {
          processes[pid] := Some(p.(state := Zombie, exitCode := 11, pending := p.pending - {signum}));
          return;
        }
        processes[pid] := Some(p.(pending := p.pending - {signum}));
      }
    }

    method LowestPending(p: Process) returns (r: Option<nat>)
      ensures r == PendingSignal(p)
    {
      var pending := p.pending - p.blocked;
      var i := 0;
      while i < 32
        invariant i <= 32 && LowestFrom(pending, i) == LowestFrom(pending, 0)
      {
        if i + 1 in pending {
          return Some(i + 1);
        }
        i := i + 1;
      }
      return None;
    }

    method WakeParentOf(pid: nat)
      requires Valid() && pid < MAX_PROCESSES && processes[pid].Some?
      modifies processes
      ensures Table() == WakeParent(old(Table()), pid)
    {
      var child := processes[pid].value;
      if child.parent.Some? && child.parent.value < MAX_PROCESSES && processes[child.parent.value].Some? {
        var p := processes[child.parent.value].value;
        if p.generation == child.parentGeneration && p.wake == WaitForChild(pid) {
          processes[child.parent.value] := Some(p.(state := Ready, wake := Awake));
        }
      }
    }

    method DeliverToCurrentProcess(frame: Frame)
      requires Valid()
      modifies processes
      ensures St() == DeliverToCurrent(old(St()), frame)
    {
      if current.Some? && current.value != IDLE {
        DeliverSignal(current.value, frame);
      }
    }

    method WakeExpired(now: nat)
      requires Valid()
      modifies processes
      ensures Table() == WakeSleepers(old(Table()), now)
    {
      ghost var was := processes[..];
      var i := 0;
      while i < MAX_PROCESSES
        invariant i <= MAX_PROCESSES
        invariant forall j :: 0 <= j < i ==> processes[j] == WakeSleeper(was[j], now)
        invariant forall j :: i <= j < MAX_PROCESSES ==> processes[j] == was[j]
      {
        if processes[i].Some? && processes[i].value.state == Blocked && processes[i].value.wake.Sleep? {
          if now >= processes[i].value.wake.deadline {
            processes[i] := Some(processes[i].value.(state := Ready, wake := Awake));
          }
        }
        i := i + 1;
      }
    }

    // current_stack_pointer: a dangling current process is replaced.
    method RecoverCurrent()
      requires Valid()
      modifies processes, this`current
      ensures Valid() && St() == Recover(old(St()))
    {
      if current.Some? && processes[current.value].None? {
        current := None;
        var next := FindNextReady(0);
        NextBound(Table(), 0);
        if next.Some? {
          current := next;
          SetState(next.value, Running);
        }
      }
    }

    method OnTick(now: nat, frame: Frame)
      requires Valid()
      modifies processes, this`current, this`ticks
      ensures Valid() && St() == SchedState.OnTick(old(St()), now, frame)
    {
      ticks := ticks + 1;
      WakeExpired(now);
      if ticks >= QUANTUM {
        ticks := 0;
        SwitchNext();
        DeliverToCurrentProcess(frame);
      } else {
        RecoverCurrent();
      }
    }

    method SwitchNextForce(frame: Frame)
      requires Valid()
      modifies processes, this`current
      ensures Valid() && St() == Force(old(St()), frame)
    {
      SwitchNext();
      DeliverToCurrentProcess(frame);
    }

    method DispatchFirst()
      requires Valid()
      modifies processes, this`current, this`ticks
      ensures Valid() && St() == SchedState.DispatchFirst(old(St()))
    {
      if current.None? {
        var next := FindNextReady(0);
        NextBound(Table(), 0);
        if next.Some? {
          SetState(next.value, Running);
          current := next;
          ticks := 0;
        }
      }
    }

    // ---------- family ----------

    method ReparentOrphansToInit(parent: nat, init: nat)
      requires Valid() && init < MAX_PROCESSES
      modifies processes
      ensures St() == Reparent(old(St()), parent, init)
    {
      var initGen := generations[init];
      ghost var was := processes[..];
      var i := 0;
      while i < MAX_PROCESSES
        invariant i <= MAX_PROCESSES
        invariant forall j :: 0 <= j < i ==> processes[j] == Adopted(was[j], parent, init, initGen)
        invariant forall j :: i <= j < MAX_PROCESSES ==> processes[j] == was[j]
      {
        if processes[i].Some? && processes[i].value.parent == Some(parent) {
          processes[i] := Some(processes[i].value.(parent := Some(init), parentGeneration := initGen));
        }
        i := i + 1;
      }
    }

    method KillCurrent(init: nat)
      requires Valid() && init < MAX_PROCESSES
      modifies processes, this`current
      ensures Valid() && St() == Kill(old(St()), init)
    {
      if current.Some? {
        ReparentOrphansToInit(current.value, init);
        SetState(current.value, Zombie);
      }
      DispatchNext();
    }

    // A new process takes its slot and holds its stack.
    method Enter(i: nat, p: Process)
      requires Valid() && i < MAX_PROCESSES
      modifies processes, this`stacks
      ensures Valid() && Table() == old(Table())[i := Some(p)] && stacks == old(stacks) + {p.kstack}
    {
      processes[i] := Some(p);
      stacks := stacks + {p.kstack};
    }

    method SpawnUser(kstack: Option<nat>, pml4: nat, parent: Option<nat>) returns (pid: Option<nat>)
      requires Valid() && Inv(K()) && FreshStack(K(), kstack) && FreshSpace(K(), Some(pml4))
      modifies processes, generations, this`stacks, this`spaces, this`lostSpaces
      ensures Valid() && K() == UserBirth(old(K()), kstack, pml4, parent) && Inv(K())
      ensures pid == if kstack.Some? then FreeSlot(old(Table())) else None
    {
      hide Inv, FreeSlot;
      UserBirthInv(K(), kstack, pml4, parent);
      var slot := FindFreeSlot();
      FreeSlotAt(Table());
      if slot.None? {
        lostSpaces := lostSpaces + {pml4};
        return None;
      }
      var i := slot.value;
      var parentGen := if parent.Some? && parent.value < MAX_PROCESSES && processes[parent.value].Some?
                       then processes[parent.value].value.generation else 0;
      generations[i] := (generations[i] + 1) % U32;
      if kstack.None? {
        lostSpaces := lostSpaces + {pml4};
        return None;
      }
      spaces := spaces + {pml4};
      Enter(i, NewProcess(true, kstack.value, pml4, generations[i], parent, parentGen, i));
      return slot;
    }

    method SpawnKernel(kstack: Option<nat>, kernelPml4: nat) returns (pid: Option<nat>)
      requires Valid() && Inv(K()) && FreshStack(K(), kstack)
      modifies processes, generations, this`stacks
      ensures Valid() && K() == KernelBirth(old(K()), kstack, kernelPml4) && Inv(K())
      ensures pid == if kstack.Some? then FreeSlot(old(Table())) else None
    {
      hide Inv, FreeSlot;
      KernelBirthInv(K(), kstack, kernelPml4);
      var slot := FindFreeSlot();
      FreeSlotAt(Table());
      if slot.None? {
        return None;
      }
      var i := slot.value;
      generations[i] := (generations[i] + 1) % U32;
      if kstack.None? {
        return None;
      }
      Enter(i, NewProcess(false, kstack.value, kernelPml4, generations[i], None, 0, 0));
      return slot;
    }

    // The allocations are made in the order of the parameters; each may fail.
    method SysFork(pml4: Option<nat>, copied: bool, kstack: Option<nat>, spare: bool) returns (pid: Option<nat>)
      requires Valid() && Inv(K()) && !halted && FreshStack(K(), kstack) && FreshSpace(K(), pml4)
      modifies processes, this`stacks, this`spaces, this`lostStacks, this`lostSpaces, this`halted
      ensures Valid() && K() == ForkBirth(old(K()), pml4, copied, kstack, spare) && Inv(K())
      ensures pid == if Caller(old(St())).Some? && pml4.Some? && copied && kstack.Some? && spare
                     then FreeSlot(old(Table())) else None
    {
      hide Inv, FreeSlot;
      ForkBirthInv(K(), pml4, copied, kstack, spare);
      if current.None? || processes[current.value].None? {
        return None;
      }
      var parent := processes[current.value].value;
      if pml4.None? {
        halted := true;
        return None;
      }
      if !copied || kstack.None? {
        lostSpaces := lostSpaces + {pml4.value};
        return None;
      }
      var slot := FindFreeSlot();
      FreeSlotAt(Table());
      if slot.None? || !spare {
        lostStacks, lostSpaces := lostStacks + {kstack.value}, lostSpaces + {pml4.value};
        return None;
      }
      if parent.isUser {
        spaces := spaces + {pml4.value};
      } else {
        lostSpaces := lostSpaces + {pml4.value};
      }
      Enter(slot.value,
            NewProcess(parent.isUser, kstack.value, pml4.value, 0, current, parent.generation, parent.pgid));
      return slot;
    }

    // ---------- waking ----------

    // Second phase of the wake routines: the slots collected in the first.
    method WakeListed(list: array<nat>, count: nat, ghost wakes: seq<bool>)
      requires Valid() && count <= list.Length && |wakes| == MAX_PROCESSES
      requires Listed(list[..count], wakes, MAX_PROCESSES)
      modifies processes
      ensures forall i :: 0 <= i < MAX_PROCESSES ==>
                processes[i] == if wakes[i] then Woken(old(processes[..])[i]) else old(processes[..])[i]
    {
      ghost var was := processes[..];
      var k := 0;
      while k < count
        invariant k <= count
        invariant forall i :: 0 <= i < MAX_PROCESSES ==>
                    processes[i] == if i in list[..k] then Woken(was[i]) else was[i]
      {
        var pid := list[k];
        assert list[..count][k] == pid;
        assert list[..k + 1] == list[..k] + [pid];
        if processes[pid].Some? {
          processes[pid] := Some(processes[pid].value.(state := Ready, wake := Awake));
        }
        k := k + 1;
      }
    }

    method KeyboardWake(pipes: seq<Option<Pipe>>)
      requires Valid()
      modifies processes
      ensures St() == SchedState.KeyboardWake(old(St()), pipes)
    {
      hide KeyboardWakes;
      ghost var procs: Procs := processes[..];
      ghost var wakes := seq(MAX_PROCESSES, i requires 0 <= i < MAX_PROCESSES => KeyboardWakes(procs, pipes, i));
      var list := new nat[MAX_PROCESSES](_ => 0);
      var count := 0;
      var i := 0;
      while i < MAX_PROCESSES
        invariant count <= i <= MAX_PROCESSES && processes[..] == procs
        invariant Listed(list[..count], wakes, i)
      {
        var wake := KeyboardWakesSlot(pipes, i);
        if wake {
          ListMore(list[..count], wakes, i);
          list[count] := i;
          count := count + 1;
          assert list[..count] == list[..count - 1] + [i];
        } else {
          ListSame(list[..count], wakes, i);
        }
        i := i + 1;
      }
      WakeListed(list, count, wakes);
      assert processes[..] == SchedState.KeyboardWake(old(St()), pipes).procs;
    }

    method KeyboardWakesSlot(pipes: seq<Option<Pipe>>, i: nat) returns (wake: bool)
      requires Valid() && i < MAX_PROCESSES
      ensures wake == KeyboardWakes(Table(), pipes, i)
    {
      if processes[i].None? || processes[i].value.state != Blocked {
        return false;
      }
      match processes[i].value.wake
      case Keyboard => return true;
      case PipeRead(k) => return Readable(pipes, k);
      case PipeWrite(k) => return HasRoom(pipes, k) || ReadClosed(pipes, k);
      case WaitForChild(c) => return c < MAX_PROCESSES && processes[c].Some? && processes[c].value.state == Zombie;
      case _ => return false;
    }

    method WakeWaitForChild(zombie: nat)
      requires Valid()
      modifies processes
      ensures St() == SchedState.WakeWaitForChild(old(St()), zombie)
    {
      hide ChildWakes;
      ghost var procs: Procs := processes[..];
      ghost var wakes := seq(MAX_PROCESSES, i requires 0 <= i < MAX_PROCESSES => ChildWakes(procs, zombie, i));
      var list := new nat[MAX_PROCESSES](_ => 0);
      var count := 0;
      var i := 1;
      IdleNotWoken(procs, zombie);
      ListSame([], wakes, 0);
      while i < MAX_PROCESSES
        invariant count <= i <= MAX_PROCESSES && processes[..] == procs
        invariant Listed(list[..count], wakes, i)
      {
        var wake := ChildWakesSlot(zombie, i);
        if wake {
          ListMore(list[..count], wakes, i);
          list[count] := i;
          count := count + 1;
          assert list[..count] == list[..count - 1] + [i];
        } else {
          ListSame(list[..count], wakes, i);
        }
        i := i + 1;
      }
      WakeListed(list, count, wakes);
      assert processes[..] == SchedState.WakeWaitForChild(old(St()), zombie).procs;
    }

    method ChildWakesSlot(zombie: nat, i: nat) returns (wake: bool)
      requires Valid() && 1 <= i < MAX_PROCESSES
      ensures wake == ChildWakes(Table(), zombie, i)
    {
      if processes[i].None? || processes[i].value.state != Blocked {
        return false;
      }
      if processes[i].value.wake.WaitForChild? {
        return processes[i].value.wake.child == zombie || processes[i].value.wake.child == 0;
      }
      return false;
    }

    // ---------- signal system calls ----------

    method SysKill(target: nat, signum: nat) returns (ok: bool)
      requires Valid()
      modifies processes
      ensures St() == Raise(old(St()), target, signum)
      ensures ok <==> 1 <= signum <= 31 && target < MAX_PROCESSES && old(Table())[target].Some?
                      && !Is(old(Table()), target, Zombie)
      ensures ok ==> processes[target].Some?
                     && processes[target].value.pending == old(Table())[target].value.pending + {signum}
      ensures OthersStay(old(Table()), Table(), if ok then target else MAX_PROCESSES)
    {
      if signum == 0 || signum > 31 || target >= MAX_PROCESSES || processes[target].None?
         || processes[target].value.state == Zombie
      {
        return false;
      }
      var p := processes[target].value;
      processes[target] := Some(p.(pending := p.pending + {signum}));
      return true;
    }

    method SysSigaction(signum: nat, handler: nat) returns (ok: bool)
      requires Valid()
      modifies processes
      ensures St() == SetHandler(old(St()), signum, handler)
      ensures ok <==> 1 <= signum <= 31 && handler < USER_END && old(Table())[PidOr(0)].Some?
                      && signum <= |old(Table())[PidOr(0)].value.handlers|
      ensures ok ==> processes[PidOr(0)].Some?
                     && Handles(old(Table())[PidOr(0)].value, processes[PidOr(0)].value, signum, handler)
      ensures OthersStay(old(Table()), Table(), if ok then PidOr(0) else MAX_PROCESSES)
    {
      if signum == 0 || signum > 31 || handler >= USER_END {
        return false;
      }
      var pid := if current.Some? then current.value else 0;
      if processes[pid].Some? && signum <= |processes[pid].value.handlers| {
        var p := processes[pid].value;
        processes[pid] := Some(p.(handlers := p.handlers[signum - 1 := handler]));
        return true;
      }
      return false;
    }

    method SysSetpgid(target: nat, pgid: nat) returns (ok: bool)
      requires Valid()
      modifies processes
      ensures St() == SetGroup(old(St()), target, pgid)
      ensures ok <==> PidOr(target) < MAX_PROCESSES && old(Table())[PidOr(target)].Some?
      ensures ok ==> processes[PidOr(target)].Some?
                     && processes[PidOr(target)].value.pgid == if pgid == 0 then PidOr(target) else pgid
      ensures OthersStay(old(Table()), Table(), if ok then PidOr(target) else MAX_PROCESSES)
    {
      var pid := if target != 0 then target else if current.Some? then current.value else 0;
      var group := if pgid == 0 then pid else pgid;
      if pid < MAX_PROCESSES && processes[pid].Some? {
        processes[pid] := Some(processes[pid].value.(pgid := group));
        return true;
      }
      return false;
    }

    // ---------- signals to the foreground group ----------

    method FindGroup(st: Status) returns (group: Option<nat>)
      requires Valid()
      ensures group == GroupFrom(Table(), st, 1)
    {
      ghost var procs: Procs := processes[..];
      var i := 1;
      while i < MAX_PROCESSES
        invariant 1 <= i <= MAX_PROCESSES && GroupFrom(procs, st, i) == GroupFrom(procs, st, 1)
      {
        if processes[i].Some? && processes[i].value.isUser && processes[i].value.state == st {
          return Some(processes[i].value.pgid);
        }
        i := i + 1;
      }
      return None;
    }

    // First loop: act on every member of the group, noting who is killed.
    method HitGroup(group: nat, signal: nat) returns (killed: seq<nat>)
      requires Valid()
      modifies processes
      ensures Table() == SignalGroup(old(Table()), group, signal)
      ensures Members(killed) == KilledSet(old(Table()), group, signal)
    {
      ghost var was: Procs := processes[..];
      killed := [];
      var i := 1;
      while i < MAX_PROCESSES
        invariant 1 <= i <= MAX_PROCESSES
        invariant forall j :: 0 <= j < i ==>
                    processes[j] == if Hit(was, group, signal, j) then Some(SignalOne(was[j].value, signal)) else was[j]
        invariant forall j :: i <= j < MAX_PROCESSES ==> processes[j] == was[j]
        invariant Members(killed) == set j: nat | j < i && Killed(was, group, signal, j)
      {
        if processes[i].Some? && processes[i].value.isUser && processes[i].value.pgid == group
           && processes[i].value.state != Zombie && signal !in processes[i].value.blocked
        {
          var p := processes[i].value;
          if signal == 2 || signal == 3 {
            processes[i] := Some(p.(state := Zombie, exitCode := signal));
            MembersMore(killed, i);
            killed := killed + [i];
          } else if signal == 20 {
            processes[i] := Some(p.(state := Blocked, wake := Awake));
          } else if signal == 18 && p.state == Blocked && p.wake == Awake {
            processes[i] := Some(p.(state := Ready));
          }
        }
        i := i + 1;
      }
    }

    // Second loop: parents of the killed, whatever their state.
    method WakeKilledParents(killed: seq<nat>)
      requires Valid()
      modifies processes
      ensures Table() == WakeWaiters(old(Table()), Members(killed))
    {
      ghost var was: Procs := processes[..];
      var k := 0;
      while k < |killed|
        invariant k <= |killed|
        invariant forall j :: 0 <= j < MAX_PROCESSES ==> processes[j] == AfterWaits(was, Members(killed[..k]), j)
      {
        ghost var mid := processes[..];
        var i := 1;
        while i < MAX_PROCESSES
          invariant 1 <= i <= MAX_PROCESSES
          invariant forall j :: 0 <= j < i ==> processes[j] == AfterWait(mid[j], killed[k], j)
          invariant forall j :: i <= j < MAX_PROCESSES ==> processes[j] == mid[j]
        {
          if processes[i].Some? && processes[i].value.wake.WaitForChild? {
            var c := processes[i].value.wake.child;
            if c == killed[k] || c == 0 {
              processes[i] := Some(processes[i].value.(state := Ready, wake := Awake));
            }
          }
          i := i + 1;
        }
        assert killed[..k + 1] == killed[..k] + [killed[k]];
        forall j | 0 <= j < MAX_PROCESSES
          ensures processes[j] == AfterWaits(was, Members(killed[..k + 1]), j)
        {
          WaitsMore(was, killed[..k], killed[k], j);
        }
        k := k + 1;
      }
      assert killed[..k] == killed;
    }

    // Third loop: input and pipe waiters that can go on.
    method WakeInline(pipes: seq<Option<Pipe>>)
      requires Valid()
      modifies processes
      ensures Table() == InlineWake(old(Table()), pipes)
    {
      ghost var was: Procs := processes[..];
      var i := 0;
      while i < MAX_PROCESSES
        invariant i <= MAX_PROCESSES
        invariant forall j :: 0 <= j < i ==>
                    processes[j] == if InlineWakes(was, pipes, j) then Woken(was[j]) else was[j]
        invariant forall j :: i <= j < MAX_PROCESSES ==> processes[j] == was[j]
      {
        if processes[i].Some? && processes[i].value.state == Blocked {
          var p := processes[i].value;
          if p.wake.Keyboard? || (p.wake.PipeRead? && Readable(pipes, p.wake.pipe))
             || (p.wake.PipeWrite? && HasRoom(pipes, p.wake.pipe))
          {
            processes[i] := Some(p.(state := Ready, wake := Awake));
          }
        }
        i := i + 1;
      }
    }

    method SendSignalToFg(signal: nat, pipes: seq<Option<Pipe>>)
      requires Valid()
      modifies processes
      ensures St() == SignalForeground(old(St()), signal, pipes)
    {
      hide SignalGroup, WakeWaiters, InlineWake, KilledSet, GroupFrom;
      var group := FindGroup(Running);
      if group.None? {
        group := FindGroup(Ready);
      }
      if group.Some? {
        var killed := HitGroup(group.value, signal);
        WakeKilledParents(killed);
      }
      WakeInline(pipes);
    }

    // ---------- resources ----------

    method FreeKernelStack(x: nat)
      requires x in stacks
      modifies this`stacks
      ensures stacks == old(stacks) - {x}
    {
      stacks := stacks - {x};
    }

    method FreeUserAddressSpace(x: nat)
      requires x in spaces
      modifies this`spaces
      ensures spaces == old(spaces) - {x}
    {
      spaces := spaces - {x};
    }

    method DeferFree(e: Entry)
      requires Valid() && !halted
      modifies deferred, this`deferredCount, this`halted
      ensures Valid()
      ensures halted == (old(deferredCount) == MAX_DEFERRED)
      ensures deferred[..deferredCount] == old(deferred[..deferredCount]) + if halted then [] else [e]
    {
      if deferredCount < MAX_DEFERRED {
        deferred[deferredCount] := e;
        deferredCount := deferredCount + 1;
      } else {
        halted := true;
      }
    }

    // Each address is live when it is freed.
    method FreeEntry(e: Entry)
      requires e.kstack != 0 ==> e.kstack in stacks
      requires Space(e) != 0 ==> Space(e) in spaces
      modifies this`stacks, this`spaces
      ensures stacks == old(stacks) - (if e.kstack == 0 then {} else {e.kstack})
      ensures spaces == old(spaces) - (if Space(e) == 0 then {} else {Space(e)})
    {
      if e.isUser && e.pml4 != 0 {
        FreeUserAddressSpace(e.pml4);
      }
      if e.kstack != 0 {
        FreeKernelStack(e.kstack);
      }
    }

    // Free what the dead left behind.
    method DrainDeferredFree()
      requires Valid() && Inv(K())
      modifies deferred, this`deferredCount, this`stacks, this`spaces
      ensures Valid() && K() == Drained(old(K()))
    {
      hide Inv, DeferredStacks, DeferredSpaces, Members, Space;
      var count := deferredCount;
      deferredCount := 0;
      NothingFreed();
      if count == 0 {
        assert old(deferred[..deferredCount]) == [];
        return;
      }
      var slots := deferred[..count];
      ghost var k := old(K());
      forall i | 0 <= i < MAX_DEFERRED {
        deferred[i] := Entry(0, 0, false);
      }
      var i := 0;
      assert slots[..0] == [];
      while i < count
        invariant i <= count && deferredCount == 0
        invariant stacks == k.stacks - Members(DeferredStacks(slots[..i]))
        invariant spaces == k.spaces - Members(DeferredSpaces(slots[..i]))
      {
        DrainAt(k, i);
        FreeEntry(slots[i]);
        i := i + 1;
      }
      assert slots[..count] == slots;
    }

    method Schedule(now: nat, frame: Frame)
      requires Valid() && Inv(K())
      modifies this, processes, deferred
      ensures Valid() && K() == SchedOwner.Schedule(old(K()), now, frame) && Inv(K())
    {
      hide Inv;
      DrainDeferredFree();
      DrainInv(old(K()));
      if current.None? {
        DispatchFirst();
      } else {
        OnTick(now, frame);
      }
      TimerInv(old(K()), now, frame);
    }

    // Stash a dead process's resources and clear them in its slot.
    method Bury(e: Entry, pid: nat)
      requires Valid() && pid < MAX_PROCESSES && !halted
      modifies this`deferredCount, this`halted, deferred, processes
      ensures Valid() && K() == Defer(old(K()), e, pid)
    {
      if e.kstack != 0 || e.pml4 != 0 {
        DeferFree(e);
        if !halted && processes[pid].Some? {
          processes[pid] := Some(processes[pid].value.(kstack := 0, pml4 := 0));
        }
      }
    }

    method ScheduleForce(frame: Frame)
      requires Valid() && Parting(K()) && !halted
      modifies this, processes, deferred
      ensures Valid() && K() == SchedOwner.ScheduleForce(old(K()), frame) && Inv(K())
    {
      hide Inv, Parting;
      ForcedInv(K(), frame);
      var dead := Entry(0, 0, false);
      var pid := if current.Some? then current.value else 0;
      if current.Some? && processes[pid].Some? && processes[pid].value.state == Zombie {
        var p := processes[pid].value;
        dead := Entry(p.kstack, p.pml4, p.isUser);
      }
      SwitchNextForce(frame);
      Bury(dead, pid);
    }

    // A blocking system call: the process blocks and the forced switch follows.
    method BlockAndSwitch(wake: Wake, frame: Frame)
      requires Valid() && Inv(K()) && !halted && current != Some(IDLE)
      modifies this, processes, deferred
      ensures Valid() && K() == SchedOwner.ScheduleForce(old(K()).(s := Block(old(St()), wake)), frame) && Inv(K())
    {
      hide Inv, Parting, SchedOwner.ScheduleForce;
      BlockParts(K(), wake);
      if current.Some? && processes[current.value].Some? {
        processes[current.value] := Some(processes[current.value].value.(state := Blocked, wake := wake));
      }
      assert K() == old(K()).(s := Block(old(St()), wake));
      ScheduleForce(frame);
    }

    method KillProcess(init: nat)
      requires Valid() && Inv(K()) && !halted && init < MAX_PROCESSES
      requires current.Some? && current.value != IDLE
      modifies this, processes, deferred
      ensures Valid() && K() == SchedOwner.KillProcess(old(K()), init) && Inv(K())
    {
      hide Inv;
      FaultInv(K(), init);
      var dead := Entry(0, 0, false);
      var pid := current.value;
      if processes[pid].Some? {
        var p := processes[pid].value;
        dead := Entry(p.kstack, p.pml4, p.isUser);
      }
      KillCurrent(init);
      Bury(dead, pid);
    }

    // Dropping the process frees whatever it still holds.
    method ReapZombie(pid: nat)
      requires Valid() && Inv(K()) && !halted && Is(Table(), pid, Zombie) && current != Some(pid)
      modifies this`stacks, this`spaces, processes
      ensures Valid() && K() == SchedOwner.ReapZombie(old(K()), pid) && Inv(K())
    {
      hide Inv;
      ReapInv(K(), pid);
      HeldBySlot(K(), pid);
      var p := processes[pid].value;
      if p.isUser && p.pml4 != 0 {
        FreeUserAddressSpace(p.pml4);
      }
      if p.kstack != 0 {
        FreeKernelStack(p.kstack);
      }
      processes[pid] := None;
    }
  }

  predicate OthersStay(was: Procs, now: Procs, i: nat) {
    forall j :: 0 <= j < MAX_PROCESSES && j != i ==> now[j] == was[j]
  }

  // One handler is new, all others are as before.
  predicate Handles(was: Process, now: Process, signum: nat, handler: nat) {
    Handler(now, signum) == handler && forall x :: 1 <= x <= 31 && x != signum ==> Handler(now, x) == Handler(was, x)
  }

  lemma NothingFreed()
    ensures Members(DeferredStacks([])) == {} && Members(DeferredSpaces([])) == {}
  {
  }

  // What the i-th deferred entry holds is still live once the first i were freed.
  lemma DrainAt(k: Kernel, i: nat)
    requires Inv(k) && i < |k.deferred|
    ensures var e, d := k.deferred[i], k.deferred;
      && (e.kstack != 0 ==> e.kstack in k.stacks - Members(DeferredStacks(d[..i])))
      && (Space(e) != 0 ==> Space(e) in k.spaces - Members(DeferredSpaces(d[..i])))
      && k.stacks - Members(DeferredStacks(d[..i + 1]))
           == k.stacks - Members(DeferredStacks(d[..i])) - (if e.kstack == 0 then {} else {e.kstack})
      && k.spaces - Members(DeferredSpaces(d[..i + 1]))
           == k.spaces - Members(DeferredSpaces(d[..i])) - (if Space(e) == 0 then {} else {Space(e)})
  {
    hide Inv, FreedOnce, Space;
    var a, b := DeferredStacks(k.deferred), DeferredSpaces(k.deferred);
    DrainOnce(k);
    DrainMore(k.deferred, i);
    FreshHere(a, k.stacks, i);
    FreshHere(b, k.spaces, i);
  }

  // An address held at i is still live once the first i were freed.
  lemma FreshHere(freed: seq<nat>, live: set<nat>, i: nat)
    requires i < |freed| && 0 !in live && FreedOnce(freed, live, live - Members(freed))
    ensures freed[i] != 0 ==> freed[i] in live - Members(freed[..i])
    ensures live - (Members(freed[..i]) + {freed[i]})
         == live - Members(freed[..i]) - (if freed[i] == 0 then {} else {freed[i]})
  {
  }

  lemma DrainMore(slots: seq<Entry>, i: nat)
    requires i < |slots|
    ensures DeferredStacks(slots[..i]) == DeferredStacks(slots)[..i]
    ensures DeferredSpaces(slots[..i]) == DeferredSpaces(slots)[..i]
    ensures Members(DeferredStacks(slots[..i + 1])) == Members(DeferredStacks(slots[..i])) + {slots[i].kstack}
    ensures Members(DeferredSpaces(slots[..i + 1])) == Members(DeferredSpaces(slots[..i])) + {Space(slots[i])}
  {
    assert DeferredStacks(slots[..i + 1]) == DeferredStacks(slots[..i]) + [slots[i].kstack];
    assert DeferredSpaces(slots[..i + 1]) == DeferredSpaces(slots[..i]) + [Space(slots[i])];
    MembersMore(DeferredStacks(slots[..i]), slots[i].kstack);
    MembersMore(DeferredSpaces(slots[..i]), Space(slots[i]));
  }

  // Every deferred address is live and listed once; 0 is never live.
  lemma DrainOnce(k: Kernel)
    requires Inv(k)
    ensures FreedOnce(DeferredStacks(k.deferred), k.stacks, k.stacks - Members(DeferredStacks(k.deferred)))
    ensures FreedOnce(DeferredSpaces(k.deferred), k.spaces, k.spaces - Members(DeferredSpaces(k.deferred)))
    ensures 0 !in k.stacks && 0 !in k.spaces
  {
    hide StackHolders, SpaceHolders, FreedOnce;
    DrainHolders(k.s.procs, k.deferred);
    TailFreedOnce(StackHolders(k.s.procs, k.deferred), k.stacks, MAX_PROCESSES);
    TailFreedOnce(SpaceHolders(k.s.procs, k.deferred), k.spaces, MAX_PROCESSES);
  }

  lemma HeldBySlot(k: Kernel, pid: nat)
    requires Inv(k) && pid < MAX_PROCESSES
    ensures StackOf(k.s.procs[pid]) != 0 ==> StackOf(k.s.procs[pid]) in k.stacks
    ensures SpaceOf(k.s.procs[pid]) != 0 ==> SpaceOf(k.s.procs[pid]) in k.spaces
    ensures 0 !in k.stacks && 0 !in k.spaces
  {
    hide StackHolders, SpaceHolders;
    SlotHolders(k.s.procs, k.deferred, pid, None);
  }

  // list holds exactly the slots below n that are to be woken.
  ghost predicate Listed(list: seq<nat>, wakes: seq<bool>, n: nat) {
    n <= |wakes| && (forall k :: 0 <= k < |list| ==> list[k] < n && wakes[list[k]])
    && forall i :: 0 <= i < n && wakes[i] ==> i in list
  }

  lemma ListMore(list: seq<nat>, wakes: seq<bool>, i: nat)
    requires Listed(list, wakes, i) && i < |wakes| && wakes[i]
    ensures Listed(list + [i], wakes, i + 1)
  {
    assert (list + [i])[|list|] == i;
  }

  lemma ListSame(list: seq<nat>, wakes: seq<bool>, i: nat)
    requires Listed(list, wakes, i) && i < |wakes| && !wakes[i]
    ensures Listed(list, wakes, i + 1)
  {
  }

  lemma IdleNotWoken(procs: Procs, zombie: nat)
    ensures !ChildWakes(procs, zombie, IDLE)
  {
  }

  lemma MembersMore(h: seq<nat>, x: nat)
    ensures Members(h + [x]) == Members(h) + {x}
  {
  }

  function AfterWait(p: Option<Process>, killed: nat, j: nat): Option<Process> {
    if j != IDLE && p.Some? && (p.value.wake == WaitForChild(killed) || p.value.wake == WaitForChild(0)) then Woken(p)
    else p
  }

  function AfterWaits(procs: Procs, killed: set<nat>, j: nat): Option<Process>
    requires j < MAX_PROCESSES
  {
    if j != IDLE && procs[j].Some? && WaitsForKilled(killed, procs[j].value) then Woken(procs[j]) else procs[j]
  }

  lemma WaitsMore(procs: Procs, killed: seq<nat>, x: nat, j: nat)
    requires j < MAX_PROCESSES
    ensures AfterWaits(procs, Members(killed + [x]), j) == AfterWait(AfterWaits(procs, Members(killed), j), x, j)
  {
    MembersMore(killed, x);
    assert x in Members(killed + [x]);
  }
}
