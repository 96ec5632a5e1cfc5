/**
 * The process table and what each scheduler entry point does to it, as
 * functions of the table.  Environment values (the clock, pipe counters, the
 * state of a user stack) are parameters.
 */
module SchedState {
  import opened Wrappers

  const MAX_PROCESSES: nat := 32
  const QUANTUM: nat := 5
  const IDLE: nat := 0
  const PIPE_SIZE: nat := 512
  const U32: nat := 0x1_0000_0000
  const USER_END: nat := 0x8000_0000_0000

  datatype Status = Ready | Running | Blocked | Zombie
  datatype Wake = Awake | Sleep(deadline: nat) | Keyboard | PipeRead(pipe: nat) | PipeWrite(pipe: nat)
                | WaitForChild(child: nat)

  datatype Process = Process(state: Status, wake: Wake, isUser: bool, kstack: nat, pml4: nat,
                             generation: nat, parent: Option<nat>, parentGeneration: nat, pgid: nat,
                             pending: set<nat>, blocked: set<nat>, handlers: seq<nat>, exitCode: nat)

  type Procs = s: seq<Option<Process>> | |s| == MAX_PROCESSES witness EmptyTable()
  type Generations = s: seq<nat> | |s| == MAX_PROCESSES witness seq(MAX_PROCESSES, _ => 0)

  datatype State = State(procs: Procs, gens: Generations, current: Option<nat>, ticks: nat)

  datatype Pipe = Pipe(nread: nat, nwrite: nat, readOpen: bool, writeOpen: bool)

  // What deliver_signal finds under the target's saved stack pointer.
  datatype Frame = NoFrame | BadStack | GoodStack

  function EmptyTable(): seq<Option<Process>> {
    seq(MAX_PROCESSES, _ => None)
  }

  predicate Is(procs: Procs, i: nat, st: Status) {
    i < MAX_PROCESSES && procs[i].Some? && procs[i].value.state == st
  }

  function WithState(procs: Procs, i: nat, st: Status): Procs
    requires i < MAX_PROCESSES
  {
    if procs[i].Some? then procs[i := Some(procs[i].value.(state := st))] else procs
  }

  // ---------- choosing the next process ----------

  // How far behind `after` the search meets slot q; after itself comes last.
  function Distance(after: nat, q: nat): nat {
    (q + MAX_PROCESSES - 1 - after % MAX_PROCESSES) % MAX_PROCESSES
  }

  // First Ready process behind `after`, never idle, from the i-th step of the search on.
  function Search(procs: Procs, after: nat, i: nat): Option<nat>
    requires i <= MAX_PROCESSES
    decreases MAX_PROCESSES - i
  {
    if i == MAX_PROCESSES then None
    else
      var q := (after + 1 + i) % MAX_PROCESSES;
      if q != IDLE && Is(procs, q, Ready) then Some(q) else Search(procs, after, i + 1)
  }

  function NextReady(procs: Procs, after: nat): Option<nat> {
    match Search(procs, after, 0)
    case Some(q) => Some(q)
    case None => if Is(procs, IDLE, Ready) then Some(IDLE) else None
  }

  // A Running process that is left becomes Ready; any other state stays.
  function Leave(procs: Procs, current: Option<nat>): Procs {
    if current.Some? && Is(procs, current.value, Running) then WithState(procs, current.value, Ready) else procs
  }

  function Choice(procs: Procs, current: Option<nat>): (q: nat)
    ensures q < MAX_PROCESSES
  {
    var next := NextReady(procs, if current.Some? then current.value else 0);
    ChoiceBound(procs, if current.Some? then current.value else 0, 0);
    if next.Some? then next.value else IDLE
  }

  lemma {:induction false} ChoiceBound(procs: Procs, after: nat, i: nat)
    requires i <= MAX_PROCESSES
    ensures Search(procs, after, i).Some? ==> Search(procs, after, i).value < MAX_PROCESSES
    decreases MAX_PROCESSES - i
  {
    if i < MAX_PROCESSES {
      ChoiceBound(procs, after, i + 1);
    }
  }

  // The common tail of switch_next, switch_next_force and kill_process.
  function Dispatch(s: State): State {
    var q := Choice(s.procs, s.current);
    s.(procs := WithState(s.procs, q, Running), current := Some(q))
  }

  function SwitchNext(s: State): State {
    Dispatch(s.(procs := Leave(s.procs, s.current)))
  }

  // ---------- signals ----------

  function LowestFrom(pending: set<nat>, i: nat): Option<nat>
    requires i <= 32
    decreases 32 - i
  {
    if i == 32 then None else if i + 1 in pending then Some(i + 1) else LowestFrom(pending, i + 1)
  }

  function PendingSignal(p: Process): Option<nat> {
    LowestFrom(p.pending - p.blocked, 0)
  }

  function Handler(p: Process, signum: nat): nat {
    if 1 <= signum <= 31 && signum <= |p.handlers| then p.handlers[signum - 1] else 0
  }

  // The default action on the target itself.
  function DefaultAction(p: Process, signum: nat): Process {
    var q := p.(pending := p.pending - {signum});
    if signum == 20 then q.(state := Blocked, wake := Awake)
    else if signum == 18 || signum == 19 then q
    else q.(state := Zombie, exitCode := signum)
  }

  // The parent is woken by its wake reason alone, whatever its state.
  function WakeParent(procs: Procs, pid: nat): Procs
    requires pid < MAX_PROCESSES && procs[pid].Some?
  {
    var child := procs[pid].value;
    if child.parent.Some? && child.parent.value < MAX_PROCESSES && procs[child.parent.value].Some? then
      var i := child.parent.value;
      var p := procs[i].value;
      if p.generation == child.parentGeneration && p.wake == WaitForChild(pid)
      then procs[i := Some(p.(state := Ready, wake := Awake))] else procs
    else procs
  }

  function DeliverSignal(procs: Procs, pid: nat, frame: Frame): Procs
    requires pid < MAX_PROCESSES
  {
    if procs[pid].None? || !procs[pid].value.isUser || PendingSignal(procs[pid].value).None? then procs
    else
      var p := procs[pid].value;
      var signum := PendingSignal(p).value;
      var handler := Handler(p, signum);
      if handler == 0 then
        WakeParent(procs[pid := Some(DefaultAction(p, signum))], pid)
      else if handler == 1 then
        procs[pid := Some(p.(pending := p.pending - {signum}))]
      else if frame.NoFrame? || p.pml4 == 0 then procs
      else if frame.BadStack? then
        procs[pid := Some(p.(state := Zombie, exitCode := 11, pending := p.pending - {signum}))]
      else
        procs[pid := Some(p.(pending := p.pending - {signum}))]
  }

  function DeliverToCurrent(s: State, frame: Frame): State {
    if s.current.Some? && s.current.value != IDLE && s.current.value < MAX_PROCESSES
    then s.(procs := DeliverSignal(s.procs, s.current.value, frame)) else s
  }

  // sys_kill: the signal becomes pending; it is acted on at the target's next dispatch.
  function Raise(s: State, target: nat, signum: nat): State {
    if 1 <= signum <= 31 && target < MAX_PROCESSES && s.procs[target].Some? && !Is(s.procs, target, Zombie) then
      var p := s.procs[target].value;
      s.(procs := s.procs[target := Some(p.(pending := p.pending + {signum}))])
    else s
  }

  // sys_sigaction, for the current process.
  function SetHandler(s: State, signum: nat, handler: nat): State {
    var i := if s.current.Some? then s.current.value else 0;
    if 1 <= signum <= 31 && handler < USER_END && i < MAX_PROCESSES && s.procs[i].Some?
       && signum <= |s.procs[i].value.handlers| then
      var p := s.procs[i].value;
      s.(procs := s.procs[i := Some(p.(handlers := p.handlers[signum - 1 := handler]))])
    else s
  }

  // sys_setpgid.
  function SetGroup(s: State, target: nat, pgid: nat): State {
    var i := if target != 0 then target else if s.current.Some? then s.current.value else 0;
    if i < MAX_PROCESSES && s.procs[i].Some?
    then s.(procs := s.procs[i := Some(s.procs[i].value.(pgid := if pgid == 0 then i else pgid))]) else s
  }

  // ---------- timer ----------

  function WakeSleeper(p: Option<Process>, now: nat): Option<Process> {
    if p.Some? && p.value.state == Blocked && p.value.wake.Sleep? && p.value.wake.deadline <= now
    then Some(p.value.(state := Ready, wake := Awake)) else p
  }

  function WakeSleepers(procs: Procs, now: nat): Procs {
    seq(MAX_PROCESSES, i requires 0 <= i < MAX_PROCESSES => WakeSleeper(procs[i], now))
  }

  // A current slot found empty: run the first Ready process instead, if any.
  function Recover(s: State): State {
    if s.current.Some? && s.current.value < MAX_PROCESSES && s.procs[s.current.value].None? then
      var next := NextReady(s.procs, 0);
      ChoiceBound(s.procs, 0, 0);
      if next.Some? then s.(procs := WithState(s.procs, next.value, Running), current := next)
      else s.(current := None)
    else s
  }

  function OnTick(s: State, now: nat, frame: Frame): State {
    var s1 := s.(ticks := s.ticks + 1, procs := WakeSleepers(s.procs, now));
    if s1.ticks >= QUANTUM then DeliverToCurrent(SwitchNext(s1.(ticks := 0)), frame)
    else Recover(s1)
  }

  function Force(s: State, frame: Frame): State {
    DeliverToCurrent(SwitchNext(s), frame)
  }

  function DispatchFirst(s: State): State {
    var next := NextReady(s.procs, 0);
    ChoiceBound(s.procs, 0, 0);
    if s.current.None? && next.Some?
    then s.(procs := WithState(s.procs, next.value, Running), current := next, ticks := 0) else s
  }

  // ---------- family ----------

  function Adopted(p: Option<Process>, gone: nat, init: nat, gen: nat): Option<Process> {
    if p.Some? && p.value.parent == Some(gone) then Some(p.value.(parent := Some(init), parentGeneration := gen)) else p
  }

  // reparent_orphans_to_init.
  function Reparent(s: State, gone: nat, init: nat): State
    requires init < MAX_PROCESSES
  {
    s.(procs := seq(MAX_PROCESSES, i requires 0 <= i < MAX_PROCESSES => Adopted(s.procs[i], gone, init, s.gens[init])))
  }

  lemma ReparentCurrent(s: State, i: nat, init: nat)
    requires init < MAX_PROCESSES
    ensures Reparent(s, i, init).current == s.current
  {
  }

  // Scheduler::kill_process: the current process dies, whatever its state.
  function Kill(s: State, init: nat): State
    requires init < MAX_PROCESSES
  {
    if s.current.Some? && s.current.value < MAX_PROCESSES then
      var s1 := Reparent(s, s.current.value, init);
      Dispatch(s1.(procs := WithState(s1.procs, s.current.value, Zombie)))
    else Dispatch(s)
  }

  // sys_exit up to the forced switch, without waking the parent.
  function Exit(s: State, code: nat, init: nat): State
    requires init < MAX_PROCESSES
  {
    if s.current.Some? && s.current.value < MAX_PROCESSES then
      var s1 := Reparent(s, s.current.value, init);
      var i := s.current.value;
      if s1.procs[i].Some?
      then s1.(procs := s1.procs[i := Some(s1.procs[i].value.(state := Zombie, exitCode := code % 256 * 256))]) else s1
    else s
  }

  // A blocking system call of the current process.
  function Block(s: State, wake: Wake): State {
    if s.current.Some? && s.current.value < MAX_PROCESSES && s.procs[s.current.value].Some? then
      var i := s.current.value;
      s.(procs := s.procs[i := Some(s.procs[i].value.(state := Blocked, wake := wake))])
    else s
  }

  function FreeFrom(procs: Procs, i: nat): Option<nat>
    requires i <= MAX_PROCESSES
    decreases MAX_PROCESSES - i
  {
    if i == MAX_PROCESSES then None else if procs[i].None? then Some(i) else FreeFrom(procs, i + 1)
  }

  function FreeSlot(procs: Procs): (r: Option<nat>) {
    FreeFrom(procs, 1)
  }

  lemma {:induction false} FreeSlotIs(procs: Procs, i: nat)
    requires i <= MAX_PROCESSES
    ensures FreeFrom(procs, i).Some? ==>
              i <= FreeFrom(procs, i).value < MAX_PROCESSES && procs[FreeFrom(procs, i).value].None?
    ensures FreeFrom(procs, i).Some? ==> forall j :: i <= j < FreeFrom(procs, i).value ==> procs[j].Some?
    ensures FreeFrom(procs, i).None? ==> forall j :: i <= j < MAX_PROCESSES ==> procs[j].Some?
    decreases MAX_PROCESSES - i
  {
    if i < MAX_PROCESSES && procs[i].Some? {
      FreeSlotIs(procs, i + 1);
    }
  }

  lemma FreeSlotAt(procs: Procs)
    ensures FreeSlot(procs).Some? ==> 0 < FreeSlot(procs).value < MAX_PROCESSES && procs[FreeSlot(procs).value].None?
  {
    FreeSlotIs(procs, 1);
  }

  // The generation of the parent named at spawn.
  function ParentGeneration(procs: Procs, parent: Option<nat>): nat {
    if parent.Some? && parent.value < MAX_PROCESSES && procs[parent.value].Some?
    then procs[parent.value].value.generation else 0
  }

  function NewProcess(isUser: bool, kstack: nat, pml4: nat, generation: nat, parent: Option<nat>, parentGeneration: nat,
                      pgid: nat): Process {
    Process(Ready, Awake, isUser, kstack, pml4, generation, parent, parentGeneration, pgid, {}, {}, seq(32, _ => 0), 0)
  }

  // spawn_user; no kernel stack (None) still spends a generation.
  function SpawnUser(s: State, kstack: Option<nat>, pml4: nat, parent: Option<nat>): State {
    var slot := FreeSlot(s.procs);
    FreeSlotIs(s.procs, 1);
    if slot.None? then s
    else
      var i := slot.value;
      var s1 := s.(gens := s.gens[i := (s.gens[i] + 1) % U32]);
      if kstack.None? then s1
      else
        s1.(procs := s.procs[i := Some(NewProcess(true, kstack.value, pml4, s1.gens[i], parent,
                                                  ParentGeneration(s.procs, parent), i))])
  }

  // spawn_kernel: no parent, group 0, the kernel's own page table.
  function SpawnKernel(s: State, kstack: Option<nat>, kernelPml4: nat): State {
    var slot := FreeSlot(s.procs);
    FreeSlotIs(s.procs, 1);
    if slot.None? then s
    else
      var i := slot.value;
      var s1 := s.(gens := s.gens[i := (s.gens[i] + 1) % U32]);
      if kstack.None? then s1
      else s1.(procs := s.procs[i := Some(NewProcess(false, kstack.value, kernelPml4, s1.gens[i], None, 0, 0))])
  }

  // The table part of sys_fork: the slot's generation is not advanced and the
  // child's own generation stays 0.
  function Fork(s: State, kstack: nat, pml4: nat): State {
    var slot := FreeSlot(s.procs);
    FreeSlotIs(s.procs, 1);
    if slot.None? || s.current.None? || s.current.value >= MAX_PROCESSES || s.procs[s.current.value].None? then s
    else
      var p := s.procs[s.current.value].value;
      s.(procs := s.procs[slot.value := Some(NewProcess(p.isUser, kstack, pml4, 0, s.current, p.generation, p.pgid))])
  }

  function Reap(s: State, pid: nat): State
    requires pid < MAX_PROCESSES
  {
    s.(procs := s.procs[pid := None])
  }

  // find_any_zombie_child: matched by slot and by the slot's generation counter.
  predicate ZombieChild(s: State, i: nat) {
    && Is(s.procs, i, Zombie) && s.current.Some? && s.current.value < MAX_PROCESSES
    && s.procs[i].value.parent == s.current
    && s.procs[i].value.parentGeneration == s.gens[s.current.value]
  }

  // ---------- waking ----------

  function PipeAt(pipes: seq<Option<Pipe>>, i: nat): Option<Pipe> {
    if i < |pipes| then pipes[i] else None
  }

  predicate Readable(pipes: seq<Option<Pipe>>, i: nat) {
    PipeAt(pipes, i).Some? && (PipeAt(pipes, i).value.nread < PipeAt(pipes, i).value.nwrite
                               || !PipeAt(pipes, i).value.writeOpen)
  }

  predicate HasRoom(pipes: seq<Option<Pipe>>, i: nat) {
    PipeAt(pipes, i).Some? && PipeAt(pipes, i).value.nwrite < (PipeAt(pipes, i).value.nread + PIPE_SIZE) % U32
  }

  predicate ReadClosed(pipes: seq<Option<Pipe>>, i: nat) {
    PipeAt(pipes, i).Some? && !PipeAt(pipes, i).value.readOpen
  }

  function Woken(p: Option<Process>): Option<Process> {
    if p.Some? then Some(p.value.(state := Ready, wake := Awake)) else p
  }

  // keyboard_wake's first phase.
  predicate KeyboardWakes(procs: Procs, pipes: seq<Option<Pipe>>, i: nat)
    requires i < MAX_PROCESSES
  {
    procs[i].Some? && procs[i].value.state == Blocked &&
    match procs[i].value.wake
    case Keyboard => true
    case PipeRead(k) => Readable(pipes, k)
    case PipeWrite(k) => HasRoom(pipes, k) || ReadClosed(pipes, k)
    case WaitForChild(c) => Is(procs, c, Zombie)
    case _ => false
  }

  function KeyboardWake(s: State, pipes: seq<Option<Pipe>>): State {
    s.(procs := seq(MAX_PROCESSES, i requires 0 <= i < MAX_PROCESSES =>
                 if KeyboardWakes(s.procs, pipes, i) then Woken(s.procs[i]) else s.procs[i]))
  }

  predicate ChildWakes(procs: Procs, zombie: nat, i: nat)
    requires i < MAX_PROCESSES
  {
    && i != IDLE && procs[i].Some? && procs[i].value.state == Blocked
    && (procs[i].value.wake == WaitForChild(zombie) || procs[i].value.wake == WaitForChild(0))
  }

  // wake_wait_for_child.
  function WakeWaitForChild(s: State, zombie: nat): State {
    s.(procs := seq(MAX_PROCESSES, i requires 0 <= i < MAX_PROCESSES =>
                 if ChildWakes(s.procs, zombie, i) then Woken(s.procs[i]) else s.procs[i]))
  }

  // ---------- send_signal_to_fg ----------

  // Group of the lowest user process in the given state.
  function GroupFrom(procs: Procs, st: Status, i: nat): Option<nat>
    requires i <= MAX_PROCESSES
    decreases MAX_PROCESSES - i
  {
    if i == MAX_PROCESSES then None
    else if Is(procs, i, st) && procs[i].value.isUser then Some(procs[i].value.pgid)
    else GroupFrom(procs, st, i + 1)
  }

  function Foreground(procs: Procs): Option<nat> {
    var running := GroupFrom(procs, Running, 1);
    if running.Some? then running else GroupFrom(procs, Ready, 1)
  }

  predicate Hit(procs: Procs, group: nat, signal: nat, i: nat)
    requires i < MAX_PROCESSES
  {
    && i != IDLE && procs[i].Some? && procs[i].value.isUser && procs[i].value.pgid == group
    && procs[i].value.state != Zombie && signal !in procs[i].value.blocked
  }

  predicate Killed(procs: Procs, group: nat, signal: nat, i: nat)
    requires i < MAX_PROCESSES
  {
    Hit(procs, group, signal, i) && (signal == 2 || signal == 3)
  }

  function SignalOne(p: Process, signal: nat): Process {
    if signal == 2 || signal == 3 then p.(state := Zombie, exitCode := signal)
    else if signal == 20 then p.(state := Blocked, wake := Awake)
    else if signal == 18 && p.state == Blocked && p.wake == Awake then p.(state := Ready)
    else p
  }

  function SignalGroup(procs: Procs, group: nat, signal: nat): Procs {
    seq(MAX_PROCESSES, i requires 0 <= i < MAX_PROCESSES =>
      if Hit(procs, group, signal, i) then Some(SignalOne(procs[i].value, signal)) else procs[i])
  }

  // A waiting parent of a killed process; its state is not looked at.
  predicate WaitsForKilled(killed: set<nat>, p: Process) {
    p.wake.WaitForChild? && killed != {} && (p.wake.child == 0 || p.wake.child in killed)
  }

  function KilledSet(procs: Procs, group: nat, signal: nat): set<nat> {
    set i: nat | i < MAX_PROCESSES && Killed(procs, group, signal, i)
  }

  function WakeWaiters(procs: Procs, killed: set<nat>): Procs {
    seq(MAX_PROCESSES, i requires 0 <= i < MAX_PROCESSES =>
      if i != IDLE && procs[i].Some? && WaitsForKilled(killed, procs[i].value) then Woken(procs[i]) else procs[i])
  }

  predicate InlineWakes(procs: Procs, pipes: seq<Option<Pipe>>, i: nat)
    requires i < MAX_PROCESSES
  {
    procs[i].Some? && procs[i].value.state == Blocked &&
    match procs[i].value.wake
    case Keyboard => true
    case PipeRead(k) => Readable(pipes, k)
    case PipeWrite(k) => HasRoom(pipes, k)
    case _ => false
  }

  function InlineWake(procs: Procs, pipes: seq<Option<Pipe>>): Procs {
    seq(MAX_PROCESSES, i requires 0 <= i < MAX_PROCESSES =>
      if InlineWakes(procs, pipes, i) then Woken(procs[i]) else procs[i])
  }

  function SignalForeground(s: State, signal: nat, pipes: seq<Option<Pipe>>): State {
    var group := Foreground(s.procs);
    var procs := if group.None? then s.procs
                 else WakeWaiters(SignalGroup(s.procs, group.value, signal), KilledSet(s.procs, group.value, signal));
    s.(procs := InlineWake(procs, pipes))
  }
}
