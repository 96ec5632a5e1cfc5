/**
 * Runs of the scheduler: which process is Running, when idle is chosen, and how
 * long a Ready process can wait.
 */
module SchedRun {
  import opened Wrappers
  import opened SchedState

  datatype Op =
    | Tick(now: nat, frame: Frame)
    | ForceSwitch(frame: Frame)
    | KillCurrent(init: nat)
    | First
    | ExitCurrent(code: nat, init: nat)
    | BlockCurrent(wake: Wake)
    | NewUser(kstack: Option<nat>, pml4: nat, parent: Option<nat>)
    | NewKernel(kstack: Option<nat>, pml4: nat)
    | ForkCurrent(stack: nat, pml4: nat)
    | ReapSlot(pid: nat)
    | WakeKeyboard(pipes: seq<Option<Pipe>>)
    | WakeChild(zombie: nat)
    | SignalFg(signal: nat, pipes: seq<Option<Pipe>>)
    | SendSignal(target: nat, signum: nat)
    | SignalAction(signum: nat, handler: nat)
    | JoinGroup(target: nat, pgid: nat)

  predicate Possible(s: State, op: Op) {
    match op
    case KillCurrent(init) => init < MAX_PROCESSES
    case ExitCurrent(_, init) => init < MAX_PROCESSES
    case ReapSlot(pid) => Is(s.procs, pid, Zombie)
    case _ => true
  }

  function Step(s: State, op: Op): State
    requires Possible(s, op)
  {
    match op
    case Tick(now, frame) => OnTick(s, now, frame)
    case ForceSwitch(frame) => Force(s, frame)
    case KillCurrent(init) => Kill(s, init)
    case First => DispatchFirst(s)
    case ExitCurrent(code, init) => Exit(s, code, init)
    case BlockCurrent(wake) => Block(s, wake)
    case NewUser(kstack, pml4, parent) => SpawnUser(s, kstack, pml4, parent)
    case NewKernel(kstack, pml4) => SpawnKernel(s, kstack, pml4)
    case ForkCurrent(kstack, pml4) => Fork(s, kstack, pml4)
    case ReapSlot(pid) => Reap(s, pid)
    case WakeKeyboard(pipes) => KeyboardWake(s, pipes)
    case WakeChild(zombie) => WakeWaitForChild(s, zombie)
    case SignalFg(signal, pipes) => SignalForeground(s, signal, pipes)
    case SendSignal(target, signum) => Raise(s, target, signum)
    case SignalAction(signum, handler) => SetHandler(s, signum, handler)
    case JoinGroup(target, pgid) => SetGroup(s, target, pgid)
  }

  // ---------- one Running process ----------

  predicate OneRunning(s: State) {
    && (s.current.Some? ==> s.current.value < MAX_PROCESSES)
    && forall i :: 0 <= i < MAX_PROCESSES && s.procs[i].Some? && s.procs[i].value.state == Running ==>
         s.current == Some(i)
  }

  // No slot becomes Running.
  predicate NoNewRunning(procs: Procs, procs': Procs) {
    forall i :: 0 <= i < MAX_PROCESSES && procs'[i].Some? && procs'[i].value.state == Running ==>
      procs[i].Some? && procs[i].value.state == Running
  }

  predicate NoneRunning(procs: Procs) {
    forall i :: 0 <= i < MAX_PROCESSES && procs[i].Some? ==> procs[i].value.state != Running
  }

  lemma DispatchOne(s: State)
    requires NoneRunning(s.procs)
    ensures OneRunning(Dispatch(s))
  {
  }

  lemma LeaveNone(s: State)
    requires OneRunning(s)
    ensures NoneRunning(Leave(s.procs, s.current))
  {
  }

  lemma SwitchOne(s: State)
    requires OneRunning(s)
    ensures OneRunning(SwitchNext(s))
  {
    hide Dispatch;
    LeaveNone(s);
    DispatchOne(s.(procs := Leave(s.procs, s.current)));
  }

  lemma DeliverNone(procs: Procs, pid: nat, frame: Frame)
    requires pid < MAX_PROCESSES
    ensures NoNewRunning(procs, DeliverSignal(procs, pid, frame))
  {
    hide PendingSignal, Handler;
  }

  lemma WakeNone(procs: Procs, now: nat)
    ensures NoNewRunning(procs, WakeSleepers(procs, now))
  {
  }

  lemma GroupNone(procs: Procs, group: nat, signal: nat)
    ensures NoNewRunning(procs, SignalGroup(procs, group, signal))
  {
  }

  lemma WaitersNone(procs: Procs, killed: set<nat>)
    ensures NoNewRunning(procs, WakeWaiters(procs, killed))
  {
    hide WaitsForKilled;
  }

  lemma InlineNone(procs: Procs, pipes: seq<Option<Pipe>>)
    ensures NoNewRunning(procs, InlineWake(procs, pipes))
  {
    hide InlineWakes;
  }

  lemma SignalNone(s: State, signal: nat, pipes: seq<Option<Pipe>>)
    ensures NoNewRunning(s.procs, SignalForeground(s, signal, pipes).procs)
  {
    hide SignalGroup, WakeWaiters, InlineWake, Foreground, KilledSet;
    var group := Foreground(s.procs);
    var procs := s.procs;
    if group.Some? {
      var hit := SignalGroup(s.procs, group.value, signal);
      GroupNone(s.procs, group.value, signal);
      WaitersNone(hit, KilledSet(s.procs, group.value, signal));
      procs := WakeWaiters(hit, KilledSet(s.procs, group.value, signal));
    }
    InlineNone(procs, pipes);
  }

  lemma EmptyCurrent(s: State)
    requires OneRunning(s) && (s.current.None? || s.procs[s.current.value].None?)
    ensures NoneRunning(s.procs)
  {
  }

  lemma RunOnly(s: State, q: nat)
    requires NoneRunning(s.procs) && q < MAX_PROCESSES
    ensures OneRunning(s.(procs := WithState(s.procs, q, Running), current := Some(q)))
  {
  }

  lemma RecoverOne(s: State)
    requires OneRunning(s)
    ensures OneRunning(Recover(s)) && OneRunning(DispatchFirst(s))
  {
    hide NextReady, WithState;
    ChoiceBound(s.procs, 0, 0);
    NextBound(s.procs, 0);
    if s.current.None? || s.procs[s.current.value].None? {
      EmptyCurrent(s);
      if NextReady(s.procs, 0).Some? {
        RunOnly(s, NextReady(s.procs, 0).value);
      }
    }
  }

  lemma NextBound(procs: Procs, after: nat)
    ensures NextReady(procs, after).Some? ==> NextReady(procs, after).value < MAX_PROCESSES
  {
    ChoiceBound(procs, after, 0);
  }

  // Steps that leave current alone.
  lemma QuietOne(s: State, s': State)
    requires OneRunning(s) && s'.current == s.current && NoNewRunning(s.procs, s'.procs)
    ensures OneRunning(s')
  {
  }

  lemma SpawnNone(s: State, op: Op)
    requires op.NewUser? || op.NewKernel? || op.ForkCurrent? || op.ReapSlot?
    requires Possible(s, op)
    ensures Step(s, op).current == s.current && NoNewRunning(s.procs, Step(s, op).procs)
  {
    hide FreeSlot;
  }

  lemma PlainNone(s: State, op: Op)
    requires op.ExitCurrent? || op.BlockCurrent? || op.WakeKeyboard? || op.WakeChild? || op.SendSignal?
          || op.SignalAction? || op.JoinGroup?
    requires Possible(s, op)
    ensures Step(s, op).current == s.current && NoNewRunning(s.procs, Step(s, op).procs)
  {
    hide KeyboardWakes, ChildWakes;
  }

  // Every step keeps it: at most one process is Running, and it is the current one.
  lemma StepOneRunning(s: State, op: Op)
    requires OneRunning(s) && Possible(s, op)
    ensures OneRunning(Step(s, op))
  {
    hide OnTick, Force, Kill, DispatchFirst, SignalForeground, OneRunning, NoNewRunning;
    match op
    case Tick(now, frame) =>
      TickOne(s, now, frame);
    case ForceSwitch(frame) =>
      ForceOne(s, frame);
    case KillCurrent(init) =>
      KillOne(s, init);
    case First =>
      RecoverOne(s);
    case SignalFg(signal, pipes) =>
      SignalNone(s, signal, pipes);
      SignalCurrent(s, signal, pipes);
      QuietOne(s, Step(s, op));
    case NewUser(_, _, _) => SpawnNone(s, op); QuietOne(s, Step(s, op));
    case NewKernel(_, _) => SpawnNone(s, op); QuietOne(s, Step(s, op));
    case ForkCurrent(_, _) => SpawnNone(s, op); QuietOne(s, Step(s, op));
    case ReapSlot(_) => SpawnNone(s, op); QuietOne(s, Step(s, op));
    case _ => PlainNone(s, op); QuietOne(s, Step(s, op));
  }

  lemma SignalCurrent(s: State, signal: nat, pipes: seq<Option<Pipe>>)
    ensures SignalForeground(s, signal, pipes).current == s.current
    ensures SignalForeground(s, signal, pipes).ticks == s.ticks
  {
  }

  lemma ForceOne(s: State, frame: Frame)
    requires OneRunning(s)
    ensures OneRunning(Force(s, frame))
  {
    hide SwitchNext, DeliverToCurrent;
    SwitchOne(s);
    DeliverOne(SwitchNext(s), frame);
  }

  lemma DeliverOne(s: State, frame: Frame)
    requires OneRunning(s)
    ensures OneRunning(DeliverToCurrent(s, frame))
  {
    hide DeliverSignal;
    if s.current.Some? {
      DeliverNone(s.procs, s.current.value, frame);
    }
  }

  lemma TickOne(s: State, now: nat, frame: Frame)
    requires OneRunning(s)
    ensures OneRunning(OnTick(s, now, frame))
  {
    hide SwitchNext, DeliverToCurrent, WakeSleepers, Recover;
    WakeNone(s.procs, now);
    var s1 := s.(ticks := s.ticks + 1, procs := WakeSleepers(s.procs, now));
    SwitchOne(s1.(ticks := 0));
    DeliverOne(SwitchNext(s1.(ticks := 0)), frame);
    RecoverOne(s1);
  }

  lemma KillOne(s: State, init: nat)
    requires OneRunning(s) && init < MAX_PROCESSES
    ensures OneRunning(Kill(s, init))
  {
    hide Dispatch;
    if s.current.Some? {
      var s1 := Reparent(s, s.current.value, init);
      DispatchOne(s1.(procs := WithState(s1.procs, s.current.value, Zombie)));
    } else {
      DispatchOne(s);
    }
  }

  // ---------- who is chosen ----------

  // The search finds the Ready process nearest behind `after`.
  lemma {:induction false} SearchNearest(procs: Procs, after: nat, i: nat, p: nat)
    requires i <= MAX_PROCESSES && after < MAX_PROCESSES && p < MAX_PROCESSES && p != IDLE && Is(procs, p, Ready)
    requires i <= Distance(after, p)
    ensures Search(procs, after, i).Some?
    ensures var q := Search(procs, after, i).value;
      q < MAX_PROCESSES && q != IDLE && Is(procs, q, Ready) && Distance(after, q) <= Distance(after, p)
    decreases MAX_PROCESSES - i
  {
    hide Distance;
    DistanceIs(after, p);
    DistanceAt(after, i);
    var q := (after + 1 + i) % MAX_PROCESSES;
    if !(q != IDLE && Is(procs, q, Ready)) {
      SearchNearest(procs, after, i + 1, p);
    }
  }

  lemma {:induction false} SearchFinds(procs: Procs, after: nat, i: nat)
    requires i <= MAX_PROCESSES
    ensures Search(procs, after, i).Some? ==>
              var q := Search(procs, after, i).value; q < MAX_PROCESSES && q != IDLE && Is(procs, q, Ready)
    decreases MAX_PROCESSES - i
  {
    if i < MAX_PROCESSES {
      SearchFinds(procs, after, i + 1);
    }
  }

  // The search goes round the whole table.
  lemma {:induction false} SearchMisses(procs: Procs, after: nat, i: nat, j: nat)
    requires i <= j < MAX_PROCESSES && Search(procs, after, i).None?
    ensures var q := (after + 1 + j) % MAX_PROCESSES; q == IDLE || !Is(procs, q, Ready)
    decreases j - i
  {
    if i < j {
      SearchMisses(procs, after, i + 1, j);
    }
  }

  lemma Reached(after: nat, p: nat)
    requires p < MAX_PROCESSES
    ensures Distance(after, p) < MAX_PROCESSES && (after + 1 + Distance(after, p)) % MAX_PROCESSES == p
  {
    var a := after % MAX_PROCESSES;
    assert after == after / MAX_PROCESSES * MAX_PROCESSES + a;
  }

  // A search that ends at idle, or nowhere, has seen no other Ready process.
  lemma NextIdle(procs: Procs, after: nat, p: nat)
    requires NextReady(procs, after) in {None, Some(IDLE)} && p < MAX_PROCESSES && p != IDLE
    ensures !Is(procs, p, Ready)
  {
    SearchFinds(procs, after, 0);
    Reached(after, p);
    SearchMisses(procs, after, 0, Distance(after, p));
  }

  lemma DispatchIdle(s: State, p: nat)
    requires Dispatch(s).current == Some(IDLE) && p < MAX_PROCESSES && p != IDLE
    ensures !Is(Dispatch(s).procs, p, Ready)
  {
    hide NextReady;
    NextIdle(s.procs, if s.current.Some? then s.current.value else 0, p);
  }

  // The operation chooses a process to run.
  predicate Dispatches(s: State, op: Op) {
    match op
    case Tick(_, _) =>
      s.ticks + 1 >= QUANTUM || (s.current.Some? && s.current.value < MAX_PROCESSES && s.procs[s.current.value].None?)
    case ForceSwitch(_) => true
    case KillCurrent(_) => true
    case First => s.current.None?
    case _ => false
  }

  // Whatever chooses, idle is chosen only when nobody else is Ready.
  lemma IdleOnlyAlone(s: State, op: Op, p: nat)
    requires Possible(s, op) && Dispatches(s, op) && p < MAX_PROCESSES && p != IDLE
    requires Step(s, op).current == Some(IDLE)
    ensures !Is(Step(s, op).procs, p, Ready)
  {
    hide Dispatch, NextReady, WakeSleepers, DeliverSignal, Reparent;
    match op
    case Tick(now, frame) =>
      TickIdle(s, now, frame, p);
    case ForceSwitch(frame) =>
      DispatchIdle(s.(procs := Leave(s.procs, s.current)), p);
    case KillCurrent(init) =>
      if s.current.Some? && s.current.value < MAX_PROCESSES {
        var s1 := Reparent(s, s.current.value, init);
        DispatchIdle(s1.(procs := WithState(s1.procs, s.current.value, Zombie)), p);
      } else {
        DispatchIdle(s, p);
      }
    case First =>
      NextBound(s.procs, 0);
      NextIdle(s.procs, 0, p);
  }

  lemma TickIdle(s: State, now: nat, frame: Frame, p: nat)
    requires Dispatches(s, Tick(now, frame)) && OnTick(s, now, frame).current == Some(IDLE) && p < MAX_PROCESSES
    requires p != IDLE
    ensures !Is(OnTick(s, now, frame).procs, p, Ready)
  {
    hide Dispatch, NextReady, DeliverSignal;
    var s1 := s.(ticks := s.ticks + 1, procs := WakeSleepers(s.procs, now));
    if s1.ticks >= QUANTUM {
      DispatchIdle(s1.(ticks := 0, procs := Leave(s1.procs, s1.current)), p);
    } else {
      NextBound(s1.procs, 0);
      NextIdle(s1.procs, 0, p);
    }
  }

  // A Ready process that is passed over is strictly nearer to the new current one.
  lemma ChoiceNearer(procs: Procs, current: nat, p: nat)
    requires current < MAX_PROCESSES && p < MAX_PROCESSES && p != IDLE && Is(procs, p, Ready)
    ensures var q := Choice(procs, Some(current));
      q != p ==> Distance(q, p) < Distance(current, p)
  {
    SearchNearest(procs, current, 0, p);
    var q := Choice(procs, Some(current));
    if q != p {
      Nearer(current, q, p);
    }
  }

  lemma Nearer(current: nat, q: nat, p: nat)
    requires current < MAX_PROCESSES && q < MAX_PROCESSES && p < MAX_PROCESSES && q != p
    requires Distance(current, q) <= Distance(current, p)
    ensures Distance(q, p) < Distance(current, p)
  {
    hide Distance;
    DistanceIs(current, q);
    DistanceIs(current, p);
    DistanceIs(q, p);
  }

  lemma DistanceIs(after: nat, q: nat)
    requires after < MAX_PROCESSES && q < MAX_PROCESSES
    ensures Distance(after, q) == if after < q then q - after - 1 else q + MAX_PROCESSES - 1 - after
    ensures (after + 1 + Distance(after, q)) % MAX_PROCESSES == q
  {
  }

  lemma DistanceAt(after: nat, i: nat)
    requires after < MAX_PROCESSES && i < MAX_PROCESSES
    ensures Distance(after, (after + 1 + i) % MAX_PROCESSES) == i
  {
  }

  // ---------- bounded waiting ----------

  // The process an operation's switch chooses.
  function Picked(s: State, op: Op): Option<nat> {
    match op
    case Tick(now, _) =>
      if s.ticks + 1 >= QUANTUM then Some(Choice(Leave(WakeSleepers(s.procs, now), s.current), s.current)) else None
    case ForceSwitch(_) => Some(Choice(Leave(s.procs, s.current), s.current))
    case KillCurrent(init) =>
      if s.current.Some? && s.current.value < MAX_PROCESSES && init < MAX_PROCESSES
      then Some(Choice(WithState(Reparent(s, s.current.value, init).procs, s.current.value, Zombie), s.current))
      else None
    case _ => None
  }

  // p waits: Ready, not idle, not current, and the current slot is occupied.
  predicate Waits(s: State, p: nat) {
    && p != IDLE && Is(s.procs, p, Ready)
    && s.current.Some? && s.current.value < MAX_PROCESSES && s.current.value != p && s.procs[s.current.value].Some?
    && s.ticks < QUANTUM
  }

  // Ticks left until p must be dispatched.
  function Patience(s: State, p: nat): int
    requires Waits(s, p)
  {
    QUANTUM * (Distance(s.current.value, p) + 1) - s.ticks
  }

  lemma PatienceBounds(s: State, p: nat)
    requires Waits(s, p)
    ensures 1 <= Patience(s, p) <= QUANTUM * (MAX_PROCESSES - 1)
  {
  }

  function Cost(op: Op): nat {
    if op.Tick? then 1 else 0
  }

  lemma SwitchPatience(s: State, procs: Procs, p: nat, q: nat)
    requires Waits(s, p) && Is(procs, p, Ready) && q == Choice(procs, s.current) && q != p
    ensures Distance(q, p) < Distance(s.current.value, p)
  {
    ChoiceNearer(procs, s.current.value, p);
  }

  lemma QuietStep(s: State, op: Op)
    requires Possible(s, op) && !op.Tick? && !op.ForceSwitch? && !op.KillCurrent?
    ensures s.current.Some? ==> Step(s, op).current == s.current && Step(s, op).ticks == s.ticks
  {
    hide FreeSlot, NextReady;
  }

  lemma StepDistance(s: State, op: Op, p: nat)
    requires Possible(s, op) && Waits(s, p) && Picked(s, op) != Some(p) && Waits(Step(s, op), p)
    ensures Distance(Step(s, op).current.value, p)
         <= Distance(s.current.value, p) - if Picked(s, op).Some? then 1 else 0
  {
    hide OnTick, Force, Kill, Distance, Choice, WakeSleepers, Reparent;
    match op
    case Tick(now, frame) => TickDistance(s, now, frame, p);
    case ForceSwitch(frame) => ForceDistance(s, frame, p);
    case KillCurrent(init) => KillDistance(s, init, p);
    case _ => QuietStep(s, op);
  }

  lemma TickDistance(s: State, now: nat, frame: Frame, p: nat)
    requires Waits(s, p) && Picked(s, Tick(now, frame)) != Some(p) && Waits(OnTick(s, now, frame), p)
    ensures Distance(OnTick(s, now, frame).current.value, p)
         <= Distance(s.current.value, p) - if Picked(s, Tick(now, frame)).Some? then 1 else 0
  {
    hide Choice, Distance, DeliverSignal;
    var procs := WakeSleepers(s.procs, now);
    if s.ticks + 1 >= QUANTUM {
      var left := Leave(procs, s.current);
      SwitchPatience(s, left, p, Choice(left, s.current));
    }
  }

  lemma ForceDistance(s: State, frame: Frame, p: nat)
    requires Waits(s, p) && Picked(s, ForceSwitch(frame)) != Some(p) && Waits(Force(s, frame), p)
    ensures Distance(Force(s, frame).current.value, p) <= Distance(s.current.value, p) - 1
  {
    hide Choice, Distance, DeliverSignal;
    var left := Leave(s.procs, s.current);
    SwitchPatience(s, left, p, Choice(left, s.current));
  }

  lemma KillDistance(s: State, init: nat, p: nat)
    requires init < MAX_PROCESSES
    requires Waits(s, p) && Picked(s, KillCurrent(init)) != Some(p) && Waits(Kill(s, init), p)
    ensures Distance(Kill(s, init).current.value, p) <= Distance(s.current.value, p) - 1
  {
    hide Choice, Distance;
    var left := WithState(Reparent(s, s.current.value, init).procs, s.current.value, Zombie);
    SwitchPatience(s, left, p, Choice(left, s.current));
  }

  // One step: p is chosen, or has that much less to wait.
  lemma StepPatience(s: State, op: Op, p: nat)
    requires Possible(s, op) && Waits(s, p) && Picked(s, op) != Some(p) && Waits(Step(s, op), p)
    ensures Patience(Step(s, op), p) <= Patience(s, p) - Cost(op)
  {
    hide OnTick, Force, Kill, Distance;
    StepDistance(s, op, p);
    match op
    case Tick(now, frame) => TickTicks(s, now, frame);
    case ForceSwitch(frame) => ForceTicks(s, frame);
    case KillCurrent(init) => KillTicks(s, init);
    case _ => QuietStep(s, op);
  }

  lemma TickTicks(s: State, now: nat, frame: Frame)
    ensures OnTick(s, now, frame).ticks == if s.ticks + 1 >= QUANTUM then 0 else s.ticks + 1
  {
    hide WakeSleepers, DeliverSignal;
  }

  lemma ForceTicks(s: State, frame: Frame)
    ensures Force(s, frame).ticks == s.ticks
  {
    hide DeliverSignal;
  }

  lemma KillTicks(s: State, init: nat)
    requires init < MAX_PROCESSES
    ensures Kill(s, init).ticks == s.ticks
  {
  }

  // ---------- whole runs ----------

  ghost predicate IsRun(ss: seq<State>, ops: seq<Op>) {
    && |ss| == |ops| + 1
    && forall i :: 0 <= i < |ops| ==> Possible(ss[i], ops[i]) && ss[i + 1] == Step(ss[i], ops[i])
  }

  // Over every run at most one process is Running, and it is the current one.
  lemma {:induction false} RunOneRunning(ss: seq<State>, ops: seq<Op>, i: nat)
    requires IsRun(ss, ops) && OneRunning(ss[0]) && i < |ss|
    ensures OneRunning(ss[i])
  {
    hide OneRunning, Step;
    if i > 0 {
      RunOneRunning(ss, ops, i - 1);
      StepOneRunning(ss[i - 1], ops[i - 1]);
    }
  }

  function Ticks(ops: seq<Op>): nat {
    if ops == [] then 0 else Ticks(ops[..|ops| - 1]) + Cost(ops[|ops| - 1])
  }

  function Switches(ss: seq<State>, ops: seq<Op>): nat
    requires |ops| <= |ss|
    decreases |ops|
  {
    if ops == [] then 0
    else Switches(ss, ops[..|ops| - 1]) + if Picked(ss[|ops| - 1], ops[|ops| - 1]).Some? then 1 else 0
  }

  // p stays Ready and is never chosen.
  ghost predicate Starved(ss: seq<State>, ops: seq<Op>, p: nat) {
    && IsRun(ss, ops)
    && (forall i :: 0 <= i < |ss| ==> Waits(ss[i], p))
    && forall i :: 0 <= i < |ops| ==> Picked(ss[i], ops[i]) != Some(p)
  }

  lemma StarvedPrefix(ss: seq<State>, ops: seq<Op>, p: nat)
    requires Starved(ss, ops, p) && ops != []
    ensures Starved(ss[..|ss| - 1], ops[..|ops| - 1], p)
  {
    hide Waits, Picked, Step;
  }

  lemma {:induction false} RunPatience(ss: seq<State>, ops: seq<Op>, p: nat)
    requires Starved(ss, ops, p)
    ensures Waits(ss[0], p) && Waits(ss[|ops|], p)
    ensures Patience(ss[|ops|], p) <= Patience(ss[0], p) - Ticks(ops)
    decreases |ops|
  {
    hide Waits, Picked, Step, Patience;
    if ops != [] {
      StarvedPrefix(ss, ops, p);
      RunPatience(ss[..|ss| - 1], ops[..|ops| - 1], p);
      var n := |ops| - 1;
      assert ss[n + 1] == Step(ss[n], ops[n]);
      StepPatience(ss[n], ops[n], p);
    }
  }

  lemma {:induction false} RunDistance(ss: seq<State>, ops: seq<Op>, p: nat)
    requires Starved(ss, ops, p)
    ensures Waits(ss[0], p) && Waits(ss[|ops|], p)
    ensures Distance(ss[|ops|].current.value, p) <= Distance(ss[0].current.value, p) - Switches(ss, ops)
    decreases |ops|
  {
    hide Picked, Step, Distance;
    if ops != [] {
      StarvedPrefix(ss, ops, p);
      RunDistance(ss[..|ss| - 1], ops[..|ops| - 1], p);
      SwitchesPrefix(ss, ss[..|ss| - 1], ops[..|ops| - 1]);
      var n := |ops| - 1;
      assert ss[n + 1] == Step(ss[n], ops[n]);
      StepDistance(ss[n], ops[n], p);
    }
  }

  lemma {:induction false} SwitchesPrefix(ss: seq<State>, ss': seq<State>, ops: seq<Op>)
    requires |ops| <= |ss'| && ss' <= ss
    ensures Switches(ss, ops) == Switches(ss', ops)
    decreases |ops|
  {
    hide Picked;
    if ops != [] {
      SwitchesPrefix(ss, ss', ops[..|ops| - 1]);
    }
  }

  // Bounded waiting: a non-idle process that stays Ready is chosen within
  // MAX_PROCESSES - 1 switches, and within that many quanta of ticks.
  lemma BoundedWaiting(ss: seq<State>, ops: seq<Op>, p: nat)
    requires Starved(ss, ops, p)
    ensures Switches(ss, ops) < MAX_PROCESSES - 1
    ensures Ticks(ops) < QUANTUM * (MAX_PROCESSES - 1)
  {
    hide Picked, Step;
    RunPatience(ss, ops, p);
    RunDistance(ss, ops, p);
    PatienceBounds(ss[0], p);
    PatienceBounds(ss[|ops|], p);
  }

  // ---------- pending signals ----------

  lemma {:induction false} LowestIs(pending: set<nat>, i: nat)
    requires i <= 32
    ensures LowestFrom(pending, i).Some? ==>
              i < LowestFrom(pending, i).value <= 32 && LowestFrom(pending, i).value in pending
    ensures forall x :: i < x <= 32 && x in pending ==>
              LowestFrom(pending, i).Some? && LowestFrom(pending, i).value <= x
    decreases 32 - i
  {
    if i < 32 {
      LowestIs(pending, i + 1);
    }
  }

  // After sys_kill the signal is the next to be acted on, unless it is blocked or a lower one waits.
  lemma RaisedNext(s: State, target: nat, signum: nat)
    requires 1 <= signum <= 31 && target < MAX_PROCESSES && s.procs[target].Some? && !Is(s.procs, target, Zombie)
    ensures var p, p' := s.procs[target].value, Raise(s, target, signum).procs[target].value;
      PendingSignal(p') == if signum in p.blocked || (PendingSignal(p).Some? && PendingSignal(p).value < signum)
                           then PendingSignal(p) else Some(signum)
  {
    var p, p' := s.procs[target].value, Raise(s, target, signum).procs[target].value;
    var a, b := p.pending - p.blocked, p'.pending - p'.blocked;
    assert b == if signum in p.blocked then a else a + {signum};
    LowestIs(a, 0);
    LowestIs(b, 0);
  }
}
