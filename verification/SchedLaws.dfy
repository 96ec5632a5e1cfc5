/**
 * What a step does to one process, told from the outside: by what a blocked
 * process is woken, and by what a process dies and with which exit code.  Both
 * are given for every step as an if-and-only-if over the state before it.
 */
module SchedLaws {
  import opened Wrappers
  import opened SchedState
  import opened SchedRun

  // ---------- causes ----------

  // The process in slot i sits Blocked with a reason to be woken.
  ghost predicate Waiting(s: State, i: nat) {
    0 < i < MAX_PROCESSES && s.procs[i].Some? && s.procs[i].value.state == Blocked && s.procs[i].value.wake != Awake
  }

  ghost function Reason(s: State, i: nat): Wake
    requires Waiting(s, i)
  {
    s.procs[i].value.wake
  }

  // A pipe with bytes to read, or with nobody left to write any.
  ghost predicate GivesBytes(pipes: seq<Option<Pipe>>, k: nat) {
    exists p :: k < |pipes| && pipes[k] == Some(p) && (p.nread < p.nwrite || p.writeOpen == false)
  }

  // A pipe with less than 512 bytes in it, as the 32-bit counters tell.
  ghost predicate TakesBytes(pipes: seq<Option<Pipe>>, k: nat) {
    exists p :: k < |pipes| && pipes[k] == Some(p) && p.nwrite < (p.nread + 512) % 0x1_0000_0000
  }

  ghost predicate LostReader(pipes: seq<Option<Pipe>>, k: nat) {
    exists p :: k < |pipes| && pipes[k] == Some(p) && p.readOpen == false
  }

  // A signal is about to act on q by default, and i is the parent that waits for q.
  ghost predicate Reports(s: State, q: Option<nat>, i: nat)
    requires Waiting(s, i)
  {
    && q.Some? && 0 < q.value < MAX_PROCESSES && s.procs[q.value].Some?
    && var p := s.procs[q.value].value;
       && p.isUser && PendingSignal(p).Some? && Handler(p, PendingSignal(p).value) == 0
       && p.parent == Some(i) && p.parentGeneration == s.procs[i].value.generation
       && Reason(s, i) == WaitForChild(q.value)
  }

  // A member of the foreground group that does not block the signal.
  ghost predicate Struck(s: State, signal: nat, i: nat)
    requires i < MAX_PROCESSES
  {
    && 0 < i && Foreground(s.procs).Some? && s.procs[i].Some?
    && var p := s.procs[i].value;
       p.isUser && Some(p.pgid) == Foreground(s.procs) && p.state != Zombie && signal !in p.blocked
  }

  // One of the processes that the signal kills is the one waited for; 0 waits for any.
  ghost predicate ChildKilled(s: State, signal: nat, c: nat) {
    signal in {2, 3} && exists j: nat :: j < MAX_PROCESSES && Struck(s, signal, j) && (c == 0 || c == j)
  }

  // By whom a waiting process is woken.
  ghost predicate Roused(s: State, op: Op, i: nat)
    requires Waiting(s, i) && Possible(s, op)
  {
    var w := Reason(s, i);
    match op
    case Tick(now, _) => (w.Sleep? && w.deadline <= now) || (s.ticks >= 4 && Reports(s, Step(s, op).current, i))
    case ForceSwitch(_) => Reports(s, Step(s, op).current, i)
    case BlockCurrent(wake) => s.current == Some(i) && wake != w
    case WakeKeyboard(pipes) =>
      || w.Keyboard?
      || (w.PipeRead? && GivesBytes(pipes, w.pipe))
      || (w.PipeWrite? && (TakesBytes(pipes, w.pipe) || LostReader(pipes, w.pipe)))
      || (w.WaitForChild? && w.child < MAX_PROCESSES && s.procs[w.child].Some? &&
          s.procs[w.child].value.state == Zombie)
    case WakeChild(zombie) => w.WaitForChild? && w.child in {0, zombie}
    case SignalFg(signal, pipes) =>
      || (signal == 20 && Struck(s, signal, i))
      || (w.WaitForChild? && ChildKilled(s, signal, w.child))
      || (!(signal in {2, 3} && Struck(s, signal, i)) &&
          (w.Keyboard? || (w.PipeRead? && GivesBytes(pipes, w.pipe)) || (w.PipeWrite? && TakesBytes(pipes, w.pipe))))
    case _ => false
  }

  // ---------- waking ----------

  // Whether slot i still has its reason.
  ghost predicate Keeps(s': State, i: nat, w: Wake) {
    i < MAX_PROCESSES && s'.procs[i].Some? && s'.procs[i].value.wake == w
  }

  lemma SwitchSpares(s: State, i: nat)
    requires Waiting(s, i) && (s.current.Some? ==> s.current.value < MAX_PROCESSES)
    ensures SwitchNext(s).procs[i] == s.procs[i] && SwitchNext(s).current != Some(i)
  {
    SearchFinds(Leave(s.procs, s.current), if s.current.Some? then s.current.value else 0, 0);
  }

  // Switching changes at most the state of a process.
  lemma SwitchState(s: State, q: nat)
    requires q < MAX_PROCESSES && s.procs[q].Some?
    ensures SwitchNext(s).procs[q].Some?
    ensures SwitchNext(s).procs[q].value == s.procs[q].value.(state := SwitchNext(s).procs[q].value.state)
  {
  }

  lemma DeliverReports(s: State, t: State, frame: Frame, i: nat)
    requires Waiting(s, i) && t.procs[i] == s.procs[i] && t.current.Some? && t.current.value < MAX_PROCESSES
    requires t.current != Some(i)
    requires forall q :: 0 <= q < MAX_PROCESSES ==> t.procs[q].Some? == s.procs[q].Some?
    requires var q := t.current.value; s.procs[q].Some? ==>
               t.procs[q].value == s.procs[q].value.(state := t.procs[q].value.state, wake := t.procs[q].value.wake)
    ensures Keeps(DeliverToCurrent(t, frame), i, Reason(s, i)) <==> !Reports(s, t.current, i)
    ensures DeliverToCurrent(t, frame).current == t.current
  {
    hide PendingSignal, Handler;
    var q := t.current.value;
    if s.procs[q].Some? {
      SamePending(s.procs[q].value, t.procs[q].value);
    }
  }

  lemma SamePending(p: Process, q: Process)
    requires q == p.(state := q.state, wake := q.wake)
    ensures PendingSignal(q) == PendingSignal(p) && forall n :: Handler(q, n) == Handler(p, n)
  {
  }

  lemma ForceRouses(s: State, frame: Frame, i: nat)
    requires Waiting(s, i) && (s.current.Some? ==> s.current.value < MAX_PROCESSES)
    ensures Keeps(Force(s, frame), i, Reason(s, i)) <==> !Reports(s, Force(s, frame).current, i)
  {
    hide DeliverToCurrent, Reports, SwitchNext;
    SwitchSpares(s, i);
    SwitchCurrent(s);
    var t := SwitchNext(s);
    forall q | 0 <= q < MAX_PROCESSES
      ensures t.procs[q].Some? == s.procs[q].Some?
    {
      SwitchSome(s, q);
    }
    if s.procs[t.current.value].Some? {
      SwitchState(s, t.current.value);
    }
    DeliverReports(s, t, frame, i);
  }

  lemma SwitchCurrent(s: State)
    ensures SwitchNext(s).current.Some? && SwitchNext(s).current.value < MAX_PROCESSES
  {
  }

  lemma SwitchSome(s: State, q: nat)
    requires q < MAX_PROCESSES
    ensures SwitchNext(s).procs[q].Some? == s.procs[q].Some?
  {
  }

  // ---------- the tick ----------

  // After the sleepers were looked at.
  ghost function Looked(s: State, now: nat): State {
    s.(ticks := s.ticks + 1, procs := WakeSleepers(s.procs, now))
  }

  // A sleeper is left alone exactly before its deadline; otherwise it is awake and Ready.
  lemma SleeperWakes(s: State, now: nat, i: nat)
    requires Waiting(s, i)
    ensures Looked(s, now).procs[i]
         == if Reason(s, i).Sleep? && Reason(s, i).deadline <= now
            then Some(s.procs[i].value.(state := Ready, wake := Awake)) else s.procs[i]
  {
  }

  lemma TickIs(s: State, now: nat, frame: Frame)
    ensures var t := Looked(s, now);
      OnTick(s, now, frame) == if s.ticks >= 4 then Force(t.(ticks := 0), frame) else Recover(t)
  {
    hide WakeSleepers;
  }

  lemma TickRouses(s: State, now: nat, frame: Frame, i: nat)
    requires Waiting(s, i) && (s.current.Some? ==> s.current.value < MAX_PROCESSES)
    ensures Keeps(OnTick(s, now, frame), i, Reason(s, i)) <==> !Roused(s, Tick(now, frame), i)
  {
    hide Force, Recover, Looked, Reports, OnTick;
    TickIs(s, now, frame);
    SleeperWakes(s, now, i);
    var t := Looked(s, now);
    LookedRest(s, now);
    if t.procs[i] == s.procs[i] {
      if s.ticks >= 4 {
        ForceRouses(t.(ticks := 0), frame, i);
        SameReports(s, t, OnTick(s, now, frame).current, i);
      } else {
        RecoverSpares(t, i);
      }
    } else {
      AwakeStays(t, frame, i);
    }
  }

  lemma LookedRest(s: State, now: nat)
    ensures Looked(s, now).current == s.current && Looked(s, now).ticks == s.ticks + 1
    ensures forall q :: 0 <= q < MAX_PROCESSES ==> Looked(s, now).procs[q].Some? == s.procs[q].Some?
    ensures forall q :: 0 <= q < MAX_PROCESSES && s.procs[q].Some? ==>
              var p, p' := s.procs[q].value, Looked(s, now).procs[q].value; p' == p.(state := p'.state, wake := p'.wake)
  {
  }

  lemma SameReports(s: State, t: State, q: Option<nat>, i: nat)
    requires Waiting(s, i) && t.procs[i] == s.procs[i]
    requires forall q :: 0 <= q < MAX_PROCESSES ==> t.procs[q].Some? == s.procs[q].Some?
    requires forall q :: 0 <= q < MAX_PROCESSES && s.procs[q].Some? ==>
               var p, p' := s.procs[q].value, t.procs[q].value; p' == p.(state := p'.state, wake := p'.wake)
    ensures Reports(t.(ticks := 0), q, i) == Reports(s, q, i)
  {
    hide PendingSignal, Handler;
    if q.Some? && q.value < MAX_PROCESSES && s.procs[q.value].Some? {
      SamePending(s.procs[q.value].value, t.procs[q.value].value);
    }
  }

  lemma RecoverSpares(s: State, i: nat)
    requires Waiting(s, i)
    ensures Recover(s).procs[i] == s.procs[i]
  {
    SearchFinds(s.procs, 0, 0);
  }

  // Nothing in a switch gives an awake process a reason to wait.
  lemma AwakeStays(t: State, frame: Frame, i: nat)
    requires i < MAX_PROCESSES && t.procs[i].Some? && t.procs[i].value.wake == Awake
    ensures Keeps(Force(t.(ticks := 0), frame), i, Awake) && Keeps(Recover(t), i, Awake)
  {
    hide SwitchNext, DeliverToCurrent, NextReady;
    SwitchState(t.(ticks := 0), i);
    DeliverAwake(SwitchNext(t.(ticks := 0)), frame, i);
  }

  lemma DeliverAwake(t: State, frame: Frame, i: nat)
    requires i < MAX_PROCESSES && t.procs[i].Some? && t.procs[i].value.wake == Awake
    ensures Keeps(DeliverToCurrent(t, frame), i, Awake)
  {
    hide PendingSignal, Handler;
  }

  // ---------- the other steps ----------

  lemma KeyboardRouses(s: State, pipes: seq<Option<Pipe>>, i: nat)
    requires Waiting(s, i)
    ensures Keeps(KeyboardWake(s, pipes), i, Reason(s, i)) <==> !Roused(s, WakeKeyboard(pipes), i)
  {
  }

  lemma ChildRouses(s: State, zombie: nat, i: nat)
    requires Waiting(s, i)
    ensures Keeps(WakeWaitForChild(s, zombie), i, Reason(s, i)) <==> !Roused(s, WakeChild(zombie), i)
  {
  }

  lemma StruckIsHit(s: State, signal: nat, i: nat)
    requires i < MAX_PROCESSES
    ensures Struck(s, signal, i) <==> Foreground(s.procs).Some? && Hit(s.procs, Foreground(s.procs).value, signal, i)
  {
    hide Foreground;
  }

  lemma KilledOnes(s: State, signal: nat, c: nat)
    requires Foreground(s.procs).Some?
    ensures var killed := KilledSet(s.procs, Foreground(s.procs).value, signal);
      ChildKilled(s, signal, c) <==> killed != {} && (c == 0 || c in killed)
  {
    hide Foreground;
    var killed := KilledSet(s.procs, Foreground(s.procs).value, signal);
    if ChildKilled(s, signal, c) {
      var j: nat :| j < MAX_PROCESSES && Struck(s, signal, j) && (c == 0 || c == j);
      StruckIsHit(s, signal, j);
      assert j in killed;
    }
    if killed != {} && (c == 0 || c in killed) {
      var j :| j in killed && (c == 0 || c == j);
      StruckIsHit(s, signal, j);
    }
  }

  lemma SignalRouses(s: State, signal: nat, pipes: seq<Option<Pipe>>, i: nat)
    requires Waiting(s, i)
    ensures Keeps(SignalForeground(s, signal, pipes), i, Reason(s, i)) <==> !Roused(s, SignalFg(signal, pipes), i)
  {
    hide Foreground, KilledSet, ChildKilled, Struck;
    var w := Reason(s, i);
    if Foreground(s.procs).Some? {
      StruckIsHit(s, signal, i);
      if w.WaitForChild? {
        KilledOnes(s, signal, w.child);
      }
    } else {
      NobodyStruck(s, signal, i, if w.WaitForChild? then w.child else 0);
    }
  }

  lemma NobodyStruck(s: State, signal: nat, i: nat, c: nat)
    requires i < MAX_PROCESSES && Foreground(s.procs).None?
    ensures !Struck(s, signal, i) && !ChildKilled(s, signal, c)
  {
    hide Foreground;
  }

  // A waiting process loses its reason exactly if it is roused.
  lemma WokenIff(s: State, op: Op, i: nat)
    requires Waiting(s, i) && Possible(s, op) && (s.current.Some? ==> s.current.value < MAX_PROCESSES)
    ensures Keeps(Step(s, op), i, Reason(s, i)) <==> !Roused(s, op, i)
  {
    match op
    case Tick(now, frame) => TickRouses(s, now, frame, i);
    case ForceSwitch(frame) => ForceRouses(s, frame, i);
    case WakeKeyboard(pipes) => KeyboardRouses(s, pipes, i);
    case WakeChild(zombie) => ChildRouses(s, zombie, i);
    case SignalFg(signal, pipes) => SignalRouses(s, signal, pipes, i);
    case KillCurrent(init) => KillSpares(s, init, i);
    case First => FirstSpares(s, i);
    case _ => PlainSpares(s, op, i);
  }

  lemma KillSpares(s: State, init: nat, i: nat)
    requires Waiting(s, i) && init < MAX_PROCESSES && (s.current.Some? ==> s.current.value < MAX_PROCESSES)
    ensures Keeps(Kill(s, init), i, Reason(s, i))
  {
    hide Choice;
  }

  lemma FirstSpares(s: State, i: nat)
    requires Waiting(s, i)
    ensures Keeps(DispatchFirst(s), i, Reason(s, i))
  {
    hide NextReady;
  }

  lemma PlainSpares(s: State, op: Op, i: nat)
    requires Waiting(s, i) && Possible(s, op)
    requires op.ExitCurrent? || op.BlockCurrent? || op.NewUser? || op.NewKernel? || op.ForkCurrent? || op.ReapSlot?
             || op.SendSignal? || op.SignalAction? || op.JoinGroup?
    ensures Keeps(Step(s, op), i, Reason(s, i)) <==> !Roused(s, op, i)
  {
    hide FreeSlot;
    FreeSlotAt(s.procs);
  }

  // ---------- what becomes of a roused process ----------

  // A signal is about to act on the process.
  ghost predicate Signalled(p: Process) {
    p.isUser && PendingSignal(p).Some?
  }

  // Awake, and Ready or, if the step chose it, Running.
  ghost predicate Resumes(s: State, s': State, i: nat)
    requires i < MAX_PROCESSES && s.procs[i].Some?
  {
    && s'.procs[i].Some?
    && s'.procs[i].value == s.procs[i].value.(state := s'.procs[i].value.state, wake := Awake)
    && s'.procs[i].value.state in {Ready, Running}
    && (s'.procs[i].value.state == Running ==> s'.current == Some(i))
    && (s'.current == Some(i) && s.current != Some(i) ==> s'.procs[i].value.state == Running)
  }

  lemma SwitchResumes(t: State, i: nat)
    requires 0 < i < MAX_PROCESSES && t.procs[i].Some? && t.procs[i].value.state == Ready
    ensures var t' := SwitchNext(t);
      t'.procs[i] == Some(t.procs[i].value.(state := if t'.current == Some(i) then Running else Ready))
  {
    SearchFinds(Leave(t.procs, t.current), if t.current.Some? then t.current.value else 0, 0);
  }

  lemma DeliverSpares(t: State, frame: Frame, i: nat)
    requires 0 < i < MAX_PROCESSES && t.procs[i].Some? && t.procs[i].value.wake == Awake
    requires t.current == Some(i) ==> !Signalled(t.procs[i].value)
    ensures DeliverToCurrent(t, frame).procs[i] == t.procs[i] && DeliverToCurrent(t, frame).current == t.current
  {
    hide PendingSignal, Handler;
  }

  lemma RecoverResumes(t: State, i: nat)
    requires 0 < i < MAX_PROCESSES && t.procs[i].Some? && t.procs[i].value.state == Ready
    ensures var t' := Recover(t);
      && (t.current == Some(i) ==> t' == t)
      && (t.current != Some(i) ==>
            t'.procs[i] == Some(t.procs[i].value.(state := if t'.current == Some(i) then Running else Ready)))
  {
    SearchFinds(t.procs, 0, 0);
  }

  // The sleeper after the tick, from its deadline on.
  lemma SleeperResumes(s: State, now: nat, frame: Frame, i: nat)
    requires Waiting(s, i) && Reason(s, i).Sleep? && Reason(s, i).deadline <= now
    requires !Signalled(s.procs[i].value)
    ensures Resumes(s, OnTick(s, now, frame), i)
  {
    hide Force, Recover, Looked, OnTick, SwitchNext, DeliverToCurrent, PendingSignal;
    TickIs(s, now, frame);
    SleeperWakes(s, now, i);
    LookedRest(s, now);
    var t := Looked(s, now);
    SamePending(s.procs[i].value, t.procs[i].value);
    if s.ticks >= 4 {
      ForceIs(t.(ticks := 0), frame);
      SwitchResumes(t.(ticks := 0), i);
      SwitchState(t.(ticks := 0), i);
      var t' := SwitchNext(t.(ticks := 0));
      SamePending(t.procs[i].value, t'.procs[i].value);
      DeliverSpares(t', frame, i);
    } else {
      RecoverResumes(t, i);
    }
  }

  lemma DeliverPasses(t: State, frame: Frame, i: nat)
    requires i < MAX_PROCESSES && t.current != Some(i) && t.procs[i].Some? && t.procs[i].value.wake.Sleep?
    ensures DeliverToCurrent(t, frame).procs[i] == t.procs[i]
  {
    hide PendingSignal, Handler;
  }

  // A tick leaves a sleeper exactly as it is if and only if its deadline has not come.
  lemma SleeperIff(s: State, now: nat, frame: Frame, i: nat)
    requires Waiting(s, i) && Reason(s, i).Sleep? && (s.current.Some? ==> s.current.value < MAX_PROCESSES)
    ensures OnTick(s, now, frame).procs[i] == s.procs[i] <==> now < Reason(s, i).deadline
  {
    hide Force, Recover, Looked, OnTick, SwitchNext, DeliverToCurrent, Reports;
    if now < Reason(s, i).deadline {
      TickIs(s, now, frame);
      SleeperWakes(s, now, i);
      LookedRest(s, now);
      var t := Looked(s, now);
      if s.ticks >= 4 {
        ForceIs(t.(ticks := 0), frame);
        SwitchSpares(t.(ticks := 0), i);
        DeliverPasses(SwitchNext(t.(ticks := 0)), frame, i);
      } else {
        RecoverSpares(t, i);
      }
    } else {
      TickRouses(s, now, frame, i);
    }
  }

  lemma ForceIs(t: State, frame: Frame)
    ensures Force(t, frame) == DeliverToCurrent(SwitchNext(t), frame)
  {
    hide SwitchNext, DeliverToCurrent;
  }

  // A process that is roused becomes Ready, or Running if the step chose it.
  lemma WokenResumes(s: State, op: Op, i: nat)
    requires Waiting(s, i) && Possible(s, op) && (s.current.Some? ==> s.current.value < MAX_PROCESSES)
    requires Roused(s, op, i) && !op.BlockCurrent? && !Signalled(s.procs[i].value)
    requires op.SignalFg? ==> !Struck(s, op.signal, i)
    ensures Resumes(s, Step(s, op), i)
  {
    hide OnTick, Force, Struck, ChildKilled, Reports, PendingSignal;
    match op
    case Tick(now, frame) =>
      if Reason(s, i).Sleep? && Reason(s, i).deadline <= now {
        SleeperResumes(s, now, frame, i);
      } else {
        TickReports(s, now, frame, i);
      }
    case ForceSwitch(frame) => ForceReports(s, frame, i);
    case WakeKeyboard(pipes) => KeyboardResumes(s, pipes, i);
    case WakeChild(zombie) => ChildResumes(s, zombie, i);
    case SignalFg(signal, pipes) => SignalResumes(s, signal, pipes, i);
    case _ =>
  }

  lemma KeyboardResumes(s: State, pipes: seq<Option<Pipe>>, i: nat)
    requires Waiting(s, i) && Roused(s, WakeKeyboard(pipes), i)
    ensures Resumes(s, KeyboardWake(s, pipes), i)
  {
  }

  lemma ChildResumes(s: State, zombie: nat, i: nat)
    requires Waiting(s, i) && Roused(s, WakeChild(zombie), i)
    ensures Resumes(s, WakeWaitForChild(s, zombie), i)
  {
  }

  lemma SignalResumes(s: State, signal: nat, pipes: seq<Option<Pipe>>, i: nat)
    requires Waiting(s, i) && Roused(s, SignalFg(signal, pipes), i) && !Struck(s, signal, i)
    ensures Resumes(s, SignalForeground(s, signal, pipes), i)
  {
    hide Foreground, KilledSet, ChildKilled, Struck;
    var w := Reason(s, i);
    if Foreground(s.procs).Some? {
      StruckIsHit(s, signal, i);
      if w.WaitForChild? {
        KilledOnes(s, signal, w.child);
      }
    } else {
      NobodyStruck(s, signal, i, if w.WaitForChild? then w.child else 0);
    }
  }

  lemma DeliverResumes(s: State, t: State, frame: Frame, i: nat)
    requires Waiting(s, i) && t.procs[i] == s.procs[i] && t.current.Some? && t.current.value < MAX_PROCESSES
    requires t.current != Some(i) && Reports(s, t.current, i)
    requires s.procs[t.current.value].Some? && t.procs[t.current.value].Some?
    requires var p, p' := s.procs[t.current.value].value, t.procs[t.current.value].value;
      p' == p.(state := p'.state, wake := p'.wake)
    ensures Resumes(s, DeliverToCurrent(t, frame), i)
  {
    hide PendingSignal, Handler;
    SamePending(s.procs[t.current.value].value, t.procs[t.current.value].value);
  }

  lemma ForceReports(s: State, frame: Frame, i: nat)
    requires Waiting(s, i) && (s.current.Some? ==> s.current.value < MAX_PROCESSES)
    requires Reports(s, Force(s, frame).current, i)
    ensures Resumes(s, Force(s, frame), i)
  {
    hide DeliverToCurrent, SwitchNext, PendingSignal;
    SwitchSpares(s, i);
    SwitchCurrent(s);
    var t := SwitchNext(s);
    DeliverCurrent(t, frame);
    SwitchSome(s, t.current.value);
    SwitchState(s, t.current.value);
    DeliverResumes(s, t, frame, i);
  }

  lemma DeliverCurrent(t: State, frame: Frame)
    ensures DeliverToCurrent(t, frame).current == t.current
  {
    hide DeliverSignal;
  }

  lemma TickReports(s: State, now: nat, frame: Frame, i: nat)
    requires Waiting(s, i) && (s.current.Some? ==> s.current.value < MAX_PROCESSES)
    requires !(Reason(s, i).Sleep? && Reason(s, i).deadline <= now)
    requires s.ticks >= 4 && Reports(s, OnTick(s, now, frame).current, i)
    ensures Resumes(s, OnTick(s, now, frame), i)
  {
    hide Force, Recover, Looked, Reports, OnTick;
    TickIs(s, now, frame);
    SleeperWakes(s, now, i);
    LookedRest(s, now);
    var t := Looked(s, now);
    SameReports(s, t, OnTick(s, now, frame).current, i);
    ForceReports(t.(ticks := 0), frame, i);
  }

  // ---------- signals that act ----------

  // What delivery leaves of the process it acts on.
  lemma DeliveredTo(procs: Procs, i: nat, frame: Frame)
    requires i < MAX_PROCESSES && procs[i].Some? && Signalled(procs[i].value)
    requires procs[i].value.parent != Some(i)
    ensures var p, n := procs[i].value, PendingSignal(procs[i].value).value;
      var r := DeliverSignal(procs, i, frame)[i];
      && (Handler(p, n) == 0 && n in {18, 19} ==> r == Some(p.(pending := p.pending - {n})))
      && (Handler(p, n) == 0 && n == 20 ==> r == Some(p.(pending := p.pending - {20}, state := Blocked, wake := Awake)))
      && (Handler(p, n) == 0 && n !in {18, 19, 20} ==>
            r == Some(p.(pending := p.pending - {n}, state := Zombie, exitCode := n)))
      && (Handler(p, n) == 1 ==> r == Some(p.(pending := p.pending - {n})))
      && (Handler(p, n) > 1 && (frame == NoFrame || p.pml4 == 0) ==> r == Some(p))
      && (Handler(p, n) > 1 && frame == GoodStack && p.pml4 > 0 ==> r == Some(p.(pending := p.pending - {n})))
      && (Handler(p, n) > 1 && frame == BadStack && p.pml4 > 0 ==>
            r == Some(p.(pending := p.pending - {n}, state := Zombie, exitCode := 11)))
  {
    hide PendingSignal, Handler;
  }

  // ---------- dying ----------

  ghost predicate Alive(s: State, i: nat) {
    0 < i < MAX_PROCESSES && s.procs[i].Some? && s.procs[i].value.state != Zombie
  }

  // The exit code a signal delivered to p leaves, if it kills p.
  ghost function Verdict(p: Process, frame: Frame): Option<nat> {
    if !Signalled(p) then None
    else if Handler(p, PendingSignal(p).value) == 0 then
      (if PendingSignal(p).value in {18, 19, 20} then None else PendingSignal(p))
    else if Handler(p, PendingSignal(p).value) > 1 && frame == BadStack && p.pml4 > 0 then Some(11)
    else None
  }

  // The exit code with which the step ends the process in slot i, if it does.
  ghost function Sentence(s: State, op: Op, i: nat): Option<nat>
    requires Alive(s, i) && Possible(s, op)
  {
    var p := s.procs[i].value;
    match op
    case Tick(_, frame) => if s.ticks >= 4 && Step(s, op).current == Some(i) then Verdict(p, frame) else None
    case ForceSwitch(frame) => if Step(s, op).current == Some(i) then Verdict(p, frame) else None
    case KillCurrent(_) => if s.current == Some(i) then Some(p.exitCode) else None
    case ExitCurrent(code, _) => if s.current == Some(i) then Some((code % 0x100) * 0x100) else None
    case SignalFg(signal, _) =>
      if signal in {2, 3} && Struck(s, signal, i) && !(p.wake.WaitForChild? && ChildKilled(s, signal, p.wake.child))
      then Some(signal) else None
    case _ => None
  }

  // Whether the process has died, and with what.
  ghost predicate Ends(p: Process, r: Option<Process>, code: Option<nat>) {
    && r.Some? && (r.value.state == Zombie <==> code.Some?)
    && r.value.exitCode == if code.Some? then code.value else p.exitCode
  }

  lemma SameVerdict(p: Process, q: Process, frame: Frame)
    requires q == p.(state := q.state, wake := q.wake)
    ensures Verdict(q, frame) == Verdict(p, frame)
  {
    hide PendingSignal, Handler;
    SamePending(p, q);
  }

  lemma DeliverEnds(t: State, frame: Frame, i: nat)
    requires Alive(t, i) && t.procs[i].value.parent != Some(i)
    ensures var code := if t.current == Some(i) then Verdict(t.procs[i].value, frame) else None;
      Ends(t.procs[i].value, DeliverToCurrent(t, frame).procs[i], code)
  {
    hide PendingSignal, Handler;
  }

  lemma SwitchAlive(s: State, i: nat)
    requires Alive(s, i)
    ensures Alive(SwitchNext(s), i)
  {
  }

  lemma ForceEnds(s: State, frame: Frame, i: nat)
    requires Alive(s, i) && s.procs[i].value.parent != Some(i)
    ensures var code := if Force(s, frame).current == Some(i) then Verdict(s.procs[i].value, frame) else None;
      Ends(s.procs[i].value, Force(s, frame).procs[i], code)
  {
    hide SwitchNext, DeliverToCurrent, Verdict;
    SwitchState(s, i);
    SwitchAlive(s, i);
    var t := SwitchNext(s);
    DeliverCurrent(t, frame);
    SameVerdict(s.procs[i].value, t.procs[i].value, frame);
    DeliverEnds(t, frame, i);
  }

  lemma TickEnds(s: State, now: nat, frame: Frame, i: nat)
    requires Alive(s, i) && s.procs[i].value.parent != Some(i)
    ensures Ends(s.procs[i].value, OnTick(s, now, frame).procs[i], Sentence(s, Tick(now, frame), i))
  {
    hide Force, Recover, Looked, OnTick, Verdict;
    TickIs(s, now, frame);
    LookedRest(s, now);
    LookedAlive(s, now, i);
    var t := Looked(s, now);
    SameVerdict(s.procs[i].value, t.procs[i].value, frame);
    if s.ticks >= 4 {
      ForceEnds(t.(ticks := 0), frame, i);
    } else {
      RecoverAlive(t, i);
    }
  }

  lemma LookedAlive(s: State, now: nat, i: nat)
    requires Alive(s, i)
    ensures Alive(Looked(s, now), i)
  {
  }

  lemma RecoverAlive(t: State, i: nat)
    requires Alive(t, i)
    ensures Alive(Recover(t), i) && Recover(t).procs[i].value.exitCode == t.procs[i].value.exitCode
  {
    hide NextReady;
  }

  // Dispatching brings nobody back and ends nobody.
  lemma DispatchEnds(s: State, i: nat)
    requires 0 < i < MAX_PROCESSES && s.procs[i].Some?
    ensures var r := Dispatch(s).procs[i];
      && r.Some? && r.value.exitCode == s.procs[i].value.exitCode
      && (r.value.state == Zombie <==> s.procs[i].value.state == Zombie)
  {
    SearchFinds(s.procs, if s.current.Some? then s.current.value else 0, 0);
  }

  lemma KillEnds(s: State, init: nat, i: nat)
    requires Alive(s, i) && init < MAX_PROCESSES
    ensures Ends(s.procs[i].value, Kill(s, init).procs[i], Sentence(s, KillCurrent(init), i))
  {
    hide Dispatch;
    if s.current.Some? && s.current.value < MAX_PROCESSES {
      var s1 := Reparent(s, s.current.value, init);
      DispatchEnds(s1.(procs := WithState(s1.procs, s.current.value, Zombie)), i);
    } else {
      DispatchEnds(s, i);
    }
  }

  lemma SignalEnds(s: State, signal: nat, pipes: seq<Option<Pipe>>, i: nat)
    requires Alive(s, i)
    ensures var p, r := s.procs[i].value, SignalForeground(s, signal, pipes).procs[i];
      var code := Sentence(s, SignalFg(signal, pipes), i);
      && r.Some? && (r.value.state == Zombie <==> code.Some?)
      && r.value.exitCode == if signal in {2, 3} && Struck(s, signal, i) then signal else p.exitCode
  {
    hide Foreground, KilledSet, ChildKilled, Struck;
    var w := s.procs[i].value.wake;
    if Foreground(s.procs).Some? {
      StruckIsHit(s, signal, i);
      if w.WaitForChild? {
        KilledOnes(s, signal, w.child);
      }
    } else {
      NobodyStruck(s, signal, i, if w.WaitForChild? then w.child else 0);
    }
  }

  // A process dies in exactly these steps, and that is the exit code it leaves.
  lemma DiesIff(s: State, op: Op, i: nat)
    requires Alive(s, i) && Possible(s, op) && s.procs[i].value.parent != Some(i)
    ensures var r := Step(s, op).procs[i];
      && r.Some? && (r.value.state == Zombie <==> Sentence(s, op, i).Some?)
      && (r.value.state == Zombie ==> r.value.exitCode == Sentence(s, op, i).value)
  {
    hide OnTick, Force, Kill, SignalForeground, Verdict, Struck, ChildKilled;
    match op
    case Tick(now, frame) => TickEnds(s, now, frame, i);
    case ForceSwitch(frame) => ForceEnds(s, frame, i);
    case KillCurrent(init) => KillEnds(s, init, i);
    case SignalFg(signal, pipes) => SignalEnds(s, signal, pipes, i);
    case First => FirstAlive(s, i);
    case WakeKeyboard(pipes) => KeyboardAlive(s, pipes, i);
    case WakeChild(zombie) => ChildAlive(s, zombie, i);
    case _ => PlainEnds(s, op, i);
  }

  lemma FirstAlive(s: State, i: nat)
    requires Alive(s, i)
    ensures Alive(DispatchFirst(s), i)
  {
    hide NextReady;
  }

  lemma KeyboardAlive(s: State, pipes: seq<Option<Pipe>>, i: nat)
    requires Alive(s, i)
    ensures Alive(KeyboardWake(s, pipes), i)
  {
    hide KeyboardWakes;
  }

  lemma ChildAlive(s: State, zombie: nat, i: nat)
    requires Alive(s, i)
    ensures Alive(WakeWaitForChild(s, zombie), i)
  {
    hide ChildWakes;
  }

  lemma PlainEnds(s: State, op: Op, i: nat)
    requires Alive(s, i) && Possible(s, op)
    requires op.ExitCurrent? || op.BlockCurrent? || op.NewUser? || op.NewKernel? || op.ForkCurrent? || op.ReapSlot?
             || op.SendSignal? || op.SignalAction? || op.JoinGroup?
    ensures Ends(s.procs[i].value, Step(s, op).procs[i], Sentence(s, op, i))
  {
    hide FreeSlot;
    FreeSlotAt(s.procs);
  }
}
