/**
 * Whose child is it?  A ghost lineage gives every process an identity of its
 * own and records to whom each process was last given, by spawn or by
 * reparenting.  Slots and generation counters are then compared with it.
 */
module SchedFamily {
  import opened Wrappers
  import opened SchedState
  import opened SchedRun

  type Ids = s: seq<nat> | |s| == MAX_PROCESSES witness seq(MAX_PROCESSES, _ => 0)
  type Families = s: seq<Option<nat>> | |s| == MAX_PROCESSES witness seq(MAX_PROCESSES, _ => None)

  datatype Lineage = Lineage(ids: Ids, family: Families, next: nat)

  function Occupant(s: State, l: Lineage, p: Option<nat>): Option<nat> {
    if p.Some? && p.value < MAX_PROCESSES && s.procs[p.value].Some? then Some(l.ids[p.value]) else None
  }

  function Born(s: State, l: Lineage, made: bool, parent: Option<nat>): Lineage {
    var slot := FreeSlot(s.procs);
    FreeSlotIs(s.procs, 1);
    if slot.None? || !made then l
    else Lineage(l.ids[slot.value := l.next], l.family[slot.value := Occupant(s, l, parent)], l.next + 1)
  }

  function Given(s: State, l: Lineage, init: nat): Lineage
    requires init < MAX_PROCESSES
  {
    if s.current.None? then l
    else l.(family := seq(MAX_PROCESSES, i requires 0 <= i < MAX_PROCESSES =>
              if s.procs[i].Some? && s.procs[i].value.parent == s.current then Occupant(s, l, Some(init))
              else l.family[i]))
  }

  function NextLineage(s: State, l: Lineage, op: Op): Lineage
    requires Possible(s, op)
  {
    match op
    case NewUser(kstack, _, parent) => Born(s, l, kstack.Some?, parent)
    case NewKernel(kstack, _) => Born(s, l, kstack.Some?, None)
    case ForkCurrent(_, _) => Born(s, l, Occupant(s, l, s.current).Some?, s.current)
    case KillCurrent(init) => Given(s, l, init)
    case ExitCurrent(_, init) => Given(s, l, init)
    case _ => l
  }

  // A child that matches the counter of its parent's slot belongs to the present occupant.
  predicate FamilyAt(s: State, l: Lineage, c: nat)
    requires c < MAX_PROCESSES
  {
    s.procs[c].Some? && s.procs[c].value.parent.Some? ==>
      var p := s.procs[c].value.parent.value;
      0 < p < MAX_PROCESSES && s.procs[p].Some? && s.procs[c].value.parentGeneration == s.gens[p] ==>
        l.family[c] == Some(l.ids[p])
  }

  predicate Family(s: State, l: Lineage) {
    forall c :: 0 <= c < MAX_PROCESSES ==> FamilyAt(s, l, c)
  }

  // Identities are handed out once.
  predicate Fresh(s: State, l: Lineage) {
    && (s.current.Some? ==> s.current.value < MAX_PROCESSES)
    && forall c :: 0 <= c < MAX_PROCESSES ==>
         l.ids[c] < l.next && (l.family[c].Some? ==> l.family[c].value < l.next)
  }

  // What waitpid returns to a caller other than idle is that caller's own child.
  lemma NoCrossFamily(s: State, l: Lineage, c: nat)
    requires Family(s, l) && ZombieChild(s, c) && s.current.value != IDLE && s.procs[s.current.value].Some?
    ensures l.family[c] == Some(l.ids[s.current.value])
  {
    assert FamilyAt(s, l, c);
  }

  // Steps that move no process and no counter: parents and generations stay.
  predicate SameKin(s: State, s': State) {
    && s'.gens == s.gens
    && forall i :: 0 <= i < MAX_PROCESSES && s'.procs[i].Some? ==>
         && s.procs[i].Some?
         && s'.procs[i].value.parent == s.procs[i].value.parent
         && s'.procs[i].value.parentGeneration == s.procs[i].value.parentGeneration
         && s'.procs[i].value.generation == s.procs[i].value.generation
  }

  lemma KinKeeps(s: State, s': State, l: Lineage)
    requires Family(s, l) && Fresh(s, l) && SameKin(s, s') && (s'.current.Some? ==> s'.current.value < MAX_PROCESSES)
    ensures Family(s', l) && Fresh(s', l)
  {
    forall c | 0 <= c < MAX_PROCESSES
      ensures FamilyAt(s', l, c)
    {
      assert FamilyAt(s, l, c);
    }
  }

  // ---------- births ----------

  // The operation puts a new process into slot.
  predicate Bears(s: State, op: Op, slot: nat) {
    && slot < MAX_PROCESSES && FreeSlot(s.procs) == Some(slot)
    && match op
       case NewUser(kstack, _, _) => kstack.Some?
       case NewKernel(kstack, _) => kstack.Some?
       case ForkCurrent(_, _) => s.current.Some? && s.current.value < MAX_PROCESSES && s.procs[s.current.value].Some?
       case _ => false
  }

  // The counter of the slot once the process is there; fork does not advance it.
  function Counter(s: State, op: Op, slot: nat): nat
    requires slot < MAX_PROCESSES
  {
    if op.ForkCurrent? then s.gens[slot] else (s.gens[slot] + 1) % U32
  }

  // Nobody is left over from an earlier occupant of the slot: no process in the
  // table records slot and its counter as its parent.
  predicate NoLeftover(s: State, op: Op, slot: nat)
    requires slot < MAX_PROCESSES
  {
    && (forall c :: 0 <= c < MAX_PROCESSES && s.procs[c].Some? && s.procs[c].value.parent == Some(slot) ==>
          s.procs[c].value.parentGeneration != Counter(s, op, slot))
    && (op.NewUser? && op.parent == Some(slot) ==> Counter(s, op, slot) != 0)
  }

  lemma BirthAt(s: State, l: Lineage, op: Op, slot: nat, c: nat)
    requires Fresh(s, l) && Bears(s, op, slot) && c < MAX_PROCESSES && FamilyAt(s, l, c) && c != slot
    ensures FamilyAt(Step(s, op), NextLineage(s, l, op), c) <==>
        !(s.procs[c].Some? && s.procs[c].value.parent == Some(slot)
          && s.procs[c].value.parentGeneration == Counter(s, op, slot))
  {
    hide FreeSlot;
    FreeSlotAt(s.procs);
  }

  lemma NewbornAt(s: State, l: Lineage, op: Op, slot: nat)
    requires Fresh(s, l) && Bears(s, op, slot)
    ensures FamilyAt(Step(s, op), NextLineage(s, l, op), slot) <==>
        (op.NewUser? && op.parent == Some(slot) ==> Counter(s, op, slot) != 0)
  {
    hide FreeSlot;
    FreeSlotAt(s.procs);
  }

  lemma BirthFresh(s: State, l: Lineage, op: Op)
    requires Fresh(s, l) && (op.NewUser? || op.NewKernel? || op.ForkCurrent?)
    ensures Fresh(Step(s, op), NextLineage(s, l, op))
  {
    hide FreeSlot;
    FreeSlotAt(s.procs);
  }

  // A new process keeps the families apart exactly when nobody is left over from
  // an earlier occupant of its slot.
  lemma BirthKeepsIff(s: State, l: Lineage, op: Op, slot: nat)
    requires Family(s, l) && Fresh(s, l) && Bears(s, op, slot)
    ensures Family(Step(s, op), NextLineage(s, l, op)) <==> NoLeftover(s, op, slot)
  {
    hide FamilyAt, Fresh, Bears, Step, NextLineage;
    BearsFree(s, op, slot);
    NewbornAt(s, l, op, slot);
    forall c | 0 <= c < MAX_PROCESSES && c != slot
      ensures FamilyAt(Step(s, op), NextLineage(s, l, op), c) <==>
        !(s.procs[c].Some? && s.procs[c].value.parent == Some(slot)
          && s.procs[c].value.parentGeneration == Counter(s, op, slot))
    {
      assert FamilyAt(s, l, c);
      BirthAt(s, l, op, slot, c);
    }
  }

  lemma BearsFree(s: State, op: Op, slot: nat)
    requires Bears(s, op, slot)
    ensures 0 < slot < MAX_PROCESSES && s.procs[slot].None? && Possible(s, op)
  {
    FreeSlotAt(s.procs);
  }

  // A birth that finds no slot or no stack at most advances the counter of an empty slot.
  lemma BarrenKeeps(s: State, l: Lineage, op: Op)
    requires Family(s, l) && (op.NewUser? || op.NewKernel? || op.ForkCurrent?) && Fresh(s, l)
    requires forall slot: nat :: !Bears(s, op, slot)
    ensures Family(Step(s, op), NextLineage(s, l, op))
  {
    hide FreeSlot;
    FreeSlotAt(s.procs);
    assert FreeSlot(s.procs).Some? ==> !Bears(s, op, FreeSlot(s.procs).value);
    forall c | 0 <= c < MAX_PROCESSES
      ensures FamilyAt(Step(s, op), NextLineage(s, l, op), c)
    {
      assert FamilyAt(s, l, c);
    }
  }

  // ---------- steps that keep every family ----------

  lemma KinTrans(s: State, s': State, s'': State)
    requires SameKin(s, s') && SameKin(s', s'')
    ensures SameKin(s, s'')
  {
  }

  lemma DispatchKin(s: State)
    ensures SameKin(s, Dispatch(s)) && Dispatch(s).current.Some? && Dispatch(s).current.value < MAX_PROCESSES
  {
    hide Choice;
  }

  lemma SwitchKin(s: State)
    ensures SameKin(s, SwitchNext(s)) && SwitchNext(s).current.Some? && SwitchNext(s).current.value < MAX_PROCESSES
  {
    hide Dispatch;
    var left := s.(procs := Leave(s.procs, s.current));
    assert SameKin(s, left);
    DispatchKin(left);
    KinTrans(s, left, Dispatch(left));
  }

  lemma DeliverKin(s: State, frame: Frame)
    ensures SameKin(s, DeliverToCurrent(s, frame)) && DeliverToCurrent(s, frame).current == s.current
  {
    hide PendingSignal, Handler;
  }

  lemma TickKin(s: State, now: nat, frame: Frame)
    requires s.current.Some? ==> s.current.value < MAX_PROCESSES
    ensures SameKin(s, OnTick(s, now, frame))
    ensures OnTick(s, now, frame).current.Some? ==> OnTick(s, now, frame).current.value < MAX_PROCESSES
  {
    hide SwitchNext, DeliverToCurrent, NextReady;
    var s1 := s.(ticks := s.ticks + 1, procs := WakeSleepers(s.procs, now));
    assert SameKin(s, s1);
    NextBound(s1.procs, 0);
    if s1.ticks >= QUANTUM {
      var s2 := s1.(ticks := 0);
      SwitchKin(s2);
      DeliverKin(SwitchNext(s2), frame);
      KinTrans(s2, SwitchNext(s2), DeliverToCurrent(SwitchNext(s2), frame));
    } else {
      assert SameKin(s1, Recover(s1));
    }
  }

  lemma ForceKin(s: State, frame: Frame)
    ensures SameKin(s, Force(s, frame)) && Force(s, frame).current.Some?
    ensures Force(s, frame).current.value < MAX_PROCESSES
  {
    hide SwitchNext, DeliverToCurrent;
    SwitchKin(s);
    DeliverKin(SwitchNext(s), frame);
    KinTrans(s, SwitchNext(s), Force(s, frame));
  }

  lemma SignalKin(s: State, signal: nat, pipes: seq<Option<Pipe>>)
    ensures SameKin(s, SignalForeground(s, signal, pipes)) && SignalForeground(s, signal, pipes).current == s.current
  {
    hide WaitsForKilled, InlineWakes, Foreground, KilledSet;
    var group := Foreground(s.procs);
    var s1 := s;
    if group.Some? {
      var hit := s.(procs := SignalGroup(s.procs, group.value, signal));
      s1 := s.(procs := WakeWaiters(hit.procs, KilledSet(s.procs, group.value, signal)));
      assert SameKin(s, hit) && SameKin(hit, s1);
    }
    assert SameKin(s1, s.(procs := InlineWake(s1.procs, pipes)));
  }

  lemma PlainKin(s: State, op: Op)
    requires op.BlockCurrent? || op.WakeKeyboard? || op.WakeChild? || op.ReapSlot? || op.First? || op.SendSignal?
          || op.SignalAction? || op.JoinGroup?
    requires Possible(s, op) && (s.current.Some? ==> s.current.value < MAX_PROCESSES)
    ensures SameKin(s, Step(s, op))
    ensures Step(s, op).current.Some? ==> Step(s, op).current.value < MAX_PROCESSES
  {
    hide KeyboardWakes, ChildWakes, NextReady;
    NextBound(s.procs, 0);
  }

  lemma KinStep(s: State, op: Op)
    requires Possible(s, op) && (s.current.Some? ==> s.current.value < MAX_PROCESSES)
    requires op.Tick? || op.ForceSwitch? || op.SignalFg? || op.BlockCurrent? || op.WakeKeyboard? || op.WakeChild?
          || op.ReapSlot? || op.First? || op.SendSignal? || op.SignalAction? || op.JoinGroup?
    ensures SameKin(s, Step(s, op)) && (Step(s, op).current.Some? ==> Step(s, op).current.value < MAX_PROCESSES)
  {
    hide OnTick, Force, SignalForeground, SameKin;
    match op
    case Tick(now, frame) => TickKin(s, now, frame);
    case ForceSwitch(frame) => ForceKin(s, frame);
    case SignalFg(signal, pipes) => SignalKin(s, signal, pipes);
    case _ => PlainKin(s, op);
  }

  // ---------- reparenting ----------

  lemma GivenKeeps(s: State, l: Lineage, init: nat)
    requires Family(s, l) && Fresh(s, l) && init < MAX_PROCESSES && s.current.Some?
    ensures Family(Reparent(s, s.current.value, init), Given(s, l, init))
    ensures Fresh(Reparent(s, s.current.value, init), Given(s, l, init))
  {
    var s', l' := Reparent(s, s.current.value, init), Given(s, l, init);
    forall c | 0 <= c < MAX_PROCESSES
      ensures FamilyAt(s', l', c)
    {
      assert FamilyAt(s, l, c);
    }
  }

  lemma DeathKeeps(s: State, l: Lineage, op: Op)
    requires op.KillCurrent? || op.ExitCurrent?
    requires Family(s, l) && Fresh(s, l) && Possible(s, op)
    ensures Family(Step(s, op), NextLineage(s, l, op)) && Fresh(Step(s, op), NextLineage(s, l, op))
  {
    hide Family, Dispatch, Given, Reparent;
    if s.current.Some? {
      GivenKeeps(s, l, op.init);
      var s1, l1 := Reparent(s, s.current.value, op.init), Given(s, l, op.init);
      var i := s.current.value;
      assert s1.current == s.current by {
        ReparentCurrent(s, i, op.init);
      }
      if op.KillCurrent? {
        var s2 := s1.(procs := WithState(s1.procs, i, Zombie));
        assert SameKin(s1, s2);
        DispatchKin(s2);
        KinTrans(s1, s2, Dispatch(s2));
        KinKeeps(s1, Dispatch(s2), l1);
      } else {
        KinKeeps(s1, Step(s, op), l1);
      }
    } else {
      assert Given(s, l, op.init) == l by {
        NobodyGiven(s, l, op.init);
      }
      DispatchKin(s);
      KinKeeps(s, Step(s, op), l);
    }
  }

  lemma NobodyGiven(s: State, l: Lineage, init: nat)
    requires init < MAX_PROCESSES && s.current.None?
    ensures Given(s, l, init) == l
  {
  }

  // Every birth takes a slot without leftovers.
  ghost predicate Lineal(s: State, op: Op) {
    forall slot: nat :: Bears(s, op, slot) ==> slot < MAX_PROCESSES && NoLeftover(s, op, slot)
  }

  // Every step keeps the families apart, births under exactly that condition.
  lemma StepFamily(s: State, l: Lineage, op: Op)
    requires Family(s, l) && Fresh(s, l) && Possible(s, op) && Lineal(s, op)
    ensures Family(Step(s, op), NextLineage(s, l, op)) && Fresh(Step(s, op), NextLineage(s, l, op))
  {
    hide Step, Family, NextLineage, Bears, NoLeftover, Fresh;
    if op.NewUser? || op.NewKernel? || op.ForkCurrent? {
      BirthFresh(s, l, op);
      if slot: nat :| Bears(s, op, slot) {
        BirthKeepsIff(s, l, op, slot);
      } else {
        BarrenKeeps(s, l, op);
      }
    } else if op.KillCurrent? || op.ExitCurrent? {
      DeathKeeps(s, l, op);
    } else {
      PlainKeeps(s, l, op);
    }
  }

  lemma PlainKeeps(s: State, l: Lineage, op: Op)
    requires Family(s, l) && Fresh(s, l) && Possible(s, op)
    requires !op.NewUser? && !op.NewKernel? && !op.ForkCurrent? && !op.KillCurrent? && !op.ExitCurrent?
    ensures Family(Step(s, op), NextLineage(s, l, op)) && Fresh(Step(s, op), NextLineage(s, l, op))
  {
    hide Step, Family;
    KinStep(s, op);
    KinKeeps(s, Step(s, op), l);
  }

  ghost predicate IsLinealRun(ss: seq<State>, ls: seq<Lineage>, ops: seq<Op>) {
    && IsRun(ss, ops) && |ls| == |ss|
    && forall i :: 0 <= i < |ops| ==> Lineal(ss[i], ops[i]) && ls[i + 1] == NextLineage(ss[i], ls[i], ops[i])
  }

  lemma {:induction false} RunFamily(ss: seq<State>, ls: seq<Lineage>, ops: seq<Op>, i: nat)
    requires IsLinealRun(ss, ls, ops) && Family(ss[0], ls[0]) && Fresh(ss[0], ls[0]) && i < |ss|
    ensures Family(ss[i], ls[i]) && Fresh(ss[i], ls[i])
  {
    hide Family, Fresh, Step, NextLineage, Lineal;
    if i > 0 {
      RunFamily(ss, ls, ops, i - 1);
      StepFamily(ss[i - 1], ls[i - 1], ops[i - 1]);
    }
  }

  // Over every such run, a zombie handed to a caller other than idle is the caller's own.
  lemma RunNoCrossFamily(ss: seq<State>, ls: seq<Lineage>, ops: seq<Op>, i: nat, c: nat)
    requires IsLinealRun(ss, ls, ops) && Family(ss[0], ls[0]) && Fresh(ss[0], ls[0]) && i < |ss|
    requires ZombieChild(ss[i], c) && ss[i].current.value != IDLE && ss[i].procs[ss[i].current.value].Some?
    ensures ls[i].family[c] == Some(ls[i].ids[ss[i].current.value])
  {
    hide Family, Fresh, Step, NextLineage, Lineal, ZombieChild, IsRun;
    RunFamily(ss, ls, ops, i);
    NoCrossFamily(ss[i], ls[i], c);
  }

  function Boot(idle: Process): State {
    State(EmptyTable()[IDLE := Some(idle)], seq(MAX_PROCESSES, _ => 0), None, 0)
  }

  function BootLineage(): Lineage {
    Lineage(seq(MAX_PROCESSES, _ => 0), seq(MAX_PROCESSES, _ => None), 1)
  }

  // The table right after boot: idle alone.
  lemma BootFamily(idle: Process)
    requires idle.parent == None
    ensures Family(Boot(idle), BootLineage()) && Fresh(Boot(idle), BootLineage()) && Behind(Boot(idle))
  {
  }

  // ---------- counters ----------

  // No process records a generation its parent's slot, or its own, has not reached.
  predicate BehindAt(s: State, c: nat)
    requires c < MAX_PROCESSES
  {
    s.procs[c].Some? ==>
      && (c != IDLE ==> s.procs[c].value.generation <= s.gens[c])
      && (s.procs[c].value.parent.Some? && 0 < s.procs[c].value.parent.value < MAX_PROCESSES ==>
            s.procs[c].value.parentGeneration <= s.gens[s.procs[c].value.parent.value])
  }

  predicate Behind(s: State) {
    forall c :: 0 <= c < MAX_PROCESSES ==> BehindAt(s, c)
  }

  // The counter the operation advances does not wrap.
  predicate NoWrap(s: State, op: Op) {
    (op.NewUser? || op.NewKernel?) && FreeSlot(s.procs).Some? ==>
      FreeSlot(s.procs).value < MAX_PROCESSES && s.gens[FreeSlot(s.procs).value] + 1 < U32
  }

  // While no counter wraps, a spawned process never meets a leftover; only fork can.
  lemma SpawnLineal(s: State, op: Op)
    requires Behind(s) && NoWrap(s, op) && !op.ForkCurrent?
    ensures Lineal(s, op)
  {
    hide FreeSlot;
    forall slot: nat | Bears(s, op, slot)
      ensures slot < MAX_PROCESSES && NoLeftover(s, op, slot)
    {
      FreeSlotAt(s.procs);
      assert Counter(s, op, slot) == s.gens[slot] + 1;
      forall c | 0 <= c < MAX_PROCESSES && s.procs[c].Some? && s.procs[c].value.parent == Some(slot)
        ensures s.procs[c].value.parentGeneration != Counter(s, op, slot)
      {
        assert BehindAt(s, c);
      }
    }
  }

  lemma BirthBehind(s: State, op: Op)
    requires Behind(s) && NoWrap(s, op) && (op.NewUser? || op.NewKernel? || op.ForkCurrent?)
    ensures Behind(Step(s, op))
  {
    hide FreeSlot, BehindAt;
    FreeSlotAt(s.procs);
    forall c | 0 <= c < MAX_PROCESSES
      ensures BehindAt(Step(s, op), c)
    {
      assert BehindAt(s, c);
      BirthBehindAt(s, op, c);
    }
  }

  lemma BirthBehindAt(s: State, op: Op, c: nat)
    requires Behind(s) && NoWrap(s, op) && (op.NewUser? || op.NewKernel? || op.ForkCurrent?) && c < MAX_PROCESSES
    ensures BehindAt(Step(s, op), c)
  {
    hide FreeSlot;
    FreeSlotAt(s.procs);
    assert BehindAt(s, c);
    if s.current.Some? && s.current.value < MAX_PROCESSES {
      assert BehindAt(s, s.current.value);
    }
    if op.NewUser? && op.parent.Some? && op.parent.value < MAX_PROCESSES {
      assert BehindAt(s, op.parent.value);
    }
  }

  lemma KinBehind(s: State, s': State)
    requires Behind(s) && SameKin(s, s')
    ensures Behind(s')
  {
    forall c | 0 <= c < MAX_PROCESSES
      ensures BehindAt(s', c)
    {
      assert BehindAt(s, c);
    }
  }

  lemma ReparentBehind(s: State, gone: nat, init: nat)
    requires Behind(s) && init < MAX_PROCESSES
    ensures Behind(Reparent(s, gone, init))
  {
    forall c | 0 <= c < MAX_PROCESSES
      ensures BehindAt(Reparent(s, gone, init), c)
    {
      assert BehindAt(s, c);
    }
  }

  lemma DeathBehind(s: State, op: Op)
    requires Behind(s) && Possible(s, op) && (op.KillCurrent? || op.ExitCurrent?)
    ensures Behind(Step(s, op))
  {
    hide Behind, Dispatch, Reparent;
    if s.current.Some? && s.current.value < MAX_PROCESSES {
      var i := s.current.value;
      var s1 := Reparent(s, i, op.init);
      ReparentBehind(s, i, op.init);
      if op.KillCurrent? {
        var s2 := s1.(procs := WithState(s1.procs, i, Zombie));
        assert SameKin(s1, s2);
        DispatchKin(s2);
        KinTrans(s1, s2, Dispatch(s2));
      }
      KinBehind(s1, Step(s, op));
    } else {
      DispatchKin(s);
      KinBehind(s, Step(s, op));
    }
  }

  lemma StepBehind(s: State, op: Op)
    requires Behind(s) && Possible(s, op) && NoWrap(s, op) && (s.current.Some? ==> s.current.value < MAX_PROCESSES)
    ensures Behind(Step(s, op))
  {
    hide Step, Behind, NoWrap;
    if op.NewUser? || op.NewKernel? || op.ForkCurrent? {
      BirthBehind(s, op);
    } else if op.KillCurrent? || op.ExitCurrent? {
      DeathBehind(s, op);
    } else {
      KinStep(s, op);
      KinBehind(s, Step(s, op));
    }
  }

  // A run in which no counter wraps and every fork takes a slot without leftovers.
  ghost predicate IsUnwrappedRun(ss: seq<State>, ls: seq<Lineage>, ops: seq<Op>) {
    && IsRun(ss, ops) && |ls| == |ss|
    && forall i :: 0 <= i < |ops| ==>
         NoWrap(ss[i], ops[i]) && (ops[i].ForkCurrent? ==> Lineal(ss[i], ops[i]))
         && ls[i + 1] == NextLineage(ss[i], ls[i], ops[i])
  }

  lemma {:induction false} UnwrappedPrefix(ss: seq<State>, ls: seq<Lineage>, ops: seq<Op>, i: nat)
    requires IsUnwrappedRun(ss, ls, ops) && i < |ss|
    requires Family(ss[0], ls[0]) && Fresh(ss[0], ls[0]) && Behind(ss[0])
    ensures Family(ss[i], ls[i]) && Fresh(ss[i], ls[i]) && Behind(ss[i])
  {
    hide Family, Behind, Step, NextLineage, NoWrap, Lineal;
    if i > 0 {
      UnwrappedPrefix(ss, ls, ops, i - 1);
      if !ops[i - 1].ForkCurrent? {
        SpawnLineal(ss[i - 1], ops[i - 1]);
      }
      StepFamily(ss[i - 1], ls[i - 1], ops[i - 1]);
      StepBehind(ss[i - 1], ops[i - 1]);
    }
  }

  // From boot, with spawns and deaths in any order, no zombie crosses families;
  // fork alone has to look for leftovers.
  lemma UnwrappedNoCrossFamily(ss: seq<State>, ls: seq<Lineage>, ops: seq<Op>, idle: Process, i: nat, c: nat)
    requires IsUnwrappedRun(ss, ls, ops) && idle.parent == None && ss[0] == Boot(idle) && ls[0] == BootLineage()
    requires i < |ss|
    requires ZombieChild(ss[i], c) && ss[i].current.value != IDLE && ss[i].procs[ss[i].current.value].Some?
    ensures ls[i].family[c] == Some(ls[i].ids[ss[i].current.value])
  {
    hide Family, Fresh, Behind, Boot, ZombieChild, Step, NextLineage, NoWrap, Lineal;
    BootFamily(idle);
    UnwrappedPrefix(ss, ls, ops, i);
    NoCrossFamily(ss[i], ls[i], c);
  }
}
