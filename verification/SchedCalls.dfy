/**
 * What single calls leave in the process table, told by the fields before and
 * after: handlers and groups, terminal signals, births, and the choice of a
 * process when the current one is gone.
 */
module SchedCalls {
  import opened Wrappers
  import opened SchedState
  import opened SchedRun
  import opened SchedLaws

  ghost predicate Holds(s: State, i: nat) {
    i < MAX_PROCESSES && s.procs[i].Some?
  }

  // Only slot i differs.
  ghost predicate OnlySlot(s: State, s': State, i: nat)
    requires i < MAX_PROCESSES
  {
    s'.procs[i].Some? && s' == s.(procs := s.procs[i := s'.procs[i]])
  }

  // ---------- handlers, signals, groups ----------

  // The caller of a system call; nobody counts as slot 0.
  ghost predicate Caller(s: State, i: nat) {
    s.current == Some(i) || (s.current == None && i == 0)
  }

  // A handler that was set is the one looked up, and no other signal's handler changes.
  lemma HandlerHolds(s: State, signum: nat, handler: nat, i: nat, n: nat)
    requires Holds(s, i) && Caller(s, i) && |s.procs[i].value.handlers| >= 31
    ensures var s' := Step(s, SignalAction(signum, handler));
      && OnlySlot(s, s', i)
      && s'.procs[i].value == s.procs[i].value.(handlers := s'.procs[i].value.handlers)
      && |s'.procs[i].value.handlers| == |s.procs[i].value.handlers|
      && (!(0 < signum < 32 && handler < 0x8000_0000_0000) ==> s' == s)
      && Handler(s'.procs[i].value, n) ==
           if n == signum && 0 < signum < 32 && handler < 0x8000_0000_0000 then handler
           else Handler(s.procs[i].value, n)
  {
    var p := s.procs[i].value;
    var p' := SetHandler(s, signum, handler).procs[i].value;
    assert p' == p.(handlers := p'.handlers);
  }

  // No process handles a signal outside 1 to 31, and one with an entry of its own handles it by that entry.
  lemma HandlerRange(p: Process, n: nat)
    ensures !(0 < n < 32) ==> Handler(p, n) == 0
    ensures 0 < n < 32 && n <= |p.handlers| ==> Handler(p, n) == p.handlers[n - 1]
  {
  }

  // kill makes a signal from 1 to 31 pending at a process that is not a Zombie, and does nothing else.
  lemma RaisedIff(s: State, target: nat, signum: nat)
    ensures var s' := Step(s, SendSignal(target, signum));
      if Holds(s, target) && s.procs[target].value.state != Zombie && 0 < signum < 32
      then OnlySlot(s, s', target) &&
           s'.procs[target].value == s.procs[target].value.(pending := s.procs[target].value.pending + {signum})
      else s' == s
  {
  }

  // setpgid names the caller by 0, and a group of its own by 0.
  lemma GroupJoined(s: State, target: nat, pgid: nat, i: nat)
    requires target == i != 0 || (target == 0 && Caller(s, i))
    ensures var s' := Step(s, JoinGroup(target, pgid));
      if Holds(s, i)
      then OnlySlot(s, s', i) && exists g ::
             s'.procs[i].value == s.procs[i].value.(pgid := g) && (pgid > 0 ==> g == pgid) && (pgid == 0 ==> g == i)
      else s' == s
  {
    if Holds(s, i) {
      assert SetGroup(s, target, pgid).procs[i].value
          == s.procs[i].value.(pgid := SetGroup(s, target, pgid).procs[i].value.pgid);
    }
  }

  // ---------- terminal signals ----------

  ghost predicate Lowest(procs: Procs, st: Status, i: nat) {
    && 0 < i < MAX_PROCESSES && procs[i].Some? && procs[i].value.isUser && procs[i].value.state == st
    && forall j :: 0 < j < i && procs[j].Some? && procs[j].value.isUser ==> procs[j].value.state != st
  }

  ghost predicate NoUser(procs: Procs, st: Status) {
    forall j :: 0 < j < MAX_PROCESSES && procs[j].Some? && procs[j].value.isUser ==> procs[j].value.state != st
  }

  lemma {:induction false} GroupFound(procs: Procs, st: Status, i: nat, k: nat)
    requires Lowest(procs, st, i) && 0 < k <= i
    ensures GroupFrom(procs, st, k) == Some(procs[i].value.pgid)
    decreases i - k
  {
    if k < i {
      GroupFound(procs, st, i, k + 1);
    }
  }

  lemma {:induction false} GroupMissing(procs: Procs, st: Status, k: nat)
    requires NoUser(procs, st) && 0 < k <= MAX_PROCESSES
    ensures GroupFrom(procs, st, k) == None
    decreases MAX_PROCESSES - k
  {
    if k < MAX_PROCESSES {
      GroupMissing(procs, st, k + 1);
    }
  }

  // The foreground group is that of the lowest Running user process; failing that, of the lowest Ready one.
  lemma ForegroundIs(procs: Procs, i: nat)
    ensures Lowest(procs, Running, i) ==> Foreground(procs) == Some(procs[i].value.pgid)
    ensures NoUser(procs, Running) && Lowest(procs, Ready, i) ==> Foreground(procs) == Some(procs[i].value.pgid)
    ensures NoUser(procs, Running) && NoUser(procs, Ready) ==> Foreground(procs) == None
  {
    if Lowest(procs, Running, i) {
      GroupFound(procs, Running, i, 1);
    } else if NoUser(procs, Running) {
      GroupMissing(procs, Running, 1);
      if Lowest(procs, Ready, i) {
        GroupFound(procs, Ready, i, 1);
      } else if NoUser(procs, Ready) {
        GroupMissing(procs, Ready, 1);
      }
    }
  }

  // What a terminal signal that kills nobody makes of a process it strikes.
  lemma StruckBecomes(s: State, signal: nat, pipes: seq<Option<Pipe>>, i: nat)
    requires i < MAX_PROCESSES && Struck(s, signal, i) && signal !in {2, 3}
    ensures var p, r := s.procs[i].value, SignalForeground(s, signal, pipes).procs[i];
      && (signal == 20 ==> r == Some(p.(state := Blocked, wake := Awake)))
      && (signal == 18 && p.wake == Awake ==> r == Some(p.(state := if p.state == Blocked then Ready else p.state)))
      && (signal !in {18, 20} && (p.state != Blocked || p.wake == Awake) ==> r == Some(p))
  {
    hide Foreground, KilledSet, Struck;
    StruckIsHit(s, signal, i);
    NobodyKilled(s, signal);
  }

  lemma NobodyKilled(s: State, signal: nat)
    requires Foreground(s.procs).Some? && signal !in {2, 3}
    ensures KilledSet(s.procs, Foreground(s.procs).value, signal) == {}
  {
    hide Foreground;
  }

  // ---------- births ----------

  ghost predicate Vacant(s: State, i: nat) {
    0 < i < MAX_PROCESSES && s.procs[i].None? && forall j :: 0 < j < i ==> s.procs[j].Some?
  }

  lemma {:induction false} VacantFrom(s: State, i: nat, k: nat)
    requires Vacant(s, i) && 0 < k <= i
    ensures FreeFrom(s.procs, k) == Some(i)
    decreases i - k
  {
    if k < i {
      VacantFrom(s, i, k + 1);
    }
  }

  // Ready, without signals, with the default action for every signal.
  ghost predicate Newborn(p: Process) {
    && p.state == Ready && p.wake == Awake && p.pending == {} && p.blocked == {} && p.exitCode == 0
    && |p.handlers| == 32 && forall n: nat :: Handler(p, n) == 0
  }

  lemma BirthOf(isUser: bool, kstack: nat, pml4: nat, generation: nat, parent: Option<nat>, parentGeneration: nat,
                pgid: nat)
    ensures var p := NewProcess(isUser, kstack, pml4, generation, parent, parentGeneration, pgid);
      Newborn(p) && p.isUser == isUser && p.kstack == kstack && p.pml4 == pml4 && p.generation == generation &&
      p.parent == parent && p.parentGeneration == parentGeneration && p.pgid == pgid
  {
  }

  // The generation the new process gets: one more than the slot's last, as a 32-bit counter.
  ghost predicate Renewed(s: State, s': State, i: nat)
    requires i < MAX_PROCESSES
  {
    s'.gens == s.gens[i := if s.gens[i] == 0xFFFF_FFFF then 0 else s.gens[i] + 1]
  }

  lemma UserBorn(s: State, kstack: nat, pml4: nat, parent: Option<nat>, i: nat)
    requires Vacant(s, i) && s.gens[i] <= 0xFFFF_FFFF
    ensures var s' := Step(s, NewUser(Some(kstack), pml4, parent));
      && Renewed(s, s', i) && s'.procs[i].Some? && s' == s.(gens := s'.gens, procs := s.procs[i := s'.procs[i]])
      && var p := s'.procs[i].value;
         && Newborn(p) && p.isUser && p.kstack == kstack && p.pml4 == pml4 && p.generation == s'.gens[i] && p.pgid == i
         && p.parent == parent
         && (parent.Some? && Holds(s, parent.value) ==>
               p.parentGeneration == s.procs[parent.value].value.generation)
  {
    VacantFrom(s, i, 1);
    BirthOf(true, kstack, pml4, (s.gens[i] + 1) % 0x1_0000_0000, parent, ParentGeneration(s.procs, parent), i);
  }

  lemma KernelBorn(s: State, kstack: nat, pml4: nat, i: nat)
    requires Vacant(s, i) && s.gens[i] <= 0xFFFF_FFFF
    ensures var s' := Step(s, NewKernel(Some(kstack), pml4));
      && Renewed(s, s', i) && s'.procs[i].Some? && s' == s.(gens := s'.gens, procs := s.procs[i := s'.procs[i]])
      && var p := s'.procs[i].value;
         && Newborn(p) && !p.isUser && p.kstack == kstack && p.pml4 == pml4 && p.generation == s'.gens[i]
         && p.pgid == 0 && p.parent == None && p.parentGeneration == 0
  {
    VacantFrom(s, i, 1);
    BirthOf(false, kstack, pml4, (s.gens[i] + 1) % 0x1_0000_0000, None, 0, 0);
  }

  // A failed kernel stack allocation still spends the slot's generation.
  lemma Unborn(s: State, pml4: nat, parent: Option<nat>, i: nat)
    requires Vacant(s, i) && s.gens[i] <= 0xFFFF_FFFF
    ensures Step(s, NewUser(None, pml4, parent)) == Step(s, NewKernel(None, pml4))
    ensures var s' := Step(s, NewKernel(None, pml4)); Renewed(s, s', i) && s' == s.(gens := s'.gens)
  {
    VacantFrom(s, i, 1);
  }

  // The forked child: of its parent's kind and group, generation 0, and the slot's counter is left alone.
  lemma ChildBorn(s: State, kstack: nat, pml4: nat, parent: nat, i: nat)
    requires Vacant(s, i) && s.current == Some(parent) && Holds(s, parent)
    ensures var s' := Step(s, ForkCurrent(kstack, pml4));
      && OnlySlot(s, s', i)
      && var p, q := s'.procs[i].value, s.procs[parent].value;
         && Newborn(p) && p.isUser == q.isUser && p.kstack == kstack && p.pml4 == pml4 && p.generation == 0
         && p.pgid == q.pgid && p.parent == Some(parent) && p.parentGeneration == q.generation
  {
    var q := s.procs[parent].value;
    VacantFrom(s, i, 1);
    BirthOf(q.isUser, kstack, pml4, 0, Some(parent), q.generation, q.pgid);
  }

  // ---------- nobody to run ----------

  ghost predicate SomeReady(procs: Procs) {
    exists p: nat :: 0 < p < MAX_PROCESSES && Is(procs, p, Ready)
  }

  lemma NextIs(procs: Procs, after: nat)
    ensures SomeReady(procs) ==>
              var q := NextReady(procs, after); q.Some? && 0 < q.value < MAX_PROCESSES && Is(procs, q.value, Ready)
    ensures !SomeReady(procs) ==>
              NextReady(procs, after) == if procs[0].Some? && procs[0].value.state == Ready then Some(0) else None
  {
    SearchFinds(procs, after, 0);
    if SomeReady(procs) {
      var p: nat :| 0 < p < MAX_PROCESSES && Is(procs, p, Ready);
      Reached(after, p);
      if Search(procs, after, 0).None? {
        SearchMisses(procs, after, 0, Distance(after, p));
      }
    }
  }

  // Who runs once nobody does: a Ready process, else idle if it is Ready, else nobody.
  ghost predicate RunsAnyone(s: State, s': State) {
    if SomeReady(s.procs) || Is(s.procs, 0, Ready) then
      && s'.current.Some? && Is(s.procs, s'.current.value, Ready) && (SomeReady(s.procs) ==> s'.current.value > 0)
      && s'.procs == s.procs[s'.current.value := Some(s.procs[s'.current.value].value.(state := Running))]
    else s'.current == None && s'.procs == s.procs
  }

  lemma FirstRuns(s: State)
    requires s.current == None
    ensures RunsAnyone(s, Step(s, First)) && Step(s, First).gens == s.gens
    ensures Step(s, First).current.Some? ==> Step(s, First).ticks == 0
  {
    hide NextReady;
    NextIs(s.procs, 0);
  }

  // Between two quanta a tick replaces a current process whose slot is empty, and nothing else.
  lemma TickRuns(s: State, now: nat, frame: Frame)
    requires s.ticks < 4 && (s.current.Some? ==> s.current.value < MAX_PROCESSES)
    ensures var t, s' := Looked(s, now), Step(s, Tick(now, frame));
      if s.current.Some? && s.procs[s.current.value].None? then RunsAnyone(t, s') && s'.ticks == s.ticks + 1
      else s' == t
  {
    hide NextReady, Looked, OnTick;
    TickIs(s, now, frame);
    LookedRest(s, now);
    NextIs(Looked(s, now).procs, 0);
  }
}
