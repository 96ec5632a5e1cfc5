/**
 * The leftover fork can meet, reached from boot.  Process 1 starts process 2, which
 * starts process 3.  A signal kills process 2, which reparents nobody; process 3
 * exits; process 1 reaps process 2 and forks.  The forked process takes slot 2 at
 * an unchanged counter and is handed process 3, a child it never had.
 */
module SchedLeftover {
  import opened Wrappers
  import opened SchedState
  import opened SchedRun
  import opened SchedFamily

  // ---------- small tables ----------

  function At(a: Option<Process>, b: Option<Process>, c: Option<Process>, i: nat, j: nat, k: nat,
              current: Option<nat>): State {
    State(EmptyTable()[0 := Some(Idle())][1 := a][2 := b][3 := c],
          seq(MAX_PROCESSES, _ => 0)[1 := i][2 := j][3 := k], current, 0)
  }

  function Idle(): Process {
    NewProcess(false, 9, 10, 1, None, 0, 0)
  }

  function One(): Process {
    NewProcess(true, 1, 101, 1, None, 0, 1)
  }

  function Two(): Process {
    NewProcess(true, 2, 102, 1, Some(1), 1, 2)
  }

  function Three(): Process {
    NewProcess(true, 3, 103, 1, Some(2), 1, 3)
  }

  function Forked(): Process {
    NewProcess(true, 4, 104, 0, Some(1), 1, 1)
  }

  function Run(p: Process): Process {
    p.(state := Running)
  }

  function Dead(p: Process, code: nat): Process {
    p.(state := Zombie, exitCode := code)
  }

  // ---------- the run ----------

  function Ops(): seq<Op> {
    [NewUser(Some(1), 101, None), NewUser(Some(2), 102, Some(1)), NewUser(Some(3), 103, Some(2)), First,
     ForceSwitch(NoFrame), SignalFg(2, []), ForceSwitch(NoFrame), ExitCurrent(0, 1), ForceSwitch(NoFrame), ReapSlot(2),
     ForkCurrent(4, 104), ForceSwitch(NoFrame)]
  }

  function S0(): State {
    At(None, None, None, 0, 0, 0, None)
  }

  function S1(): State {
    At(Some(One()), None, None, 1, 0, 0, None)
  }

  function S2(): State {
    At(Some(One()), Some(Two()), None, 1, 1, 0, None)
  }

  function S3(): State {
    At(Some(One()), Some(Two()), Some(Three()), 1, 1, 1, None)
  }

  function S4(): State {
    At(Some(Run(One())), Some(Two()), Some(Three()), 1, 1, 1, Some(1))
  }

  function S5(): State {
    At(Some(One()), Some(Run(Two())), Some(Three()), 1, 1, 1, Some(2))
  }

  function S6(): State {
    At(Some(One()), Some(Dead(Run(Two()), 2)), Some(Three()), 1, 1, 1, Some(2))
  }

  function S7(): State {
    At(Some(One()), Some(Dead(Two(), 2)), Some(Run(Three())), 1, 1, 1, Some(3))
  }

  function S8(): State {
    At(Some(One()), Some(Dead(Two(), 2)), Some(Dead(Three(), 0)), 1, 1, 1, Some(3))
  }

  function S9(): State {
    At(Some(Run(One())), Some(Dead(Two(), 2)), Some(Dead(Three(), 0)), 1, 1, 1, Some(1))
  }

  function S10(): State {
    At(Some(Run(One())), None, Some(Dead(Three(), 0)), 1, 1, 1, Some(1))
  }

  function S11(): State {
    At(Some(Run(One())), Some(Forked()), Some(Dead(Three(), 0)), 1, 1, 1, Some(1))
  }

  function S12(): State {
    At(Some(One()), Some(Run(Forked())), Some(Dead(Three(), 0)), 1, 1, 1, Some(2))
  }

  function States(): seq<State> {
    [S0(), S1(), S2(), S3(), S4(), S5(), S6(), S7(), S8(), S9(), S10(), S11(), S12()]
  }

  function Kin(ids: nat, b: nat): Lineage {
    var l := BootLineage();
    if ids == 0 then l
    else if ids == 1 then Lineage(l.ids[1 := 1], l.family, 2)
    else if ids == 2 then Lineage(l.ids[1 := 1][2 := 2], l.family[2 := Some(1)], 3)
    else Lineage(l.ids[1 := 1][2 := b][3 := 3], l.family[2 := Some(1)][3 := Some(2)], if b == 2 then 4 else 5)
  }

  function Lineages(): seq<Lineage> {
    [Kin(0, 0), Kin(1, 0), Kin(2, 2), Kin(3, 2), Kin(3, 2), Kin(3, 2), Kin(3, 2),
     Kin(3, 2), Kin(3, 2), Kin(3, 2), Kin(3, 2), Kin(3, 4), Kin(3, 4)]
  }

  // ---------- computing the steps ----------

  lemma {:induction false} NothingPending(i: nat)
    requires i <= 32
    ensures LowestFrom({}, i) == None
    decreases 32 - i
  {
    if i < 32 {
      NothingPending(i + 1);
    }
  }

  // The nearest Ready process is chosen.
  lemma NextIs(procs: Procs, after: nat, q: nat)
    requires after < MAX_PROCESSES && 0 < q < MAX_PROCESSES && Is(procs, q, Ready)
    requires forall p :: 0 < p < MAX_PROCESSES && p != q && procs[p].Some? && procs[p].value.state == Ready ==>
               Distance(after, q) < Distance(after, p)
    ensures NextReady(procs, after) == Some(q)
  {
    SearchNearest(procs, after, 0, q);
  }

  lemma FreeIs(s: State, slot: nat)
    requires 0 < slot < MAX_PROCESSES && s.procs[slot].None? && forall j :: 0 < j < slot ==> s.procs[j].Some?
    ensures FreeSlot(s.procs) == Some(slot)
  {
    FreeSlotIs(s.procs, 1);
  }

  // A forced switch between processes without signals.
  lemma SwitchIs(s: State, q: nat, procs: Procs)
    requires s.current.Some? && s.current.value < MAX_PROCESSES && 0 < q < MAX_PROCESSES
    requires procs == Leave(s.procs, s.current) && Is(procs, q, Ready) && procs[q].value.pending == {}
    requires forall p :: 0 < p < MAX_PROCESSES && p != q && procs[p].Some? && procs[p].value.state == Ready ==>
               Distance(s.current.value, q) < Distance(s.current.value, p)
    ensures Force(s, NoFrame) == s.(procs := WithState(procs, q, Running), current := Some(q))
  {
    hide NextReady, Leave;
    NextIs(procs, s.current.value, q);
    NothingPending(0);
    var p := WithState(procs, q, Running)[q].value;
    assert p.pending - p.blocked == {};
  }

  lemma Births()
    ensures Step(S0(), NewUser(Some(1), 101, None)) == S1() && Step(S1(), NewUser(Some(2), 102, Some(1))) == S2()
  {
    hide FreeSlot;
    FreeIs(S0(), 1);
    FreeIs(S1(), 2);
  }

  lemma ThirdBirth()
    ensures Step(S2(), NewUser(Some(3), 103, Some(2))) == S3()
  {
    hide FreeSlot;
    FreeIs(S2(), 3);
  }

  lemma BirthKin()
    ensures NextLineage(S0(), Kin(0, 0), NewUser(Some(1), 101, None)) == Kin(1, 0)
    ensures NextLineage(S1(), Kin(1, 0), NewUser(Some(2), 102, Some(1))) == Kin(2, 2)
    ensures NextLineage(S2(), Kin(2, 2), NewUser(Some(3), 103, Some(2))) == Kin(3, 2)
  {
    hide FreeSlot;
    FreeIs(S0(), 1);
    FreeIs(S1(), 2);
    FreeIs(S2(), 3);
  }

  lemma ForkStep()
    ensures Step(S10(), ForkCurrent(4, 104)) == S11()
    ensures NextLineage(S10(), Kin(3, 2), ForkCurrent(4, 104)) == Kin(3, 4)
  {
    hide FreeSlot;
    FreeIs(S10(), 2);
  }

  lemma FirstSwitches()
    ensures Step(S3(), First) == S4() && Step(S4(), ForceSwitch(NoFrame)) == S5()
  {
    hide NextReady, Force;
    NextIs(S3().procs, 0, 1);
    SwitchIs(S4(), 2, S3().procs);
  }

  lemma LaterSwitches()
    ensures Step(S6(), ForceSwitch(NoFrame)) == S7() && Step(S8(), ForceSwitch(NoFrame)) == S9()
  {
    hide NextReady, Force;
    SwitchIs(S6(), 3, S6().procs);
    SwitchIs(S8(), 1, S8().procs);
  }

  lemma LastSwitch()
    ensures Step(S11(), ForceSwitch(NoFrame)) == S12()
  {
    hide NextReady, Force;
    SwitchIs(S11(), 2, At(Some(One()), Some(Forked()), Some(Dead(Three(), 0)), 1, 1, 1, None).procs);
  }

  lemma KilledBySignal()
    ensures Step(S5(), SignalFg(2, [])) == S6()
  {
    assert GroupFrom(S5().procs, Running, 2) == Some(2);
    assert Foreground(S5().procs) == Some(2);
  }

  lemma Exits()
    ensures Step(S7(), ExitCurrent(0, 1)) == S8() && NextLineage(S7(), Kin(3, 2), ExitCurrent(0, 1)) == Kin(3, 2)
    ensures Possible(S9(), ReapSlot(2)) && Step(S9(), ReapSlot(2)) == S10()
  {
  }

  lemma HandedOver()
    ensures S0() == Boot(Idle()) && Kin(0, 0) == BootLineage()
    ensures S12().current == Some(2) && ZombieChild(S12(), 3) && Kin(3, 4).family[3] == Some(2) && Kin(3, 4).ids[2] == 4
  {
  }

  // The run, step by step, with its lineage.
  ghost predicate Leads(s: State, l: Lineage, op: Op, s': State, l': Lineage) {
    Possible(s, op) && s' == Step(s, op) && l' == NextLineage(s, l, op)
  }

  lemma LedEarly(i: nat)
    requires i < 6
    ensures Leads(States()[i], Lineages()[i], Ops()[i], States()[i + 1], Lineages()[i + 1])
  {
    hide Step, Kin, S0, S1, S2, S3, S4, S5, S6, S7, S8, S9, S10, S11, S12;
    Births();
    ThirdBirth();
    BirthKin();
    FirstSwitches();
    KilledBySignal();
  }

  lemma LedLate(i: nat)
    requires 6 <= i < 12
    ensures Leads(States()[i], Lineages()[i], Ops()[i], States()[i + 1], Lineages()[i + 1])
  {
    hide Step, Kin, S0, S1, S2, S3, S4, S5, S6, S7, S8, S9, S10, S11, S12;
    ForkStep();
    LaterSwitches();
    LastSwitch();
    Exits();
  }

  // fork can hand a process a zombie of another family: a run from boot.
  lemma ForkCrossesFamilies()
    ensures IsRun(States(), Ops()) && States()[0] == Boot(Idle()) && Lineages()[0] == BootLineage()
    ensures |Lineages()| == |States()|
    ensures forall i :: 0 <= i < |Ops()| ==> Lineages()[i + 1] == NextLineage(States()[i], Lineages()[i], Ops()[i])
    ensures States()[12].current == Some(2) && ZombieChild(States()[12], 3)
    ensures Lineages()[12].family[3] == Some(2) && Lineages()[12].ids[2] == 4
  {
    hide Step, NextLineage, Boot, BootLineage, Kin, S0, S1, S2, S3, S4, S5, S6, S7, S8, S9, S10, S11, S12, ZombieChild,
      Possible;
    HandedOver();
    forall i | 0 <= i < |Ops()|
      ensures Possible(States()[i], Ops()[i]) && States()[i + 1] == Step(States()[i], Ops()[i])
      ensures Lineages()[i + 1] == NextLineage(States()[i], Lineages()[i], Ops()[i])
    {
      if i < 6 {
        LedEarly(i);
      } else {
        LedLate(i);
      }
    }
  }
}
