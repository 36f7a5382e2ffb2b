/** What the kernel promises about whole runs. */
module Guarantees {
  import opened Machine
  import opened Eco
  import opened Fairness
  import opened Stacks
  import opened Sched
  import opened Kernel
  import opened Protocol
  import opened Transparency

  // ------------------------------------------------------- interrupt enable

  /** In every run in which nobody yields inside a critical section, interrupts are
      enabled exactly when the running task is outside all of them, although
      mstatus is not part of the saved frame: so no spawn() and no exit is ever
      interrupted halfway, and no task is suspended inside one. */
  lemma SectionsAreAtomic(cfg: Config, s: Sys, ls: seq<Label>)
    requires cfg.Valid() && Boot(s) && Possible(cfg, s, ls) && Controlled(cfg, s, ls)
    requires Steps(cfg, s, ls).Some?
    ensures var s' := Steps(cfg, s, ls).value;
            && (s'.cpu.mie <==> s'.Me().saved == [])
            && (s'.Me().saved != [] ==> forall w :: !Enabled(s', Tick(w)) && !Enabled(s', Irq(w)))
            && (s'.Me().saved == [] ==> forall w :: (s'.timerOn ==> Enabled(s', Tick(w))) && Enabled(s', Irq(w)))
            && forall i: nat :: i < s'.sch.tab.numTasks && s'.sch.tab.alive[i] && i != s'.Current() ==>
                 s'.locals[i].saved == []
  {
    BootInv(s);
    RunKeeps(cfg, s, ls);
    var s' := Steps(cfg, s, ls).value;
    forall i: nat | i < s'.sch.tab.numTasks && s'.sch.tab.alive[i] && i != s'.Current()
      ensures s'.locals[i].saved == []
    {
      assert SlotOk(s'.sch.tab, s'.locals, s'.book, i);
    }
  }

  /** A run of one more step. */
  lemma StepsMore(cfg: Config, s: Sys, s1: Sys, s': Sys, l: Label, ls: seq<Label>)
    requires cfg.Valid() && s.Shaped() && Enabled(s, l) && Next(cfg, s, l) == Some(s1)
    requires Possible(cfg, s1, ls) && Steps(cfg, s1, ls) == Some(s')
    ensures Possible(cfg, s, [l] + ls) && Steps(cfg, s, [l] + ls) == Some(s')
  {
    assert ([l] + ls)[1..] == ls;
  }

  lemma StepsTwoMore(cfg: Config, s: Sys, s1: Sys, s2: Sys, s': Sys, l1: Label, l2: Label, ls: seq<Label>)
    requires cfg.Valid() && s.Shaped() && Enabled(s, l1) && Next(cfg, s, l1) == Some(s1)
    requires Enabled(s1, l2) && Next(cfg, s1, l2) == Some(s2)
    requires Possible(cfg, s2, ls) && Steps(cfg, s2, ls) == Some(s')
    ensures Possible(cfg, s, [l1, l2] + ls) && Steps(cfg, s, [l1, l2] + ls) == Some(s')
  {
    StepsMore(cfg, s1, s2, s', l2, ls);
    StepsMore(cfg, s, s1, s', l1, [l2] + ls);
    assert [l1, l2] + ls == [l1] + ([l2] + ls);
  }

  lemma StepsFour(cfg: Config, s: Sys, s1: Sys, s2: Sys, s3: Sys, s4: Sys, l1: Label, l2: Label, l3: Label, l4: Label)
    requires cfg.Valid() && s.Shaped() && Enabled(s, l1) && Next(cfg, s, l1) == Some(s1)
    requires Enabled(s1, l2) && Next(cfg, s1, l2) == Some(s2)
    requires Enabled(s2, l3) && Next(cfg, s2, l3) == Some(s3)
    requires Enabled(s3, l4) && Next(cfg, s3, l4) == Some(s4)
    ensures var ls := [l1, l2, l3, l4];
            Possible(cfg, s, ls) && Steps(cfg, s, ls) == Some(s4)
  {
    StepsTwoMore(cfg, s2, s3, s4, s4, l3, l4, []);
    StepsTwoMore(cfg, s, s1, s2, s4, l1, l2, [l3, l4] + []);
    assert [l1, l2, l3, l4] == [l1, l2] + ([l3, l4] + []);
  }

  /** spawn()'s closure neither reads nor changes the caller's own control state. */
  lemma SpawnIgnoresMe(cfg: Config, s: Sys, spec: TaskSpec, l: Local, mie: bool)
    requires cfg.Valid() && s.Shaped()
    ensures SpawnIn(cfg, s.SetMe(l).SetMie(mie), spec) == SpawnIn(cfg, s, spec).SetMe(l).SetMie(mie)
    ensures SpawnIn(cfg, s.SetMie(mie), spec) == SpawnIn(cfg, s, spec).SetMie(mie)
    ensures SpawnIn(cfg, s, spec).Me() == s.Me() && SpawnIn(cfg, s, spec).cpu == s.cpu
    ensures SpawnIn(cfg, s, spec).Current() == s.Current()
  {
    SpawnSafe(s.sch.tab, spec);
    var t := SpawnIn(cfg, s, spec);
    assert SpawnIn(cfg, s.SetMe(l).SetMie(mie), spec).locals == t.SetMe(l).SetMie(mie).locals;
  }

  /** The end of a section that s was entered with. */
  lemma LeaveUndoes(cfg: Config, s: Sys)
    requires cfg.Valid() && s.Shaped() && s.Me().pending == None
    requires s.Me().phase.Body? || (s.Me().phase.Callback? && s.Me().saved != [])
    ensures var s' := s.SetMe(s.Me().(saved := s.Me().saved + [s.cpu.mie])).SetMie(false);
            Enabled(s', LeaveSection) && Next(cfg, s', LeaveSection) == Some(s)
  {
    var me := s.Me();
    var s' := s.SetMe(me.(saved := me.saved + [s.cpu.mie])).SetMie(false);
    assert s'.Me().saved[..|me.saved|] == me.saved;
    assert Next(cfg, s', LeaveSection).value.locals == s.locals;
  }

  /** The beginning of a section. */
  lemma EnterSection(cfg: Config, s: Sys) returns (s1: Sys, s2: Sys)
    requires cfg.Valid() && s.Shaped() && s.Me().pending == None
    requires s.Me().phase.Body? || s.Me().phase.Callback?
    ensures Enabled(s, ReadStatus) && Next(cfg, s, ReadStatus) == Some(s1)
    ensures s1.Shaped() && Enabled(s1, MaskIrq) && Next(cfg, s1, MaskIrq) == Some(s2)
    ensures s2 == s.SetMe(s.Me().(saved := s.Me().saved + [s.cpu.mie])).SetMie(false)
  {
    var me := s.Me();
    s1 := Next(cfg, s, ReadStatus).value;
    s2 := Next(cfg, s1, MaskIrq).value;
    assert s2.locals == s.SetMe(me.(saved := me.saved + [s.cpu.mie])).locals;
  }

  /** critical_section, step by step, leaves interrupts as it found them: the four
      steps of a spawn() call are one spawn, wherever the task calls it. */
  lemma SpawnIsOneBlock(cfg: Config, s: Sys, spec: TaskSpec)
    requires cfg.Valid() && s.Shaped() && s.Me().pending == None
    requires s.Me().phase.Body? || (s.Me().phase.Callback? && s.Me().saved != [])
    ensures var ls := [ReadStatus, MaskIrq, SpawnBody(spec), LeaveSection];
            Possible(cfg, s, ls) && Steps(cfg, s, ls) == Some(SpawnCall(cfg, s, spec))
  {
    var s1, s2 := EnterSection(cfg, s);
    var s3, s4 := SpawnIn(cfg, s2, spec), SpawnIn(cfg, s, spec);
    SpawnIgnoresMe(cfg, s, spec, s.Me().(saved := s.Me().saved + [s.cpu.mie]), false);
    LeaveUndoes(cfg, s4);
    assert Enabled(s2, SpawnBody(spec)) && Next(cfg, s2, SpawnBody(spec)) == Some(s3);
    StepsFour(cfg, s, s1, s2, s3, s4, ReadStatus, MaskIrq, SpawnBody(spec), LeaveSection);
  }

  /** No slot but the running one could be dispatched. */
  ghost predicate Alone(t: Table, sensor: Option<Byte>)
    requires t.Shaped()
  {
    forall q :: 0 <= q < t.numTasks && q != t.current ==> !Eligible(t, q, ThermalState(sensor, t.warm, t.hot))
  }

  /** The discipline is exactly what is needed: a yield keeps the interrupt-enable
      invariant if and only if the task is outside all critical sections or the
      yield comes straight back to it. */
  lemma YieldKeepsIff(cfg: Config, s: Sys, w: TrapWork)
    requires cfg.Valid() && Inv(s) && Enabled(s, Yield(w)) && Next(cfg, s, Yield(w)).Some?
    ensures Inv(Next(cfg, s, Yield(w)).value) <==>
            s.Me().saved == [] || !cfg.enabled || Alone(s.sch.tab, w.sensor)
  {
    var l := Yield(w);
    var t, s' := s.sch.tab, Next(cfg, s, l).value;
    HandledKeeps(cfg, s, l);
    TrapEffect(cfg, s, l);
    PickIsFirst(t, ThermalState(w.sensor, t.warm, t.hot));
    if s.Me().saved == [] {
      TrapKeeps(cfg, s, l);
    } else if s'.Current() != s.Current() {
      assert SlotOk(t, s.locals, s.book, s'.Current());
    } else {
      assert s'.sch.tab == t;
    }
  }

  /** A run in which it goes wrong: main spawns a task and yields inside one
      critical section. The new task runs outside all sections with interrupts
      off, and no tick can take the processor from it. */
  lemma YieldInSectionLeaks(cfg: Config, s: Sys, spec: TaskSpec, w: TrapWork)
    requires cfg.Valid() && cfg.enabled && Boot(s)
    requires cfg.mainLo + FRAME_SIZE <= s.cpu.x[SP] <= cfg.mainHi
    requires w == TrapWork([], map[], s.cpu.x, None)
    ensures var ls := [ReadStatus, MaskIrq, SpawnBody(spec), Yield(w)];
            && Possible(cfg, s, ls) && Steps(cfg, s, ls).Some?
            && var s' := Steps(cfg, s, ls).value;
               && s'.Current() == 1 && s'.Me().saved == [] && !s'.cpu.mie
               && forall w' :: !Enabled(s', Tick(w'))
  {
    var s1 := Next(cfg, s, ReadStatus).value;
    var s2 := Next(cfg, s1, MaskIrq).value;
    var s3 := Next(cfg, s2, SpawnBody(spec)).value;
    var l := Yield(w);
    BootInv(s);
    BootImplements(cfg, s);
    LeakStep(cfg, s2, AtBoot(s), spec, w);
    var s4 := Next(cfg, s3, l).value;
    StepsFour(cfg, s, s1, s2, s3, s4, ReadStatus, MaskIrq, SpawnBody(spec), l);
  }

  /** Its last two steps. */
  lemma LeakStep(cfg: Config, s: Sys, a: Tasks, spec: TaskSpec, w: TrapWork)
    requires cfg.Valid() && cfg.enabled && Inv(s) && Implements(cfg, s, a)
    requires s.sch.tab == InitTable() && s.Me().phase.Body? && s.Me().pending == None && s.Me().saved != []
    requires cfg.mainLo + FRAME_SIZE <= s.cpu.x[SP] <= cfg.mainHi
    requires w.ops == [] && w.writes == map[] && w.sensor == None
    ensures var s3 := SpawnIn(cfg, s, spec);
            && Enabled(s3, Yield(w)) && Next(cfg, s3, Yield(w)).Some?
            && var s4 := Next(cfg, s3, Yield(w)).value;
               s4.Current() == 1 && s4.Me().saved == [] && !s4.cpu.mie
  {
    var s3, l := SpawnIn(cfg, s, spec), Yield(w);
    LeakSpawn(spec);
    SpawnInKeeps(cfg, s, spec);
    SpawnImplements(cfg, s, a, spec);
    TrapImplements(cfg, s3, BeginTask(cfg, a, spec), l);
    HandledKeeps(cfg, s3, l);
    TrapEffect(cfg, s3, l);
    assert SlotOk(s3.sch.tab, s3.locals, s3.book, 1);
  }

  lemma LeakSpawn(spec: TaskSpec)
    ensures var t := Spawn(InitTable(), spec).0;
            t.numTasks == 2 && t.current == 0 && Dispatch(t, None).current == 1
  {
    var t := Spawn(InitTable(), spec).0;
    assert SpawnSlot(InitTable()) == 1;
    assert Eligible(t, 1, Cool);
  }

  // ------------------------------------------------------------ exit callbacks

  /** In every such run and for every spawn: the callback has been called exactly
      once if the task's exit took effect, and never otherwise; only a task whose
      function returned exits; and until its exit it keeps the slot it was given,
      so a returned task that has not exited is still on its way. */
  lemma CallbacksOnce(cfg: Config, s: Sys, ls: seq<Label>, u: nat)
    requires cfg.Valid() && Boot(s) && Possible(cfg, s, ls) && Controlled(cfg, s, ls)
    requires Steps(cfg, s, ls).Some? && u < |Steps(cfg, s, ls).value.book|
    ensures var s' := Steps(cfg, s, ls).value;
            var b := s'.book[u];
            && b.fired == (if b.exited && b.onExit.Some? then [b.onExit.value] else [])
            && (b.exited ==> b.returned)
            && (!b.exited ==>
                  && b.slot < s'.sch.tab.numTasks && s'.sch.tab.alive[b.slot] && s'.locals[b.slot].uid == u
                  && s'.sch.tab.onExit[b.slot] == b.onExit
                  && (b.returned <==> s'.locals[b.slot].phase.Returned? || s'.locals[b.slot].phase == HaveId(b.slot)))
  {
    BootInv(s);
    RunKeeps(cfg, s, ls);
    var s' := Steps(cfg, s, ls).value;
    assert EntryOk(s'.sch.tab, s'.locals, s'.book, u);
    assert SlotOk(s'.sch.tab, s'.locals, s'.book, s'.book[u].slot);
  }

  /** The exit of a task marks its own slot, and calls that slot's callback, even
      if it was preempted between reading CURRENT_TASK and its critical section. */
  lemma ExitNamesItself(cfg: Config, s: Sys, ls: seq<Label>)
    requires cfg.Valid() && Boot(s) && Possible(cfg, s, ls) && Controlled(cfg, s, ls)
    requires Steps(cfg, s, ls).Some? && Enabled(Steps(cfg, s, ls).value, MarkDead)
    ensures var s' := Steps(cfg, s, ls).value;
            && s'.Me().phase == HaveId(s'.Current()) && s'.Current() != 0 && s'.sch.tab.alive[s'.Current()]
            && s'.Me().uid < |s'.book| && s'.book[s'.Me().uid].fired == []
            && s'.sch.tab.onExit[s'.Current()] == s'.book[s'.Me().uid].onExit
  {
    BootInv(s);
    RunKeeps(cfg, s, ls);
    var s' := Steps(cfg, s, ls).value;
    assert SlotOk(s'.sch.tab, s'.locals, s'.book, s'.Current());
    assert EntryOk(s'.sch.tab, s'.locals, s'.book, s'.Me().uid);
  }

  lemma {:induction false} QuietIsControlled(cfg: Config, s: Sys, ls: seq<Label>)
    requires cfg.Valid() && s.Shaped() && Possible(cfg, s, ls)
    requires forall l :: l in ls ==> !l.Yield? && !l.StartTimer?
    ensures Controlled(cfg, s, ls)
    decreases |ls|
  {
    if ls != [] && Next(cfg, s, ls[0]).Some? {
      QuietIsControlled(cfg, Next(cfg, s, ls[0]).value, ls[1..]);
    }
  }

  /** Exits happen: a task that returns can always go through task_exited, and when
      nothing comes between, its slot is free, its callback has been called once,
      and it is left yielding outside all sections, with interrupts on. */
  lemma ExitHappens(cfg: Config, s: Sys) returns (s': Sys)
    requires cfg.Valid() && Inv(s) && s.Current() != 0
    requires s.Me().phase.Body? && s.Me().saved == [] && s.Me().pending == None
    ensures var ls := [Return, LoadId, ReadStatus, MaskIrq, MarkDead, LeaveSection];
            Possible(cfg, s, ls) && Controlled(cfg, s, ls) && Steps(cfg, s, ls) == Some(s')
    ensures var i, t := s.Current(), s.sch.tab;
            && s'.sch.tab == t.(alive := t.alive[i := false], onExit := t.onExit[i := None])
            && s'.Me() == Local(s.Me().uid, None, [], Done) && s'.cpu.mie && s'.cpu.pc == cfg.taskExited
            && s.Me().uid < |s'.book| && s'.book[s.Me().uid].exited
            && s'.book[s.Me().uid].fired == if t.onExit[i].Some? then [t.onExit[i].value] else []
  {
    assert SlotOk(s.sch.tab, s.locals, s.book, s.Current());
    assert EntryOk(s.sch.tab, s.locals, s.book, s.Me().uid);
    var s1, s2 := ExitStart(cfg, s);
    s' := ExitSection(cfg, s2);
    var ls := [ReadStatus, MaskIrq, MarkDead, LeaveSection];
    StepsTwoMore(cfg, s, s1, s2, s', Return, LoadId, ls);
    assert [Return, LoadId] + ls == [Return, LoadId, ReadStatus, MaskIrq, MarkDead, LeaveSection];
    QuietIsControlled(cfg, s, [Return, LoadId] + ls);
  }

  lemma ExitStart(cfg: Config, s: Sys) returns (s1: Sys, s2: Sys)
    requires cfg.Valid() && s.Shaped() && s.Current() != 0 && s.Me() == Local(s.Me().uid, None, [], Body)
    requires s.Me().uid < |s.book|
    ensures Enabled(s, Return) && Next(cfg, s, Return) == Some(s1)
    ensures s1.Shaped() && Enabled(s1, LoadId) && Next(cfg, s1, LoadId) == Some(s2)
    ensures var i, u := s.Current(), s.Me().uid;
            s2 == s.(cpu := s.cpu.(pc := cfg.taskExited), locals := s.locals[i := Local(u, None, [], HaveId(i))],
                     book := s.book[u := s.book[u].(returned := true)])
  {
    s1 := Next(cfg, s, Return).value;
    s2 := Next(cfg, s1, LoadId).value;
    assert s2.locals == s.locals[s.Current() := Local(s.Me().uid, None, [], HaveId(s.Current()))];
  }

  lemma ExitSection(cfg: Config, s: Sys) returns (s': Sys)
    requires cfg.Valid() && s.Shaped() && s.Me() == Local(s.Me().uid, None, [], HaveId(s.Current()))
    requires s.cpu.mie && s.Me().uid < |s.book|
    ensures var ls := [ReadStatus, MaskIrq, MarkDead, LeaveSection];
            Possible(cfg, s, ls) && Steps(cfg, s, ls) == Some(s')
    ensures var i, u, t := s.Current(), s.Me().uid, s.sch.tab;
            && s' == s.(sch := s.sch.(tab := Kill(t, i)),
                        locals := s.locals[i := Local(u, None, [], Done)],
                        book := s.book[u := s.book[u].(exited := true, fired := s.book[u].fired
                                              + if t.onExit[i].Some? then [t.onExit[i].value] else [])])
  {
    var s1 := Next(cfg, s, ReadStatus).value;
    var s2 := Next(cfg, s1, MaskIrq).value;
    var s3 := Next(cfg, s2, MarkDead).value;
    assert s3.Me() == Local(s.Me().uid, None, [true], Callback);
    s' := Next(cfg, s3, LeaveSection).value;
    assert s3.Me().saved[..0] == [];
    StepsFour(cfg, s, s1, s2, s3, s', ReadStatus, MaskIrq, MarkDead, LeaveSection);
    assert s'.locals == s.locals[s.Current() := Local(s.Me().uid, None, [], Done)];
  }

  // --------------------------------------------------------- slots and turns

  /** The kernel's table is never longer than it had to be. */
  lemma NoSlotLeak(cfg: Config, s: Sys, ls: seq<Label>)
    requires cfg.Valid() && Boot(s) && Possible(cfg, s, ls) && Controlled(cfg, s, ls)
    requires Steps(cfg, s, ls).Some?
    ensures Steps(cfg, s, ls).value.sch.tab.numTasks - 1 == Peak(InitTable(), History(cfg, ls))
  {
    BootInv(s);
    RunKeeps(cfg, s, ls);
    HighWater(History(cfg, ls));
  }

  /** From any state of a run on, a slot that is alive and eligible at every
      dispatch waits for fewer dispatches than the table is long in the end, and
      no other slot has two turns meanwhile. */
  lemma NobodyStarves(cfg: Config, s: Sys, ls: seq<Label>, w: nat)
    requires cfg.Valid() && Inv(s) && Possible(cfg, s, ls) && Controlled(cfg, s, ls)
    requires Steps(cfg, s, ls).Some? && w < s.sch.tab.numTasks && Waits(s.sch.tab, History(cfg, ls), w)
    ensures Dispatches(History(cfg, ls)) < Steps(cfg, s, ls).value.sch.tab.numTasks <= MAX_TASKS
    ensures forall j: nat :: Turns(s.sch.tab, History(cfg, ls), j) <= 1
  {
    RunKeeps(cfg, s, ls);
    BoundedWaiting(s.sch.tab, History(cfg, ls), w);
  }

  /** Heat decides who runs: in every reachable state, a tick or a yield makes
      current the first slot, after the interrupted one in cyclic order, that may run
      at the reading: main, or a live task that is High if the reading has reached
      the hot threshold and not Low if it has reached the warm one. The thresholds
      are those that the handler has left. */
  lemma HeatDecidesWhoRuns(cfg: Config, s: Sys, l: Label)
    requires cfg.Valid() && cfg.enabled && Orderly(s) && (l.Tick? || l.Yield?)
    requires Enabled(s, l) && Next(cfg, s, l).Some?
    ensures var t, t' := Handled(cfg, s, l).sch.tab, Next(cfg, s, l).value.sch.tab;
            var p, sensor := t'.current, l.work.sensor;
            && t.current == s.Current() && t' == t.(current := p) && p < t.numTasks && t.alive[p]
            && (p != 0 && sensor.Some? && sensor.value >= t.hot ==> t.priority[p] == High)
            && (p != 0 && sensor.Some? && sensor.value >= t.warm ==> t.priority[p] != Low)
            && forall q: nat ::
                 && q < t.numTasks && t.alive[q]
                 && (q == 0 || sensor == None
                     || ((sensor.value >= t.hot ==> t.priority[q] == High) && (sensor.value >= t.warm ==> t.priority[q] != Low)))
                 ==> Hops(t, p) <= Hops(t, q)
  {
    HandledKeeps(cfg, s, l);
    TrapEffect(cfg, s, l);
    DispatchAllowed(Handled(cfg, s, l).sch.tab, l.work.sensor);
  }

  /** Whoever a dispatch resumes is a live slot of the table, outside all critical
      sections, and not on its way out any more than before it was suspended. A
      task that has exited is never resumed. */
  lemma OnlyLiveResumed(cfg: Config, s: Sys, l: Label)
    requires cfg.Valid() && cfg.enabled && Inv(s) && (l.Tick? || l.Yield?)
    requires Enabled(s, l) && ControlOk(s, l) && Next(cfg, s, l).Some?
    ensures var s' := Next(cfg, s, l).value;
            && s'.Current() < s'.sch.tab.numTasks && s'.sch.tab.alive[s'.Current()]
            && !s'.Me().phase.Callback? && !s'.Me().phase.Done? && s'.Me().saved == []
  {
    StepKeeps(cfg, s, l);
    HandledKeeps(cfg, s, l);
    TrapEffect(cfg, s, l);
    var t, s' := Handled(cfg, s, l).sch.tab, Next(cfg, s, l).value;
    PickIsFirst(t, ThermalState(l.work.sensor, t.warm, t.hot));
    assert SlotOk(s'.sch.tab, s'.locals, s'.book, s'.Current());
  }

  // ------------------------------------------------------------ transparency

  /** Every disciplined run from boot is a run of the machine in which each task
      has registers and a stack of its own; it does not panic, and the canaries of
      all live tasks are in place after it. */
  lemma KernelIsTransparent(cfg: Config, s: Sys, ls: seq<Label>)
    requires cfg.Valid() && Boot(s)
    requires Possible(cfg, s, ls) && Controlled(cfg, s, ls) && Contained(cfg, s, ls)
    ensures Steps(cfg, s, ls).Some?
    ensures Implements(cfg, Steps(cfg, s, ls).value, Play(cfg, AtBoot(s), ls))
    ensures CanariesIntact(cfg, Steps(cfg, s, ls).value.sch)
  {
    BootInv(s);
    BootImplements(cfg, s);
    RunImplements(cfg, s, AtBoot(s), ls);
    var sch := Steps(cfg, s, ls).value.sch;
    forall id | 1 <= id < sch.tab.numTasks && sch.tab.alive[id] ensures CanaryOk(cfg, sch.mem, id) {
      assert InUse(sch.tab, id);
    }
  }

  /** A dispatch always loads a saved sp that lies in the chosen task's own stack
      and whose frame is that task's: never another's, never an unseeded one. */
  lemma DispatchLoadsOwnFrame(cfg: Config, s: Sys, a: Tasks, l: Label)
    requires cfg.Valid() && cfg.enabled && Orderly(s) && Implements(cfg, s, a)
    requires (l.Tick? || l.Yield?) && MemoryOk(cfg, s, l)
    ensures var s1, sp := Handled(cfg, s, l), EnterTrap(s, l.work).cpu.x[A0];
            var r := NextTask(cfg, s1.sch, sp, l.work.sensor);
            && r.Some?
            && var (sch, next) := r.value;
               Parked(cfg, sch.mem, next, sch.tab.current, Act(cfg, a, l).ctx[sch.tab.current])
  {
    HandledKeeps(cfg, s, l);
    HandledParks(cfg, s, a, l);
    ActOnTrap(cfg, a, l);
    SwitchParks(cfg, Handled(cfg, s, l).sch, EnterTrap(s, l.work).cpu.x[A0], Prepared(cfg, a, l), l.work.sensor);
  }

  /** Task i runs in none of the states before the last one. */
  ghost predicate StaysAway(cfg: Config, s: Sys, ls: seq<Label>, i: nat)
    requires cfg.Valid() && s.Shaped() && Possible(cfg, s, ls)
    decreases |ls|
  {
    ls != [] ==>
      && s.Current() != i
      && (Next(cfg, s, ls[0]).Some? ==> StaysAway(cfg, Next(cfg, s, ls[0]).value, ls[1..], i))
  }

  /** Nobody but task i itself changes its private context. */
  lemma {:induction false} OpsSpare(cfg: Config, a: Tasks, ops: seq<HandlerOp>, i: nat)
    requires cfg.Valid() && a.Shaped() && i < a.tab.numTasks && (a.tab.alive[i] || i == a.tab.current)
    ensures var a' := BeginOps(cfg, a, ops);
            && a'.ctx[i] == a.ctx[i] && a'.tab.current == a.tab.current && a'.tab.alive[i] == a.tab.alive[i]
            && a.tab.numTasks <= a'.tab.numTasks
    decreases |ops|
  {
    if ops != [] {
      match ops[0] {
        case SpawnOp(spec) =>
          SpawnSafe(a.tab, spec);
          assert i == 0 || i in Occupied(a.tab);
          OpsSpare(cfg, BeginTask(cfg, a, spec), ops[1..], i);
        case WarmOp(b) => OpsSpare(cfg, a.(tab := a.tab.(warm := b)), ops[1..], i);
        case HotOp(b) => OpsSpare(cfg, a.(tab := a.tab.(hot := b)), ops[1..], i);
      }
    }
  }

  lemma ActSpares(cfg: Config, a: Tasks, l: Label, i: nat)
    requires cfg.Valid() && a.Shaped() && i < a.tab.numTasks && a.tab.alive[i] && i != a.tab.current
    ensures var a' := Act(cfg, a, l);
            a'.ctx[i] == a.ctx[i] && i < a'.tab.numTasks && a'.tab.alive[i]
  {
    match l
    case SpawnBody(spec) =>
      SpawnSafe(a.tab, spec);
      assert i == 0 || i in Occupied(a.tab);
    case Tick(w) => OpsSpare(cfg, Write(cfg, a, w.writes), w.ops, i);
    case Irq(w) => OpsSpare(cfg, Write(cfg, a, w.writes), w.ops, i);
    case _ =>
  }

  lemma {:induction false} AwayUnchanged(cfg: Config, s: Sys, a: Tasks, ls: seq<Label>, i: nat)
    requires cfg.Valid() && Inv(s) && Implements(cfg, s, a)
    requires Possible(cfg, s, ls) && Controlled(cfg, s, ls) && Contained(cfg, s, ls)
    requires i < s.sch.tab.numTasks && s.sch.tab.alive[i] && StaysAway(cfg, s, ls, i)
    ensures Play(cfg, a, ls).ctx[i] == a.ctx[i]
    decreases |ls|
  {
    if ls != [] {
      StepImplements(cfg, s, a, ls[0]);
      StepKeeps(cfg, s, ls[0]);
      ActSpares(cfg, a, ls[0], i);
      AwayUnchanged(cfg, Next(cfg, s, ls[0]).value, Act(cfg, a, ls[0]), ls[1..], i);
    }
  }

  /** A preempted or yielding task resumes with the registers, the sp and the
      stack bytes it had when it was trapped, at the same pc, or behind its ecall,
      whatever all the others did in between. */
  lemma ResumedAsTrapped(cfg: Config, s: Sys, a: Tasks, l: Label, ls: seq<Label>)
    requires cfg.Valid() && Inv(s) && Implements(cfg, s, a) && s.sch.tab.alive[s.Current()]
    requires IsTrap(l) && Enabled(s, l) && ControlOk(s, l) && MemoryOk(cfg, s, l) && Next(cfg, s, l).Some?
    requires var s1 := Next(cfg, s, l).value;
             && Possible(cfg, s1, ls) && Controlled(cfg, s1, ls) && Contained(cfg, s1, ls)
             && StaysAway(cfg, s1, ls, s.Current())
             && Steps(cfg, s1, ls).Some? && Steps(cfg, s1, ls).value.Current() == s.Current()
    ensures var s' := Steps(cfg, Next(cfg, s, l).value, ls).value;
            && (forall r: Reg :: Private(r) ==> s'.cpu.x[r] == s.cpu.x[r])
            && s'.cpu.pc == (if l.Yield? then (s.cpu.pc + 4) % 0x1_0000_0000 else s.cpu.pc)
            && forall k :: k in a.ctx[s.Current()].stack ==> ByteAt(s'.sch.mem, k) == ByteAt(s.sch.mem, k)
  {
    var i, s1 := s.Current(), Next(cfg, s, l).value;
    var a1 := Act(cfg, a, l);
    StepImplements(cfg, s, a, l);
    StepKeeps(cfg, s, l);
    TrapLeaves(cfg, a, l);
    RunImplements(cfg, s1, a1, ls);
    AwayUnchanged(cfg, s1, a1, ls, i);
    var s' := Steps(cfg, s1, ls).value;
    var c, c' := a.ctx[i], Play(cfg, a1, ls).ctx[i];
    assert c'.x == c.x && c'.stack == c.stack;
    assert Running(cfg, s'.cpu, s'.sch.mem, i, c') && Running(cfg, s.cpu, s.sch.mem, i, c);
  }

  /** A trap leaves the trapped task's context alone, except to skip its ecall. */
  lemma TrapLeaves(cfg: Config, a: Tasks, l: Label)
    requires cfg.Valid() && a.Shaped() && IsTrap(l) && a.tab.alive[a.tab.current]
    ensures var a', i := Act(cfg, a, l), a.tab.current;
            && a'.ctx[i] == a.ctx[i].(pc := if l.Yield? then Plus(a.ctx[i].pc, 4) else a.ctx[i].pc)
            && i < a'.tab.numTasks && a'.tab.alive[i]
  {
    if !l.Yield? {
      OpsSpare(cfg, Write(cfg, a, l.work.writes), l.work.ops, a.tab.current);
    }
  }

  /** A spawned task starts at its entry with zeroed registers, on its own stack,
      and returning from its function leads to task_exited. */
  lemma FirstRun(cfg: Config, s: Sys, a: Tasks, spec: TaskSpec, id: nat, ls: seq<Label>)
    requires cfg.Valid() && Inv(s) && Implements(cfg, s, a)
    requires Enabled(s, SpawnBody(spec)) && Spawn(s.sch.tab, spec).1 == Some(id)
    requires var s1 := SpawnIn(cfg, s, spec);
             && Possible(cfg, s1, ls) && Controlled(cfg, s1, ls) && Contained(cfg, s1, ls)
             && StaysAway(cfg, s1, ls, id)
             && Steps(cfg, s1, ls).Some? && Steps(cfg, s1, ls).value.Current() == id
    ensures var s' := Steps(cfg, SpawnIn(cfg, s, spec), ls).value;
            && s'.cpu.pc == spec.entry
            && s'.cpu.x[RA] == cfg.taskExited
            && Floor(cfg, id) + FRAME_SIZE <= s'.cpu.x[SP] <= Top(cfg, id) && s'.cpu.x[SP] % 16 == 0
            && forall r: Reg :: Private(r) && r != RA && r != SP ==> s'.cpu.x[r] == 0
  {
    var s1, a1 := SpawnIn(cfg, s, spec), BeginTask(cfg, a, spec);
    SpawnSafe(s.sch.tab, spec);
    SpawnImplements(cfg, s, a, spec);
    StepKeeps(cfg, s, SpawnBody(spec));
    RunImplements(cfg, s1, a1, ls);
    AwayUnchanged(cfg, s1, a1, ls, id);
    var s' := Steps(cfg, s1, ls).value;
    FreshRuns(cfg, s'.cpu, s'.sch.mem, id, spec.entry);
  }

  lemma FreshRuns(cfg: Config, u: Cpu, m: Memory, id: nat, entry: Word)
    requires cfg.Valid() && 1 <= id < MAX_TASKS && Running(cfg, u, m, id, Fresh(cfg, id, entry))
    ensures u.pc == entry && u.x[RA] == cfg.taskExited
    ensures Floor(cfg, id) + FRAME_SIZE <= u.x[SP] <= Top(cfg, id) && u.x[SP] % 16 == 0
    ensures forall r: Reg :: Private(r) && r != RA && r != SP ==> u.x[r] == 0
  {
    FrameGeometry(cfg, id, if id == 1 then 2 else 1);
    var c := Fresh(cfg, id, entry);
    assert u.x[RA] == c.x[RA] && u.x[SP] == c.x[SP];
  }

  // ------------------------------------------------------- a disciplined run

  ghost predicate Runs(cfg: Config, s: Sys, ls: seq<Label>, s': Sys) {
    && cfg.Valid() && s.Shaped()
    && Possible(cfg, s, ls) && Controlled(cfg, s, ls) && Contained(cfg, s, ls)
    && Steps(cfg, s, ls) == Some(s')
  }

  lemma RunsMore(cfg: Config, s: Sys, s1: Sys, s': Sys, l: Label, ls: seq<Label>)
    requires cfg.Valid() && s.Shaped() && Enabled(s, l) && ControlOk(s, l) && MemoryOk(cfg, s, l)
    requires Next(cfg, s, l) == Some(s1) && Runs(cfg, s1, ls, s')
    ensures Runs(cfg, s, [l] + ls, s')
  {
    assert ([l] + ls)[1..] == ls;
  }

  /** The steps of a spawn() call in a disciplined run. */
  lemma SpawnRuns(cfg: Config, s: Sys, s': Sys, spec: TaskSpec, ls: seq<Label>)
    requires cfg.Valid() && s.Shaped() && s.Me().pending == None && s.Me().phase.Body?
    requires Runs(cfg, SpawnIn(cfg, s, spec), ls, s')
    ensures Runs(cfg, s, [ReadStatus] + ([MaskIrq] + ([SpawnBody(spec)] + ([LeaveSection] + ls))), s')
  {
    var s1, s2 := EnterSection(cfg, s);
    var s3, s4 := SpawnIn(cfg, s2, spec), SpawnIn(cfg, s, spec);
    SpawnIgnoresMe(cfg, s, spec, s.Me().(saved := s.Me().saved + [s.cpu.mie]), false);
    LeaveUndoes(cfg, s4);
    RunsMore(cfg, s3, s4, s', LeaveSection, ls);
    RunsMore(cfg, s2, s3, s', SpawnBody(spec), [LeaveSection] + ls);
    RunsMore(cfg, s1, s2, s', MaskIrq, [SpawnBody(spec)] + ([LeaveSection] + ls));
    RunsMore(cfg, s, s1, s', ReadStatus, [MaskIrq] + ([SpawnBody(spec)] + ([LeaveSection] + ls)));
  }

  /** What the promises are about does happen: from every boot state with room for
      a frame, main can enable the timer and spawn a task, and the next tick starts
      that task at its entry, with interrupts on. */
  lemma TickStartsTask(cfg: Config, s: Sys, spec: TaskSpec, w: TrapWork) returns (ls: seq<Label>, s': Sys)
    requires cfg.Valid() && cfg.enabled && Boot(s)
    requires cfg.mainLo + FRAME_SIZE <= s.cpu.x[SP] <= cfg.mainHi
    requires w == TrapWork([], map[], s.cpu.x, None)
    ensures Runs(cfg, s, ls, s') && Tick(w) in ls
    ensures s'.Current() == 1 && s'.cpu.mie && s'.cpu.pc == spec.entry && s'.cpu.x[RA] == cfg.taskExited
  {
    var s1 := Next(cfg, s, StartTimer).value;
    BootInv(s);
    BootImplements(cfg, s);
    StepKeeps(cfg, s, StartTimer);
    s' := FirstTick(cfg, s1, AtBoot(s), spec, w);
    RunsMore(cfg, SpawnIn(cfg, s1, spec), s', s', Tick(w), []);
    assert [Tick(w)] + [] == [Tick(w)];
    SpawnRuns(cfg, s1, s', spec, [Tick(w)]);
    ls := [ReadStatus] + ([MaskIrq] + ([SpawnBody(spec)] + ([LeaveSection] + [Tick(w)])));
    RunsMore(cfg, s, s1, s', StartTimer, ls);
    assert ls[4] == Tick(w);
    ls := [StartTimer] + ls;
    assert ls[5] == Tick(w);
  }

  /** Its spawn and its tick. */
  lemma FirstTick(cfg: Config, s: Sys, a: Tasks, spec: TaskSpec, w: TrapWork) returns (s': Sys)
    requires cfg.Valid() && cfg.enabled && Inv(s) && Implements(cfg, s, a)
    requires s.sch.tab == InitTable() && s.timerOn && s.Me().saved == []
    requires cfg.mainLo + FRAME_SIZE <= s.cpu.x[SP] <= cfg.mainHi
    requires w.ops == [] && w.writes == map[] && w.sensor == None
    ensures var s2 := SpawnIn(cfg, s, spec);
            && Enabled(s2, Tick(w)) && MemoryOk(cfg, s2, Tick(w))
            && Next(cfg, s2, Tick(w)) == Some(s')
    ensures s'.Current() == 1 && s'.cpu.mie && s'.cpu.pc == spec.entry && s'.cpu.x[RA] == cfg.taskExited
  {
    var s2, l := SpawnIn(cfg, s, spec), Tick(w);
    LeakSpawn(spec);
    SpawnInKeeps(cfg, s, spec);
    SpawnImplements(cfg, s, a, spec);
    TrapImplements(cfg, s2, BeginTask(cfg, a, spec), l);
    s' := Next(cfg, s2, l).value;
    FirstTickContext(cfg, a, spec, l);
    FreshRuns(cfg, s'.cpu, s'.sch.mem, 1, spec.entry);
    TrapEffect(cfg, s2, l);
  }

  lemma FirstTickContext(cfg: Config, a: Tasks, spec: TaskSpec, l: Label)
    requires cfg.Valid() && cfg.enabled && a.Shaped() && a.tab == InitTable()
    requires l.Tick? && l.work.ops == [] && l.work.sensor == None
    ensures var a' := Act(cfg, BeginTask(cfg, a, spec), l);
            a'.tab.current == 1 && a'.ctx[1] == Fresh(cfg, 1, spec.entry)
  {
    LeakSpawn(spec);
    SpawnSafe(a.tab, spec);
  }

  // ---------------------------------------------------------------- canaries

  predicate NoStore(code: seq<Instr>) {
    forall k :: 0 <= k < |code| ==> !code[k].Sw?
  }

  lemma {:induction false} MemoryStays(c: Core, code: seq<Instr>)
    requires NoStore(code)
    ensures Exec(c, code).mem == c.mem
    decreases |code|
  {
    if code != [] {
      MemoryStays(Execute(c, code[0]), code[1..]);
    }
  }

  /** Fail-stop, for every state, whatever its tasks have written where: a dispatch
      panics exactly when the word at the bottom of a live task's stack is no longer
      the canary at that moment, so no dispatch completes past a damaged one. */
  lemma OverflowStops(cfg: Config, s: Sys, l: Label)
    requires cfg.Valid() && cfg.enabled && s.Shaped() && Enabled(s, l) && (l.Tick? || l.Yield?)
    ensures var sch := Handled(cfg, s, l).sch;
            Next(cfg, s, l) == None <==>
            exists id: nat :: 1 <= id < sch.tab.numTasks && sch.tab.alive[id]
                              && LoadWord(sch.mem, cfg.base + (id - 1) * 2048) != 0xC0FFEE54
    ensures Next(cfg, s, l).Some? ==>
              var sch := Next(cfg, s, l).value.sch;
              forall id: nat :: 1 <= id < sch.tab.numTasks && sch.tab.alive[id] ==>
                LoadWord(sch.mem, cfg.base + (id - 1) * 2048) == 0xC0FFEE54
  {
    var sp, s1 := EnterTrap(s, l.work).cpu.x[A0], Handled(cfg, s, l);
    if CanariesIntact(cfg, s1.sch) {
      var (sch, next) := NextTask(cfg, s1.sch, sp, l.work.sensor).value;
      ExitShape();
      assert NoStore(EXIT_HEAD + Loads(0) + EXIT_TAIL);
      MemoryStays(Core(s1.cpu.(x := l.work.regs[A0 := next]), sch.mem), TRAP_EXIT);
      CanaryWords(cfg, s1.sch);
    } else {
      CanaryWords(cfg, s1.sch);
    }
  }
}
