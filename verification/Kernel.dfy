/** The whole machine: one hart, memory, the scheduler, and the tasks, as a step
    relation. A step is either some work of the running task or a trap.

    The control state of each task (where it is in spawn(), critical_section() and
    task_exited()) lives in its own registers and stack; it is made explicit here
    in Local. Interrupt-enable rules are those of sections 3.1.6.1, 3.3.1 and
    3.3.2 of the RISC-V Privileged Architecture, version 20211203. */
module Kernel {
  import opened Machine
  import opened Eco
  import opened Stacks
  import opened Sched

  // ----------------------------------------------------------------- states

  /** Where a task is on its way out. */
  datatype Phase =
    | Body               // in its own code
    | Returned           // at the start of task_exited
    | HaveId(id: nat)    // CURRENT_TASK has been read
    | Callback           // marked dead, callback running
    | Done               // yielding forever

  /** pending: mstatus.MIE as read by a critical_section that has not cleared it
      yet; saved: what the critical sections it is inside of have read. */
  datatype Local = Local(uid: nat, pending: Option<bool>, saved: seq<bool>, phase: Phase)

  /** History of one successful spawn (main is number 0): its slot, its callback,
      whether its function has returned and its exit taken effect, and the
      callbacks that were called for it. */
  datatype Incarnation = Incarnation(slot: nat, onExit: Option<Word>, returned: bool, exited: bool, fired: seq<Word>)

  datatype Sys = Sys(cpu: Cpu, sch: State, timerOn: bool, locals: seq<Local>, book: seq<Incarnation>) {
    predicate Shaped() {
      sch.Shaped() && |locals| == MAX_TASKS
    }

    function Current(): nat {
      sch.tab.current
    }

    function Me(): Local
      requires Shaped()
    {
      locals[Current()]
    }

    function SetMe(l: Local): (s: Sys)
      requires Shaped()
      ensures s.Shaped()
    {
      this.(locals := locals[Current() := l])
    }

    function SetMie(mie: bool): (s: Sys)
      ensures Shaped() ==> s.Shaped()
    {
      this.(cpu := cpu.(mie := mie))
    }
  }

  // ----------------------------------------------------------------- labels

  /** What a registered interrupt handler may do with the scheduler. */
  datatype HandlerOp = SpawnOp(spec: TaskSpec) | WarmOp(warm: Byte) | HotOp(hot: Byte)

  /** What a trap's Rust code did besides what is modelled: the scheduler calls of
      the registered handler, bytes written, registers left, sensor reading. */
  datatype TrapWork = TrapWork(ops: seq<HandlerOp>, writes: Memory, regs: Regs, sensor: Option<Byte>)

  datatype Label =
    | Compute(x: Regs, pc: Word, writes: Memory)  // any instructions of the task
    | ReadStatus                                  // critical_section: csrr
    | MaskIrq                                     // critical_section: csrc
    | LeaveSection                                // critical_section: csrs or not
    | SpawnBody(spec: TaskSpec)                   // spawn()'s closure
    | SetWarm(warm: Byte)
    | SetHot(hot: Byte)
    | Return                                      // the task's function returns
    | LoadId                                      // task_exited reads CURRENT_TASK
    | MarkDead                                    // task_exited's closure, up to the callback
    | StartTimer                                  // init_periodic_timer enables interrupts
    | Tick(work: TrapWork)                        // machine-timer interrupt
    | Irq(work: TrapWork)                         // any other local interrupt
    | Yield(work: TrapWork)                       // ecall

  predicate IsTrap(l: Label) {
    l.Tick? || l.Irq? || l.Yield?
  }

  /** What the code of the running task can do next. Interrupts are taken when MIE
      is set, whatever the task is doing. */
  predicate Enabled(s: Sys, l: Label)
    requires s.Shaped()
  {
    var me := s.Me();
    if l.Tick? then s.cpu.mie && s.timerOn
    else if l.Irq? then s.cpu.mie
    else if l.MaskIrq? then me.pending.Some?
    else me.pending.None? && match l
      case Compute(_, _, _) => true
      case ReadStatus => me.phase.Body? || me.phase.Callback? || (me.phase.HaveId? && me.saved == [])
      case LeaveSection => me.saved != [] && (me.phase.Body? || me.phase.Callback?)
      case SpawnBody(_) => me.saved != [] && (me.phase.Body? || me.phase.Callback?)
      case SetWarm(_) => me.phase.Body? || me.phase.Callback?
      case SetHot(_) => me.phase.Body? || me.phase.Callback?
      case Return => me.phase.Body? && me.saved == [] && s.Current() != 0
      case LoadId => me.phase.Returned?
      case MarkDead => me.phase.HaveId? && |me.saved| == 1 && me.phase.id < MAX_TASKS
      case StartTimer => me.phase.Body?
      case Yield(_) => me.phase.Body? || me.phase.Callback? || me.phase.Done?
  }

  // ------------------------------------------------------------------- steps

  ghost function SpawnIn(cfg: Config, s: Sys, spec: TaskSpec): (s': Sys)
    requires cfg.Valid() && s.Shaped()
    ensures s'.Shaped()
  {
    var (sch, r) := SpawnTask(cfg, s.sch, spec);
    match r
    case None => s.(sch := sch)
    case Some(id) =>
      s.(sch := sch,
         locals := s.locals[id := Local(|s.book|, None, [], Body)],
         book := s.book + [Incarnation(id, spec.onExit, false, false, [])])
  }

  /** spawn() with its critical_section, when nothing interrupts it. */
  ghost function SpawnCall(cfg: Config, s: Sys, spec: TaskSpec): (s': Sys)
    requires cfg.Valid() && s.Shaped()
    ensures s'.Shaped()
  {
    var s' := SpawnIn(cfg, s.SetMie(false), spec);
    if s.cpu.mie then s'.SetMie(true) else s'
  }

  ghost function SetTable(s: Sys, t: Table): (s': Sys)
    requires s.Shaped() && t.Shaped()
    ensures s'.Shaped()
  {
    s.(sch := s.sch.(tab := t))
  }

  ghost function RunOp(cfg: Config, s: Sys, op: HandlerOp): (s': Sys)
    requires cfg.Valid() && s.Shaped()
    ensures s'.Shaped()
  {
    match op
    case SpawnOp(spec) => SpawnCall(cfg, s, spec)
    case WarmOp(b) => SetTable(s, s.sch.tab.(warm := b))
    case HotOp(b) => SetTable(s, s.sch.tab.(hot := b))
  }

  ghost function RunOps(cfg: Config, s: Sys, ops: seq<HandlerOp>): (s': Sys)
    requires cfg.Valid() && s.Shaped()
    ensures s'.Shaped()
    decreases |ops|
  {
    if ops == [] then s else RunOps(cfg, RunOp(cfg, s, ops[0]), ops[1..])
  }

  /** Entry code of the trap handler; the result's a0 is the frame's address. */
  ghost function EnterTrap(s: Sys, w: TrapWork): (s': Sys)
    requires s.Shaped()
    ensures s'.Shaped()
  {
    var c := Exec(Core(TakeTrap(s.cpu), s.sch.mem), TRAP_ENTRY);
    s.(cpu := c.cpu, sch := s.sch.(mem := c.mem + w.writes))
  }

  /** handle_yield's first lines: the task will resume behind its ecall. */
  ghost function SkipEcall(s: Sys, sp: Word): (s': Sys)
    requires s.Shaped()
    ensures s'.Shaped()
  {
    s.(sch := s.sch.(mem := StoreWord(s.sch.mem, sp as int + 112, Plus(LoadWord(s.sch.mem, sp as int + 112), 4))))
  }

  /** Exit code of the trap handler, entered with sp in a0. */
  ghost function ExitTrap(s: Sys, sp: Word, regs: Regs): (s': Sys)
    requires s.Shaped()
    ensures s'.Shaped()
  {
    var c := Exec(Core(s.cpu.(x := regs[A0 := sp]), s.sch.mem), TRAP_EXIT);
    s.(cpu := c.cpu, sch := s.sch.(mem := c.mem))
  }

  /** next_sp and the way out; None is the panic. */
  ghost function Switch(cfg: Config, s: Sys, sp: Word, w: TrapWork): (r: Option<Sys>)
    requires s.Shaped()
    ensures r.Some? ==> r.value.Shaped()
  {
    if !cfg.enabled then Some(ExitTrap(s, sp, w.regs)) else
      match NextTask(cfg, s.sch, sp, w.sensor)
      case None => None
      case Some((sch, next)) => Some(ExitTrap(s.(sch := sch), next, w.regs))
  }

  /** The state in which next_sp is called, or would be. */
  ghost function Handled(cfg: Config, s: Sys, l: Label): (s': Sys)
    requires cfg.Valid() && s.Shaped() && IsTrap(l)
    ensures s'.Shaped()
  {
    var s1 := EnterTrap(s, l.work);
    if l.Yield? then SkipEcall(s1, s1.cpu.x[A0]) else RunOps(cfg, s1, l.work.ops)
  }

  ghost function Trap(cfg: Config, s: Sys, l: Label): (r: Option<Sys>)
    requires cfg.Valid() && s.Shaped() && IsTrap(l)
    ensures r.Some? ==> r.value.Shaped()
  {
    var sp := EnterTrap(s, l.work).cpu.x[A0];
    var s2 := Handled(cfg, s, l);
    if l.Irq? then Some(ExitTrap(s2, sp, l.work.regs)) else Switch(cfg, s2, sp, l.work)
  }

  /** The state after a step; None once the kernel has panicked. */
  ghost function Next(cfg: Config, s: Sys, l: Label): (r: Option<Sys>)
    requires cfg.Valid() && s.Shaped() && Enabled(s, l)
    ensures r.Some? ==> r.value.Shaped()
  {
    var me := s.Me();
    match l
    case Compute(x, pc, writes) =>
      Some(s.(cpu := s.cpu.(x := x, pc := pc), sch := s.sch.(mem := s.sch.mem + writes)))
    case ReadStatus =>
      Some(s.SetMe(me.(pending := Some(s.cpu.mie))))
    case MaskIrq =>
      Some(s.SetMe(me.(pending := None, saved := me.saved + [me.pending.value])).SetMie(false))
    case LeaveSection =>
      var n := |me.saved| - 1;
      var phase := if me.phase.Callback? && n == 0 then Done else me.phase;
      Some(s.SetMe(me.(saved := me.saved[..n], phase := phase)).SetMie(me.saved[n] || s.cpu.mie))
    case SpawnBody(spec) =>
      Some(SpawnIn(cfg, s, spec))
    case SetWarm(b) =>
      Some(SetTable(s, s.sch.tab.(warm := b)))
    case SetHot(b) =>
      Some(SetTable(s, s.sch.tab.(hot := b)))
    case Return =>
      Some(s.SetMe(me.(phase := Returned))
            .(cpu := s.cpu.(pc := cfg.taskExited), book := Note(s.book, me.uid, (b: Incarnation) => b.(returned := true))))
    case LoadId =>
      Some(s.SetMe(me.(phase := HaveId(s.Current()))))
    case MarkDead =>
      var id := me.phase.id;
      var called := match s.sch.tab.onExit[id] case None => [] case Some(cb) => [cb];
      Some(SetTable(s, Kill(s.sch.tab, id)).SetMe(me.(phase := Callback))
            .(book := Note(s.book, me.uid, (b: Incarnation) => b.(exited := true, fired := b.fired + called))))
    case StartTimer =>
      Some(s.(timerOn := true).SetMie(true))
    case Tick(_) => Trap(cfg, s, l)
    case Irq(_) => Trap(cfg, s, l)
    case Yield(_) => Trap(cfg, s, l)
  }

  /** Updates the entry of incarnation u. */
  function Note(book: seq<Incarnation>, u: nat, f: Incarnation -> Incarnation): (book': seq<Incarnation>)
    ensures |book'| == |book|
  {
    if u < |book| then book[u := f(book[u])] else book
  }

  // -------------------------------------------------------------------- runs

  /** Program discipline the kernel relies on and cannot enforce: no task yields
      (or starts the timer) inside a critical section. */
  predicate ControlOk(s: Sys, l: Label)
    requires s.Shaped()
  {
    l.Yield? || l.StartTimer? ==> s.Me().saved == []
  }

  /** Outside main's stack and outside STACKS. */
  predicate Common(cfg: Config, a: int) {
    && !(cfg.mainLo <= a < cfg.mainHi)
    && !(cfg.base <= a < cfg.base + (MAX_TASKS - 1) * STACK_SIZE)
  }

  /** Memory discipline: a task writes common memory and its own stack above the
      canary word; a trap finds room for its frame there, and its handler works
      below the frame. */
  ghost predicate MemoryOk(cfg: Config, s: Sys, l: Label)
    requires s.Shaped()
  {
    var i := s.Current();
    var sp := s.cpu.x[SP];
    if l.Compute? then
      forall a :: a in l.writes ==> Common(cfg, a) || Floor(cfg, i) <= a < Top(cfg, i)
    else if IsTrap(l) then
      && Floor(cfg, i) + FRAME_SIZE <= sp <= Top(cfg, i)
      && forall a :: a in l.work.writes ==> Common(cfg, a) || Floor(cfg, i) <= a < sp - FRAME_SIZE
    else true
  }

  /** The labels are possible one after the other, up to a panic. */
  ghost predicate Possible(cfg: Config, s: Sys, ls: seq<Label>)
    requires cfg.Valid() && s.Shaped()
    decreases |ls|
  {
    ls != [] ==>
      && Enabled(s, ls[0])
      && (Next(cfg, s, ls[0]).Some? ==> Possible(cfg, Next(cfg, s, ls[0]).value, ls[1..]))
  }

  ghost function Steps(cfg: Config, s: Sys, ls: seq<Label>): (r: Option<Sys>)
    requires cfg.Valid() && s.Shaped() && Possible(cfg, s, ls)
    ensures r.Some? ==> r.value.Shaped()
    decreases |ls|
  {
    if ls == [] then Some(s) else
      match Next(cfg, s, ls[0])
      case None => None
      case Some(s') => Steps(cfg, s', ls[1..])
  }

  ghost predicate Controlled(cfg: Config, s: Sys, ls: seq<Label>)
    requires cfg.Valid() && s.Shaped() && Possible(cfg, s, ls)
    decreases |ls|
  {
    ls != [] ==>
      && ControlOk(s, ls[0])
      && (Next(cfg, s, ls[0]).Some? ==> Controlled(cfg, Next(cfg, s, ls[0]).value, ls[1..]))
  }

  ghost predicate Contained(cfg: Config, s: Sys, ls: seq<Label>)
    requires cfg.Valid() && s.Shaped() && Possible(cfg, s, ls)
    decreases |ls|
  {
    ls != [] ==>
      && MemoryOk(cfg, s, ls[0])
      && (Next(cfg, s, ls[0]).Some? ==> Contained(cfg, Next(cfg, s, ls[0]).value, ls[1..]))
  }

  /** In main, scheduler initialised, nothing spawned, mstatus as boot.s left it. */
  ghost predicate Boot(s: Sys) {
    && s.Shaped()
    && s.cpu.mie
    && s.sch.tab == InitTable()
    && !s.timerOn
    && s.locals[0] == Local(0, None, [], Body)
    && s.book == [Incarnation(0, None, false, false, [])]
  }
}
