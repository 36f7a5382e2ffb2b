/** src/boot.s and src/arch/trap.rs as the code: the hart executing the trap
    handler's instructions in place, and the Rust functions it calls. The methods
    are proved to compute the steps of module Kernel. */
module TrapCode {
  import opened Machine
  import opened Eco
  import opened Stacks
  import opened Sched
  import opened Kernel
  import opened Protocol
  import opened Clint

  class Hart {
    const ram: Ram
    const x: array<Word>
    var pc: Word
    var mepc: Word
    var mie: bool
    var mpie: bool

    constructor (ram: Ram, pc: Word)
      ensures Valid() && fresh(this) && fresh(x) && this.ram == ram && mie && this.pc == pc
    {
      this.ram := ram;
      this.x := new Word[32](_ => 0);
      this.pc, mepc, mie, mpie := pc, 0, true, false;
    }

    ghost predicate Valid() {
      x.Length == 32
    }

    ghost function View(): Core
      requires Valid()
      reads this, x, ram
    {
      Core(Cpu(x[..], pc, mepc, mie, mpie), ram.bytes)
    }

    method WriteReg(r: Reg, w: Word)
      requires Valid()
      modifies x
      ensures x[..] == SetReg(old(x[..]), r, w)
    {
      if r != 0 {
        x[r] := w;
      }
    }

    method Execute(i: Instr)
      requires Valid()
      modifies this, x, ram
      ensures View() == Machine.Execute(old(View()), i)
    {
      match i
      case Addi(rd, rs, imm) => WriteReg(rd, Plus(x[rs], imm));
      case Mv(rd, rs) => WriteReg(rd, x[rs]);
      case Sw(src, off, base) => ram.bytes := StoreWord(ram.bytes, Plus(x[base], off), x[src]);
      case Lw(rd, off, base) => WriteReg(rd, LoadWord(ram.bytes, Plus(x[base], off)));
      case CsrrMepc(rd) => WriteReg(rd, mepc);
      case CsrwMepc(rs) => mepc := x[rs];
      case Mret => pc, mie, mpie := mepc, mpie, true;
    }

    method RunCode(code: seq<Instr>)
      requires Valid()
      modifies this, x, ram
      ensures View() == Exec(old(View()), code)
    {
      var i := 0;
      while i < |code|
        invariant 0 <= i <= |code|
        invariant Exec(View(), code[i..]) == Exec(old(View()), code)
      {
        assert code[i..][0] == code[i] && code[i..][1..] == code[i + 1..];
        Execute(code[i]);
        i := i + 1;
      }
    }

    /** The hart's own part of taking a trap. */
    method Trapped()
      requires Valid()
      modifies this`mepc, this`mpie, this`mie
      ensures View() == old(View()).(cpu := TakeTrap(old(View()).cpu))
    {
      mepc, mpie, mie := pc, mie, false;
    }

    method LoadRegs(regs: Regs, a0: Word)
      requires Valid()
      modifies x
      ensures x[..] == regs[A0 := a0]
    {
      forall r | 0 <= r < 32 { x[r] := regs[r]; }
      x[A0] := a0;
    }
  }

  const NUM_IDS := 32
  const MACHINE_TIMER := 7
  const ECALL_FROM_M := 11

  /** From state s, next_sp (or nobody, without the scheduler) has chosen the frame
      next and left s', or panicked. */
  ghost predicate Chosen(cfg: Config, s: Sys, sp: Word, sensor: Option<Byte>, s': Sys, next: Option<Word>)
    requires s.Shaped()
  {
    match next
    case None => cfg.enabled && NextTask(cfg, s.sch, sp, sensor) == None
    case Some(next) =>
      if cfg.enabled
      then NextTask(cfg, s.sch, sp, sensor) == Some((s'.sch, next)) && s' == s.(sch := s'.sch)
      else s' == s && next == sp
  }

  ghost function Left(s: Sys, next: Option<Word>, regs: Regs): Option<Sys>
    requires s.Shaped()
  {
    if next.Some? then Some(ExitTrap(s, next.value, regs)) else None
  }

  /** What is left of a trap once the frame is chosen. */
  lemma TrapFromChosen(cfg: Config, s: Sys, l: Label, s': Sys, next: Option<Word>)
    requires cfg.Valid() && s.Shaped() && (l.Tick? || l.Yield?) && s'.Shaped()
    requires Chosen(cfg, Handled(cfg, s, l), EnterTrap(s, l.work).cpu.x[A0], l.work.sensor, s', next)
    ensures Trap(cfg, s, l) == Left(s', next, l.work.regs)
  {
  }

  class KernelCode {
    const cfg: Config
    const ram: Ram
    const hart: Hart
    const sched: Scheduler
    const timer: Timer
    const handlers: array<Option<Word>>
    var periodTicks: Tick
    var timerOn: bool
    /** History, as in Kernel.Sys. */
    ghost var locals: seq<Local>
    ghost var book: seq<Incarnation>

    ghost const Repr: set<object> := sched.Repr + {this, hart, hart.x}

    ghost predicate Valid()
      reads this, sched
    {
      && cfg.Valid() && sched.Valid() && hart.Valid()
      && sched.cfg == cfg && sched.ram == hart.ram == ram
      && handlers.Length == NUM_IDS && |locals| == MAX_TASKS
      && Steady(timer.clock)
      && hart.x != sched.savedSp && hart.x as object != sched.priorities
      && hart.x as object != sched.taskAlive && hart.x as object != sched.onExit
      && handlers !in Repr && timer !in Repr && this !in sched.Repr && hart !in sched.Repr
    }

    ghost function View(): (s: Sys)
      requires Valid()
      reads Repr
      ensures s.Shaped()
    {
      Sys(hart.View().cpu, sched.View(), timerOn, locals, book)
    }

    /** boot.s up to main, with the scheduler initialised and nothing registered. */
    constructor (cfg: Config, bytes: Memory, pc: Word, clock: nat -> Tick)
      requires cfg.Valid() && Steady(clock)
      ensures Valid() && fresh(Repr) && this.cfg == cfg && ram.bytes == bytes
      ensures Boot(View())
      ensures handlers[..] == seq(32, _ => None) && fresh(handlers) && fresh(timer) && periodTicks == 0
    {
      this.cfg := cfg;
      var ram := new Ram(bytes);
      this.ram := ram;
      this.hart := new Hart(ram, pc);
      this.sched := new Scheduler(cfg, ram);
      this.timer := new Timer(clock);
      this.handlers := new Option<Word>[NUM_IDS](_ => None);
      periodTicks, timerOn := 0, false;
      locals := seq(MAX_TASKS, _ => Local(0, None, [], Body));
      book := [Incarnation(0, None, false, false, [])];
    }

    /** spawn()'s closure, and its entry in the history. */
    method SpawnClosure(spec: TaskSpec) returns (r: Option<nat>)
      requires Valid()
      modifies sched.Repr, this`locals, this`book
      ensures Valid() && View() == SpawnIn(cfg, old(View()), spec)
      ensures r == SpawnTask(cfg, old(View()).sch, spec).1
    {
      r := sched.Spawn(spec);
      if r.Some? {
        locals := locals[r.value := Local(|book|, None, [], Body)];
        book := book + [Incarnation(r.value, spec.onExit, false, false, [])];
      }
    }

    /** spawn(): critical_section around the closure; mstatus.MIE is as before. */
    method Spawn(spec: TaskSpec) returns (r: Option<nat>)
      requires Valid()
      modifies sched.Repr, hart`mie, this`locals, this`book
      ensures Valid() && View() == SpawnCall(cfg, old(View()), spec)
      ensures hart.mie == old(hart.mie)
      ensures r == SpawnTask(cfg, old(View()).sch, spec).1
    {
      var saved := hart.mie;
      hart.mie := false;
      r := SpawnClosure(spec);
      if saved {
        hart.mie := true;
      }
    }

    /** A registered handler, as the scheduler calls it makes. */
    method RunHandler(ops: seq<HandlerOp>)
      requires Valid()
      modifies sched.Repr, hart`mie, this`locals, this`book
      ensures Valid() && View() == RunOps(cfg, old(View()), ops)
    {
      var i := 0;
      while i < |ops|
        invariant 0 <= i <= |ops| && Valid()
        invariant RunOps(cfg, View(), ops[i..]) == RunOps(cfg, old(View()), ops)
      {
        assert ops[i..][0] == ops[i] && ops[i..][1..] == ops[i + 1..];
        match ops[i] {
          case SpawnOp(spec) => var r := Spawn(spec);
          case WarmOp(b) => sched.SetWarmThreshold(b);
          case HotOp(b) => sched.SetHotThreshold(b);
        }
        i := i + 1;
      }
    }

    method Register(id: nat, handler: Word)
      requires Valid() && id < NUM_IDS
      modifies handlers
      ensures Valid() && View() == old(View())
      ensures handlers[..] == old(handlers[..])[id := Some(handler)]
    {
      handlers[id] := Some(handler);
    }

    /** False is the out-of-bounds panic: the guard lets exactly NUM_IDS through. */
    method CallRegistered(id: nat, ops: seq<HandlerOp>) returns (inBounds: bool)
      requires Valid()
      modifies sched.Repr, hart`mie, this`locals, this`book
      ensures Valid() && (inBounds <==> id != 32)
      ensures View() == if old(id < 32 && handlers[id].Some?) then RunOps(cfg, old(View()), ops) else old(View())
    {
      if id > NUM_IDS {
        return true;
      }
      if id >= handlers.Length {
        return false;
      }
      if handlers[id].Some? {
        RunHandler(ops);
      }
      return true;
    }

    method NextFrame(sp: Word, sensor: Option<Byte>) returns (next: Option<Word>)
      requires Valid()
      modifies sched.Repr
      ensures Valid() && Chosen(cfg, old(View()), sp, sensor, View(), next)
    {
      if cfg.enabled {
        next := sched.NextSp(sp, sensor);
      } else {
        next := Some(sp);
      }
    }

    /** Re-arms the timer, runs the registered handler, asks for the next task. */
    method HandleMachineTimer(sp: Word, w: TrapWork) returns (next: Option<Word>)
      requires Valid()
      modifies sched.Repr, hart`mie, this`locals, this`book, timer
      ensures Valid()
      ensures Chosen(cfg, RunOps(cfg, old(View()), if old(handlers[7].Some?) then w.ops else []), sp, w.sensor, View(), next)
      ensures periodTicks != 0 ==>
                && timer.accesses >= old(timer.accesses) + 3
                && timer.clock(old(timer.accesses)) <= timer.clock(timer.accesses - 2)
                && timer.Compare() == (timer.clock(timer.accesses - 2) as int + periodTicks) % 0x1_0000_0000_0000_0000
                && timer.compares == old(timer.compares) + RearmWrites(old(timer.Compare()), timer.Compare())
      ensures periodTicks == 0 ==> unchanged(timer)
    {
      if periodTicks != 0 {
        var t := timer.Rearm(periodTicks);
      }
      var inBounds := CallRegistered(MACHINE_TIMER, w.ops);
      next := NextFrame(sp, w.sensor);
    }

    method HandleYield(sp: Word, sensor: Option<Byte>) returns (next: Option<Word>)
      requires Valid()
      modifies sched.Repr
      ensures Valid() && Chosen(cfg, SkipEcall(old(View()), sp), sp, sensor, View(), next)
    {
      var mepc := LoadWord(ram.bytes, sp as int + 112);
      ram.bytes := StoreWord(ram.bytes, sp as int + 112, Plus(mepc, 4));
      next := NextFrame(sp, sensor);
    }

    // ----------------------------------------------------- the whole handler

    /** rust_trap_handler with its two dispatch functions; None is a fatal report. */
    method RustTrapHandler(interrupt: bool, code: nat, sp: Word, w: TrapWork) returns (next: Option<Word>)
      requires Valid()
      modifies sched.Repr, hart`mie, this`locals, this`book, timer
      ensures Valid()
      ensures !interrupt && code == 11 ==> Chosen(cfg, SkipEcall(old(View()), sp), sp, w.sensor, View(), next)
      ensures !interrupt && code != 11 ==> next == None
      ensures interrupt && code == 7 ==>
                Chosen(cfg, RunOps(cfg, old(View()), if old(handlers[7].Some?) then w.ops else []), sp, w.sensor, View(), next)
      ensures interrupt && code != 7 && code != 32 ==>
                && next == Some(sp)
                && View() == if old(code < 32 && handlers[code].Some?) then RunOps(cfg, old(View()), w.ops) else old(View())
      ensures interrupt && code == 32 ==> next == None
      ensures interrupt && code == 7 && periodTicks != 0 ==>
                && timer.accesses >= old(timer.accesses) + 3
                && timer.clock(old(timer.accesses)) <= timer.clock(timer.accesses - 2)
                && timer.Compare() == (timer.clock(timer.accesses - 2) as int + periodTicks) % 0x1_0000_0000_0000_0000
                && timer.compares == old(timer.compares) + RearmWrites(old(timer.Compare()), timer.Compare())
      ensures !interrupt || code != 7 || periodTicks == 0 ==> unchanged(timer)
    {
      if interrupt {
        if code == MACHINE_TIMER {
          next := HandleMachineTimer(sp, w);
        } else {
          var inBounds := CallRegistered(code, w.ops);
          next := if inBounds then Some(sp) else None;
        }
      } else if code == ECALL_FROM_M {
        next := HandleYield(sp, w.sensor);
      } else {
        next := None;
      }
    }

    /** The hart traps and runs the handler's code up to the call. */
    method EnterHandler(w: TrapWork) returns (sp: Word)
      requires Valid()
      modifies hart, hart.x, ram
      ensures Valid() && View() == EnterTrap(old(View()), w) && sp == View().cpu.x[A0]
    {
      hart.Trapped();
      hart.RunCode(TRAP_ENTRY);
      sp := hart.x[A0];
      ram.bytes := ram.bytes + w.writes;
    }

    /** The rest of the handler's code, with the frame's address returned in a0. */
    method LeaveHandler(next: Word, regs: Regs)
      requires Valid()
      modifies hart, hart.x, ram
      ensures Valid() && View() == ExitTrap(old(View()), next, regs)
    {
      hart.LoadRegs(regs, next);
      hart.RunCode(TRAP_EXIT);
    }

    /** The trap handler of boot.s, from the hart's trap to its mret, is exactly the
        trap step of the machine that its cause says, with the calls of the handler
        registered for it; it does not come back exactly when that step panics or
        the cause is fatal. A tick re-arms the timer first, whoever is resumed, and
        also if the dispatch then panics; nothing else touches it. */
    method TakeTrapAndReturn(interrupt: bool, code: nat, w: TrapWork) returns (resumed: bool)
      requires Valid()
      modifies sched.Repr, hart, hart.x, this`locals, this`book, timer
      ensures Valid()
      ensures !interrupt && code == 11 ==> (if resumed then Some(View()) else None) == Trap(cfg, old(View()), Yield(w))
      ensures !interrupt && code != 11 ==> !resumed
      ensures interrupt && code == 7 ==>
                var l := Tick(w.(ops := if old(handlers[7].Some?) then w.ops else []));
                (if resumed then Some(View()) else None) == Trap(cfg, old(View()), l)
      ensures interrupt && code != 7 && code != 32 ==>
                var l := Irq(w.(ops := if old(code < 32 && handlers[code].Some?) then w.ops else []));
                resumed && Some(View()) == Trap(cfg, old(View()), l)
      ensures interrupt && code == 32 ==> !resumed
      ensures interrupt && code == 7 && periodTicks != 0 ==>
                && timer.accesses >= old(timer.accesses) + 3
                && timer.clock(old(timer.accesses)) <= timer.clock(timer.accesses - 2)
                && timer.Compare() == (timer.clock(timer.accesses - 2) as int + periodTicks) % 0x1_0000_0000_0000_0000
                && timer.compares == old(timer.compares) + RearmWrites(old(timer.Compare()), timer.Compare())
      ensures !interrupt || code != 7 || periodTicks == 0 ==> unchanged(timer)
    {
      var next := EnterAndHandle(interrupt, code, w);
      ghost var left := Left(View(), next, w.regs);
      resumed := next.Some?;
      if resumed {
        LeaveHandler(next.value, w.regs);
      }
      assert left == if resumed then Some(View()) else None;
    }

    /** The first half of that: up to the return of the Rust handler. */
    method EnterAndHandle(interrupt: bool, code: nat, w: TrapWork) returns (next: Option<Word>)
      requires Valid()
      modifies sched.Repr, hart, hart.x, this`locals, this`book, timer
      ensures Valid()
      ensures !interrupt && code == 11 ==> Trap(cfg, old(View()), Yield(w)) == Left(View(), next, w.regs)
      ensures !interrupt && code != 11 ==> next == None
      ensures interrupt && code == 7 ==>
                Trap(cfg, old(View()), Tick(w.(ops := if old(handlers[7].Some?) then w.ops else []))) == Left(View(), next, w.regs)
      ensures interrupt && code != 7 && code != 32 ==>
                var l := Irq(w.(ops := if old(code < 32 && handlers[code].Some?) then w.ops else []));
                next.Some? && Trap(cfg, old(View()), l) == Left(View(), next, w.regs)
      ensures interrupt && code == 32 ==> next == None
      ensures interrupt && code == 7 && periodTicks != 0 ==>
                && timer.accesses >= old(timer.accesses) + 3
                && timer.clock(old(timer.accesses)) <= timer.clock(timer.accesses - 2)
                && timer.Compare() == (timer.clock(timer.accesses - 2) as int + periodTicks) % 0x1_0000_0000_0000_0000
                && timer.compares == old(timer.compares) + RearmWrites(old(timer.Compare()), timer.Compare())
      ensures !interrupt || code != 7 || periodTicks == 0 ==> unchanged(timer)
    {
      ghost var s := View();
      var sp := EnterHandler(w);
      next := RustTrapHandler(interrupt, code, sp, w);
      if !interrupt && code == 11 {
        TrapFromChosen(cfg, s, Yield(w), View(), next);
      } else if interrupt && code == 7 {
        TrapFromChosen(cfg, s, Tick(w.(ops := if old(handlers[7].Some?) then w.ops else [])), View(), next);
      }
    }

    /** What register() is for: the next interrupt with this id makes the calls of
        the handler registered for it, all of them, and nothing else. */
    method RegisterThenInterrupt(id: nat, handler: Word, w: TrapWork) returns (resumed: bool)
      requires Valid() && id < 32
      modifies sched.Repr, hart, hart.x, this`locals, this`book, timer, handlers
      ensures Valid()
      ensures id == 7 ==> (if resumed then Some(View()) else None) == Trap(cfg, old(View()), Tick(w))
      ensures id != 7 ==> resumed && Some(View()) == Trap(cfg, old(View()), Irq(w))
    {
      Register(id, handler);
      resumed := TakeTrapAndReturn(true, id, w);
    }

    // ------------------------------------------------------- exit and start

    /** task_exited into its critical section: the running task's own slot is dead
        and its callback taken. */
    method BeginExit() returns (id: nat, saved: bool, called: Option<Word>)
      requires Valid() && Inv(View()) && Enabled(View(), LoadId) && View().Me().saved == []
      modifies sched.Repr, hart`mie, this`locals, this`book
      ensures Valid() && View() == ExitBegun(cfg, old(View())) && Inv(View())
      ensures id == old(View()).Current() && saved == old(hart.mie) && !hart.mie
      ensures View().Me() == Local(View().Me().uid, None, [saved], Callback)
      ensures called == old(View()).sch.tab.onExit[id]
    {
      ghost var s := View();
      ghost var uid := s.Me().uid;
      ExitBegunKeeps(cfg, s);
      ExitBegunIs(cfg, s);
      id := sched.currentTask;
      saved := hart.mie;
      hart.mie := false;
      called := sched.MarkDead(id);
      locals := locals[id := Local(uid, None, [saved], Callback)];
      book := book[uid := AfterExit(book[uid], called)];
    }

    /** task_exited up to its loop: the callback, if there is one, is called inside
        the critical section; ops are the scheduler calls it makes. */
    method TaskExited(ops: seq<HandlerOp>) returns (called: Option<Word>)
      requires Valid() && Inv(View()) && Enabled(View(), LoadId) && View().Me().saved == []
      modifies sched.Repr, hart`mie, this`locals, this`book
      ensures Valid() && called == old(View()).sch.tab.onExit[old(View()).Current()]
      ensures var s := ExitBegun(cfg, old(View()));
              var s' := if called.Some? then RunOps(cfg, s, ops) else s;
              Enabled(s', LeaveSection) && Some(View()) == Next(cfg, s', LeaveSection)
      ensures hart.mie == old(hart.mie)
    {
      ExitBegunIs(cfg, View());
      var id, saved;
      id, saved, called := BeginExit();
      if called.Some? {
        RunOpsKeeps(cfg, View(), ops);
        RunHandler(ops);
      }
      EndExit(saved);
    }

    /** The end of its critical section. */
    method EndExit(saved: bool)
      requires Valid() && Orderly(View()) && !hart.mie
      requires var me := View().Me(); me == Local(me.uid, None, [saved], Callback)
      modifies hart`mie, this`locals
      ensures Valid() && Enabled(old(View()), LeaveSection)
      ensures Some(View()) == Next(cfg, old(View()), LeaveSection)
      ensures hart.mie == saved
    {
      ghost var me := View().Me();
      if saved {
        hart.mie := true;
      }
      locals := locals[sched.currentTask := me.(saved := [], phase := Done)];
      assert me.saved[..0] == [];
    }

    /** init_periodic_timer: first target one period away, then interrupts on. */
    method InitPeriodicTimer(period: Tick)
      requires Valid()
      modifies this`periodTicks, this`timerOn, hart`mie, timer
      ensures Valid() && View() == old(View()).(timerOn := true, cpu := old(View()).cpu.(mie := true))
      ensures periodTicks == period
      ensures timer.accesses >= old(timer.accesses) + 3
              && timer.clock(old(timer.accesses)) <= timer.clock(timer.accesses - 2)
              && timer.Compare() == (timer.clock(timer.accesses - 2) as int + periodTicks) % 0x1_0000_0000_0000_0000
              && timer.compares == old(timer.compares) + RearmWrites(old(timer.Compare()), timer.Compare())
    {
      periodTicks := period;
      var t := timer.Rearm(period);
      timerOn := true;
      hart.mie := true;
    }
  }

  /** InitPeriodicTimer is the StartTimer step of the machine. */
  lemma StartTimerIs(cfg: Config, s: Sys)
    requires cfg.Valid() && s.Shaped() && Enabled(s, StartTimer)
    ensures Next(cfg, s, StartTimer) == Some(s.(timerOn := true, cpu := s.cpu.(mie := true)))
  {
  }

  /** From boot, after any registrations: an interrupt makes its handler's calls if
      its id is among those registered, and none otherwise. */
  method BootRegisterInterrupt(cfg: Config, bytes: Memory, pc: Word, clock: nat -> Tick, ids: seq<nat>, handler: Word,
                               id: nat, w: TrapWork)
      returns (k: KernelCode, ghost s: Sys, resumed: bool)
    requires cfg.Valid() && Steady(clock) && id != 32
    requires forall i :: 0 <= i < |ids| ==> ids[i] < 32
    ensures s.Shaped() && Boot(s) && s.sch.mem == bytes && k.Valid()
    ensures var l := if id == 7 then Tick(w.(ops := if id in ids then w.ops else []))
                     else Irq(w.(ops := if id in ids then w.ops else []));
            (if resumed then Some(k.View()) else None) == Trap(cfg, s, l)
    ensures id != 7 ==> resumed
  {
    k := new KernelCode(cfg, bytes, pc, clock);
    s := k.View();
    for i := 0 to |ids|
      invariant k.Valid() && k.View() == s
      invariant forall j: nat :: j < 32 ==> (k.handlers[j].Some? <==> j in ids[..i])
    {
      k.Register(ids[i], handler);
      assert ids[..i + 1] == ids[..i] + [ids[i]];
    }
    assert ids[..|ids|] == ids;
    resumed := k.TakeTrapAndReturn(true, id, w);
  }

  /** The state inside task_exited's critical section, before the callback. */
  ghost function ExitBegun(cfg: Config, s: Sys): (s': Sys)
    requires cfg.Valid() && s.Shaped() && Enabled(s, LoadId) && s.Me().saved == []
    ensures s'.Shaped()
  {
    var s1 := Next(cfg, s, LoadId).value;
    var s2 := Next(cfg, s1, ReadStatus).value;
    var s3 := Next(cfg, s2, MaskIrq).value;
    Next(cfg, s3, MarkDead).value
  }

  lemma ExitBegunKeeps(cfg: Config, s: Sys)
    requires cfg.Valid() && Inv(s) && Enabled(s, LoadId) && s.Me().saved == []
    ensures Inv(ExitBegun(cfg, s))
  {
    var s1 := Next(cfg, s, LoadId).value;
    var s2 := Next(cfg, s1, ReadStatus).value;
    var s3 := Next(cfg, s2, MaskIrq).value;
    StepKeeps(cfg, s, LoadId);
    StepKeeps(cfg, s1, ReadStatus);
    StepKeeps(cfg, s2, MaskIrq);
    StepKeeps(cfg, s3, MarkDead);
  }

  ghost function AfterExit(b: Incarnation, called: Option<Word>): Incarnation {
    b.(exited := true, fired := b.fired + match called case None => [] case Some(cb) => [cb])
  }

  lemma ExitBegunIs(cfg: Config, s: Sys)
    requires cfg.Valid() && Inv(s) && Enabled(s, LoadId) && s.Me().saved == []
    ensures var id, uid := s.Current(), s.Me().uid;
            && uid < |s.book|
            && ExitBegun(cfg, s) == s.(
                 cpu := s.cpu.(mie := false),
                 sch := s.sch.(tab := Kill(s.sch.tab, id)),
                 locals := s.locals[id := Local(uid, None, [s.cpu.mie], Callback)],
                 book := s.book[uid := AfterExit(s.book[uid], s.sch.tab.onExit[id])])
  {
    assert SlotOk(s.sch.tab, s.locals, s.book, s.Current());
    var id, me := s.Current(), s.Me();
    var s1 := Next(cfg, s, LoadId).value;
    var s2 := Next(cfg, s1, ReadStatus).value;
    var s3 := Next(cfg, s2, MaskIrq).value;
    assert s3.Me() == Local(me.uid, None, [s.cpu.mie], HaveId(id)) by {
      assert [] + [s.cpu.mie] == [s.cpu.mie];
    }
    assert ExitBegun(cfg, s).locals == s.locals[id := s3.Me().(phase := Callback)];
  }
}
