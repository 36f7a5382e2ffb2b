/** A machine in which every task has registers and a stack of its own, without
    frames, saved stack pointers or canaries, and the proof that the kernel
    implements it. */
module Transparency {
  import opened Machine
  import opened Eco
  import opened Stacks
  import opened Sched
  import opened Kernel
  import opened Protocol

  // ---------------------------------------------------- the abstract machine

  /** stack: the bytes a task has written at or above its sp. A byte it has not
      written since it was last below sp is not in the map. */
  datatype Context = Context(x: Regs, pc: Word, stack: Memory)

  datatype Tasks = Tasks(tab: Table, ctx: seq<Context>, common: Memory) {
    predicate Shaped() {
      tab.Shaped() && |ctx| == MAX_TASKS
    }
  }

  function Keep(m: Memory, lo: int): Memory {
    map a | a in m && lo <= a :: m[a]
  }

  function Own(cfg: Config, i: nat, m: Memory): Memory {
    map a | a in m && Floor(cfg, i) <= a < Top(cfg, i) :: m[a]
  }

  function CommonPart(cfg: Config, m: Memory): Memory {
    map a | a in m && Common(cfg, a) :: m[a]
  }

  /** A new task: at its entry, returning to task_exited, on an empty stack. */
  function Fresh(cfg: Config, id: nat, entry: Word): Context
    requires cfg.Valid() && 1 <= id < MAX_TASKS
  {
    Context(FreshRegs(cfg)[SP := FrameBase(cfg, id) + FRAME_SIZE], entry, map[])
  }

  function BeginTask(cfg: Config, a: Tasks, spec: TaskSpec): (a': Tasks)
    requires cfg.Valid() && a.Shaped()
    ensures a'.Shaped()
  {
    var (t, r) := Spawn(a.tab, spec);
    match r
    case None => a
    case Some(id) => a.(tab := t, ctx := a.ctx[id := Fresh(cfg, id, spec.entry)])
  }

  function BeginOps(cfg: Config, a: Tasks, ops: seq<HandlerOp>): (a': Tasks)
    requires cfg.Valid() && a.Shaped()
    ensures a'.Shaped()
    decreases |ops|
  {
    if ops == [] then a else
      var a1 := match ops[0]
                case SpawnOp(spec) => BeginTask(cfg, a, spec)
                case WarmOp(b) => a.(tab := a.tab.(warm := b))
                case HotOp(b) => a.(tab := a.tab.(hot := b));
      BeginOps(cfg, a1, ops[1..])
  }

  function Pass(cfg: Config, a: Tasks, sensor: Option<Byte>): (a': Tasks)
    requires a.Shaped()
    ensures a'.Shaped()
  {
    if cfg.enabled then a.(tab := Dispatch(a.tab, sensor)) else a
  }

  function Write(cfg: Config, a: Tasks, writes: Memory): (a': Tasks)
    requires a.Shaped()
    ensures a'.Shaped()
  {
    a.(common := a.common + CommonPart(cfg, writes))
  }

  function WithPc(a: Tasks, pc: Word): (a': Tasks)
    requires a.Shaped()
    ensures a'.Shaped()
  {
    a.(ctx := a.ctx[a.tab.current := a.ctx[a.tab.current].(pc := pc)])
  }

  /** The same labels, on private contexts: a trap only chooses who runs. */
  function Act(cfg: Config, a: Tasks, l: Label): (a': Tasks)
    requires cfg.Valid() && a.Shaped()
    ensures a'.Shaped()
  {
    var i := a.tab.current;
    var c := a.ctx[i];
    match l
    case Compute(x, pc, writes) =>
      Write(cfg, a.(ctx := a.ctx[i := Context(x, pc, Keep(c.stack + Own(cfg, i, writes), x[SP]))]), writes)
    case SpawnBody(spec) => BeginTask(cfg, a, spec)
    case SetWarm(b) => a.(tab := a.tab.(warm := b))
    case SetHot(b) => a.(tab := a.tab.(hot := b))
    case Return => WithPc(a, cfg.taskExited)
    case MarkDead => a.(tab := Kill(a.tab, i))
    case Tick(w) => Pass(cfg, BeginOps(cfg, Write(cfg, a, w.writes), w.ops), w.sensor)
    case Irq(w) => BeginOps(cfg, Write(cfg, a, w.writes), w.ops)
    case Yield(w) => Pass(cfg, WithPc(Write(cfg, a, w.writes), Plus(c.pc, 4)), w.sensor)
    case _ => a
  }

  function Play(cfg: Config, a: Tasks, ls: seq<Label>): (a': Tasks)
    requires cfg.Valid() && a.Shaped()
    ensures a'.Shaped()
    decreases |ls|
  {
    if ls == [] then a else Play(cfg, Act(cfg, a, ls[0]), ls[1..])
  }

  // -------------------------------------------------------------- simulation

  ghost predicate SameBytes(m: Memory, m': Memory, lo: int, hi: int) {
    forall a {:trigger ByteAt(m', a)} :: lo <= a < hi ==> ByteAt(m', a) == ByteAt(m, a)
  }

  /** The bytes of task i's stack are in memory. */
  ghost predicate StackHeld(cfg: Config, m: Memory, i: nat, c: Context) {
    forall a :: a in c.stack ==>
      c.x[SP] <= a && Floor(cfg, i) <= a < Top(cfg, i) && ByteAt(m, a) == c.stack[a]
  }

  /** Task i is suspended: its frame is at sp, inside its own stack, above the
      canary; resuming from it gives exactly its context. */
  ghost predicate Parked(cfg: Config, m: Memory, sp: Word, i: nat, c: Context) {
    && c.x[SP] as int == sp as int + FRAME_SIZE
    && Floor(cfg, i) <= sp && sp as int + FRAME_SIZE <= Top(cfg, i)
    && FrameHolds(m, sp as int, c.x, c.pc)
    && StackHeld(cfg, m, i, c)
  }

  ghost predicate CommonHeld(cfg: Config, m: Memory, common: Memory) {
    forall a :: a in common ==> Common(cfg, a) && ByteAt(m, a) == common[a]
  }

  predicate InUse(t: Table, i: nat)
    requires t.Shaped()
  {
    i < t.numTasks && (t.alive[i] || i == t.current)
  }

  ghost predicate CanariesHeld(cfg: Config, m: Memory, t: Table)
    requires t.Shaped()
  {
    forall i: nat :: 1 <= i && InUse(t, i) ==> CanaryOk(cfg, m, i)
  }

  ghost predicate OthersParked(cfg: Config, s: State, ctx: seq<Context>)
    requires s.Shaped() && |ctx| == MAX_TASKS
  {
    forall i: nat :: InUse(s.tab, i) && i != s.tab.current ==> Parked(cfg, s.mem, s.savedSp[i], i, ctx[i])
  }

  ghost predicate Running(cfg: Config, u: Cpu, m: Memory, i: nat, c: Context) {
    && (forall r: Reg :: Private(r) ==> u.x[r] == c.x[r])
    && u.pc == c.pc
    && StackHeld(cfg, m, i, c)
  }

  /** Outside traps: the running task is in the registers, all other live tasks
      are in their frames. */
  ghost predicate Implements(cfg: Config, s: Sys, a: Tasks) {
    && s.Shaped() && a.Shaped() && a.tab == s.sch.tab
    && Running(cfg, s.cpu, s.sch.mem, s.Current(), a.ctx[s.Current()])
    && OthersParked(cfg, s.sch, a.ctx)
    && CommonHeld(cfg, s.sch.mem, a.common)
    && CanariesHeld(cfg, s.sch.mem, s.sch.tab)
  }

  /** Inside a trap, once the frame at sp is complete: every task is parked. */
  ghost predicate AllParked(cfg: Config, s: State, sp: Word, a: Tasks) {
    && s.Shaped() && a.Shaped() && a.tab == s.tab
    && Parked(cfg, s.mem, sp, s.tab.current, a.ctx[s.tab.current])
    && OthersParked(cfg, s, a.ctx)
    && CommonHeld(cfg, s.mem, a.common)
    && CanariesHeld(cfg, s.mem, s.tab)
  }

  // -------------------------------------------------------- memory and frames

  lemma ParkedStays(cfg: Config, m: Memory, m': Memory, sp: Word, i: nat, c: Context)
    requires Parked(cfg, m, sp, i, c) && SameBytes(m, m', Floor(cfg, i), Top(cfg, i))
    ensures Parked(cfg, m', sp, i, c)
  {
    forall a: int | Floor(cfg, i) <= a && a + 4 <= Top(cfg, i) ensures LoadWord(m', a) == LoadWord(m, a) {
    }
    forall r: Reg | Private(r) && r != SP
      ensures LoadWord(m', sp as int + 4 * SlotOf(r)) == c.x[r]
    {
    }
  }

  lemma CanaryStays(cfg: Config, m: Memory, m': Memory, i: nat)
    requires CanaryOk(cfg, m, i) && SameBytes(m, m', Bottom(cfg, i), Bottom(cfg, i) + 4)
    ensures CanaryOk(cfg, m', i)
  {
  }

  /** Only bytes of stack id, or of nobody's stack, differ. */
  ghost predicate OnlyStack(cfg: Config, m: Memory, m': Memory, id: nat) {
    forall a {:trigger ByteAt(m', a)} ::
      !Common(cfg, a) && !(Floor(cfg, id) <= a < Top(cfg, id)) ==> ByteAt(m', a) == ByteAt(m, a)
  }

  lemma OtherStacksSame(cfg: Config, m: Memory, m': Memory, id: nat, i: nat)
    requires cfg.Valid() && id < MAX_TASKS && i < MAX_TASKS && i != id && OnlyStack(cfg, m, m', id)
    ensures SameBytes(m, m', Bottom(cfg, i), Top(cfg, i))
  {
    StacksApart(cfg, i, id);
    forall a | Bottom(cfg, i) <= a < Top(cfg, i) ensures ByteAt(m', a) == ByteAt(m, a) {
      assert !Common(cfg, a);
    }
  }

  /** Writing the running task's own stack above its canary leaves every other
      task parked and every canary in place. */
  lemma OthersStay(cfg: Config, s: State, m': Memory, ctx: seq<Context>)
    requires cfg.Valid() && s.Shaped() && |ctx| == MAX_TASKS
    requires OthersParked(cfg, s, ctx) && CanariesHeld(cfg, s.mem, s.tab)
    requires OnlyStack(cfg, s.mem, m', s.tab.current)
    ensures OthersParked(cfg, s.(mem := m'), ctx) && CanariesHeld(cfg, m', s.tab)
  {
    var cur := s.tab.current;
    forall i: nat | InUse(s.tab, i) && i != cur ensures Parked(cfg, m', s.savedSp[i], i, ctx[i]) {
      OtherStacksSame(cfg, s.mem, m', cur, i);
      ParkedStays(cfg, s.mem, m', s.savedSp[i], i, ctx[i]);
    }
    forall i: nat | 1 <= i && InUse(s.tab, i) ensures CanaryOk(cfg, m', i) {
      if i == cur {
        forall a | Bottom(cfg, i) <= a < Bottom(cfg, i) + 4 ensures ByteAt(m', a) == ByteAt(s.mem, a) {
          assert !Common(cfg, a);
        }
      } else {
        OtherStacksSame(cfg, s.mem, m', cur, i);
      }
      CanaryStays(cfg, s.mem, m', i);
    }
  }

  lemma CommonStays(cfg: Config, m: Memory, m': Memory, common: Memory)
    requires CommonHeld(cfg, m, common)
    requires forall a :: Common(cfg, a) ==> ByteAt(m', a) == ByteAt(m, a)
    ensures CommonHeld(cfg, m', common)
  {
  }

  lemma Merged(m: Memory, w: Memory, a: int)
    ensures ByteAt(m + w, a) == if a in w then w[a] else ByteAt(m, a)
  {
  }

  // --------------------------------------------------------- into the trap

  /** The entry code and the handler's own work park the running task. */
  lemma EnterParks(cfg: Config, s: Sys, a: Tasks, l: Label) returns (sp: Word)
    requires cfg.Valid() && Implements(cfg, s, a) && IsTrap(l) && MemoryOk(cfg, s, l)
    ensures sp == EnterTrap(s, l.work).cpu.x[A0]
    ensures AllParked(cfg, EnterTrap(s, l.work).sch, sp, Write(cfg, a, l.work.writes))
  {
    var i, m, w := s.Current(), s.sch.mem, l.work.writes;
    sp := s.cpu.x[SP] - 128;
    EntrySaves(s.cpu, m, sp);
    var m1 := Exec(Core(TakeTrap(s.cpu), m), TRAP_ENTRY).mem;
    var m2 := m1 + w;
    EnterBytes(cfg, m, m1, w, i, sp);
    OthersStay(cfg, s.sch, m2, a.ctx);
    FrameStays(m1, m2, sp, a.ctx[i].x, a.ctx[i].pc, s.cpu.x);
    forall k | k in a.ctx[i].stack ensures ByteAt(m2, k) == a.ctx[i].stack[k] {
      Merged(m1, w, k);
    }
    CommonMerged(cfg, m, m1, w, a.common);
  }

  lemma EnterBytes(cfg: Config, m: Memory, m1: Memory, w: Memory, i: nat, sp: Word)
    requires Floor(cfg, i) <= sp && sp as int + 128 <= Top(cfg, i)
    requires OnlyWithin(m, m1, sp, sp as int + 128)
    requires forall k :: k in w ==> Common(cfg, k) || Floor(cfg, i) <= k < sp
    ensures OnlyStack(cfg, m, m1 + w, i)
  {
    forall k | !Common(cfg, k) && !(Floor(cfg, i) <= k < Top(cfg, i)) ensures ByteAt(m1 + w, k) == ByteAt(m, k) {
      Merged(m1, w, k);
    }
  }

  lemma FrameStays(m1: Memory, m2: Memory, sp: Word, x: Regs, pc: Word, x0: Regs)
    requires FrameHolds(m1, sp, x0, pc) && forall r: Reg :: Private(r) ==> x0[r] == x[r]
    requires SameBytes(m1, m2, sp, sp as int + 128)
    ensures FrameHolds(m2, sp, x, pc)
  {
    forall r: Reg | Private(r) && r != SP ensures LoadWord(m2, sp as int + 4 * SlotOf(r)) == x[r] {
      assert x0[r] == x[r];
    }
  }

  lemma CommonMerged(cfg: Config, m: Memory, m1: Memory, w: Memory, common: Memory)
    requires CommonHeld(cfg, m, common)
    requires forall k :: Common(cfg, k) ==> ByteAt(m1, k) == ByteAt(m, k)
    ensures CommonHeld(cfg, m1 + w, common + CommonPart(cfg, w))
  {
    forall k | k in common + CommonPart(cfg, w)
      ensures Common(cfg, k) && ByteAt(m1 + w, k) == (common + CommonPart(cfg, w))[k]
    {
      Merged(m1, w, k);
    }
  }

  /** handle_yield moves the parked task behind its ecall. */
  lemma SkipParks(cfg: Config, s: Sys, sp: Word, a: Tasks)
    requires cfg.Valid() && AllParked(cfg, s.sch, sp, a)
    requires |s.locals| == MAX_TASKS
    ensures var i := a.tab.current;
            AllParked(cfg, SkipEcall(s, sp).sch, sp, WithPc(a, Plus(a.ctx[i].pc, 4)))
  {
    var i, m := a.tab.current, s.sch.mem;
    var c := a.ctx[i];
    var pc := Plus(c.pc, 4);
    var m' := StoreWord(m, sp as int + 112, pc);
    StoreThenLoad(m, sp as int + 112, pc);
    assert SkipEcall(s, sp).sch == s.sch.(mem := m');
    OneWordStays(cfg, m, m', i, sp);
    OthersStay(cfg, s.sch, m', a.ctx);
    CommonStays(cfg, m, m', a.common);
    forall r: Reg | Private(r) && r != SP ensures LoadWord(m', sp as int + 4 * SlotOf(r)) == c.x[r] {
      LoadOutside(m, m', sp as int + 112, sp as int + 116, sp as int + 4 * SlotOf(r));
    }
    assert WithPc(a, pc).ctx == a.ctx[i := c.(pc := pc)];
    assert OthersParked(cfg, s.sch.(mem := m'), WithPc(a, pc).ctx);
  }

  lemma OneWordStays(cfg: Config, m: Memory, m': Memory, i: nat, sp: Word)
    requires cfg.Valid() && i < MAX_TASKS
    requires Floor(cfg, i) <= sp && sp as int + 128 <= Top(cfg, i)
    requires OnlyWithin(m, m', sp as int + 112, sp as int + 116)
    ensures OnlyStack(cfg, m, m', i)
    ensures forall k :: Common(cfg, k) ==> ByteAt(m', k) == ByteAt(m, k)
  {
  }

  // ------------------------------------------------------------- spawning

  /** spawn() parks a fresh task and disturbs nobody. */
  lemma SpawnParks(cfg: Config, s: State, a: Tasks, spec: TaskSpec) returns (s': State, a': Tasks)
    requires cfg.Valid() && s.Shaped() && a.Shaped() && a.tab == s.tab
    requires OthersParked(cfg, s, a.ctx) && CommonHeld(cfg, s.mem, a.common) && CanariesHeld(cfg, s.mem, s.tab)
    ensures s' == SpawnTask(cfg, s, spec).0 && a' == BeginTask(cfg, a, spec)
    ensures a'.tab == s'.tab && s'.tab.current == s.tab.current
    ensures OthersParked(cfg, s', a'.ctx) && CommonHeld(cfg, s'.mem, a'.common) && CanariesHeld(cfg, s'.mem, s'.tab)
    ensures a'.ctx[a.tab.current] == a.ctx[a.tab.current]
    ensures SameBytes(s.mem, s'.mem, Bottom(cfg, s.tab.current), Top(cfg, s.tab.current))
  {
    SpawnTouchesOnlyItsSlot(cfg, s, spec);
    s' := SpawnTask(cfg, s, spec).0;
    a' := BeginTask(cfg, a, spec);
    if SpawnTask(cfg, s, spec).1.Some? {
      SlotParks(cfg, s, s', a, spec, SpawnTask(cfg, s, spec).1.value);
    }
  }

  /** The same, from what spawn() has changed. */
  lemma SlotParks(cfg: Config, s: State, s': State, a: Tasks, spec: TaskSpec, id: nat)
    requires cfg.Valid() && s.Shaped() && s'.Shaped() && a.Shaped() && a.tab == s.tab
    requires OthersParked(cfg, s, a.ctx) && CommonHeld(cfg, s.mem, a.common) && CanariesHeld(cfg, s.mem, s.tab)
    requires Spawn(s.tab, spec) == (s'.tab, Some(id)) && s'.savedSp[id] == FrameBase(cfg, id)
    requires forall j :: 0 <= j < MAX_TASKS && j != id ==> s'.savedSp[j] == s.savedSp[j]
    requires OnlyWithin(s.mem, s'.mem, Bottom(cfg, id), Top(cfg, id))
    requires FrameHolds(s'.mem, FrameBase(cfg, id), FreshRegs(cfg), spec.entry) && CanaryOk(cfg, s'.mem, id)
    ensures id != s.tab.current && s'.tab.current == s.tab.current && 1 <= id < MAX_TASKS
    ensures OthersParked(cfg, s', a.ctx[id := Fresh(cfg, id, spec.entry)])
    ensures CommonHeld(cfg, s'.mem, a.common) && CanariesHeld(cfg, s'.mem, s'.tab)
    ensures SameBytes(s.mem, s'.mem, Bottom(cfg, s.tab.current), Top(cfg, s.tab.current))
  {
    SpawnSafe(s.tab, spec);
    SlotBytes(cfg, s.mem, s'.mem, id);
    FreshParked(cfg, s'.mem, s'.savedSp[id], id, spec.entry);
    forall i: nat | i != id && InUse(s'.tab, i) ensures InUse(s.tab, i) {
      assert i == 0 || i in Occupied(s'.tab);
    }
    OldStayParked(cfg, s, s'.mem, id, a.ctx);
    CommonStays(cfg, s.mem, s'.mem, a.common);
  }

  lemma FreshParked(cfg: Config, m: Memory, sp: Word, id: nat, entry: Word)
    requires cfg.Valid() && 1 <= id < MAX_TASKS && sp == FrameBase(cfg, id)
    requires FrameHolds(m, sp, FreshRegs(cfg), entry)
    ensures Parked(cfg, m, sp, id, Fresh(cfg, id, entry))
  {
    FrameGeometry(cfg, id, if id == 1 then 2 else 1);
    FrameStays(m, m, sp, Fresh(cfg, id, entry).x[SP := 0], entry, FreshRegs(cfg));
  }

  lemma OldStayParked(cfg: Config, s: State, m': Memory, id: nat, ctx: seq<Context>)
    requires cfg.Valid() && s.Shaped() && |ctx| == MAX_TASKS && id < MAX_TASKS
    requires OthersParked(cfg, s, ctx) && CanariesHeld(cfg, s.mem, s.tab)
    requires forall i: nat :: i < MAX_TASKS && i != id ==> SameBytes(s.mem, m', Bottom(cfg, i), Top(cfg, i))
    ensures forall i: nat :: InUse(s.tab, i) && i != s.tab.current && i != id ==>
              Parked(cfg, m', s.savedSp[i], i, ctx[i])
    ensures forall i: nat :: 1 <= i && InUse(s.tab, i) && i != id ==> CanaryOk(cfg, m', i)
  {
    forall i: nat | InUse(s.tab, i) && i != s.tab.current && i != id
      ensures Parked(cfg, m', s.savedSp[i], i, ctx[i])
    {
      ParkedStays(cfg, s.mem, m', s.savedSp[i], i, ctx[i]);
    }
    forall i: nat | 1 <= i && InUse(s.tab, i) && i != id ensures CanaryOk(cfg, m', i) {
      CanaryStays(cfg, s.mem, m', i);
    }
  }

  lemma SlotBytes(cfg: Config, m: Memory, m': Memory, id: nat)
    requires cfg.Valid() && 1 <= id < MAX_TASKS && OnlyWithin(m, m', Bottom(cfg, id), Top(cfg, id))
    ensures forall k :: Common(cfg, k) ==> ByteAt(m', k) == ByteAt(m, k)
    ensures forall i: nat :: i < MAX_TASKS && i != id ==> SameBytes(m, m', Bottom(cfg, i), Top(cfg, i))
  {
    forall i: nat | i < MAX_TASKS && i != id ensures SameBytes(m, m', Bottom(cfg, i), Top(cfg, i)) {
      StacksApart(cfg, i, id);
    }
  }

  lemma {:induction false} OpsPark(cfg: Config, s: Sys, sp: Word, a: Tasks, ops: seq<HandlerOp>)
    requires cfg.Valid() && s.Shaped() && !s.cpu.mie && AllParked(cfg, s.sch, sp, a)
    ensures AllParked(cfg, RunOps(cfg, s, ops).sch, sp, BeginOps(cfg, a, ops))
    decreases |ops|
  {
    if ops != [] {
      var i := a.tab.current;
      match ops[0] {
        case SpawnOp(spec) =>
          assert s.SetMie(false) == s;
          var sch, a1 := SpawnParks(cfg, s.sch, a, spec);
          ParkedStays(cfg, s.sch.mem, sch.mem, sp, i, a.ctx[i]);
          OpsPark(cfg, SpawnCall(cfg, s, spec), sp, a1, ops[1..]);
        case WarmOp(b) =>
          OpsPark(cfg, SetTable(s, s.sch.tab.(warm := b)), sp, a.(tab := a.tab.(warm := b)), ops[1..]);
        case HotOp(b) =>
          OpsPark(cfg, SetTable(s, s.sch.tab.(hot := b)), sp, a.(tab := a.tab.(hot := b)), ops[1..]);
      }
    }
  }

  // -------------------------------------------------------- out of the trap

  /** The exit code resumes the current task from its frame. */
  lemma ExitResumes(cfg: Config, s: Sys, sp: Word, a: Tasks, regs: Regs)
    requires cfg.Valid() && s.Shaped() && AllParked(cfg, s.sch, sp, a)
    ensures Implements(cfg, ExitTrap(s, sp, regs), a)
  {
    var c := a.ctx[a.tab.current];
    ExitRestores(s.cpu.(x := regs[A0 := sp]), s.sch.mem, sp, c.x, c.pc);
  }

  /** next_sp records the outgoing task and hands over the frame of the next. */
  lemma SwitchParks(cfg: Config, s: State, sp: Word, a: Tasks, sensor: Option<Byte>)
    requires cfg.Valid() && s.tab.Valid() && AllParked(cfg, s, sp, a)
    ensures var r := NextTask(cfg, s, sp, sensor);
            r.Some? && AllParked(cfg, r.value.0, r.value.1, a.(tab := Dispatch(a.tab, sensor)))
  {
    PickIsFirst(s.tab, ThermalState(sensor, s.tab.warm, s.tab.hot));
    assert CanariesIntact(cfg, s) by {
      forall id | 1 <= id < s.tab.numTasks && s.tab.alive[id] ensures CanaryOk(cfg, s.mem, id) {
        assert InUse(s.tab, id);
      }
    }
    var (s', next) := NextTask(cfg, s, sp, sensor).value;
    assert InUse(s.tab, s'.tab.current);
    forall i: nat | InUse(s'.tab, i) ensures InUse(s.tab, i) && Parked(cfg, s'.mem, s'.savedSp[i], i, a.ctx[i]) {
    }
  }

  /** What a trap has done to the abstract machine when next_sp is called. */
  function Prepared(cfg: Config, a: Tasks, l: Label): (a': Tasks)
    requires cfg.Valid() && a.Shaped() && IsTrap(l)
    ensures a'.Shaped()
  {
    var a1 := Write(cfg, a, l.work.writes);
    if l.Yield? then WithPc(a1, Plus(a.ctx[a.tab.current].pc, 4)) else BeginOps(cfg, a1, l.work.ops)
  }

  lemma HandledParks(cfg: Config, s: Sys, a: Tasks, l: Label)
    requires cfg.Valid() && Implements(cfg, s, a) && IsTrap(l) && MemoryOk(cfg, s, l)
    ensures AllParked(cfg, Handled(cfg, s, l).sch, EnterTrap(s, l.work).cpu.x[A0], Prepared(cfg, a, l))
  {
    EntryBits(s, l.work);
    var sp := EnterParks(cfg, s, a, l);
    var s1, a1 := EnterTrap(s, l.work), Write(cfg, a, l.work.writes);
    if l.Yield? {
      SkipParks(cfg, s1, sp, a1);
    } else {
      OpsPark(cfg, s1, sp, a1, l.work.ops);
    }
  }

  /** The way out of a trap, from the state in which everybody is parked. */
  lemma LeaveResumes(cfg: Config, s: Sys, sp: Word, a: Tasks, w: TrapWork)
    requires cfg.Valid() && s.Shaped() && s.sch.tab.Valid() && AllParked(cfg, s.sch, sp, a)
    ensures Switch(cfg, s, sp, w).Some? && Implements(cfg, Switch(cfg, s, sp, w).value, Pass(cfg, a, w.sensor))
  {
    if cfg.enabled {
      SwitchParks(cfg, s.sch, sp, a, w.sensor);
      var (sch, next) := NextTask(cfg, s.sch, sp, w.sensor).value;
      ExitResumes(cfg, s.(sch := sch), next, Pass(cfg, a, w.sensor), w.regs);
    } else {
      ExitResumes(cfg, s, sp, a, w.regs);
    }
  }

  lemma ActOnTrap(cfg: Config, a: Tasks, l: Label)
    requires cfg.Valid() && a.Shaped() && IsTrap(l)
    ensures var a' := Prepared(cfg, a, l);
            Act(cfg, a, l) == if l.Irq? then a' else Pass(cfg, a', l.work.sensor)
  {
  }

  lemma TrapResumes(cfg: Config, s: Sys, a: Tasks, l: Label)
    requires cfg.Valid() && s.Shaped() && IsTrap(l)
    requires Handled(cfg, s, l).sch.tab.Valid()
    requires AllParked(cfg, Handled(cfg, s, l).sch, EnterTrap(s, l.work).cpu.x[A0], a)
    ensures Trap(cfg, s, l).Some?
    ensures Implements(cfg, Trap(cfg, s, l).value, if l.Irq? then a else Pass(cfg, a, l.work.sensor))
  {
    var sp, s' := EnterTrap(s, l.work).cpu.x[A0], Handled(cfg, s, l);
    if l.Irq? {
      ExitResumes(cfg, s', sp, a, l.work.regs);
    } else {
      LeaveResumes(cfg, s', sp, a, l.work);
    }
  }

  /** A trap in a disciplined run never panics, and switches tasks exactly as the
      abstract machine does. */
  lemma TrapImplements(cfg: Config, s: Sys, a: Tasks, l: Label)
    requires cfg.Valid() && Orderly(s) && Implements(cfg, s, a)
    requires IsTrap(l) && MemoryOk(cfg, s, l)
    ensures Trap(cfg, s, l).Some? && Implements(cfg, Trap(cfg, s, l).value, Act(cfg, a, l))
  {
    HandledKeeps(cfg, s, l);
    HandledParks(cfg, s, a, l);
    TrapResumes(cfg, s, Prepared(cfg, a, l), l);
    ActOnTrap(cfg, a, l);
  }

  // ---------------------------------------------- steps of the running task

  lemma ComputeImplements(cfg: Config, s: Sys, a: Tasks, l: Label)
    requires cfg.Valid() && Implements(cfg, s, a)
    requires l.Compute? && Enabled(s, l) && MemoryOk(cfg, s, l)
    ensures Implements(cfg, Next(cfg, s, l).value, Act(cfg, a, l))
  {
    var i, m, w := s.Current(), s.sch.mem, l.writes;
    var m', a' := m + w, Act(cfg, a, l);
    forall k | !Common(cfg, k) && !(Floor(cfg, i) <= k < Top(cfg, i)) ensures ByteAt(m', k) == ByteAt(m, k) {
      Merged(m, w, k);
    }
    OthersStay(cfg, s.sch, m', a.ctx);
    CommonMerged(cfg, m, m, w, a.common);
    forall k | k in a'.ctx[i].stack
      ensures l.x[SP] <= k && Floor(cfg, i) <= k < Top(cfg, i) && ByteAt(m', k) == a'.ctx[i].stack[k]
    {
      Merged(m, w, k);
      assert k in a.ctx[i].stack + Own(cfg, i, w);
    }
  }

  lemma SpawnImplements(cfg: Config, s: Sys, a: Tasks, spec: TaskSpec)
    requires cfg.Valid() && Implements(cfg, s, a)
    ensures Implements(cfg, SpawnIn(cfg, s, spec), BeginTask(cfg, a, spec))
  {
    var sch, a' := SpawnParks(cfg, s.sch, a, spec);
  }

  lemma ExitImplements(cfg: Config, s: Sys, a: Tasks)
    requires cfg.Valid() && Orderly(s) && Implements(cfg, s, a) && Enabled(s, MarkDead)
    ensures Implements(cfg, Next(cfg, s, MarkDead).value, Act(cfg, a, MarkDead))
  {
    assert SlotOk(s.sch.tab, s.locals, s.book, s.Current());
    forall i: nat | InUse(Kill(s.sch.tab, s.Current()), i) ensures InUse(s.sch.tab, i) {
    }
  }

  lemma TaskStepImplements(cfg: Config, s: Sys, a: Tasks, l: Label)
    requires cfg.Valid() && Orderly(s) && Implements(cfg, s, a)
    requires Enabled(s, l) && !IsTrap(l) && MemoryOk(cfg, s, l)
    ensures Next(cfg, s, l).Some? && Implements(cfg, Next(cfg, s, l).value, Act(cfg, a, l))
  {
    match l
    case Compute(x, pc, writes) => ComputeImplements(cfg, s, a, l);
    case SpawnBody(spec) => SpawnImplements(cfg, s, a, spec);
    case MarkDead => ExitImplements(cfg, s, a);
    case _ =>
  }

  lemma StepImplements(cfg: Config, s: Sys, a: Tasks, l: Label)
    requires cfg.Valid() && Orderly(s) && Implements(cfg, s, a)
    requires Enabled(s, l) && MemoryOk(cfg, s, l)
    ensures Next(cfg, s, l).Some? && Implements(cfg, Next(cfg, s, l).value, Act(cfg, a, l))
  {
    if IsTrap(l) {
      TrapImplements(cfg, s, a, l);
    } else {
      TaskStepImplements(cfg, s, a, l);
    }
  }

  // -------------------------------------------------------------- whole runs

  /** Every disciplined run of the kernel is, label for label, a run of the machine
      with private contexts; and it never ends in the overflow panic. */
  lemma {:induction false} RunImplements(cfg: Config, s: Sys, a: Tasks, ls: seq<Label>)
    requires cfg.Valid() && Inv(s) && Implements(cfg, s, a)
    requires Possible(cfg, s, ls) && Controlled(cfg, s, ls) && Contained(cfg, s, ls)
    ensures Steps(cfg, s, ls).Some?
    ensures Implements(cfg, Steps(cfg, s, ls).value, Play(cfg, a, ls))
    decreases |ls|
  {
    if ls != [] {
      StepImplements(cfg, s, a, ls[0]);
      StepKeeps(cfg, s, ls[0]);
      RunImplements(cfg, Next(cfg, s, ls[0]).value, Act(cfg, a, ls[0]), ls[1..]);
    }
  }

  /** The abstract machine at boot: main's registers, nothing known of memory. */
  function AtBoot(s: Sys): (a: Tasks)
    requires s.Shaped()
    ensures a.Shaped()
  {
    Tasks(s.sch.tab, seq(MAX_TASKS, _ => Context(s.cpu.x, s.cpu.pc, map[])), map[])
  }

  lemma BootImplements(cfg: Config, s: Sys)
    requires cfg.Valid() && Boot(s)
    ensures Implements(cfg, s, AtBoot(s))
  {
  }
}
