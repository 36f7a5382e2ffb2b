/** The control invariant of the whole machine: which tasks may be interrupted,
    which slots are whose, and what has been called for whom. Nothing here
    depends on what is in memory. */
module Protocol {
  import opened Machine
  import opened Eco
  import opened Stacks
  import opened Sched
  import opened Kernel

  // ----------------------------------------------------------- the invariant

  /** The outermost section saw interrupts on, the ones inside it saw them off. */
  predicate Nested(saved: seq<bool>) {
    forall k :: 0 <= k < |saved| ==> saved[k] == (k == 0)
  }

  predicate LocalOk(l: Local, i: nat) {
    && Nested(l.saved)
    && (l.pending.Some? ==> l.pending.value == (l.saved == []))
    && match l.phase
       case Body => true
       case Returned => l.saved == [] && l.pending == None
       case HaveId(id) => id == i && |l.saved| <= 1 && (l.pending.Some? ==> l.saved == [])
       case Callback => l.saved != []
       case Done => l.saved == [] && l.pending == None
  }

  /** Slot i, live or executing: its incarnation is the one the book has for it;
      it is dead exactly from the moment its exit takes effect; unless it is the
      one executing it is inside no critical section. */
  predicate SlotOk(t: Table, locals: seq<Local>, book: seq<Incarnation>, i: nat)
    requires t.Shaped() && |locals| == MAX_TASKS && i < t.numTasks
  {
    t.alive[i] || i == t.current ==>
      var l := locals[i];
      && LocalOk(l, i)
      && (i != t.current ==> l.saved == [])
      && (t.alive[i] <==> !l.phase.Callback? && !l.phase.Done?)
      && l.uid < |book| && book[l.uid].slot == i
      && book[l.uid].exited == !t.alive[i]
      && book[l.uid].returned == !l.phase.Body?
      && t.onExit[i] == (if t.alive[i] then book[l.uid].onExit else None)
      && (i == 0 ==> l.phase.Body?)
  }

  /** What an exit calls: the callback, if there is one, once. */
  function OnceFor(b: Incarnation): seq<Word> {
    if b.exited && b.onExit.Some? then [b.onExit.value] else []
  }

  /** An incarnation has had its callback called if its exit took effect, and not
      otherwise; only one whose function has returned exits; until its exit it
      keeps its slot. */
  predicate EntryOk(t: Table, locals: seq<Local>, book: seq<Incarnation>, u: nat)
    requires t.Shaped() && |locals| == MAX_TASKS && u < |book|
  {
    var b := book[u];
    && b.fired == OnceFor(b)
    && (b.exited ==> b.returned)
    && b.slot < t.numTasks
    && (!b.exited ==> t.alive[b.slot] && locals[b.slot].uid == u)
  }

  ghost predicate Consistent(t: Table, locals: seq<Local>, book: seq<Incarnation>) {
    && t.Valid() && |locals| == MAX_TASKS
    && (forall i: nat :: i < t.numTasks ==> SlotOk(t, locals, book, i))
    && (forall u: nat :: u < |book| ==> EntryOk(t, locals, book, u))
  }

  ghost predicate Orderly(s: Sys) {
    s.Shaped() && Consistent(s.sch.tab, s.locals, s.book)
  }

  /** MIE is set exactly when the running task is inside no critical section. */
  predicate Unmasked(s: Sys)
    requires s.Shaped()
  {
    s.cpu.mie <==> s.Me().saved == []
  }

  ghost predicate Inv(s: Sys) {
    Orderly(s) && Unmasked(s)
  }

  lemma BootInv(s: Sys)
    requires Boot(s)
    ensures Inv(s)
  {
    assert SlotOk(s.sch.tab, s.locals, s.book, 0);
  }

  // -------------------------------------------------- spawning keeps it

  lemma SpawnConsistent(t: Table, locals: seq<Local>, book: seq<Incarnation>, spec: TaskSpec, id: nat)
    requires Consistent(t, locals, book) && Spawn(t, spec).1 == Some(id)
    ensures Consistent(
              Spawn(t, spec).0,
              locals[id := Local(|book|, None, [], Body)],
              book + [Incarnation(id, spec.onExit, false, false, [])])
  {
    SpawnSafe(t, spec);
    var t' := Spawn(t, spec).0;
    var locals' := locals[id := Local(|book|, None, [], Body)];
    var book' := book + [Incarnation(id, spec.onExit, false, false, [])];
    forall i: nat | i < t'.numTasks ensures SlotOk(t', locals', book', i) {
      if i != id {
        assert SlotOk(t, locals, book, i);
      }
    }
    forall u: nat | u < |book'| ensures EntryOk(t', locals', book', u) {
      if u < |book| {
        assert EntryOk(t, locals, book, u);
        assert book[u].slot == id ==> book[u].exited;
      }
    }
  }

  lemma SpawnInKeeps(cfg: Config, s: Sys, spec: TaskSpec)
    requires cfg.Valid() && Orderly(s)
    ensures var s' := SpawnIn(cfg, s, spec);
            && Orderly(s') && s'.cpu == s.cpu && s'.Me() == s.Me()
            && s'.sch.tab == Apply(s.sch.tab, Spawned(spec))
  {
    SpawnSafe(s.sch.tab, spec);
    var r := SpawnTask(cfg, s.sch, spec).1;
    if r.Some? {
      SpawnConsistent(s.sch.tab, s.locals, s.book, spec, r.value);
    }
  }

  lemma ThresholdConsistent(t: Table, locals: seq<Local>, book: seq<Incarnation>, warm: Byte, hot: Byte)
    requires Consistent(t, locals, book)
    ensures Consistent(t.(warm := warm, hot := hot), locals, book)
  {
    var t' := t.(warm := warm, hot := hot);
    forall i: nat | i < t'.numTasks ensures SlotOk(t', locals, book, i) {
      assert SlotOk(t, locals, book, i);
    }
    forall u: nat | u < |book| ensures EntryOk(t', locals, book, u) {
      assert EntryOk(t, locals, book, u);
    }
  }

  // --------------------------------------------- what a handler's calls do

  function OpEvents(ops: seq<HandlerOp>): (es: seq<Event>)
    ensures |es| == |ops|
  {
    if ops == [] then [] else
      var e := match ops[0]
               case SpawnOp(spec) => Spawned(spec)
               case WarmOp(b) => WarmSet(b)
               case HotOp(b) => HotSet(b);
      [e] + OpEvents(ops[1..])
  }

  /** Inside a trap interrupts are off, and critical_section leaves them off. */
  lemma {:induction false} RunOpsKeeps(cfg: Config, s: Sys, ops: seq<HandlerOp>)
    requires cfg.Valid() && Orderly(s) && !s.cpu.mie
    ensures var s' := RunOps(cfg, s, ops);
            && Orderly(s') && s'.cpu == s.cpu && s'.timerOn == s.timerOn
            && s'.Current() == s.Current() && s'.Me() == s.Me()
            && s'.sch.tab == Run(s.sch.tab, OpEvents(ops)) && Legal(s.sch.tab, OpEvents(ops))
    decreases |ops|
  {
    if ops != [] {
      match ops[0] {
        case SpawnOp(spec) =>
          assert s.SetMie(false) == s;
          SpawnInKeeps(cfg, s, spec);
          SpawnSafe(s.sch.tab, spec);
          RunOpsKeeps(cfg, SpawnCall(cfg, s, spec), ops[1..]);
        case WarmOp(b) =>
          ThresholdConsistent(s.sch.tab, s.locals, s.book, b, s.sch.tab.hot);
          RunOpsKeeps(cfg, SetTable(s, s.sch.tab.(warm := b)), ops[1..]);
        case HotOp(b) =>
          ThresholdConsistent(s.sch.tab, s.locals, s.book, s.sch.tab.warm, b);
          RunOpsKeeps(cfg, SetTable(s, s.sch.tab.(hot := b)), ops[1..]);
      }
      assert OpEvents(ops)[1..] == OpEvents(ops[1..]);
    }
  }

  lemma {:induction false} RunOpsMore(cfg: Config, s: Sys, ops: seq<HandlerOp>, op: HandlerOp)
    requires cfg.Valid() && s.Shaped()
    ensures RunOps(cfg, s, ops + [op]) == RunOp(cfg, RunOps(cfg, s, ops), op)
    decreases |ops|
  {
    if ops == [] {
      assert (ops + [op])[1..] == [];
      assert RunOps(cfg, RunOp(cfg, s, op), []) == RunOp(cfg, s, op);
    } else {
      assert (ops + [op])[1..] == ops[1..] + [op];
      RunOpsMore(cfg, RunOp(cfg, s, ops[0]), ops[1..], op);
    }
  }

  /** A handler's calls take effect one after the other, in order: each makes just
      the change of its own call, and a handler that calls nothing changes nothing. */
  lemma RunOpsExact(cfg: Config, s: Sys, ops: seq<HandlerOp>, op: HandlerOp)
    requires cfg.Valid() && s.Shaped()
    ensures RunOps(cfg, s, []) == s
    ensures var before, after := RunOps(cfg, s, ops), RunOps(cfg, s, ops + [op]);
            && after.cpu == before.cpu && after.timerOn == before.timerOn
            && (op.SpawnOp? ==> after.sch == SpawnTask(cfg, before.sch, op.spec).0)
            && (op.WarmOp? ==> after == before.(sch := before.sch.(tab := before.sch.tab.(warm := op.warm))))
            && (op.HotOp? ==> after == before.(sch := before.sch.(tab := before.sch.tab.(hot := op.hot))))
  {
    RunOpsMore(cfg, s, ops, op);
  }

  // ------------------------------------------------------------ dispatching

  lemma DispatchConsistent(t: Table, locals: seq<Local>, book: seq<Incarnation>, p: nat)
    requires Consistent(t, locals, book) && locals[t.current].saved == []
    requires p < t.numTasks && t.alive[p]
    ensures Consistent(t.(current := p), locals, book)
    ensures locals[p].saved == []
  {
    var t' := t.(current := p);
    forall i: nat | i < t'.numTasks ensures SlotOk(t', locals, book, i) {
      assert SlotOk(t, locals, book, i);
    }
    forall u: nat | u < |book| ensures EntryOk(t', locals, book, u) {
      assert EntryOk(t, locals, book, u);
    }
    assert SlotOk(t, locals, book, p);
  }

  // ------------------------------------- the interrupt bits across a trap

  predicate NoMret(code: seq<Instr>) {
    forall k :: 0 <= k < |code| ==> !code[k].Mret?
  }

  lemma {:induction false} BitsStay(c: Core, code: seq<Instr>)
    requires NoMret(code)
    ensures Exec(c, code).cpu.mie == c.cpu.mie && Exec(c, code).cpu.mpie == c.cpu.mpie
    decreases |code|
  {
    if code != [] {
      BitsStay(Execute(c, code[0]), code[1..]);
    }
  }

  lemma EntryBits(s: Sys, w: TrapWork)
    requires s.Shaped()
    ensures var s' := EnterTrap(s, w);
            !s'.cpu.mie && s'.cpu.mpie == s.cpu.mie
  {
    EntryShape();
    BitsStay(Core(TakeTrap(s.cpu), s.sch.mem), ENTRY_HEAD + Stores(0) + ENTRY_TAIL);
  }

  lemma ExitBits(s: Sys, sp: Word, regs: Regs)
    requires s.Shaped()
    ensures ExitTrap(s, sp, regs).cpu.mie == s.cpu.mpie
  {
    var c := Core(s.cpu.(x := regs[A0 := sp]), s.sch.mem);
    ExitShape();
    var body := EXIT_HEAD + Loads(0) + [Addi(SP, SP, 128)];
    assert EXIT_HEAD + Loads(0) + EXIT_TAIL == body + [Mret];
    BitsStay(c, body);
    ExecAppend(c, body, [Mret]);
    var c' := Exec(c, body);
    assert Exec(c', [Mret]) == Execute(c', Mret) by {
      assert [Mret][1..] == [];
    }
  }

  // --------------------------------------------- steps of the running task

  /** The running task moves on inside or between its critical sections. */
  lemma MeConsistent(t: Table, locals: seq<Local>, book: seq<Incarnation>, l: Local)
    requires Consistent(t, locals, book)
    requires var me := locals[t.current];
             && l.uid == me.uid && LocalOk(l, t.current)
             && (l.phase.Body? <==> me.phase.Body?)
             && (l.phase.Callback? || l.phase.Done? <==> me.phase.Callback? || me.phase.Done?)
    ensures Consistent(t, locals[t.current := l], book)
  {
    var locals' := locals[t.current := l];
    forall i: nat | i < t.numTasks ensures SlotOk(t, locals', book, i) {
      assert SlotOk(t, locals, book, i);
    }
    forall u: nat | u < |book| ensures EntryOk(t, locals', book, u) {
      assert EntryOk(t, locals, book, u);
    }
  }

  lemma ReturnConsistent(t: Table, locals: seq<Local>, book: seq<Incarnation>)
    requires Consistent(t, locals, book) && t.current != 0
    requires var me := locals[t.current];
             me.phase.Body? && me.saved == [] && me.pending == None && me.uid < |book|
    ensures var me := locals[t.current];
            Consistent(t, locals[t.current := me.(phase := Returned)], book[me.uid := book[me.uid].(returned := true)])
  {
    var me := locals[t.current];
    assert SlotOk(t, locals, book, t.current);
    var locals', book' := locals[t.current := me.(phase := Returned)], book[me.uid := book[me.uid].(returned := true)];
    forall i: nat | i < t.numTasks ensures SlotOk(t, locals', book', i) {
      assert SlotOk(t, locals, book, i);
    }
    forall u: nat | u < |book'| ensures EntryOk(t, locals', book', u) {
      assert EntryOk(t, locals, book, u);
    }
  }

  /** An exit names the running task's own slot, and takes its callback. */
  lemma ExitConsistent(t: Table, locals: seq<Local>, book: seq<Incarnation>, called: seq<Word>)
    requires Consistent(t, locals, book)
    requires var me := locals[t.current];
             && me.phase == HaveId(t.current) && me.saved != [] && me.uid < |book|
             && called == match t.onExit[t.current] case None => [] case Some(cb) => [cb]
    ensures t.current != 0 && t.alive[t.current]
    ensures var me := locals[t.current];
            Consistent(
              Kill(t, t.current),
              locals[t.current := me.(phase := Callback)],
              book[me.uid := book[me.uid].(exited := true, fired := book[me.uid].fired + called)])
  {
    var me := locals[t.current];
    assert SlotOk(t, locals, book, t.current);
    assert EntryOk(t, locals, book, me.uid);
    var t', locals' := Kill(t, t.current), locals[t.current := me.(phase := Callback)];
    var book' := book[me.uid := book[me.uid].(exited := true, fired := book[me.uid].fired + called)];
    forall i: nat | i < t'.numTasks ensures SlotOk(t', locals', book', i) {
      assert SlotOk(t, locals, book, i);
    }
    forall u: nat | u < |book'| ensures EntryOk(t', locals', book', u) {
      assert EntryOk(t, locals, book, u);
    }
  }

  // --------------------------------------------------------------- one step

  /** What a step does to the table. */
  function EventsOf(cfg: Config, l: Label): seq<Event> {
    match l
    case SpawnBody(spec) => [Spawned(spec)]
    case SetWarm(b) => [WarmSet(b)]
    case SetHot(b) => [HotSet(b)]
    case MarkDead => [Exited]
    case Tick(w) => OpEvents(w.ops) + if cfg.enabled then [Dispatched(w.sensor)] else []
    case Irq(w) => OpEvents(w.ops)
    case Yield(w) => if cfg.enabled then [Dispatched(w.sensor)] else []
    case _ => []
  }

  /** In the state in which next_sp is called, everything is as the handler left
      it; the interrupted task is still the current one. */
  lemma HandledKeeps(cfg: Config, s: Sys, l: Label)
    requires cfg.Valid() && Orderly(s) && IsTrap(l)
    ensures var s' := Handled(cfg, s, l);
            var es := if l.Yield? then [] else OpEvents(l.work.ops);
            && Orderly(s') && s'.Me() == s.Me() && s'.Current() == s.Current()
            && !s'.cpu.mie && s'.cpu.mpie == s.cpu.mie
            && s'.sch.tab == Run(s.sch.tab, es) && Legal(s.sch.tab, es)
  {
    EntryBits(s, l.work);
    var s1 := EnterTrap(s, l.work);
    if !l.Yield? {
      RunOpsKeeps(cfg, s1, l.work.ops);
    }
  }

  /** After a trap the table is that of the dispatch, nothing else has moved, and
      MIE is what it was before: it is not part of the saved frame. */
  lemma TrapEffect(cfg: Config, s: Sys, l: Label)
    requires cfg.Valid() && Orderly(s) && IsTrap(l) && Trap(cfg, s, l).Some?
    ensures var s1, s' := Handled(cfg, s, l), Trap(cfg, s, l).value;
            && s'.sch.tab == (if cfg.enabled && !l.Irq? then Dispatch(s1.sch.tab, l.work.sensor) else s1.sch.tab)
            && s'.locals == s1.locals && s'.book == s1.book
            && s'.cpu.mie == s.cpu.mie
  {
    HandledKeeps(cfg, s, l);
    var sp := EnterTrap(s, l.work).cpu.x[A0];
    var s1 := Handled(cfg, s, l);
    if l.Irq? || !cfg.enabled {
      ExitBits(s1, sp, l.work.regs);
    } else {
      var (sch, next) := NextTask(cfg, s1.sch, sp, l.work.sensor).value;
      ExitBits(s1.(sch := sch), next, l.work.regs);
    }
  }

  lemma TrapKeeps(cfg: Config, s: Sys, l: Label)
    requires cfg.Valid() && Inv(s) && IsTrap(l) && Trap(cfg, s, l).Some?
    requires s.Me().saved == []
    ensures Inv(Trap(cfg, s, l).value)
  {
    HandledKeeps(cfg, s, l);
    TrapEffect(cfg, s, l);
    var s1 := Handled(cfg, s, l);
    if cfg.enabled && !l.Irq? {
      var state := ThermalState(l.work.sensor, s1.sch.tab.warm, s1.sch.tab.hot);
      PickIsFirst(s1.sch.tab, state);
      DispatchConsistent(s1.sch.tab, s1.locals, s1.book, Pick(s1.sch.tab, state));
    }
  }

  lemma {:induction false} LastDispatch(t: Table, es: seq<Event>, sensor: Option<Byte>)
    requires t.Shaped() && Legal(t, es)
    ensures Legal(t, es + [Dispatched(sensor)])
    ensures Run(t, es + [Dispatched(sensor)]) == Dispatch(Run(t, es), sensor)
  {
    var e := Dispatched(sensor);
    RunOne(Run(t, es), e);
    RunAppend(t, es, [e]);
  }

  lemma {:induction false} TableAcrossTrap(cfg: Config, t: Table, t1: Table, t': Table, l: Label)
    requires t.Shaped() && IsTrap(l)
    requires var es := if l.Yield? then [] else OpEvents(l.work.ops);
             t1 == Run(t, es) && Legal(t, es)
    requires t' == if cfg.enabled && !l.Irq? then Dispatch(t1, l.work.sensor) else t1
    ensures Legal(t, EventsOf(cfg, l)) && t' == Run(t, EventsOf(cfg, l))
  {
    match l
    case Tick(w) =>
      if cfg.enabled {
        LastDispatch(t, OpEvents(w.ops), w.sensor);
      } else {
        assert EventsOf(cfg, l) == OpEvents(w.ops);
      }
    case Irq(w) =>
    case Yield(w) =>
      RunOne(t, Dispatched(w.sensor));
  }

  lemma {:induction false} TrapEvents(cfg: Config, s: Sys, l: Label)
    requires cfg.Valid() && Orderly(s) && IsTrap(l) && Trap(cfg, s, l).Some?
    ensures Legal(s.sch.tab, EventsOf(cfg, l))
    ensures Trap(cfg, s, l).value.sch.tab == Run(s.sch.tab, EventsOf(cfg, l))
  {
    HandledKeeps(cfg, s, l);
    TrapEffect(cfg, s, l);
    TableAcrossTrap(cfg, s.sch.tab, Handled(cfg, s, l).sch.tab, Trap(cfg, s, l).value.sch.tab, l);
  }

  lemma TaskStepKeeps(cfg: Config, s: Sys, l: Label)
    requires cfg.Valid() && Inv(s) && Enabled(s, l) && !IsTrap(l) && ControlOk(s, l)
    ensures Next(cfg, s, l).Some? && Inv(Next(cfg, s, l).value)
  {
    var t, me := s.sch.tab, s.Me();
    assert SlotOk(t, s.locals, s.book, t.current);
    match l
    case SpawnBody(spec) =>
      SpawnInKeeps(cfg, s, spec);
    case SetWarm(b) =>
      ThresholdConsistent(t, s.locals, s.book, b, t.hot);
    case SetHot(b) =>
      ThresholdConsistent(t, s.locals, s.book, t.warm, b);
    case Return =>
      ReturnConsistent(t, s.locals, s.book);
    case MarkDead =>
      var called := match t.onExit[t.current] case None => [] case Some(cb) => [cb];
      ExitConsistent(t, s.locals, s.book, called);
    case ReadStatus =>
      MeConsistent(t, s.locals, s.book, me.(pending := Some(s.cpu.mie)));
    case MaskIrq =>
      MeConsistent(t, s.locals, s.book, me.(pending := None, saved := me.saved + [me.pending.value]));
    case LeaveSection =>
      var n := |me.saved| - 1;
      var phase := if me.phase.Callback? && n == 0 then Done else me.phase;
      MeConsistent(t, s.locals, s.book, me.(saved := me.saved[..n], phase := phase));
    case LoadId =>
      MeConsistent(t, s.locals, s.book, me.(phase := HaveId(t.current)));
    case _ =>
  }

  lemma TaskStepEvents(cfg: Config, s: Sys, l: Label)
    requires cfg.Valid() && Inv(s) && Enabled(s, l) && !IsTrap(l)
    ensures Next(cfg, s, l).Some? && Next(cfg, s, l).value.sch.tab == Run(s.sch.tab, EventsOf(cfg, l))
    ensures Legal(s.sch.tab, EventsOf(cfg, l))
  {
    var t := s.sch.tab;
    assert SlotOk(t, s.locals, s.book, t.current);
    var es := EventsOf(cfg, l);
    if es != [] {
      RunOne(t, es[0]);
      assert es == [es[0]];
    }
  }

  /** One step of any task, or one trap, keeps the invariant, as long as nobody
      yields inside a critical section; and what it does to the table is legal. */
  lemma StepKeeps(cfg: Config, s: Sys, l: Label)
    requires cfg.Valid() && Inv(s) && Enabled(s, l) && ControlOk(s, l)
    requires Next(cfg, s, l).Some?
    ensures Inv(Next(cfg, s, l).value)
    ensures Legal(s.sch.tab, EventsOf(cfg, l))
    ensures Next(cfg, s, l).value.sch.tab == Run(s.sch.tab, EventsOf(cfg, l))
  {
    if IsTrap(l) {
      TrapKeeps(cfg, s, l);
      TrapEvents(cfg, s, l);
    } else {
      TaskStepKeeps(cfg, s, l);
      TaskStepEvents(cfg, s, l);
    }
  }

  // -------------------------------------------------------------- whole runs

  /** What a run does to the table. */
  function History(cfg: Config, ls: seq<Label>): seq<Event> {
    if ls == [] then [] else EventsOf(cfg, ls[0]) + History(cfg, ls[1..])
  }

  lemma {:induction false} RunKeeps(cfg: Config, s: Sys, ls: seq<Label>)
    requires cfg.Valid() && Inv(s) && Possible(cfg, s, ls) && Controlled(cfg, s, ls)
    requires Steps(cfg, s, ls).Some?
    ensures Inv(Steps(cfg, s, ls).value)
    ensures Legal(s.sch.tab, History(cfg, ls))
    ensures Steps(cfg, s, ls).value.sch.tab == Run(s.sch.tab, History(cfg, ls))
    decreases |ls|
  {
    if ls != [] {
      StepKeeps(cfg, s, ls[0]);
      RunKeeps(cfg, Next(cfg, s, ls[0]).value, ls[1..]);
      RunAppend(s.sch.tab, EventsOf(cfg, ls[0]), History(cfg, ls[1..]));
    }
  }
}
