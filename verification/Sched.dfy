/** src/arch/sched.rs: the operations on the scheduler's statics and the task
    stacks, first as functions on values, then as the code, which updates the
    statics in place. */
module Sched {
  import opened Machine
  import opened Eco
  import opened Fairness
  import opened Stacks

  // ---------------------------------------------------------- specification

  datatype State = State(tab: Table, savedSp: seq<Word>, mem: Memory) {
    predicate Shaped() {
      tab.Shaped() && |savedSp| == MAX_TASKS
    }
  }

  ghost function SpawnTask(cfg: Config, s: State, spec: TaskSpec): (r: (State, Option<nat>))
    requires cfg.Valid() && s.Shaped()
    ensures r.0.Shaped() && (r.0.tab, r.1) == Spawn(s.tab, spec)
  {
    var id := SpawnSlot(s.tab);
    if id >= MAX_TASKS then (s, None) else
      (State(SpawnAt(s.tab, id, spec), s.savedSp[id := FrameBase(cfg, id)], Seed(cfg, s.mem, id, spec.entry)), Some(id))
  }

  predicate CanaryOk(cfg: Config, m: Memory, id: nat) {
    LoadWord(m, Bottom(cfg, id)) == STACK_CANARY
  }

  predicate CanariesIntact(cfg: Config, s: State)
    requires s.Shaped()
  {
    forall id :: 1 <= id < s.tab.numTasks && s.tab.alive[id] ==> CanaryOk(cfg, s.mem, id)
  }

  /** None is the panic on a stack overflow. */
  function NextTask(cfg: Config, s: State, sp: Word, sensor: Option<Byte>): (r: Option<(State, Word)>)
    requires s.Shaped()
    ensures r.Some? ==> r.value.0.Shaped()
    ensures r.Some? <==> CanariesIntact(cfg, s)
    ensures r.Some? ==> r.value.0.tab == Dispatch(s.tab, sensor)
                        && r.value.0.savedSp == s.savedSp[s.tab.current := sp]
                        && r.value.1 == r.value.0.savedSp[r.value.0.tab.current]
                        && r.value.0.mem == s.mem
  {
    if !CanariesIntact(cfg, s) then None else
      var t := Dispatch(s.tab, sensor);
      var savedSp := s.savedSp[s.tab.current := sp];
      Some((State(t, savedSp, s.mem), savedSp[t.current]))
  }

  /** Whom next_sp chooses, on the raw reading: the first slot after the current one
      in cyclic order that is main or a live task of a priority that the reading
      allows. Nothing else in the table moves. */
  lemma NextTaskByHeat(cfg: Config, s: State, sp: Word, sensor: Option<Byte>)
    requires s.Shaped() && s.tab.Valid() && NextTask(cfg, s, sp, sensor).Some?
    ensures var t, t' := s.tab, NextTask(cfg, s, sp, sensor).value.0.tab;
            var p := t'.current;
            && t' == t.(current := p) && p < t.numTasks && t.alive[p]
            && (p != 0 && sensor.Some? && sensor.value >= t.hot ==> t.priority[p] == High)
            && (p != 0 && sensor.Some? && sensor.value >= t.warm ==> t.priority[p] != Low)
            && forall q: nat :: q < t.numTasks && MayRun(t, q, sensor) ==> Hops(t, p) <= Hops(t, q)
  {
    DispatchAllowed(s.tab, sensor);
  }

  lemma CanaryWords(cfg: Config, s: State)
    requires s.Shaped()
    ensures CanariesIntact(cfg, s) <==>
            forall id: nat :: 1 <= id < s.tab.numTasks && s.tab.alive[id] ==>
              LoadWord(s.mem, cfg.base + (id - 1) * 2048) == 0xC0FFEE54
  {
    forall id: nat | 1 <= id < s.tab.numTasks
      ensures CanaryOk(cfg, s.mem, id) <==> LoadWord(s.mem, cfg.base + (id - 1) * 2048) == 0xC0FFEE54
    {
    }
  }

  /** Stack-in-use safety: spawn() leaves the saved sp of every other slot and
      every byte outside the chosen slot's stack as they were, and the chosen
      stack belongs to nobody: its task is dead and is not the one executing. */
  lemma SpawnTouchesOnlyItsSlot(cfg: Config, s: State, spec: TaskSpec)
    requires cfg.Valid() && s.Shaped()
    ensures var (s', r) := SpawnTask(cfg, s, spec);
            match r
            case None => s' == s
            case Some(id) =>
              && 1 <= id < MAX_TASKS && id !in Occupied(s.tab) && id != s.tab.current
              && (forall j :: 0 <= j < MAX_TASKS && j != id ==> s'.savedSp[j] == s.savedSp[j])
              && OnlyWithin(s.mem, s'.mem, Bottom(cfg, id), Top(cfg, id))
              && s'.savedSp[id] == FrameBase(cfg, id)
              && FrameHolds(s'.mem, FrameBase(cfg, id), FreshRegs(cfg), spec.entry)
              && CanaryOk(cfg, s'.mem, id)
  {
    SpawnSafe(s.tab, spec);
    var id := SpawnSlot(s.tab);
    if id < MAX_TASKS {
      var m := SeedFrame(cfg, s.mem, id, spec.entry);
    }
  }

  // -------------------------------------------------------------------- code

  /** Memory, shared by the kernel and the tasks. */
  class Ram {
    var bytes: Memory

    constructor (bytes: Memory)
      ensures this.bytes == bytes
    {
      this.bytes := bytes;
    }
  }

  class Scheduler {
    const cfg: Config
    const ram: Ram
    const savedSp: array<Word>
    const priorities: array<Priority>
    const taskAlive: array<bool>
    const onExit: array<Option<Word>>
    var numTasks: nat
    var currentTask: nat
    var warmThreshold: Byte
    var hotThreshold: Byte

    ghost predicate Valid()
      reads this
    {
      && cfg.Valid()
      && savedSp.Length == priorities.Length == taskAlive.Length == onExit.Length == MAX_TASKS
      && currentTask < numTasks <= MAX_TASKS
    }

    ghost const Repr: set<object> := {this, ram, savedSp, priorities, taskAlive, onExit}

    ghost function View(): (s: State)
      requires Valid()
      reads Repr
      ensures s.Shaped()
    {
      State(
        Table(priorities[..], taskAlive[..], onExit[..], numTasks, currentTask, warmThreshold, hotThreshold),
        savedSp[..], ram.bytes)
    }

    /** The initial values of the statics. */
    constructor (cfg: Config, ram: Ram)
      requires cfg.Valid()
      ensures Valid() && this.cfg == cfg && this.ram == ram
      ensures fresh(Repr - {ram})
      ensures View() == State(InitTable(), seq(MAX_TASKS, _ => 0), ram.bytes)
    {
      this.cfg := cfg;
      this.ram := ram;
      savedSp := new Word[MAX_TASKS](_ => 0);
      priorities := new Priority[MAX_TASKS](_ => Normal);
      taskAlive := new bool[MAX_TASKS](_ => true);
      onExit := new Option<Word>[MAX_TASKS](_ => None);
      numTasks := 1;
      currentTask := 0;
      warmThreshold := 110;
      hotThreshold := 140;
      new;
      assert View().tab.priority == InitTable().priority;
      assert View().tab.alive == InitTable().alive;
      assert View().tab.onExit == InitTable().onExit;
      assert View().savedSp == seq(MAX_TASKS, _ => 0);
    }

    /** Resets the table; the saved stack pointers and the stacks stay. */
    method Init()
      requires Valid()
      modifies Repr - {ram, savedSp}
      ensures Valid()
      ensures View() == old(View()).(tab := InitTable())
    {
      numTasks := 1;
      currentTask := 0;
      warmThreshold := 110;
      hotThreshold := 140;
      forall i | 0 <= i < MAX_TASKS { priorities[i] := Normal; }
      forall i | 0 <= i < MAX_TASKS { taskAlive[i] := true; }
      forall i | 0 <= i < MAX_TASKS { onExit[i] := None; }
      assert priorities[..] == InitTable().priority;
      assert taskAlive[..] == InitTable().alive;
      assert onExit[..] == InitTable().onExit;
      assert savedSp[..] == old(savedSp[..]);
    }

    method IsAlive(id: nat) returns (alive: bool)
      requires Valid()
      ensures alive == Eco.IsAlive(View().tab, id)
    {
      if id >= MAX_TASKS {
        return false;
      }
      return taskAlive[id];
    }

    method SetWarmThreshold(value: Byte)
      requires Valid()
      modifies this`warmThreshold
      ensures Valid() && warmThreshold == value
    {
      warmThreshold := value;
    }

    method SetHotThreshold(value: Byte)
      requires Valid()
      modifies this`hotThreshold
      ensures Valid() && hotThreshold == value
    {
      hotThreshold := value;
    }

    method WriteCanary(id: nat)
      requires Valid() && 1 <= id < MAX_TASKS
      modifies ram
      ensures ram.bytes == StoreWord(old(ram.bytes), Bottom(cfg, id), STACK_CANARY)
    {
      ram.bytes := StoreWord(ram.bytes, cfg.base + (id - 1) * STACK_SIZE, STACK_CANARY);
    }

    method CheckCanary(id: nat) returns (intact: bool)
      requires Valid() && 1 <= id < MAX_TASKS
      ensures intact <==> LoadWord(ram.bytes, cfg.base + (id - 1) * 2048) == 0xC0FFEE54
    {
      intact := LoadWord(ram.bytes, cfg.base + (id - 1) * STACK_SIZE) == STACK_CANARY;
    }

    /** spawn()'s search: the lowest dead slot that is not executing, else numTasks. */
    method FindSlot() returns (id: nat)
      requires Valid()
      ensures id == SpawnSlot(View().tab)
    {
      id := 1;
      while id < numTasks && (taskAlive[id] || id == currentTask)
        invariant 1 <= id <= numTasks
        invariant SpawnSlot(View().tab) == FreeSlot(View().tab, id)
      {
        id := id + 1;
      }
    }

    /** Zeroes and fills the frame at the top of stack id. */
    method SeedStack(id: nat, entry: Word) returns (frame: Word)
      requires Valid() && 1 <= id < MAX_TASKS
      modifies ram
      ensures frame == FrameBase(cfg, id)
      ensures StoreWord(ram.bytes, Bottom(cfg, id), STACK_CANARY) == Seed(cfg, old(ram.bytes), id, entry)
    {
      var stackTop := cfg.base + (id - 1) * STACK_SIZE + STACK_SIZE;
      stackTop := stackTop - stackTop % 16;
      FrameGeometry(cfg, id, if id == 1 then 2 else 1);
      frame := stackTop - FRAME_SIZE;
      var m := ZeroBytes(ram.bytes, frame, FRAME_SIZE);
      m := StoreWord(m, frame, cfg.taskExited);
      ram.bytes := StoreWord(m, frame as int + 112, entry);
    }

    /** The closure that TaskBuilder::spawn runs in its critical section. */
    method Spawn(spec: TaskSpec) returns (r: Option<nat>)
      requires Valid()
      modifies Repr
      ensures Valid()
      ensures (View(), r) == SpawnTask(cfg, old(View()), spec)
    {
      var id := FindSlot();
      if id >= MAX_TASKS {
        return None;
      }
      var frame := SeedStack(id, spec.entry);
      savedSp[id] := frame;
      priorities[id] := spec.priority;
      onExit[id] := spec.onExit;
      taskAlive[id] := true;
      WriteCanary(id);
      if id == numTasks {
        numTasks := id + 1;
      }
      return Some(id);
    }

    /** What task_exited does before it calls the callback. */
    method MarkDead(id: nat) returns (callback: Option<Word>)
      requires Valid() && id < MAX_TASKS
      modifies taskAlive, onExit
      ensures Valid()
      ensures View() == old(View()).(tab := Kill(old(View()).tab, id))
      ensures callback == old(onExit[id])
    {
      taskAlive[id] := false;
      callback := onExit[id];
      onExit[id] := None;
    }

    method IsEligible(id: nat, priority: Priority, state: Thermal) returns (may: bool)
      requires Valid() && id < MAX_TASKS
      ensures may == Eligible(View().tab.(priority := View().tab.priority[id := priority]), id, state)
    {
      if !taskAlive[id] {
        return false;
      }
      if id == 0 {
        return true;
      }
      match (state, priority)
      case (Cool, _) => may := true;
      case (Warm, Low) => may := false;
      case (Warm, _) => may := true;
      case (Hot, High) => may := true;
      case (Hot, _) => may := false;
    }

    /** next_sp's first loop: the lowest live task whose canary is broken. */
    method ScanCanaries() returns (broken: Option<nat>)
      requires Valid()
      ensures broken == None <==> CanariesIntact(cfg, View())
      ensures broken.Some? ==>
                && 1 <= broken.value < numTasks && taskAlive[broken.value]
                && LoadWord(ram.bytes, cfg.base + (broken.value - 1) * 2048) != 0xC0FFEE54
      ensures var last := if broken.Some? then broken.value else numTasks;
              forall j: nat :: 1 <= j < last && taskAlive[j] ==> LoadWord(ram.bytes, cfg.base + (j - 1) * 2048) == 0xC0FFEE54
    {
      for id := 1 to numTasks
        invariant forall j :: 1 <= j < id && taskAlive[j] ==> CanaryOk(cfg, ram.bytes, j)
      {
        var intact := CheckCanary(id);
        if taskAlive[id] && !intact {
          assert View().tab.alive[id] && !CanaryOk(cfg, View().mem, id);
          return Some(id);
        }
      }
      return None;
    }

    /** next_sp's second loop: the first eligible slot after the current one. */
    method FindNext(state: Thermal) returns (next: nat)
      requires Valid()
      ensures next < numTasks && next == Pick(View().tab, state)
    {
      ghost var tab := View().tab;
      next := currentTask;
      var k := 0;
      while k < numTasks
        invariant k <= numTasks && next < numTasks
        invariant Search(tab, state, next, numTasks - k) == Pick(tab, state)
      {
        next := (next + 1) % numTasks;
        var may := IsEligible(next, priorities[next], state);
        assert tab.priority[next := priorities[next]] == tab.priority;
        if may {
          return;
        }
        k := k + 1;
      }
    }

    /** None when a live task's canary is broken: the call panics. Else the next
        slot is the first in cyclic order that the reading allows to run. */
    method NextSp(currentSp: Word, sensor: Option<Byte>) returns (r: Option<Word>)
      requires Valid()
      modifies savedSp, this`currentTask
      ensures Valid()
      ensures match r
              case None => NextTask(cfg, old(View()), currentSp, sensor) == None
                           && View() == old(View()).(savedSp := old(View()).savedSp[old(currentTask) := currentSp])
              case Some(sp) => NextTask(cfg, old(View()), currentSp, sensor) == Some((View(), sp))
      ensures var t := old(View()).tab;
              r == None <==> exists id: nat :: 1 <= id < t.numTasks && t.alive[id]
                                              && LoadWord(ram.bytes, cfg.base + (id - 1) * 2048) != 0xC0FFEE54
      ensures var t := old(View()).tab;
              r.Some? && t.alive[0] ==>
                && t.alive[currentTask]
                && (currentTask != 0 && sensor.Some? && sensor.value >= t.hot ==> t.priority[currentTask] == High)
                && (currentTask != 0 && sensor.Some? && sensor.value >= t.warm ==> t.priority[currentTask] != Low)
                && forall q: nat :: q < t.numTasks && MayRun(t, q, sensor) ==> Hops(t, currentTask) <= Hops(t, q)
    {
      ghost var s := View();
      savedSp[currentTask] := currentSp;
      assert View() == s.(savedSp := s.savedSp[currentTask := currentSp]);
      var broken := ScanCanaries();
      CanaryWords(cfg, s);
      if broken.Some? {
        assert s.tab.alive[broken.value];
        return None;
      }
      var next := FindNext(ThermalState(sensor, warmThreshold, hotThreshold));
      assert next == Pick(s.tab, ThermalState(sensor, warmThreshold, hotThreshold));
      currentTask := next;
      if s.tab.alive[0] {
        DispatchAllowed(s.tab, sensor);
      }
      return Some(savedSp[next]);
    }
  }
}
