/** The eco-scheduler's table (src/arch/sched.rs) as a value, and what each of its
    operations does to it. Saved stack pointers and the stacks themselves are in
    module Sched; nothing here depends on them. */
module Eco {
  import opened Machine

  const MAX_TASKS := 17

  datatype Priority = Low | Normal | High
  datatype Thermal = Cool | Warm | Hot

  /** What a TaskBuilder holds; functions are represented by their addresses. */
  datatype TaskSpec = TaskSpec(entry: Word, priority: Priority, onExit: Option<Word>)

  datatype Table = Table(
    priority: seq<Priority>,
    alive: seq<bool>,
    onExit: seq<Option<Word>>,
    numTasks: nat,
    current: nat,
    warm: Byte,
    hot: Byte)
  {
    predicate Shaped() {
      && |priority| == |alive| == |onExit| == MAX_TASKS
      && current < numTasks <= MAX_TASKS
    }

    /** Task 0 never exits. */
    predicate Valid() {
      Shaped() && alive[0]
    }
  }

  /** State left by init(). */
  function InitTable(): (t: Table)
    ensures t.Valid()
  {
    Table(seq(MAX_TASKS, _ => Normal), seq(MAX_TASKS, _ => true), seq(MAX_TASKS, _ => None), 1, 0, 110, 140)
  }

  // ------------------------------------------------------------ operations

  /** First slot from i on that is dead and not the one executing, or numTasks. */
  function FreeSlot(t: Table, i: nat): (id: nat)
    requires t.Shaped() && i <= t.numTasks
    ensures i <= id <= t.numTasks
    ensures id < t.numTasks ==> !t.alive[id] && id != t.current
    ensures forall j :: i <= j < id ==> t.alive[j] || j == t.current
    decreases t.numTasks - i
  {
    if i == t.numTasks || (!t.alive[i] && i != t.current) then i else FreeSlot(t, i + 1)
  }

  /** The slot spawn() will hand out; MAX_TASKS when there is none. */
  function SpawnSlot(t: Table): (id: nat)
    requires t.Shaped()
    ensures 1 <= id <= t.numTasks
  {
    FreeSlot(t, 1)
  }

  function SpawnAt(t: Table, id: nat, spec: TaskSpec): (t': Table)
    requires t.Shaped() && 1 <= id <= t.numTasks && id < MAX_TASKS
    ensures t'.Shaped()
  {
    t.(priority := t.priority[id := spec.priority],
       onExit := t.onExit[id := spec.onExit],
       alive := t.alive[id := true],
       numTasks := if id == t.numTasks then id + 1 else t.numTasks)
  }

  function Spawn(t: Table, spec: TaskSpec): (r: (Table, Option<nat>))
    requires t.Shaped()
    ensures r.0.Shaped()
  {
    var id := SpawnSlot(t);
    if id >= MAX_TASKS then (t, None) else (SpawnAt(t, id, spec), Some(id))
  }

  /** task_exited's critical section: the slot is dead and its callback taken. */
  function Kill(t: Table, id: nat): (t': Table)
    requires t.Shaped() && id < MAX_TASKS
    ensures t'.Shaped()
  {
    t.(alive := t.alive[id := false], onExit := t.onExit[id := None])
  }

  /** Sensor reading against the thresholds; no reading without the tsens feature. */
  function ThermalState(sensor: Option<Byte>, warm: Byte, hot: Byte): Thermal {
    match sensor
    case None => Cool
    case Some(raw) => if raw >= hot then Hot else if raw >= warm then Warm else Cool
  }

  predicate Eligible(t: Table, id: nat, state: Thermal)
    requires t.Shaped() && id < MAX_TASKS
  {
    t.alive[id] && (id == 0 || match state
                               case Cool => true
                               case Warm => t.priority[id] != Low
                               case Hot => t.priority[id] == High)
  }

  /** The search loop of next_sp with k rounds to go. */
  function Search(t: Table, state: Thermal, next: nat, k: nat): (p: nat)
    requires t.Shaped() && next < t.numTasks
    ensures p < t.numTasks
    decreases k
  {
    if k == 0 then next else
      var n := (next + 1) % t.numTasks;
      if Eligible(t, n, state) then n else Search(t, state, n, k - 1)
  }

  function Pick(t: Table, state: Thermal): (p: nat)
    requires t.Shaped()
    ensures p < t.numTasks
  {
    Search(t, state, t.current, t.numTasks)
  }

  function Dispatch(t: Table, sensor: Option<Byte>): (t': Table)
    requires t.Shaped()
    ensures t'.Shaped()
  {
    t.(current := Pick(t, ThermalState(sensor, t.warm, t.hot)))
  }

  // ------------------------------------------------------------------ runs

  /** Everything that changes the table once init() has run. */
  datatype Event =
    | Spawned(spec: TaskSpec)
    | Exited
    | Dispatched(sensor: Option<Byte>)
    | WarmSet(warm: Byte)
    | HotSet(hot: Byte)

  function Apply(t: Table, e: Event): (t': Table)
    requires t.Shaped()
    ensures t'.Shaped()
  {
    match e
    case Spawned(spec) => Spawn(t, spec).0
    case Exited => Kill(t, t.current)
    case Dispatched(sensor) => Dispatch(t, sensor)
    case WarmSet(b) => t.(warm := b)
    case HotSet(b) => t.(hot := b)
  }

  /** Only a task other than main exits, and only while it is running. */
  predicate Legal(t: Table, es: seq<Event>)
    requires t.Shaped()
    decreases |es|
  {
    es != [] ==>
      && (es[0].Exited? ==> t.current != 0 && t.alive[t.current])
      && Legal(Apply(t, es[0]), es[1..])
  }

  function Run(t: Table, es: seq<Event>): (t': Table)
    requires t.Shaped()
    ensures t'.Shaped()
    decreases |es|
  {
    if es == [] then t else Run(Apply(t, es[0]), es[1..])
  }

  lemma RunOne(t: Table, e: Event)
    requires t.Shaped()
    ensures Run(t, [e]) == Apply(t, e)
    ensures Legal(t, [e]) <==> (e.Exited? ==> t.current != 0 && t.alive[t.current])
  {
    assert [e][1..] == [];
    assert Run(Apply(t, e), []) == Apply(t, e);
  }

  lemma {:induction false} RunAppend(t: Table, a: seq<Event>, b: seq<Event>)
    requires t.Shaped()
    ensures Run(t, a + b) == Run(Run(t, a), b)
    ensures Legal(t, a) && Legal(Run(t, a), b) ==> Legal(t, a + b)
    decreases |a|
  {
    if a == [] {
      assert a + b == b;
    } else {
      assert (a + b)[1..] == a[1..] + b;
      RunAppend(Apply(t, a[0]), a[1..], b);
    }
  }

  // ----------------------------------------------------- what spawn hands out

  /** Slots whose stack is in use: live, or dead but still executing. */
  function Occupied(t: Table): set<nat>
    requires t.Shaped()
  {
    set i: nat | 1 <= i < t.numTasks && (t.alive[i] || i == t.current)
  }

  function Spawnable(n: nat): (s: set<nat>)
    ensures forall i: nat :: i in s <==> 1 <= i < n
    ensures |s| == if n == 0 then 0 else n - 1
  {
    if n <= 1 then {} else Spawnable(n - 1) + {n - 1}
  }

  lemma SubsetSize<T>(a: set<T>, b: set<T>)
    requires a <= b
    ensures |a| <= |b|
    ensures |a| == |b| ==> a == b
  {
    assert |b| == |a| + |b - a| by {
      assert b == a + (b - a);
    }
  }

  lemma OccupiedSize(t: Table)
    requires t.Shaped()
    ensures |Occupied(t)| <= t.numTasks - 1
    ensures |Occupied(t)| == t.numTasks - 1 <==> forall i :: 1 <= i < t.numTasks ==> t.alive[i] || i == t.current
  {
    SubsetSize(Occupied(t), Spawnable(t.numTasks));
    if forall i :: 1 <= i < t.numTasks ==> t.alive[i] || i == t.current {
      assert Occupied(t) == Spawnable(t.numTasks);
    } else {
      var i :| 1 <= i < t.numTasks && !(t.alive[i] || i == t.current);
      assert i in Spawnable(t.numTasks) && i !in Occupied(t);
    }
  }

  /** spawn() takes the lowest slot whose stack nobody is using; the rest of the
      table is as it was. */
  lemma SpawnSafe(t: Table, spec: TaskSpec)
    requires t.Shaped()
    ensures var (t', r) := Spawn(t, spec);
            match r
            case None => t' == t
            case Some(id) =>
              && 1 <= id < MAX_TASKS && id !in Occupied(t) && id != t.current
              && (forall j :: 1 <= j < id ==> j in Occupied(t))
              && Occupied(t') == Occupied(t) + {id}
              && t'.alive[id] && t'.priority[id] == spec.priority && t'.onExit[id] == spec.onExit
              && (t'.current, t'.warm, t'.hot) == (t.current, t.warm, t.hot)
              && (forall j :: 0 <= j < MAX_TASKS && j != id ==>
                    (t'.alive[j], t'.priority[j], t'.onExit[j]) == (t.alive[j], t.priority[j], t.onExit[j]))
              && t.numTasks <= t'.numTasks
  {
    var id := SpawnSlot(t);
    if id < MAX_TASKS {
      var t' := SpawnAt(t, id, spec);
      forall j: nat ensures j in Occupied(t') <==> j in Occupied(t) || j == id {
      }
    }
  }

  /** spawn() fails exactly when the stacks of all 16 spawnable slots are in use. */
  lemma SpawnFailsIffFull(t: Table, spec: TaskSpec)
    requires t.Shaped()
    ensures Spawn(t, spec).1 == None <==> |Occupied(t)| == 16
  {
    OccupiedSize(t);
  }

  lemma ApplyValid(t: Table, e: Event)
    requires t.Valid() && Legal(t, [e])
    ensures Apply(t, e).Valid()
    ensures t.numTasks <= Apply(t, e).numTasks
  {
    if e.Spawned? {
      SpawnSafe(t, e.spec);
    }
  }

  // -------------------------------------------------------------- is_alive()

  function IsAlive(t: Table, id: nat): bool
    requires t.Shaped()
  {
    id < MAX_TASKS && t.alive[id]
  }

  predicate UnusedMarkedAlive(t: Table)
    requires t.Shaped()
  {
    forall i :: t.numTasks <= i < MAX_TASKS ==> t.alive[i]
  }

  lemma {:induction false} UnusedStayMarked(t: Table, es: seq<Event>)
    requires t.Shaped() && UnusedMarkedAlive(t)
    ensures UnusedMarkedAlive(Run(t, es))
    decreases |es|
  {
    if es != [] {
      UnusedStayMarked(Apply(t, es[0]), es[1..]);
    }
  }

  /** In every run from init(), is_alive answers whether id is a live task exactly
      for the slots in use and the ids that are too large: slots that were never
      handed out count as alive, against its own documentation. */
  lemma IsAliveRightIff(es: seq<Event>, id: nat)
    ensures var t := Run(InitTable(), es);
            IsAlive(t, id) == (id < t.numTasks && t.alive[id]) <==> id < t.numTasks || id >= MAX_TASKS
  {
    UnusedStayMarked(InitTable(), es);
  }

  // --------------------------------------------------------- high-water mark

  function Max(a: nat, b: nat): nat {
    if a < b then b else a
  }

  /** Largest number of slots in use at once, over all states of a run. */
  function Peak(t: Table, es: seq<Event>): nat
    requires t.Shaped()
    decreases |es|
  {
    if es == [] then |Occupied(t)| else Max(|Occupied(t)|, Peak(Apply(t, es[0]), es[1..]))
  }

  lemma {:induction false} PeakAfter(t: Table, es: seq<Event>)
    requires t.Shaped()
    ensures |Occupied(t)| <= Peak(t, es)
    ensures Max(t.numTasks - 1, Peak(t, es)) == Run(t, es).numTasks - 1
    decreases |es|
  {
    OccupiedSize(t);
    if es != [] {
      var t' := Apply(t, es[0]);
      PeakAfter(t', es[1..]);
      if t'.numTasks != t.numTasks {
        assert es[0].Spawned? && SpawnSlot(t) == t.numTasks;
        OccupiedSize(t');
      }
    }
  }

  /** No leak: in every run from init() the table is exactly as long as the
      largest number of stacks that were ever in use at the same time. */
  lemma HighWater(es: seq<Event>)
    ensures Run(InitTable(), es).numTasks - 1 == Peak(InitTable(), es)
  {
    PeakAfter(InitTable(), es);
  }

  // ------------------------------------------------------ round-robin search

  /** Steps of the cyclic order from the current slot to p; a full turn to itself. */
  function Hops(t: Table, p: nat): int {
    if p > t.current then p - t.current else p + t.numTasks - t.current
  }

  function AtHop(t: Table, h: nat): nat
    requires t.Shaped() && h <= t.numTasks
  {
    if t.current + h < t.numTasks then t.current + h else t.current + h - t.numTasks
  }

  lemma NextHop(t: Table, h: nat)
    requires t.Shaped() && h < t.numTasks
    ensures (AtHop(t, h) + 1) % t.numTasks == AtHop(t, h + 1) < t.numTasks
    ensures Hops(t, AtHop(t, h + 1)) == h + 1
  {
    var a := AtHop(t, h) + 1;
    if a < t.numTasks {
      assert a % t.numTasks == a;
    } else {
      assert a == t.numTasks;
    }
  }

  lemma {:induction false} SearchFinds(t: Table, state: Thermal, h: nat)
    requires t.Valid() && h <= t.numTasks
    requires forall q :: 0 <= q < t.numTasks && Eligible(t, q, state) ==> h < Hops(t, q)
    ensures var p := Search(t, state, AtHop(t, h), t.numTasks - h);
            && Eligible(t, p, state)
            && forall q :: 0 <= q < t.numTasks && Eligible(t, q, state) ==> Hops(t, p) <= Hops(t, q)
    decreases t.numTasks - h
  {
    assert Eligible(t, 0, state) && Hops(t, 0) <= t.numTasks;
    NextHop(t, h);
    var n := AtHop(t, h + 1);
    if !Eligible(t, n, state) {
      forall q | 0 <= q < t.numTasks && Eligible(t, q, state) ensures h + 1 < Hops(t, q) {
        assert q != n;
      }
      SearchFinds(t, state, h + 1);
    }
  }

  /** The loop stops at the first eligible slot after the current one in cyclic
      order; it comes back to the current slot only if no other is eligible. */
  lemma PickIsFirst(t: Table, state: Thermal)
    requires t.Valid()
    ensures var p := Pick(t, state);
            && Eligible(t, p, state)
            && (forall q :: 0 <= q < t.numTasks && Eligible(t, q, state) ==> Hops(t, p) <= Hops(t, q))
            && (p == t.current <==> forall q :: 0 <= q < t.numTasks && Eligible(t, q, state) ==> q == t.current)
  {
    assert AtHop(t, 0) == t.current;
    SearchFinds(t, state, 0);
  }

  /** PickIsFirst leaves no choice. */
  lemma FirstIsUnique(t: Table, state: Thermal, p: nat)
    requires t.Valid() && p < t.numTasks && Eligible(t, p, state)
    requires forall q :: 0 <= q < t.numTasks && Eligible(t, q, state) ==> Hops(t, p) <= Hops(t, q)
    ensures p == Pick(t, state)
  {
    PickIsFirst(t, state);
  }
}
