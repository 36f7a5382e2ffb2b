/** Which task runs next over whole runs, and how heat changes it. */
module Fairness {
  import opened Machine
  import opened Eco

  function Dispatches(es: seq<Event>): nat
    decreases |es|
  {
    if es == [] then 0 else (if es[0].Dispatched? then 1 else 0) + Dispatches(es[1..])
  }

  /** How often a run dispatches slot j. */
  function Turns(t: Table, es: seq<Event>, j: nat): nat
    requires t.Shaped()
    decreases |es|
  {
    if es == [] then 0 else
      (if es[0].Dispatched? && Dispatch(t, es[0].sensor).current == j then 1 else 0)
      + Turns(Apply(t, es[0]), es[1..], j)
  }

  /** Slot w could run at every dispatch of the run, and never does. */
  predicate Waits(t: Table, es: seq<Event>, w: nat)
    requires t.Shaped() && w < t.numTasks
    decreases |es|
  {
    es != [] ==>
      && (es[0].Dispatched? ==>
            && Eligible(t, w, ThermalState(es[0].sensor, t.warm, t.hot))
            && Dispatch(t, es[0].sensor).current != w)
      && t.numTasks <= Apply(t, es[0]).numTasks
      && Waits(Apply(t, es[0]), es[1..], w)
  }

  /** Distance from slot c forward to slot w on a ring of n slots. */
  function Gap(c: nat, w: nat, n: nat): int {
    if w > c then w - c else w + n - c
  }

  lemma {:induction false} TableGrows(t: Table, es: seq<Event>)
    requires t.Valid() && Legal(t, es)
    ensures t.numTasks <= Run(t, es).numTasks && Run(t, es).Valid()
    decreases |es|
  {
    if es != [] {
      assert Legal(t, [es[0]]);
      ApplyValid(t, es[0]);
      TableGrows(Apply(t, es[0]), es[1..]);
    }
  }

  /** Every dispatch that passes over an eligible slot comes strictly nearer to it. */
  lemma DispatchApproaches(t: Table, sensor: Option<Byte>, w: nat, n: nat)
    requires t.Valid() && w < t.numTasks <= n
    requires Eligible(t, w, ThermalState(sensor, t.warm, t.hot))
    requires Dispatch(t, sensor).current != w
    ensures 1 <= Gap(Dispatch(t, sensor).current, w, n) < Gap(t.current, w, n)
  {
    PickIsFirst(t, ThermalState(sensor, t.warm, t.hot));
  }

  /** In a run that makes an eligible slot w wait, the dispatches are fewer than the
      slots between the running one and w, counted on the ring of the final table;
      and each other slot is dispatched at most once, none of them if it lies
      behind the running one. */
  lemma {:induction false} WaitBound(t: Table, es: seq<Event>, w: nat, n: nat)
    requires t.Valid() && Legal(t, es) && w < t.numTasks && Waits(t, es, w)
    requires Run(t, es).numTasks <= n
    ensures Dispatches(es) < Gap(t.current, w, n)
    ensures forall j: nat :: Turns(t, es, j) <= if Gap(j, w, n) < Gap(t.current, w, n) then 1 else 0
    decreases |es|
  {
    TableGrows(t, es);
    if es != [] {
      var t' := Apply(t, es[0]);
      assert Legal(t, [es[0]]);
      ApplyValid(t, es[0]);
      WaitBound(t', es[1..], w, n);
      if es[0].Dispatched? {
        DispatchApproaches(t, es[0].sensor, w, n);
      } else if es[0].Spawned? {
        SpawnSafe(t, es[0].spec);
      }
      forall j: nat ensures Turns(t, es, j) <= if Gap(j, w, n) < Gap(t.current, w, n) then 1 else 0 {
        assert Turns(t', es[1..], j) <= if Gap(j, w, n) < Gap(t'.current, w, n) then 1 else 0;
      }
    }
  }

  /** Bounded waiting: a slot that is alive and eligible at every dispatch is
      dispatched within as many calls of next_sp as the table is long at the end
      of the window, whatever else is spawned, exits or heats up meanwhile, and no
      other slot gets two turns before it. */
  lemma BoundedWaiting(t: Table, es: seq<Event>, w: nat)
    requires t.Valid() && Legal(t, es) && w < t.numTasks && Waits(t, es, w)
    ensures Dispatches(es) < Run(t, es).numTasks <= MAX_TASKS
    ensures forall j: nat :: Turns(t, es, j) <= 1
  {
    WaitBound(t, es, w, Run(t, es).numTasks);
    TableGrows(t, es);
  }

  // ------------------------------------------------------------------- heat

  function Heat(s: Thermal): nat {
    match s
    case Cool => 0
    case Warm => 1
    case Hot => 2
  }

  /** The bands, for thresholds in any order: at or above hot it is Hot, and if
      warm is not below hot there is no Warm band. */
  lemma ThermalBands(raw: Byte, warm: Byte, hot: Byte)
    ensures var s := ThermalState(Some(raw), warm, hot);
            && (s == Hot <==> hot <= raw)
            && (s == Warm <==> warm <= raw < hot)
            && (hot <= warm ==> s != Warm)
            && ThermalState(None, warm, hot) == Cool
  {
  }

  /** Lower thresholds or a higher reading never make the state cooler, even when
      the two thresholds are in the wrong order. */
  lemma HotterReading(raw: Byte, warm: Byte, hot: Byte, raw': Byte, warm': Byte, hot': Byte)
    requires raw <= raw' && warm' <= warm && hot' <= hot
    ensures Heat(ThermalState(Some(raw), warm, hot)) <= Heat(ThermalState(Some(raw'), warm', hot'))
  {
  }

  /** Slots that may run at a reading, said on the raw reading: from the hot
      threshold on only High tasks, from the warm threshold on no Low task, and
      main always. Without a sensor every live slot may run. */
  predicate MayRun(t: Table, q: nat, sensor: Option<Byte>)
    requires t.Shaped() && q < MAX_TASKS
  {
    t.alive[q] && (q == 0 || match sensor
                             case None => true
                             case Some(raw) =>
                               && (raw >= t.hot ==> t.priority[q] == High)
                               && (raw >= t.warm ==> t.priority[q] != Low))
  }

  lemma MayRunIsEligible(t: Table, q: nat, sensor: Option<Byte>)
    requires t.Shaped() && q < MAX_TASKS
    ensures MayRun(t, q, sensor) <==> Eligible(t, q, ThermalState(sensor, t.warm, t.hot))
  {
  }

  /** A dispatch moves the current slot and nothing else, to the first slot in
      cyclic order that may run at the reading: plain round-robin over the slots
      that the heat allows. */
  lemma DispatchAllowed(t: Table, sensor: Option<Byte>)
    requires t.Valid()
    ensures var p := Dispatch(t, sensor).current;
            && Dispatch(t, sensor) == t.(current := p)
            && p < t.numTasks && MayRun(t, p, sensor)
            && forall q: nat :: q < t.numTasks && MayRun(t, q, sensor) ==> Hops(t, p) <= Hops(t, q)
  {
    PickIsFirst(t, ThermalState(sensor, t.warm, t.hot));
    MayRunIsEligible(t, Dispatch(t, sensor).current, sensor);
    forall q: nat | q < t.numTasks ensures MayRun(t, q, sensor) <==> Eligible(t, q, ThermalState(sensor, t.warm, t.hot)) {
      MayRunIsEligible(t, q, sensor);
    }
  }

  /** Heat only takes candidates away, so a hotter dispatch from the same table
      never stops earlier in the cyclic order than a cooler one. */
  lemma HeatMonotone(t: Table, raw: Byte, raw': Byte, warm': Byte, hot': Byte)
    requires t.Valid() && raw <= raw' && warm' <= t.warm && hot' <= t.hot
    ensures var t' := t.(warm := warm', hot := hot');
            && (forall q: nat :: q < t.numTasks && MayRun(t', q, Some(raw')) ==> MayRun(t, q, Some(raw)))
            && Hops(t, Dispatch(t, Some(raw)).current) <= Hops(t, Dispatch(t', Some(raw')).current)
  {
    DispatchAllowed(t, Some(raw));
    DispatchAllowed(t.(warm := warm', hot := hot'), Some(raw'));
  }

  /** Below both thresholds, and without a sensor, a dispatch is plain round-robin
      over the live slots. From the hot threshold on it runs a live High task or
      main, and main exactly if it comes before every live High task; so main if
      there is none. From the warm threshold on it runs no Low task, and below the
      hot one it passes over no other. */
  lemma HeatExtremes(t: Table, sensor: Option<Byte>)
    requires t.Valid()
    ensures var p := Dispatch(t, sensor).current;
            && p < t.numTasks && t.alive[p]
            && (sensor == None || (sensor.value < t.warm && sensor.value < t.hot) ==>
                  forall q :: 0 <= q < t.numTasks && t.alive[q] ==> Hops(t, p) <= Hops(t, q))
            && (sensor.Some? && sensor.value >= t.warm && p != 0 ==> t.priority[p] != Low)
            && (sensor.Some? && sensor.value < t.hot ==>
                  forall q :: 0 <= q < t.numTasks && t.alive[q] && t.priority[q] != Low ==> Hops(t, p) <= Hops(t, q))
            && (sensor.Some? && sensor.value >= t.hot ==>
                  && (p != 0 ==> t.priority[p] == High)
                  && (p == 0 <==> forall q :: 1 <= q < t.numTasks && t.alive[q] && t.priority[q] == High ==>
                                    Hops(t, 0) < Hops(t, q)))
  {
    DispatchAllowed(t, sensor);
    if sensor.Some? && sensor.value >= t.hot {
      forall q: nat | 1 <= q < t.numTasks && t.alive[q] && t.priority[q] == High ensures MayRun(t, q, sensor) {
      }
    }
  }

  /** With the thresholds that init() leaves, every band is there. */
  lemma InitialBands(raw: Byte)
    ensures var s := ThermalState(Some(raw), InitTable().warm, InitTable().hot);
            && (s == Cool <==> raw <= 109)
            && (s == Warm <==> 110 <= raw <= 139)
            && (s == Hot <==> 140 <= raw)
  {
    ThermalBands(raw, InitTable().warm, InitTable().hot);
  }
}
