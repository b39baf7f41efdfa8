/** The factory's automatic worker production (`FactoryProduction`).

    While producing, a timer counts frame time; each time it reaches the
    production interval one worker is attempted and the timer restarts from
    zero.  An attempt may be charged to the placement manager's recruitment
    pool; the pool is threaded through the frames as a plain integer, and
    `charges` records whether this factory found a placement manager to
    charge at start-up. */
module Factory {
  import opened Mathf

  datatype Settings = Settings(
    interval: real,                  // productionInterval
    requiresResources: bool,
    cost: int,                       // productionCost
    hasLimit: bool,                  // hasProductionLimit
    maxUnits: int,                   // maxUnitsProduced (-1 = unlimited)
    hasPrefab: bool,                 // workerPrefab != null
    autoStart: bool)                 // autoStartProduction

  /** The serialized defaults, for a factory with its worker prefab set. */
  const Defaults := Settings(10.0, true, 5, false, -1, true, true)

  datatype Factory = Factory(
    settings: Settings,
    charges: bool,                   // requiresResources && placerManager != null
    producing: bool,                 // isProducing
    timer: real,                     // productionTimer
    produced: nat)                   // unitsProducedCount

  /** The factory before `Start`. */
  function Init(s: Settings): (f: Factory)
    ensures !f.producing && f.timer == 0.0 && f.produced == 0
  {
    Factory(s, s.requiresResources, false, 0.0, 0)
  }

  /** `StartProduction`: produce, with a fresh timer. */
  function StartProduction(f: Factory): (r: Factory)
    ensures r.producing && r.timer == 0.0
    ensures r.produced == f.produced && r.settings == f.settings && r.charges == f.charges
  {
    f.(producing := true, timer := 0.0)
  }

  /** `StopProduction`: the timer is kept, production halts. */
  function StopProduction(f: Factory): (r: Factory)
    ensures !r.producing
    ensures r == f.(producing := false)
  {
    f.(producing := false)
  }

  function ToggleProduction(f: Factory): (r: Factory)
    ensures r.producing == !f.producing
    ensures r.timer == (if f.producing then f.timer else 0.0)
    ensures r.produced == f.produced && r.settings == f.settings && r.charges == f.charges
  {
    if f.producing then StopProduction(f) else StartProduction(f)
  }

  /** `Start`: without a placement manager the factory stops charging for
      good; with `autoStartProduction` it starts producing. */
  function Start(f: Factory, hasPlacer: bool): (r: Factory)
    ensures r.charges == (f.charges && hasPlacer)
    ensures r.producing == (f.producing || f.settings.autoStart)
    ensures r.timer == (if f.settings.autoStart then 0.0 else f.timer)
    ensures r.produced == f.produced && r.settings == f.settings
  {
    var f1 := f.(charges := f.charges && hasPlacer);
    if f.settings.autoStart then StartProduction(f1) else f1
  }

  /** The result of a production attempt or a frame: the factory and the
      recruitment pool afterwards. */
  datatype Outcome = Outcome(f: Factory, bank: int)

  /** `PlacerManager.CanAfford`, as the factory asks it. */
  predicate CanAfford(bank: int, cost: int)
  {
    bank >= cost
  }

  /** `ProduceWorker`: a charging factory that cannot afford the cost does
      nothing; otherwise the cost is paid first, and the worker is produced
      only when the prefab is set. */
  function ProduceWorker(f: Factory, bank: int): (r: Outcome)
    ensures f.charges && !CanAfford(bank, f.settings.cost) ==> r == Outcome(f, bank)
    ensures f.charges && CanAfford(bank, f.settings.cost) ==> r.bank == bank - f.settings.cost
    ensures !f.charges ==> r.bank == bank
    ensures r.f.produced == (if (!f.charges || CanAfford(bank, f.settings.cost)) && f.settings.hasPrefab
      then f.produced + 1 else f.produced)
    ensures r.f == f.(produced := r.f.produced)
  {
    if f.charges && !CanAfford(bank, f.settings.cost) then Outcome(f, bank)
    else
      var paid := if f.charges then bank - f.settings.cost else bank;
      if !f.settings.hasPrefab then Outcome(f, paid)
      else Outcome(f.(produced := f.produced + 1), paid)
  }

  /** `Update`'s limit test: a limit counts only when it is switched on and
      not the unlimited value -1. */
  predicate LimitReached(f: Factory)
    ensures LimitReached(f) ==> f.settings.hasLimit && f.settings.maxUnits >= 0
    ensures f.settings.hasLimit && 0 <= f.settings.maxUnits ==>
      (LimitReached(f) <==> f.produced >= f.settings.maxUnits)
  {
    f.settings.hasLimit && f.settings.maxUnits >= 0 && f.produced >= f.settings.maxUnits
  }

  /** `Update`: idle factories do nothing; a factory at its limit stops;
      otherwise the timer advances and, on reaching the interval, one
      attempt is made and the timer restarts — whether or not a worker
      came out of it. */
  function Update(f: Factory, delta: real, bank: int): (r: Outcome)
    ensures !f.producing ==> r == Outcome(f, bank)
    ensures f.producing && LimitReached(f) ==> r == Outcome(StopProduction(f), bank)
    ensures f.producing && !LimitReached(f) && f.timer + delta < f.settings.interval ==>
      r == Outcome(f.(timer := f.timer + delta), bank)
    ensures f.producing && !LimitReached(f) && f.timer + delta >= f.settings.interval ==>
      r.f.timer == 0.0 && r.f.producing
    ensures r.f.settings == f.settings && r.f.charges == f.charges
    ensures f.produced <= r.f.produced <= f.produced + 1
  {
    if !f.producing then Outcome(f, bank)
    else if LimitReached(f) then Outcome(StopProduction(f), bank)
    else
      var f1 := f.(timer := f.timer + delta);
      if f1.timer >= f.settings.interval then
        var o := ProduceWorker(f1, bank);
        Outcome(o.f.(timer := 0.0), o.bank)
      else Outcome(f1, bank)
  }

  /** `GetProductionProgress`. */
  function ProductionProgress(f: Factory): (r: real)
    ensures 0.0 <= r <= 1.0
    ensures f.settings.interval <= 0.0 ==> r == 0.0
    ensures f.settings.interval > 0.0 && 0.0 <= f.timer <= f.settings.interval ==>
      r * f.settings.interval == f.timer
    ensures f.settings.interval > 0.0 && f.timer >= f.settings.interval ==> r == 1.0
    ensures f.settings.interval > 0.0 && f.timer <= 0.0 ==> r == 0.0
  {
    if f.settings.interval <= 0.0 then 0.0 else Clamp01(f.timer / f.settings.interval)
  }

  /** `GetTimeUntilNextProduction`. */
  function TimeUntilNextProduction(f: Factory): (r: real)
    ensures r >= 0.0
    ensures r == 0.0 <==> f.timer >= f.settings.interval
    ensures r > 0.0 ==> f.timer + r == f.settings.interval
  {
    Max(0.0, f.settings.interval - f.timer)
  }

  /** `ResetProductionCount`: only the counter changes (a stopped factory
      stays stopped). */
  function ResetProductionCount(f: Factory): (r: Factory)
    ensures r.produced == 0
    ensures r == f.(produced := 0)
  {
    f.(produced := 0)
  }

  // ---------------------------------------------------------------------
  // Properties

  /** A charging factory never drives a non-negative pool negative: it only
      pays what `CanAfford` has just confirmed. */
  lemma UpdateKeepsBankNonNegative(f: Factory, delta: real, bank: int)
    requires bank >= 0
    ensures Update(f, delta, bank).bank >= 0
  {
  }

  /** Toggling twice restores the factory, except that the timer has been
      restarted by the toggle that started production. */
  lemma ToggleTwice(f: Factory)
    ensures ToggleProduction(ToggleProduction(f)) == f.(timer := 0.0)
  {
  }

  /** With non-negative frame deltas and a positive interval, the timer of a
      producing factory stays in [0, interval). */
  ghost predicate TimerInRange(f: Factory)
  {
    0.0 <= f.timer < f.settings.interval
  }

  lemma UpdateKeepsTimerInRange(f: Factory, delta: real, bank: int)
    requires TimerInRange(f) && delta >= 0.0
    ensures TimerInRange(Update(f, delta, bank).f)
  {
  }

  /** A worker comes out of a frame only when the timer reached the interval
      on that frame and, for a charging factory, the pool could pay. */
  lemma ProducesOnlyOnSchedule(f: Factory, delta: real, bank: int)
    ensures Update(f, delta, bank).f.produced == f.produced + 1 <==>
      && f.producing && !LimitReached(f)
      && f.timer + delta >= f.settings.interval
      && f.settings.hasPrefab
      && (!f.charges || CanAfford(bank, f.settings.cost))
  {
  }

  /** After `ResetProductionCount` a factory with a positive limit is below
      it again, so a producing one keeps producing on the next frame instead
      of stopping. */
  lemma ResetLiftsLimit(f: Factory, delta: real, bank: int)
    requires f.settings.hasLimit && f.settings.maxUnits > 0
    requires f.producing
    ensures !LimitReached(ResetProductionCount(f))
    ensures Update(ResetProductionCount(f), delta, bank).f.producing
  {
  }

  /** With the serialized defaults and a placement manager present, a fresh
      factory produces its first worker on the frame its timer reaches ten
      seconds, paying five from the pool. */
  lemma DefaultFactoryFirstWorker()
    ensures var f := Start(Init(Defaults), true);
      f.producing && f.charges
      && Update(f, 9.5, 10) == Outcome(f.(timer := 9.5), 10)
      && Update(f.(timer := 9.5), 0.5, 10) == Outcome(f.(produced := 1), 5)
  {
  }

  // ---------------------------------------------------------------------
  // Runs of frames

  function Run(f: Factory, deltas: seq<real>, bank: int): Outcome
    decreases |deltas|
  {
    if |deltas| == 0 then Outcome(f, bank)
    else
      var o := Update(f, deltas[0], bank);
      Run(o.f, deltas[1..], o.bank)
  }

  /** With a limit set, production never overshoots `maxUnitsProduced`. */
  lemma {:induction false} LimitIsRespected(f: Factory, deltas: seq<real>, bank: int)
    requires f.settings.hasLimit && f.settings.maxUnits >= 0
    requires f.produced <= f.settings.maxUnits
    ensures Run(f, deltas, bank).f.produced <= f.settings.maxUnits
    decreases |deltas|
  {
    if |deltas| > 0 {
      var o := Update(f, deltas[0], bank);
      LimitIsRespected(o.f, deltas[1..], o.bank);
    }
  }

  /** For a charging factory with its prefab set, the pool pays exactly the
      cost of every worker produced and nothing else; for a factory that does
      not charge, the pool is untouched. */
  lemma {:induction false} PoolPaysPerWorker(f: Factory, deltas: seq<real>, bank: int)
    ensures var o := Run(f, deltas, bank);
      o.f.produced >= f.produced
      && o.f.settings == f.settings && o.f.charges == f.charges
      && (f.charges && f.settings.hasPrefab ==>
            o.bank == bank - f.settings.cost * (o.f.produced - f.produced))
      && (!f.charges ==> o.bank == bank)
    decreases |deltas|
  {
    if |deltas| > 0 {
      var o := Update(f, deltas[0], bank);
      var r := Run(o.f, deltas[1..], o.bank);
      assert Run(f, deltas, bank) == r;
      PoolPaysPerWorker(o.f, deltas[1..], o.bank);
      if f.charges && f.settings.hasPrefab {
        UpdatePaysPerWorker(f, deltas[0], bank);
        var c, k1, k2 := f.settings.cost, o.f.produced - f.produced, r.f.produced - o.f.produced;
        assert r.bank == o.bank - c * k2;
        assert o.bank == bank - c * k1;
        assert c * k1 + c * k2 == c * (k1 + k2);
      }
    }
  }

  /** One frame of `PoolPaysPerWorker`: a worker costs exactly `cost`. */
  lemma UpdatePaysPerWorker(f: Factory, delta: real, bank: int)
    requires f.charges && f.settings.hasPrefab
    ensures var o := Update(f, delta, bank);
      o.bank == bank - f.settings.cost * (o.f.produced - f.produced)
  {
    var o := Update(f, delta, bank);
    if o.f.produced == f.produced {
      assert f.settings.cost * 0 == 0;
    }
  }
}
