/** The placement manager (`PlacerManager`): the recruitment pool, the
    placement rules and the timed builds that turn an accepted placement
    into an instance.

    The physics queries are inputs: a `World` answers how many blocking
    colliders, and how many units, overlap a circle of a given radius around
    a point.  A running `BuildCoroutine` is an explicit `Build` record. */
module Placement {
  import opened Wrappers
  import opened Mathf

  datatype Settings = Settings(
    placementCheckRadius: real,
    zoneRadius: real,
    maxPerZone: int,
    defaultBuildTime: real)

  /** The serialized defaults. */
  const Defaults := Settings(0.6, 2.0, 6, 2.0)
  const InitialRecruitment: int := 10

  /** Half of the larger sprite dimension, slightly shrunk. */
  const SpriteFootprintFactor: real := 0.45

  datatype Pos = Pos(x: real, y: real)

  /** The size of a prefab's sprite bounds, if it has a SpriteRenderer. */
  datatype Size = Size(x: real, y: real)

  datatype Prefab = Prefab(id: nat, sprite: Option<Size>)

  /** The two `Physics2D.OverlapCircleAll` counts the rules consult. */
  datatype World = World(blocking: (Pos, real) -> nat, units: (Pos, real) -> nat)

  /** A running `BuildCoroutine`: time built so far out of `buildTime`. */
  datatype Build = Build(prefab: Prefab, pos: Pos, isStructure: bool, elapsed: real, buildTime: real)

  /** An instance a finished build created. */
  datatype Placed = Placed(prefab: Prefab, pos: Pos, isStructure: bool)

  datatype Placer = Placer(
    settings: Settings,
    recruitment: int,                // currentRecruitment
    builds: seq<Build>,
    placed: seq<Placed>)

  function Init(s: Settings): (p: Placer)
    ensures p.recruitment == InitialRecruitment && p.builds == [] && p.placed == []
  {
    Placer(s, InitialRecruitment, [], [])
  }

  predicate CanAfford(p: Placer, cost: int)
  {
    p.recruitment >= cost
  }

  /** `ValidatePlacement`: nothing blocking within the footprint, and fewer
      than `maxPerZone` units within the zone radius. */
  predicate ValidatePlacement(p: Placer, w: World, pos: Pos, footprint: real)
  {
    w.blocking(pos, footprint) == 0 && w.units(pos, p.settings.zoneRadius) < p.settings.maxPerZone
  }

  /** The number of placements an accepted request stands for, pending or
      built. */
  function Outstanding(p: Placer): nat
  {
    |p.builds| + |p.placed|
  }

  /** The footprint radius of a prefab: from its sprite bounds when it has a
      sprite, else the configured check radius. */
  function Footprint(p: Placer, prefab: Prefab): (r: real)
    ensures prefab.sprite.None? ==> r == p.settings.placementCheckRadius
    ensures prefab.sprite.Some? ==>
      r >= prefab.sprite.value.x * SpriteFootprintFactor
      && r >= prefab.sprite.value.y * SpriteFootprintFactor
      && (r == prefab.sprite.value.x * SpriteFootprintFactor || r == prefab.sprite.value.y * SpriteFootprintFactor)
  {
    match prefab.sprite
    case None => p.settings.placementCheckRadius
    case Some(size) => Max(size.x, size.y) * SpriteFootprintFactor
  }

  /** The synchronous start of `BuildCoroutine`: with a positive build time
      the first frame's delta is already counted before the first yield;
      otherwise the instance is created at once. */
  function StartBuild(p: Placer, prefab: Prefab, pos: Pos, isStructure: bool, delta: real): (r: Placer)
    ensures p.settings.defaultBuildTime <= 0.0 ==>
      r == p.(placed := p.placed + [Placed(prefab, pos, isStructure)])
    ensures p.settings.defaultBuildTime > 0.0 ==>
      r == p.(builds := p.builds + [Build(prefab, pos, isStructure, delta, p.settings.defaultBuildTime)])
  {
    var t := p.settings.defaultBuildTime;
    if 0.0 < t then p.(builds := p.builds + [Build(prefab, pos, isStructure, delta, t)])
    else p.(placed := p.placed + [Placed(prefab, pos, isStructure)])
  }

  datatype Verdict = Unaffordable | Blocked | Started

  datatype Request = Request(verdict: Verdict, p: Placer)

  /** `RequestPlace`: affordability first, then the placement rules with the
      prefab's footprint; only an accepted request spends the cost, and it
      starts the build. */
  function RequestPlace(p: Placer, w: World, prefab: Prefab, pos: Pos, cost: int, isStructure: bool, delta: real): (r: Request)
    ensures r.verdict == Unaffordable <==> p.recruitment < cost
    ensures r.verdict == Blocked <==> p.recruitment >= cost && !ValidatePlacement(p, w, pos, Footprint(p, prefab))
    ensures r.verdict != Started ==> r.p == p
    ensures r.verdict == Started ==>
      r.p == StartBuild(p.(recruitment := p.recruitment - cost), prefab, pos, isStructure, delta)
  {
    if !CanAfford(p, cost) then Request(Unaffordable, p)
    else if !ValidatePlacement(p, w, pos, Footprint(p, prefab)) then Request(Blocked, p)
    else Request(Started, StartBuild(p.(recruitment := p.recruitment - cost), prefab, pos, isStructure, delta))
  }

  /** One resumption of a build: still short of the build time, it counts
      this frame's delta and waits; otherwise it creates its instance. */
  function Resume(p: Placer, b: Build, delta: real): (r: Placer)
    ensures b.elapsed < b.buildTime ==>
      r == p.(builds := p.builds + [b.(elapsed := b.elapsed + delta)])
    ensures b.elapsed >= b.buildTime ==>
      r == p.(placed := p.placed + [Placed(b.prefab, b.pos, b.isStructure)])
  {
    if b.elapsed < b.buildTime then p.(builds := p.builds + [b.(elapsed := b.elapsed + delta)])
    else p.(placed := p.placed + [Placed(b.prefab, b.pos, b.isStructure)])
  }

  /** `Resume` over each of `bs` in turn: each build is either pending again
      or has produced exactly one instance, earlier instances are kept, and
      neither the pool nor the settings change. */
  function ResumeAll(p: Placer, bs: seq<Build>, delta: real): (r: Placer)
    ensures Outstanding(r) == Outstanding(p) + |bs|
    ensures p.placed <= r.placed
    ensures r.recruitment == p.recruitment && r.settings == p.settings
    decreases |bs|
  {
    if |bs| == 0 then p else ResumeAll(Resume(p, bs[0], delta), bs[1..], delta)
  }

  /** One frame of building: every build that was running resumes once. */
  function AdvanceBuilds(p: Placer, delta: real): (r: Placer)
    ensures Outstanding(r) == Outstanding(p)
    ensures p.placed <= r.placed
    ensures r.recruitment == p.recruitment && r.settings == p.settings
  {
    ResumeAll(p.(builds := []), p.builds, delta)
  }

  /** The fill of a build's progress bar. */
  function BuildProgress(b: Build): (r: real)
    requires b.buildTime > 0.0
    ensures 0.0 <= r <= 1.0
    ensures r == 1.0 <==> b.elapsed >= b.buildTime
  {
    Clamp01(b.elapsed / b.buildTime)
  }

  /** `RefundPartial`. */
  function RefundPartial(p: Placer, amount: int): (r: Placer)
    ensures r.recruitment - p.recruitment == amount
    ensures r == p.(recruitment := r.recruitment)
  {
    p.(recruitment := p.recruitment + amount)
  }

  // ---------------------------------------------------------------------
  // Properties

  /** Whatever the cost, a placement never takes the pool below zero: the
      cost is spent only after `CanAfford` accepted it. */
  lemma PlacementKeepsPoolNonNegative(p: Placer, w: World, prefab: Prefab, pos: Pos, cost: int, isStructure: bool, delta: real)
    ensures RequestPlace(p, w, prefab, pos, cost, isStructure, delta).p.recruitment >= 0
      <== p.recruitment >= 0
  {
  }

  /** The rules are monotone in the footprint when the physics is: where a
      request for a prefab was accepted, a request for any prefab with a
      footprint no larger, at the same cost, is accepted too. */
  lemma SmallerFootprintStillFits(p: Placer, w: World, pos: Pos, cost: int, delta: real,
                                  large: Prefab, small: Prefab, isStructure: bool)
    requires Footprint(p, small) <= Footprint(p, large)
    requires forall q: Pos, a: real, b: real :: a <= b ==> w.blocking(q, a) <= w.blocking(q, b)
    requires RequestPlace(p, w, large, pos, cost, isStructure, delta).verdict == Started
    ensures RequestPlace(p, w, small, pos, cost, isStructure, delta).verdict == Started
  {
    assert w.blocking(pos, Footprint(p, small)) <= w.blocking(pos, Footprint(p, large));
  }

  /** A build finishes on the first frame that finds it at its build time,
      and not earlier. */
  lemma BuildFinishesOnTime(p: Placer, b: Build, delta: real)
    requires p.builds == [b]
    ensures |AdvanceBuilds(p, delta).placed| == |p.placed| + 1 <==> b.elapsed >= b.buildTime
    ensures b.elapsed < b.buildTime ==>
      AdvanceBuilds(p, delta).builds == [b.(elapsed := b.elapsed + delta)]
  {
    var p0 := p.(builds := []);
    assert p.builds[0] == b && p.builds[1..] == [];
    assert AdvanceBuilds(p, delta) == ResumeAll(Resume(p0, b, delta), p.builds[1..], delta);
  }

  /** Refunding the cost of an accepted request gives back exactly what it
      spent: the pool is as before, the build stays. */
  lemma RefundRestoresPool(p: Placer, w: World, prefab: Prefab, pos: Pos, cost: int, isStructure: bool, delta: real)
    requires RequestPlace(p, w, prefab, pos, cost, isStructure, delta).verdict == Started
    ensures var r := RefundPartial(RequestPlace(p, w, prefab, pos, cost, isStructure, delta).p, cost);
      r.recruitment == p.recruitment && Outstanding(r) == Outstanding(p) + 1
  {
  }

  /** With the serialized defaults, a fresh manager on open ground accepts a
      placement costing 3, leaving 7, and the instance appears once its two
      seconds of building have passed. */
  lemma DefaultPlacementExample(prefab: Prefab, pos: Pos)
    requires prefab.sprite.None?
    ensures var w := World((q: Pos, a: real) => 0, (q: Pos, a: real) => 0);
      var r := RequestPlace(Init(Defaults), w, prefab, pos, 3, false, 0.5);
      r.verdict == Started && r.p.recruitment == 7
      && r.p.builds == [Build(prefab, pos, false, 0.5, 2.0)]
      && AdvanceBuilds(r.p.(builds := [Build(prefab, pos, false, 2.0, 2.0)]), 0.5).placed
         == [Placed(prefab, pos, false)]
  {
    var b := Build(prefab, pos, false, 2.0, 2.0);
    var p := Init(Defaults).(recruitment := 7, builds := [b]);
    assert p.builds[1..] == [];
    assert AdvanceBuilds(p, 0.5) == ResumeAll(Resume(p.(builds := []), b, 0.5), [], 0.5);
  }

  /** An accepted request is one more outstanding placement, paid for. */
  lemma AcceptedIsOutstanding(p: Placer, w: World, prefab: Prefab, pos: Pos, cost: int, isStructure: bool, delta: real)
    ensures var r := RequestPlace(p, w, prefab, pos, cost, isStructure, delta);
      r.verdict == Started <==>
        Outstanding(r.p) == Outstanding(p) + 1 && r.p.recruitment == p.recruitment - cost
  {
  }
}
