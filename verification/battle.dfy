/** The scene wiring between the parts.  A unit's OnAttack hit reaches its
    victim's (virtual) `TakeDamage`; an enemy's OnDeath reaches the wave
    manager's `OnEnemyDied`; the factory and the placement manager share the
    recruitment pool `currentRecruitment`.

    Units are kept by handle, and an enemy's handle is the instance number
    the wave manager gave it when it spawned it, so the manager's
    subscriptions and the units' identities are the same numbers.  Frames of
    the different components are interleaved freely: the order Unity runs
    `Update`s in is an input (the sequence of steps). */
module Battle {
  import opened Units
  import Archetypes
  import Waves
  import Factory
  import Placement

  datatype Scene = Scene(
    units: map<Handle, Unit>,
    waves: Waves.Manager,
    factory: Factory.Factory,
    placer: Placement.Placer)

  /** Whether a tick raised OnDeath. */
  predicate Killed(t: Tick)
  {
    Died in t.signals
  }

  /** One hit delivered to a unit.  A hit on a handle that names no unit (the
      object is gone) is lost; otherwise the archetype's `TakeDamage` runs,
      and an OnDeath it raises is heard by the wave manager. */
  function Hit(w: Scene, victim: Handle, amount: real, census: seq<Waves.Tagged>): (r: Scene)
    ensures victim !in w.units ==> r == w
    ensures victim in w.units && w.units[victim].isDead ==> r == w
    ensures victim in w.units ==>
      && r.units == w.units[victim := Archetypes.TakeDamage(w.units[victim], amount).unit]
      && (r.waves != w.waves ==> !w.units[victim].isDead && r.units[victim].isDead)
      && (!w.units[victim].isDead && r.units[victim].isDead ==>
            r.waves == Waves.OnEnemyDied(w.waves, victim, census))
    ensures r.factory == w.factory && r.placer == w.placer
  {
    if victim !in w.units then w
    else
      var t := Archetypes.TakeDamage(w.units[victim], amount);
      var w1 := w.(units := w.units[victim := t.unit]);
      if Killed(t) then w1.(waves := Waves.OnEnemyDied(w.waves, victim, census)) else w1
  }

  /** The hits a tick's OnAttack events deliver, in order; the other signals
      go to listeners outside this model (health bars, effects). */
  function Deliver(w: Scene, signals: seq<Signal>, census: seq<Waves.Tagged>): Scene
    decreases |signals|
  {
    if |signals| == 0 then w
    else
      var w1 := match signals[0]
        case Attacked(victim, amount) => Hit(w, victim, amount, census)
        case _ => w;
      Deliver(w1, signals[1..], census)
  }

  /** One unit's `Update`: its tick replaces it, then its attacks land. */
  function Act(w: Scene, h: Handle, s: Sense, census: seq<Waves.Tagged>): Scene
  {
    if h !in w.units then w
    else
      var t := Archetypes.Update(w.units[h], s);
      Deliver(w.(units := w.units[h := t.unit]), t.signals, census)
  }

  /** A run of hits on one unit. */
  function Hits(w: Scene, victim: Handle, ds: seq<real>, census: seq<Waves.Tagged>): Scene
    decreases |ds|
  {
    if |ds| == 0 then w else Hits(Hit(w, victim, ds[0], census), victim, ds[1..], census)
  }

  /** The wave manager's view of a unit: subscribed exactly while alive. */
  ghost predicate Subscribed(w: Scene, victim: Handle)
  {
    victim in w.units && (victim in w.waves.listening <==> !w.units[victim].isDead)
  }

  /** However many hits a spawned enemy takes, its death reaches the wave
      manager exactly once: the subscription is dropped when it dies and the
      counter (above the recount threshold) goes down by one, no other unit
      is touched, and hits on the dead enemy change nothing at all. */
  lemma {:induction false} KillCountedOnce(w: Scene, victim: Handle, ds: seq<real>, census: seq<Waves.Tagged>)
    requires Subscribed(w, victim)
    ensures var r := Hits(w, victim, ds, census);
      && Subscribed(r, victim)
      && r.units == w.units[victim := r.units[victim]]
      && (w.units[victim].isDead ==> r == w)
      && r.waves.listening == (if r.units[victim].isDead then w.waves.listening - {victim} else w.waves.listening)
      && (w.waves.alive >= 3 ==>
            r.waves.alive == (if !w.units[victim].isDead && r.units[victim].isDead
                              then w.waves.alive - 1 else w.waves.alive))
      && r.waves == w.waves.(alive := r.waves.alive, listening := r.waves.listening)
    decreases |ds|
  {
    if |ds| == 0 {
      return;
    }
    var w1 := Hit(w, victim, ds[0], census);
    KillCountedOnce(w1, victim, ds[1..], census);
  }

  /** An attack that kills a subscribed enemy is counted: after the
      attacker's `Update` the victim is dead, unsubscribed, and the counter
      (above the recount threshold) is one lower. */
  lemma AttackKillIsCounted(w: Scene, h: Handle, s: Sense, census: seq<Waves.Tagged>, victim: Handle, amount: real)
    requires h in w.units && victim != h && Subscribed(w, victim) && !w.units[victim].isDead
    requires Archetypes.Update(w.units[h], s).signals == [Attacked(victim, amount)]
    requires Archetypes.Incoming(w.units[victim], amount) >= w.units[victim].health
    requires w.waves.alive >= 3
    ensures var r := Act(w, h, s, census);
      && victim in r.units && r.units[victim].isDead
      && victim !in r.waves.listening
      && r.waves.alive == w.waves.alive - 1
  {
    var t := Archetypes.Update(w.units[h], s);
    var w1 := w.(units := w.units[h := t.unit]);
    assert t.signals[0] == Attacked(victim, amount) && t.signals[1..] == [];
    assert Act(w, h, s, census) == Deliver(w1, t.signals, census);
    assert Deliver(w1, t.signals, census) == Deliver(Hit(w1, victim, amount, census), [], census);
  }

  // ---------------------------------------------------------------------
  // The shared recruitment pool

  /** What touches the pool: a factory frame, a placement request (with the
      physics answers), and a frame of the placement manager's builds. */
  datatype Spend =
    | FactoryFrame(delta: real)
    | Place(world: Placement.World, prefab: Placement.Prefab, pos: Placement.Pos, cost: int, isStructure: bool, delta: real)
    | BuildFrame(delta: real)

  function Apply(w: Scene, a: Spend): (r: Scene)
    ensures r.units == w.units && r.waves == w.waves
  {
    match a
    case FactoryFrame(delta) =>
      var o := Factory.Update(w.factory, delta, w.placer.recruitment);
      w.(factory := o.f, placer := w.placer.(recruitment := o.bank))
    case Place(world, prefab, pos, cost, isStructure, delta) =>
      w.(placer := Placement.RequestPlace(w.placer, world, prefab, pos, cost, isStructure, delta).p)
    case BuildFrame(delta) =>
      w.(placer := Placement.AdvanceBuilds(w.placer, delta))
  }

  function ApplyAll(w: Scene, spends: seq<Spend>): Scene
    decreases |spends|
  {
    if |spends| == 0 then w else ApplyAll(Apply(w, spends[0]), spends[1..])
  }

  /** Factory production and placements draw on one pool, and in any
      interleaving of their frames that pool never goes negative: each of
      them spends only after `CanAfford` accepted the cost. */
  lemma {:induction false} PoolStaysSolvent(w: Scene, spends: seq<Spend>)
    requires w.placer.recruitment >= 0
    ensures ApplyAll(w, spends).placer.recruitment >= 0
    ensures ApplyAll(w, spends).units == w.units && ApplyAll(w, spends).waves == w.waves
    decreases |spends|
  {
    if |spends| > 0 {
      match spends[0] {
        case FactoryFrame(delta) =>
          Factory.UpdateKeepsBankNonNegative(w.factory, delta, w.placer.recruitment);
        case Place(world, prefab, pos, cost, isStructure, delta) =>
          Placement.PlacementKeepsPoolNonNegative(w.placer, world, prefab, pos, cost, isStructure, delta);
        case BuildFrame(_) =>
      }
      PoolStaysSolvent(Apply(w, spends[0]), spends[1..]);
    }
  }
}
