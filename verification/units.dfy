/** The combatant shared by every unit archetype (`UnitBase`): its record, the
    base behaviour of the Idle / Moving / Attacking states, closest-target
    acquisition, cooldown-gated attacks, clamped damage and one-shot death.

    Unity's services become inputs.  A tick receives a `Sense`: the current
    time, the colliders the physics overlap query returned (as `Candidate`s
    with their distance), and the distance to the unit's current target and
    objective after this tick's movement step, or `None` when the referenced
    object no longer exists (Unity's "destroyed == null").  Movement itself is
    not modelled; only the distances it produces are. */
module Units {
  import opened Wrappers
  import opened Mathf

  /** An opaque identity for a game object. */
  type Handle = nat

  datatype Team = Ally | Enemy

  datatype UnitState = Idle | Moving | Attacking | Dead

  /** The concrete unit classes; they select the behaviour overrides. */
  datatype Kind = Tank | Basic | Brigade | Recruit

  datatype Stats = Stats(
    maxHealth: real,
    damage: real,
    attackRange: real,
    attackCooldown: real,
    moveSpeed: real)

  /** What a `Transform` field can point at: another unit (an object with a
      `UnitBase` component), any other object (a structure, the player core),
      or the stand-in waypoint created at the world origin. */
  datatype Ref = UnitRef(handle: Handle) | ObjectRef(handle: Handle) | Origin

  datatype Unit = Unit(
    id: Handle,
    kind: Kind,
    team: Team,
    stats: Stats,
    health: real,
    state: UnitState,
    target: Option<Ref>,         // currentTarget
    lastAttackTime: real,
    isDead: bool,
    objective: Option<Ref>,      // targetObjective (enemy archetypes only)
    hasObjective: bool,
    isDefending: bool)           // WorkerBrigade's stance flag

  /** One collider returned by the overlap query around the unit. */
  datatype Candidate = Candidate(
    handle: Handle,
    isUnit: bool,                // has a UnitBase component
    team: Team,
    dead: bool,
    distance: real)

  /** Everything a tick reads from the engine. */
  datatype Sense = Sense(
    now: real,                       // Time.time
    nearby: seq<Candidate>,          // Physics2D.OverlapCircleAll hits
    targetDistance: Option<real>,    // distance to currentTarget; None once destroyed
    objectiveDistance: Option<real>) // distance to targetObjective; None once destroyed

  /** The events a unit raises: OnDamageTaken, OnDeath, and OnAttack together
      with the hit it delivered to its victim's TakeDamage. */
  datatype Signal = DamageTaken | Died | Attacked(victim: Handle, amount: real)

  datatype Tick = Tick(unit: Unit, signals: seq<Signal>)

  /** The detection radius is half again the attack range. */
  const DetectionFactor: real := 1.5

  /** The invariant every live or dead unit keeps. */
  ghost predicate Valid(u: Unit)
  {
    && u.stats.maxHealth > 0.0
    && 0.0 <= u.health <= u.stats.maxHealth
    && (u.isDead <==> u.state == Dead)
    && (u.isDead <==> u.health == 0.0)
  }

  /** The parts of a unit no tick and no damage ever changes. */
  ghost predicate SameIdentity(u: Unit, v: Unit)
  {
    v.id == u.id && v.kind == u.kind && v.team == u.team && v.stats == u.stats
  }

  function ChangeState(u: Unit, s: UnitState): Unit
  {
    if u.state == s then u else u.(state := s)
  }

  // ---------------------------------------------------------------------
  // Target acquisition

  /** Index of the first strictly smallest present score, scanning from the
      front the way the `foreach` over the overlap hits does. */
  function Nearest(ds: seq<Option<real>>): (r: Option<nat>)
    ensures r.None? <==> forall i :: 0 <= i < |ds| ==> ds[i].None?
    ensures r.Some? ==> r.value < |ds| && ds[r.value].Some?
    ensures r.Some? ==>
      forall i :: 0 <= i < |ds| && ds[i].Some? ==> ds[r.value].value <= ds[i].value
    ensures r.Some? ==>
      forall i :: 0 <= i < r.value && ds[i].Some? ==> ds[r.value].value < ds[i].value
    decreases |ds|
  {
    if |ds| == 0 then None
    else
      var k := |ds| - 1;
      var prev := Nearest(ds[..k]);
      assert forall i :: 0 <= i < k ==> ds[..k][i] == ds[i];
      if ds[k].Some? && (prev.None? || ds[k].value < ds[prev.value].value) then Some(k)
      else prev
  }

  /** A hit that may become the unit's target: inside the query circle, not
      the unit itself, carrying a UnitBase, of the other team, not dead. */
  predicate Eligible(u: Unit, c: Candidate)
  {
    && c.distance <= u.stats.attackRange * DetectionFactor
    && c.handle != u.id
    && c.isUnit
    && c.team != u.team
    && !c.dead
  }

  function Scores(u: Unit, cs: seq<Candidate>): (ds: seq<Option<real>>)
    ensures |ds| == |cs|
    ensures forall i :: 0 <= i < |cs| ==>
      ds[i] == if Eligible(u, cs[i]) then Some(cs[i].distance) else None
  {
    seq(|cs|, i requires 0 <= i < |cs| =>
      if Eligible(u, cs[i]) then Some(cs[i].distance) else None)
  }

  /** `FindTarget`: the index of the closest eligible hit, the first one on a
      tie, or None when no hit is eligible. */
  function FindTarget(u: Unit, cs: seq<Candidate>): (r: Option<nat>)
    ensures r.None? <==> forall i :: 0 <= i < |cs| ==> !Eligible(u, cs[i])
    ensures r.Some? ==> r.value < |cs| && Eligible(u, cs[r.value])
    ensures r.Some? ==>
      forall i :: 0 <= i < |cs| && Eligible(u, cs[i]) ==> cs[r.value].distance <= cs[i].distance
    ensures r.Some? ==>
      forall i :: 0 <= i < r.value && Eligible(u, cs[i]) ==> cs[r.value].distance < cs[i].distance
  {
    var ds := Scores(u, cs);
    var r := Nearest(ds);
    assert r.Some? ==> ds[r.value].Some?;
    r
  }

  // ---------------------------------------------------------------------
  // Base state behaviours

  /** The distance to the current target when the reference is still live. */
  function TargetDistance(u: Unit, s: Sense): Option<real>
  {
    if u.target.Some? then s.targetDistance else None
  }

  /** `IdleBehavior`: acquire the closest target, then attack it when it is in
      range or move towards it otherwise. */
  function IdleBehavior(u: Unit, s: Sense): (r: Tick)
    ensures r.signals == []
    ensures r.unit == u.(target := r.unit.target, state := r.unit.state)
    ensures r.unit.target.None? <==> forall i :: 0 <= i < |s.nearby| ==> !Eligible(u, s.nearby[i])
    ensures r.unit.target.None? ==> r.unit.state == u.state
    ensures FindTarget(u, s.nearby).Some? ==>
      var c := s.nearby[FindTarget(u, s.nearby).value];
      && r.unit.target == Some(UnitRef(c.handle))
      && (r.unit.state == Attacking <==> c.distance <= u.stats.attackRange)
      && (r.unit.state == Moving <==> c.distance > u.stats.attackRange)
  {
    match FindTarget(u, s.nearby)
    case None => Tick(u.(target := None), [])
    case Some(i) =>
      var c := s.nearby[i];
      var next := if c.distance <= u.stats.attackRange then Attacking else Moving;
      Tick(ChangeState(u.(target := Some(UnitRef(c.handle))), next), [])
  }

  /** `MoveBehavior`: fall back to Idle once the target is gone, start
      attacking once the step brought it into range. */
  function MoveBehavior(u: Unit, s: Sense): (r: Tick)
    ensures r.signals == []
    ensures r.unit == u.(state := r.unit.state)
    ensures TargetDistance(u, s).None? ==> r.unit.state == Idle
    ensures TargetDistance(u, s).Some? && TargetDistance(u, s).value <= u.stats.attackRange ==>
      r.unit.state == Attacking
    ensures TargetDistance(u, s).Some? && TargetDistance(u, s).value > u.stats.attackRange ==>
      r.unit == u
  {
    match TargetDistance(u, s)
    case None => Tick(ChangeState(u, Idle), [])
    case Some(d) =>
      if d <= u.stats.attackRange then Tick(ChangeState(u, Attacking), [])
      else Tick(u, [])
  }

  /** `PerformAttack`: only a target that is a unit is hit; anything else
      (the player core, a structure, the origin waypoint) is ignored. */
  function PerformAttack(u: Unit): (r: seq<Signal>)
    ensures u.target.Some? && u.target.value.UnitRef? ==>
      r == [Attacked(u.target.value.handle, u.stats.damage)]
    ensures !(u.target.Some? && u.target.value.UnitRef?) ==> r == []
  {
    match u.target
    case Some(UnitRef(h)) => [Attacked(h, u.stats.damage)]
    case _ => []
  }

  /** Whether the cooldown has elapsed at time `now`. */
  predicate CooledDown(u: Unit, now: real)
  {
    now >= u.lastAttackTime + u.stats.attackCooldown
  }

  /** `AttackBehavior`: leave when the target is gone or out of range,
      otherwise attack when the cooldown allows it and restart the cooldown. */
  function AttackBehavior(u: Unit, s: Sense): (r: Tick)
    ensures r.unit == u.(state := r.unit.state, lastAttackTime := r.unit.lastAttackTime)
    ensures TargetDistance(u, s).None? ==> r == Tick(ChangeState(u, Idle), [])
    ensures TargetDistance(u, s).Some? && TargetDistance(u, s).value > u.stats.attackRange ==>
      r == Tick(ChangeState(u, Moving), [])
    ensures |r.signals| <= 1
    ensures r.signals != [] ==>
      && u.target.Some? && u.target.value.UnitRef?
      && r.signals == [Attacked(u.target.value.handle, u.stats.damage)]
      && TargetDistance(u, s).Some? && TargetDistance(u, s).value <= u.stats.attackRange
      && CooledDown(u, s.now)
    ensures r.unit.lastAttackTime != u.lastAttackTime ==>
      r.unit.lastAttackTime == s.now && CooledDown(u, s.now) && r.unit.state == u.state
  {
    match TargetDistance(u, s)
    case None => Tick(ChangeState(u, Idle), [])
    case Some(d) =>
      if d > u.stats.attackRange then Tick(ChangeState(u, Moving), [])
      else if CooledDown(u, s.now) then Tick(u.(lastAttackTime := s.now), PerformAttack(u))
      else Tick(u, [])
  }

  // ---------------------------------------------------------------------
  // Damage and death

  /** `Die`: one-shot; marks the unit dead and raises OnDeath the first time,
      does nothing afterwards. */
  function Die(u: Unit): (r: Tick)
    ensures u.isDead ==> r == Tick(u, [])
    ensures !u.isDead ==> r.unit == u.(isDead := true, state := Dead) && r.signals == [Died]
  {
    if u.isDead then Tick(u, [])
    else Tick(u.(isDead := true, state := Dead), [Died])
  }

  /** Base `TakeDamage`: ignored by a dead unit; otherwise health drops by the
      amount, clamped at 0, OnDamageTaken is raised, and reaching 0 kills. */
  function TakeDamage(u: Unit, amount: real): (r: Tick)
    ensures u.isDead ==> r == Tick(u, [])
    ensures !u.isDead ==> r.unit.health == Max(0.0, u.health - amount)
    ensures !u.isDead ==> (r.unit.isDead <==> amount >= u.health)
    ensures !u.isDead ==> r.signals == if amount >= u.health then [DamageTaken, Died] else [DamageTaken]
    ensures !u.isDead ==> r.unit.state == if amount >= u.health then Dead else u.state
    ensures r.unit == u.(health := r.unit.health, isDead := r.unit.isDead, state := r.unit.state)
  {
    if u.isDead then Tick(u, [])
    else
      var hurt := u.(health := ClampedSub(u.health, amount));
      if hurt.health <= 0.0 then
        var death := Die(hurt);
        Tick(death.unit, [DamageTaken] + death.signals)
      else Tick(hurt, [DamageTaken])
  }

  /** `GetHealthPercent`. */
  function HealthPercent(u: Unit): (r: real)
    requires u.stats.maxHealth != 0.0
    ensures r * u.stats.maxHealth == u.health
  {
    u.health / u.stats.maxHealth
  }

  lemma HealthPercentBounds(u: Unit)
    requires Valid(u)
    ensures 0.0 <= HealthPercent(u) <= 1.0
    ensures HealthPercent(u) == 0.0 <==> u.isDead
    ensures HealthPercent(u) == 1.0 <==> u.health == u.stats.maxHealth
  {
    var m := u.stats.maxHealth;
    assert HealthPercent(u) * m == u.health;
  }

  lemma TakeDamageKeepsValid(u: Unit, amount: real)
    requires Valid(u)
    requires amount >= 0.0
    ensures Valid(TakeDamage(u, amount).unit)
    ensures SameIdentity(u, TakeDamage(u, amount).unit)
    ensures TakeDamage(u, amount).unit.health <= u.health
  {
  }

  // ---------------------------------------------------------------------
  // A run of hits

  /** The number of OnDeath events in a signal stream. */
  function Deaths(sig: seq<Signal>): nat
  {
    if |sig| == 0 then 0
    else (if sig[0] == Died then 1 else 0) + Deaths(sig[1..])
  }

  lemma {:induction false} DeathsAppend(a: seq<Signal>, b: seq<Signal>)
    ensures Deaths(a + b) == Deaths(a) + Deaths(b)
    decreases |a|
  {
    if |a| == 0 {
      assert a + b == b;
    } else {
      assert (a + b)[1..] == a[1..] + b;
      DeathsAppend(a[1..], b);
    }
  }

  function Sum(ds: seq<real>): real
  {
    if |ds| == 0 then 0.0 else ds[0] + Sum(ds[1..])
  }

  lemma {:induction false} SumNonNegative(ds: seq<real>)
    requires forall i :: 0 <= i < |ds| ==> ds[i] >= 0.0
    ensures Sum(ds) >= 0.0
    decreases |ds|
  {
    if |ds| > 0 {
      SumNonNegative(ds[1..]);
    }
  }

  /** The unit after taking each hit of `ds` in turn, with every signal raised. */
  function TakeAll(u: Unit, ds: seq<real>): Tick
    decreases |ds|
  {
    if |ds| == 0 then Tick(u, [])
    else
      var t := TakeDamage(u, ds[0]);
      var rest := TakeAll(t.unit, ds[1..]);
      Tick(rest.unit, t.signals + rest.signals)
  }

  /** Hits on a dead unit change nothing and raise nothing. */
  lemma {:induction false} TakeAllDead(u: Unit, ds: seq<real>)
    requires u.isDead
    ensures TakeAll(u, ds) == Tick(u, [])
    decreases |ds|
  {
    if |ds| > 0 {
      TakeAllDead(u, ds[1..]);
    }
  }

  /** Cumulative damage of at least the remaining health kills the unit, and
      OnDeath is raised exactly once however many hits follow; less damage
      leaves it alive with no OnDeath at all. */
  lemma {:induction false} DeathExactlyOnce(u: Unit, ds: seq<real>)
    requires Valid(u) && !u.isDead
    requires forall i :: 0 <= i < |ds| ==> ds[i] >= 0.0
    ensures Deaths(TakeAll(u, ds).signals) == if Sum(ds) >= u.health then 1 else 0
    ensures TakeAll(u, ds).unit.isDead <==> Sum(ds) >= u.health
    decreases |ds|
  {
    if |ds| == 0 {
      return;
    }
    var t := TakeDamage(u, ds[0]);
    var rest := TakeAll(t.unit, ds[1..]);
    assert TakeAll(u, ds) == Tick(rest.unit, t.signals + rest.signals);
    DeathsAppend(t.signals, rest.signals);
    assert Sum(ds) == ds[0] + Sum(ds[1..]);
    if ds[0] >= u.health {
      TakeAllDead(t.unit, ds[1..]);
      SumNonNegative(ds[1..]);
      assert Deaths(t.signals) == 1;
    } else {
      assert Deaths(t.signals) == 0;
      TakeDamageKeepsValid(u, ds[0]);
      assert t.unit.health == u.health - ds[0];
      DeathExactlyOnce(t.unit, ds[1..]);
    }
  }
}
