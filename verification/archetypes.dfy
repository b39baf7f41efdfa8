/** The four concrete unit classes (`EnemyTank`, `BasicEnemy`, `WorkerBrigade`,
    `ComradeRecruit`) as stat blocks plus the behaviour each one overrides, and
    the virtual dispatch of `UnitBase.Update` / `TakeDamage` over them.

    - EnemyTank: armour scales incoming damage before the base clamp; seeks an
      objective (the nearest PlayerCore-tagged object) when idle.
    - BasicEnemy: seeks an objective (the nearest Structures-tagged object)
      when idle; no damage override.
    - WorkerBrigade: a defensive stance toggled by the state being ticked,
      scaling incoming damage while it holds.
    - ComradeRecruit: the plain base behaviour. */
module Archetypes {
  import opened Wrappers
  import opened Mathf
  import opened Units

  /** EnemyTank.armorReduction: 30 % of every hit is absorbed. */
  const ArmorReduction: real := 0.3

  /** WorkerBrigade.defensiveStance: the damage multiplier while defending. */
  const DefensiveStance: real := 0.8

  /** The stat block each archetype's `Awake` writes over the base defaults. */
  function StatsOf(k: Kind): Stats
  {
    match k
    case Tank => Stats(maxHealth := 150.0, damage := 25.0, attackRange := 2.5, attackCooldown := 2.0, moveSpeed := 1.2)
    case Basic => Stats(maxHealth := 40.0, damage := 10.0, attackRange := 2.0, attackCooldown := 1.3, moveSpeed := 2.2)
    case Brigade => Stats(maxHealth := 80.0, damage := 15.0, attackRange := 1.5, attackCooldown := 1.5, moveSpeed := 2.0)
    case Recruit => Stats(maxHealth := 50.0, damage := 8.0, attackRange := 2.5, attackCooldown := 1.2, moveSpeed := 2.5)
  }

  function TeamOf(k: Kind): Team
  {
    match k
    case Tank => Enemy
    case Basic => Enemy
    case Brigade => Ally
    case Recruit => Ally
  }

  /** A freshly instantiated unit after `Awake`: full health, Idle, no target,
      no objective, not defending, never attacked (lastAttackTime is 0). */
  function Spawn(id: Handle, k: Kind): (u: Unit)
    ensures Valid(u)
    ensures u.id == id && u.kind == k
    ensures u.health == u.stats.maxHealth
    ensures u.state == Idle && !u.isDead
    ensures u.target.None? && u.objective.None? && !u.hasObjective && !u.isDefending
    ensures u.lastAttackTime == 0.0
  {
    var stats := StatsOf(k);
    Unit(id := id, kind := k, team := TeamOf(k), stats := stats, health := stats.maxHealth,
         state := Idle, target := None, lastAttackTime := 0.0, isDead := false,
         objective := None, hasObjective := false, isDefending := false)
  }

  lemma TankAwake(id: Handle)
    ensures Spawn(id, Tank).team == Enemy
    ensures Spawn(id, Tank).health == Spawn(id, Tank).stats.maxHealth == 150.0
    ensures Spawn(id, Tank).stats == Stats(150.0, 25.0, 2.5, 2.0, 1.2)
  {
  }

  lemma BasicAwake(id: Handle)
    ensures Spawn(id, Basic).team == Enemy
    ensures Spawn(id, Basic).health == Spawn(id, Basic).stats.maxHealth == 40.0
    ensures Spawn(id, Basic).stats == Stats(40.0, 10.0, 2.0, 1.3, 2.2)
  {
  }

  lemma BrigadeAwake(id: Handle)
    ensures Spawn(id, Brigade).team == Ally
    ensures Spawn(id, Brigade).health == Spawn(id, Brigade).stats.maxHealth == 80.0
    ensures Spawn(id, Brigade).stats == Stats(80.0, 15.0, 1.5, 1.5, 2.0)
  {
  }

  lemma RecruitAwake(id: Handle)
    ensures Spawn(id, Recruit).team == Ally
    ensures Spawn(id, Recruit).health == Spawn(id, Recruit).stats.maxHealth == 50.0
    ensures Spawn(id, Recruit).stats == Stats(50.0, 8.0, 2.5, 1.2, 2.5)
  {
  }

  // ---------------------------------------------------------------------
  // Damage

  /** The amount that reaches the base `TakeDamage` after the archetype's
      transform: armour for the tank, the stance for a defending brigade. */
  function Incoming(u: Unit, amount: real): real
  {
    match u.kind
    case Tank => amount * (1.0 - ArmorReduction)
    case Brigade => if u.isDefending then amount * DefensiveStance else amount
    case Basic => amount
    case Recruit => amount
  }

  /** The virtual `TakeDamage`: the transform runs first, the base guard for
      dead units and the clamp run afterwards. */
  function TakeDamage(u: Unit, amount: real): (r: Tick)
    ensures u.isDead ==> r == Tick(u, [])
    ensures u.kind == Tank && !u.isDead ==> r.unit.health == Max(0.0, u.health - amount * 0.7)
    ensures u.kind == Brigade && u.isDefending && !u.isDead ==>
      r.unit.health == Max(0.0, u.health - amount * 0.8)
    ensures (u.kind == Basic || u.kind == Recruit || (u.kind == Brigade && !u.isDefending)) ==>
      r == Units.TakeDamage(u, amount)
    ensures u.kind == Tank ==> r == Units.TakeDamage(u, amount * (1.0 - ArmorReduction))
    ensures u.kind == Brigade && u.isDefending ==> r == Units.TakeDamage(u, amount * DefensiveStance)
    ensures !u.isDead ==> (r.unit.isDead <==> Incoming(u, amount) >= u.health)
    ensures amount >= 0.0 && u.health >= 0.0 ==> r.unit.health <= u.health
  {
    assert amount >= 0.0 ==> Incoming(u, amount) >= 0.0;
    Units.TakeDamage(u, Incoming(u, amount))
  }

  /** A fresh tank hit for 25 loses 17.5 of its 150 health, and survives. */
  lemma TankArmorExample(id: Handle)
    ensures TakeDamage(Spawn(id, Tank), 25.0).unit.health == 150.0 - 17.5
    ensures TakeDamage(Spawn(id, Tank), 25.0).signals == [DamageTaken]
  {
  }

  lemma ArchetypeDamageKeepsValid(u: Unit, amount: real)
    requires Valid(u)
    requires amount >= 0.0
    ensures Valid(TakeDamage(u, amount).unit)
    ensures SameIdentity(u, TakeDamage(u, amount).unit)
  {
    TakeDamageKeepsValid(u, Incoming(u, amount));
  }

  // ---------------------------------------------------------------------
  // Objectives

  /** EnemyTank's `targetObjective` setter keeps `hasObjective` in step. */
  function SetObjective(u: Unit, o: Option<Ref>): (r: Unit)
    ensures r.objective == o
    ensures r.hasObjective <==> o.Some?
    ensures r == u.(objective := r.objective, hasObjective := r.hasObjective)
  {
    u.(objective := o, hasObjective := o.Some?)
  }

  /** One object found by the tag lookup, with its distance from the unit. */
  datatype Sighting = Sighting(ref: Ref, distance: real)

  /** The first strictly nearest sighting of a non-empty lookup. */
  function NearestSighting(ss: seq<Sighting>): (k: nat)
    requires |ss| > 0
    ensures k < |ss|
    ensures forall j :: 0 <= j < |ss| ==> ss[k].distance <= ss[j].distance
    ensures forall j :: 0 <= j < k ==> ss[k].distance < ss[j].distance
  {
    var ds := seq(|ss|, i requires 0 <= i < |ss| => Some(ss[i].distance));
    assert ds[0].Some?;
    var k := Nearest(ds);
    assert forall j :: 0 <= j < |ss| ==> ds[j].Some? && ds[j].value == ss[j].distance;
    k.value
  }

  /** `FindObjective`: the first strictly nearest tagged object, or the origin
      waypoint when the lookup found none; either way the unit now has an
      objective.  The tank looks up "PlayerCore", the basic enemy
      "Structures"; the caller passes the matching lookup. */
  function FindObjective(u: Unit, structures: seq<Sighting>): (r: Unit)
    ensures r.hasObjective && r.objective.Some?
    ensures |structures| == 0 ==> r.objective == Some(Origin)
    ensures |structures| > 0 ==> r.objective == Some(structures[NearestSighting(structures)].ref)
    ensures r == u.(objective := r.objective, hasObjective := true)
  {
    if |structures| == 0 then SetObjective(u, Some(Origin))
    else SetObjective(u, Some(structures[NearestSighting(structures)].ref))
  }

  /** `Start` of the objective-seeking archetypes: look an objective up only
      when none was assigned before. */
  function Start(u: Unit, structures: seq<Sighting>): (r: Unit)
    ensures (u.kind == Tank || u.kind == Basic) && u.objective.None? ==>
      r == FindObjective(u, structures)
    ensures !((u.kind == Tank || u.kind == Basic) && u.objective.None?) ==> r == u
  {
    if (u.kind == Tank || u.kind == Basic) && u.objective.None? then FindObjective(u, structures)
    else u
  }

  /** Whether the idle tick goes on to `MoveTowardsObjective`: no combat
      target was found and the objective still exists (the basic enemy also
      checks its `hasObjective` flag). */
  predicate Seeks(u: Unit, s: Sense)
  {
    match u.kind
    case Tank => u.target.None? && u.objective.Some? && s.objectiveDistance.Some?
    case Basic => u.target.None? && u.hasObjective && u.objective.Some? && s.objectiveDistance.Some?
    case Brigade => false
    case Recruit => false
  }

  /** `MoveTowardsObjective`: after the step, an objective within attack range
      becomes the current target and the unit starts attacking it. */
  function MoveTowardsObjective(u: Unit, s: Sense): (r: Tick)
  {
    if u.objective.None? || s.objectiveDistance.None? then Tick(u, [])
    else if s.objectiveDistance.value <= u.stats.attackRange then
      Tick(ChangeState(u.(target := u.objective), Attacking), [])
    else Tick(u, [])
  }

  // ---------------------------------------------------------------------
  // The tick

  /** WorkerBrigade sets its stance before running the base behaviour. */
  function Stance(u: Unit, defending: bool): Unit
  {
    if u.kind == Brigade then u.(isDefending := defending) else u
  }

  function IdleTick(u: Unit, s: Sense): Tick
  {
    var t := IdleBehavior(Stance(u, true), s);
    if Seeks(t.unit, s) then MoveTowardsObjective(t.unit, s) else t
  }

  /** `UnitBase.Update`, dispatched over the archetype overrides: a dead unit
      does nothing, otherwise the current state's behaviour runs. */
  function Update(u: Unit, s: Sense): (r: Tick)
    ensures u.isDead ==> r == Tick(u, [])
    ensures SameIdentity(u, r.unit)
    ensures r.unit.health == u.health && r.unit.isDead == u.isDead
    ensures r.unit.objective == u.objective && r.unit.hasObjective == u.hasObjective
    ensures (r.unit.state == Dead) == (u.state == Dead)
    ensures r.signals != [] ==> u.state == Attacking && r.unit.state == Attacking
  {
    if u.isDead then Tick(u, [])
    else
      match u.state
      case Idle => IdleTick(u, s)
      case Moving => MoveBehavior(Stance(u, false), s)
      case Attacking => AttackBehavior(Stance(u, true), s)
      case Dead => Tick(u, [])
  }

  lemma UpdateKeepsValid(u: Unit, s: Sense)
    requires Valid(u)
    ensures Valid(Update(u, s).unit)
  {
  }

  // ---------------------------------------------------------------------
  // What one tick does, state by state

  /** Idle with an acquired target: Attacking exactly when it is within
      attack range, Moving otherwise; the target is the closest eligible hit. */
  lemma IdleAcquires(u: Unit, s: Sense)
    requires !u.isDead && u.state == Idle
    requires FindTarget(u, s.nearby).Some?
    ensures var c := s.nearby[FindTarget(u, s.nearby).value];
      && Update(u, s).unit.target == Some(UnitRef(c.handle))
      && (Update(u, s).unit.state == Attacking <==> c.distance <= u.stats.attackRange)
      && (Update(u, s).unit.state == Moving <==> c.distance > u.stats.attackRange)
      && Update(u, s).signals == []
  {
    assert FindTarget(Stance(u, true), s.nearby) == FindTarget(u, s.nearby);
  }

  /** Idle with nothing eligible around: an ally (or an enemy that does not
      seek) stays Idle with no target. */
  lemma IdleWithoutTarget(u: Unit, s: Sense)
    requires !u.isDead && u.state == Idle
    requires FindTarget(u, s.nearby).None?
    requires !Seeks(u.(target := None), s)
    ensures Update(u, s).unit.state == Idle && Update(u, s).unit.target.None?
    ensures Update(u, s).signals == []
  {
    assert FindTarget(Stance(u, true), s.nearby) == FindTarget(u, s.nearby);
  }

  /** An idle enemy with no combat target heads for its objective and, once
      within attack range of it, targets it and starts attacking. */
  lemma IdleSeeksObjective(u: Unit, s: Sense)
    requires !u.isDead && u.state == Idle
    requires u.kind == Tank || u.kind == Basic
    requires FindTarget(u, s.nearby).None?
    requires u.objective.Some? && s.objectiveDistance.Some?
    requires u.kind == Basic ==> u.hasObjective
    ensures s.objectiveDistance.value <= u.stats.attackRange ==>
      Update(u, s).unit.state == Attacking && Update(u, s).unit.target == u.objective
    ensures s.objectiveDistance.value > u.stats.attackRange ==>
      Update(u, s).unit.state == Idle && Update(u, s).unit.target.None?
  {
  }

  /** Objective seeking is the only way an idle unit that found no eligible
      hit leaves Idle: when it does, it is a tank or basic enemy whose
      objective still exists and is within range, a basic enemy also has its
      `hasObjective` flag, and the objective is now its target. */
  lemma SeekingNeedsLiveObjective(u: Unit, s: Sense)
    requires !u.isDead && u.state == Idle
    requires FindTarget(u, s.nearby).None?
    ensures Update(u, s).unit.state != Idle ==>
      && (u.kind == Tank || u.kind == Basic)
      && u.objective.Some? && s.objectiveDistance.Some?
      && s.objectiveDistance.value <= u.stats.attackRange
      && (u.kind == Basic ==> u.hasObjective)
      && Update(u, s).unit.state == Attacking
      && Update(u, s).unit.target == u.objective
  {
    assert FindTarget(Stance(u, true), s.nearby) == FindTarget(u, s.nearby);
  }

  /** Moving or Attacking with the target gone returns to Idle. */
  lemma LostTargetGoesIdle(u: Unit, s: Sense)
    requires !u.isDead && (u.state == Moving || u.state == Attacking)
    requires u.target.None? || s.targetDistance.None?
    ensures Update(u, s) == Tick(Update(u, s).unit, [])
    ensures Update(u, s).unit.state == Idle
  {
  }

  /** Moving reaches Attacking exactly when the step ends within range. */
  lemma MovingArrives(u: Unit, s: Sense)
    requires !u.isDead && u.state == Moving
    requires u.target.Some? && s.targetDistance.Some?
    ensures Update(u, s).unit.state == Attacking <==> s.targetDistance.value <= u.stats.attackRange
    ensures Update(u, s).unit.state == Moving <==> s.targetDistance.value > u.stats.attackRange
  {
  }

  /** Attacking a target that moved out of range goes back to Moving. */
  lemma AttackingOutOfRange(u: Unit, s: Sense)
    requires !u.isDead && u.state == Attacking
    requires u.target.Some? && s.targetDistance.Some?
    requires s.targetDistance.value > u.stats.attackRange
    ensures Update(u, s).unit.state == Moving && Update(u, s).signals == []
  {
  }

  /** In range, an attack fires exactly when `now >= lastAttackTime +
      attackCooldown`, restarting the cooldown at `now`; it hits only a target
      that is a unit, for the attacker's damage, and anything else (the core,
      a structure, the origin waypoint) takes no hit and no OnAttack is raised. */
  lemma AttackGatedByCooldown(u: Unit, s: Sense)
    requires !u.isDead && u.state == Attacking
    requires u.target.Some? && s.targetDistance.Some?
    requires s.targetDistance.value <= u.stats.attackRange
    ensures Update(u, s).unit.state == Attacking
    ensures s.now >= u.lastAttackTime + u.stats.attackCooldown ==>
      Update(u, s).unit.lastAttackTime == s.now
    ensures s.now < u.lastAttackTime + u.stats.attackCooldown ==>
      Update(u, s).unit.lastAttackTime == u.lastAttackTime && Update(u, s).signals == []
    ensures Update(u, s).signals != [] <==>
      s.now >= u.lastAttackTime + u.stats.attackCooldown && u.target.value.UnitRef?
    ensures Update(u, s).signals != [] ==>
      Update(u, s).signals == [Attacked(u.target.value.handle, u.stats.damage)]
  {
  }

  /** WorkerBrigade's stance follows the state it ticked in: defending when
      Idle or Attacking, not defending when Moving. */
  lemma BrigadeStance(u: Unit, s: Sense)
    requires !u.isDead && u.kind == Brigade
    ensures u.state == Idle ==> Update(u, s).unit.isDefending
    ensures u.state == Moving ==> !Update(u, s).unit.isDefending
    ensures u.state == Attacking ==> Update(u, s).unit.isDefending
  {
  }

  /** Only WorkerBrigade has a stance; every other archetype's tick is the
      base behaviour, and ComradeRecruit's attack is the base attack. */
  lemma OthersUseBaseBehaviour(u: Unit, s: Sense)
    requires !u.isDead && u.kind != Brigade
    ensures u.state == Moving ==> Update(u, s) == MoveBehavior(u, s)
    ensures u.state == Attacking ==> Update(u, s) == AttackBehavior(u, s)
    ensures u.kind == Recruit && u.state == Idle ==> Update(u, s) == IdleBehavior(u, s)
    ensures Update(u, s).unit.isDefending == u.isDefending
  {
  }
}
