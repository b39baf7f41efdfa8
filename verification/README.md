# Red Grid combat and wave simulation in Dafny

This project models the simulation core of *Red Grid*, a 2D tower-defence game
built in Unity. In the game, player units and structures defend a base core
against scripted waves of enemies. The model covers these parts:

- **Units** (`Units`, from `UnitBase`): the Idle / Moving / Attacking / Dead
  state machine, target acquisition, the attack cooldown, clamped damage and
  one-shot death.
- **Archetypes** (`Archetypes`): the four concrete units.
  - `EnemyTank` has armour and seeks the player core.
  - `BasicEnemy` seeks the nearest structure.
  - `WorkerBrigade` has a defensive stance.
  - `ComradeRecruit` uses the base behaviour unchanged.
  - The module also models the virtual dispatch of `Update` and `TakeDamage`.
- **Player core** (`PlayerCore`): its health pool and its one-way destroyed flag.
- **Waves** (`Waves`, from `WaveManager`):
  - the Waiting → Spawning → Fighting → Waiting … → Complete state machine;
  - the `SpawnWave` coroutine;
  - the event-driven live-enemy counter and its periodic recount;
  - victory and defeat.
- **Factory** (`Factory`, from `FactoryProduction`): timed worker production,
  charged to the recruitment pool.
- **Placement** (`Placement`, from `PlacerManager`):
  - the recruitment pool;
  - the placement rules;
  - timed builds that turn an accepted placement into an instance.
- **Scene wiring** (`Battle`): an attack's hit reaches the victim's virtual
  `TakeDamage`, an enemy's OnDeath reaches the wave manager's counter, and
  the factory and the placement manager share one recruitment pool.

Everything is pure functions over immutable datatypes:

- Health and time are `real`.
- Counters are `int` or `nat`.
- Engine services are inputs:
  - `Units.Sense` gives the current time, the overlap hits with their
    distances, and the distances to the current target and objective. `None`
    means the referenced object has been destroyed.
  - `Waves.FrameInput` gives the frame delta, whether the core object still
    exists, whether this is a recount frame, the tag scan, and the random
    spawn-point choice.
  - `Placement.World` answers the physics overlap counts.
- Coroutines are explicit records that are resumed once per frame after
  `Update`:
  - `Waves.Spawner` models `SpawnWave`;
  - `Placement.Build` models `BuildCoroutine`.
- Engine events are returned as signal lists: `Units.Signal`,
  `PlayerCore.CoreEvent` and `Waves.WaveEvent`.

Behaviour of the code worth knowing, which the model reproduces:

- **Attacks only hurt units.** An attack hurts only a target that carries a
  `UnitBase`. An enemy that reaches the player core or a structure "attacks"
  it, but nothing is damaged and no OnAttack is raised (`UnitBase.cs:168-182`).
  Nothing in the modelled code ever calls `PlayerCore.TakeDamage`.
- **Only one targeting policy.** Only the closest-target policy exists. On a
  tie, the first hit with a strictly smaller distance wins.
- **Spawning outlives game over.** A running `SpawnWave` coroutine is not
  stopped when the game ends. When it finishes it sets the state to Fighting
  while `gameEnded` stays true. See `Waves.SpawningOutlivesGameOver`.
- **Missing spawn points are not refused.** With no spawn point configured,
  `Start` returns early, before it looks up the player core by tag
  (`WaveManager.cs:51-70`). If the core was assigned in the Inspector,
  `Update` still starts waves; the first spawn attempt of the coroutine then
  fails in the spawn-point lookup (a modulo by zero in order mode, an empty array access in random mode). The model represents that as `None` from
  `Waves.SpawnPoint`: the coroutine ends there and the state stays Spawning.
  If the core was not assigned, it is never looked up, so the first `Update`
  finds no core and ends the game in defeat (`WaveManager.cs:84-88`); in the
  model that is a frame with `corePresent` false.
- **`autoStartWaves` does not stop waves.** Switching it off does not prevent
  waves from starting, because the fields already hold the Waiting state that
  `StartWaveSystem` would set.

## Model

| member | source | states |
|---|---|---|
| Units.Nearest | Assets/Scripts/Units/UnitBase.cs:190-211 | None exactly when no score is present. Otherwise the index holds a present score that is ≤ every present score and strictly < every present score before it (first minimum wins). |
| Units.FindTarget | Assets/Scripts/Units/UnitBase.cs:186-217 | A target is found exactly when some hit is eligible. Eligible means within 1.5 × attack range, not the unit itself, a unit, of the other team, and alive. The chosen hit is eligible, no farther than any eligible hit, and strictly nearer than every eligible hit before it. |
| Units.PerformAttack | Assets/Scripts/Units/UnitBase.cs:168-182 | An attack signal, carrying the attacker's damage, is raised exactly when the target is a unit. Any other target yields nothing. |
| Units.Die | Assets/Scripts/Units/UnitBase.cs:242-255 | One-shot: the first call marks the unit dead in state Dead and raises OnDeath. Later calls change nothing and raise nothing. |
| Units.TakeDamage | Assets/Scripts/Units/UnitBase.cs:221-240 | A dead unit ignores damage. Otherwise health becomes max(0, h − a). The unit dies exactly when a ≥ h. OnDamageTaken precedes OnDeath. Only health, the dead flag and the state change. |
| Units.IdleBehavior | Assets/Scripts/Units/UnitBase.cs:94-112 | Idle raises no signal and changes only the target and the state. The target is cleared exactly when no hit is eligible, and then the state is kept. Otherwise the target is the hit `FindTarget` picks, and the unit attacks exactly when that hit is within range and moves exactly when it is not. |
| Units.MoveBehavior | Assets/Scripts/Units/UnitBase.cs:116-150 | Moving raises no signal and changes only the state: Idle when the target is gone, Attacking when it is within range, otherwise unchanged. |
| Units.AttackBehavior | Assets/Scripts/Units/UnitBase.cs:152-182 | Only the state and the attack time change. A gone target returns to Idle, an out-of-range one to Moving, silently. At most one attack per tick: it carries the attacker's damage on a unit target, and needs the target in range and the cooldown elapsed. The attack time moves only to `now`, only when cooled down. |
| Units.HealthPercent | Assets/Scripts/Units/UnitBase.cs:297 | The percentage times the maximum health gives back the current health. |
| Units.HealthPercentBounds | Assets/Scripts/Units/UnitBase.cs:297 | For a valid unit the percentage lies in [0, 1]. It is 0 exactly when the unit is dead and 1 exactly at full health. |
| Units.TakeDamageKeepsValid | Assets/Scripts/Units/UnitBase.cs:221-240 | Non-negative damage keeps 0 ≤ health ≤ max, with dead ⇔ Dead state ⇔ health 0, and keeps the unit's identity. |
| Units.TakeAllDead | Assets/Scripts/Units/UnitBase.cs:221-223 | Any run of hits on a dead unit changes nothing and raises nothing. |
| Units.DeathExactlyOnce | Assets/Scripts/Units/UnitBase.cs:221-255 | Over any run of non-negative hits on a live unit, OnDeath is raised exactly once if the total reaches its health and never otherwise. The unit ends dead exactly in that case. |
| Archetypes.Spawn | Assets/Scripts/Units/UnitBase.cs:50-56 | A fresh unit is valid, at full health, Idle and alive. It has no target and no objective, is not defending, and has lastAttackTime 0. |
| Archetypes.TankAwake | Assets/Scripts/Units/EnemyTank.cs:26-50 | A tank is an enemy with 150 health, 25 damage, range 2.5, cooldown 2.0 and speed 1.2. |
| Archetypes.BasicAwake | Assets/Scripts/Units/BasicEnemy.cs:13-28 | A basic enemy is an enemy with 40 / 10 / 2.0 / 1.3 / 2.2. |
| Archetypes.BrigadeAwake | Assets/Scripts/Units/WorkerBrigade.cs:13-28 | A worker brigade is an ally with 80 / 15 / 1.5 / 1.5 / 2.0. |
| Archetypes.RecruitAwake | Assets/Scripts/Units/ComradeRecruit.cs:12-27 | A recruit is an ally with 50 / 8 / 2.5 / 1.2 / 2.5. |
| Archetypes.TakeDamage | Assets/Scripts/Units/WorkerBrigade.cs:59-69 | A tank's hit is exactly the base `TakeDamage` of 70 % of it, a defending brigade's exactly the base `TakeDamage` of 80 % of it, including the signals and the death. The others, and a brigade that is not defending, take the base damage unchanged. A dead unit ignores the hit. A live unit dies exactly when the transformed amount reaches its health. Non-negative damage never raises health. |
| Archetypes.TankArmorExample | Assets/Scripts/Units/EnemyTank.cs:157-165 | A fresh tank hit for 25 drops to 132.5 health and raises only OnDamageTaken. |
| Archetypes.ArchetypeDamageKeepsValid | Assets/Scripts/Units/EnemyTank.cs:157-165 | Armoured or stanced damage keeps a unit valid and its identity unchanged. |
| Archetypes.SetObjective | Assets/Scripts/Units/EnemyTank.cs:12-20 | Assigning the objective keeps `hasObjective` equal to "the objective is set". Nothing else changes. |
| Archetypes.NearestSighting | Assets/Scripts/Units/EnemyTank.cs:127-145 | Picks the first strictly nearest tagged object: no farther than any other, and strictly nearer than all earlier ones. |
| Archetypes.FindObjective | Assets/Scripts/Units/BasicEnemy.cs:78-120 | With tagged objects present, the objective is the nearest one. Otherwise it is the origin waypoint. Either way `hasObjective` becomes true and nothing else changes. |
| Archetypes.Start | Assets/Scripts/Units/EnemyTank.cs:52-68 | A tank or basic enemy looks up an objective only when none was assigned. Every other unit, and an enemy with an objective, is unchanged. |
| Archetypes.Update | Assets/Scripts/Units/UnitBase.cs:74-91 | A dead unit does nothing. A tick never changes identity, health, the dead flag or the objective. A tick never enters or leaves Dead. Signals come only from a unit that was Attacking and stays Attacking. |
| Archetypes.UpdateKeepsValid | Assets/Scripts/Units/UnitBase.cs:74-91 | A tick keeps a valid unit valid. |
| Archetypes.IdleAcquires | Assets/Scripts/Units/UnitBase.cs:94-112 | An idle unit that finds a target takes the nearest eligible hit. It then attacks exactly when that hit is within range and moves exactly when it is out of range. |
| Archetypes.IdleWithoutTarget | Assets/Scripts/Units/UnitBase.cs:94-112 | An idle unit with nothing eligible, and no objective to seek, stays Idle with no target. |
| Archetypes.IdleSeeksObjective | Assets/Scripts/Units/EnemyTank.cs:70-112 | An idle enemy with no combat target, whose objective still exists, turns to attacking the objective exactly when it is within range. Otherwise it stays Idle. |
| Archetypes.SeekingNeedsLiveObjective | Assets/Scripts/Units/BasicEnemy.cs:44-54 | An idle unit that found no eligible hit leaves Idle only by seeking: it is then a tank or basic enemy, its objective still exists and is within range, a basic enemy has `hasObjective`, and it ends Attacking with the objective as target. |
| Archetypes.LostTargetGoesIdle | Assets/Scripts/Units/UnitBase.cs:116-150 | Moving or Attacking with the target gone returns to Idle, silently. |
| Archetypes.MovingArrives | Assets/Scripts/Units/UnitBase.cs:116-140 | A moving unit switches to Attacking exactly when the target is within range. Otherwise it keeps moving. |
| Archetypes.AttackingOutOfRange | Assets/Scripts/Units/UnitBase.cs:152-158 | An attacking unit whose target left range goes back to Moving without attacking. |
| Archetypes.AttackGatedByCooldown | Assets/Scripts/Units/UnitBase.cs:160-182 | In range, an attack fires exactly when the cooldown has elapsed and the target is a unit. Firing restarts the cooldown at `now` and signals the attacker's damage on the target. |
| Archetypes.BrigadeStance | Assets/Scripts/Units/WorkerBrigade.cs:38-57 | A brigade defends after an Idle or Attacking tick and does not defend after a Moving tick. |
| Archetypes.OthersUseBaseBehaviour | Assets/Scripts/Units/ComradeRecruit.cs:44-50 | Units other than the brigade tick with the plain base behaviours and never change their stance. |
| PlayerCore.Awake | Assets/Scripts/PlayerCore.cs:25-40 | The core starts intact at full health. It is valid when its maximum health is positive. |
| PlayerCore.DestroyCore | Assets/Scripts/PlayerCore.cs:87-104 | One-shot: OnDestroyed is raised the first time only, and health is untouched. |
| PlayerCore.TakeDamage | Assets/Scripts/PlayerCore.cs:57-76 | A destroyed core ignores damage. Otherwise health becomes max(0, h − d). OnHealthChanged reports the new health. The core is destroyed, raising OnDestroyed, exactly when d ≥ h. |
| PlayerCore.IsDestroyed | Assets/Scripts/PlayerCore.cs:110 | For a valid core, destroyed is the same as having no health left. |
| PlayerCore.HealthPercent | Assets/Scripts/PlayerCore.cs:107 | The percentage times the maximum health gives back the current health. |
| PlayerCore.DefaultCore | Assets/Scripts/PlayerCore.cs:11 | With the serialized 500 maximum health the core is valid, at 100 %, and a hit of 125 leaves 375. |
| PlayerCore.HealthPercentBounds | Assets/Scripts/PlayerCore.cs:107-110 | For a valid core the percentage lies in [0, 1] and is 0 exactly when the core is destroyed. |
| PlayerCore.TakeDamageKeepsValid | Assets/Scripts/PlayerCore.cs:57-76 | Non-negative damage keeps a core valid. |
| PlayerCore.DestroyedIsOneWay | Assets/Scripts/PlayerCore.cs:57-104 | Over any run of hits: a destroyed core stays destroyed and silent. OnDestroyed is raised at most once, and exactly when an intact core ends destroyed. |
| Waves.Init | Assets/Scripts/WaveManager.cs:27-33 | A new manager is Waiting at wave index 0, with no enemies, a zero timer, the game not ended, and no coroutine or subscription. |
| Waves.Repeat | Assets/Scripts/WaveManager.cs:178-184 | A group contributes max(0, count) spawn attempts of its prefab. |
| Waves.SpawnList | Assets/Scripts/WaveManager.cs:176-185 | A wave's spawn attempts number Σ max(0, count). |
| Waves.AttemptsMatchTotal | Assets/Scripts/WaveManager.cs:167-171 | With no negative count, the attempts made equal the coroutine's `totalToSpawn`. |
| Waves.CountAlive | Assets/Scripts/WaveManager.cs:281-314 | The recount never exceeds the scan's size. It is 0 exactly when no scanned object is present, has a `UnitBase` and is alive. |
| Waves.Recount | Assets/Scripts/WaveManager.cs:316-321 | The counter takes the recounted value and nothing else changes. |
| Waves.OnEnemyDied | Assets/Scripts/WaveManager.cs:260-279 | The enemy is unsubscribed. From 3 or more the counter drops by one. Below 3 the counter is replaced by the recount. A death that is not subscribed changes nothing. |
| Waves.DeathCountedOnce | Assets/Scripts/WaveManager.cs:265-266 | A second death notification for the same enemy changes nothing. |
| Waves.SpawnPoint | Assets/Scripts/WaveManager.cs:247-258 | There is a spawn point exactly when spawn points are configured. The index is in bounds. In order mode it is `enemiesAlive mod n`. |
| Waves.SpawnEnemy | Assets/Scripts/WaveManager.cs:192-245 | A missing prefab spawns nothing. Otherwise the spawn fails exactly when there is no spawn point. On success the counter and instance count rise by one, and the new enemy is subscribed exactly when it has a `UnitBase`. |
| Waves.StartSpawner | Assets/Scripts/WaveManager.cs:162-183 | Starting a wave announces wave index+1. An empty wave goes straight to Fighting. Otherwise the state is kept until the coroutine finishes. Index, config and the ended flag are unchanged. |
| Waves.Resume | Assets/Scripts/WaveManager.cs:176-188 | A resumption never touches the game flags, the index, the timer or the config. It sets only Fighting, and only once the queue is empty and the wait has elapsed. While the wait runs nothing is spawned. It instantiates at most one enemy, and subscribes only that one. |
| Waves.ResumeAll | Assets/Scripts/WaveManager.cs:162-190 | Resuming the coroutines never touches the game flags, the index, the timer or the config, sets no state but Fighting, and instantiates at most one enemy per coroutine. |
| Waves.ResumeTracks | Assets/Scripts/WaveManager.cs:176-188 | A resumed coroutine continues with exactly the remaining attempts of its wave. It sets Fighting only after all Σ max(0, count) attempts. Subscriptions go only to newly instantiated enemies. |
| Waves.ResumeAllKeepsValid | Assets/Scripts/WaveManager.cs:162-190 | Resuming every running coroutine keeps each one on its wave's schedule and every subscription on a spawned enemy. |
| Waves.CompleteAllWaves | Assets/Scripts/WaveManager.cs:334-340 | Victory sets Complete, ends the game and raises OnAllWavesComplete. |
| Waves.TriggerGameOver | Assets/Scripts/WaveManager.cs:342-350 | Defeat happens once. It ends the game in Complete with OnGameOver, and does nothing if the game has already ended. |
| Waves.StartNextWave | Assets/Scripts/WaveManager.cs:149-160 | Past the last wave this is victory. Otherwise wave index+1 is announced and the state is Spawning or Fighting. |
| Waves.CompleteCurrentWave | Assets/Scripts/WaveManager.cs:324-332 | Announces wave index+1 as complete, advances the index, returns to Waiting and restarts the timer. |
| Waves.UpdateWaiting | Assets/Scripts/WaveManager.cs:102-110 | The timer grows by the delta. The next wave starts exactly when the timer reaches the time between waves. |
| Waves.UpdateFighting | Assets/Scripts/WaveManager.cs:112-132 | The wave completes exactly when the fresh recount finds no live enemy and the counter (after any due recount) read zero. Completion moves to the next index in Waiting with a zero timer and a zero counter and announces the wave. Otherwise only the counter changes, to the recount when one was due. |
| Waves.Update | Assets/Scripts/WaveManager.cs:79-100 | Does nothing once the game has ended. A missing core is defeat in any state. The game ends in a frame exactly when that frame raises OnGameOver or OnAllWavesComplete. |
| Waves.Frame | Assets/Scripts/WaveManager.cs:79-190 | A frame raises exactly the events of `Update`, at most one. The wave index advances by at most one, only with OnWaveComplete for it. Once the game has ended, a frame raises nothing and keeps the index, the timer and the ended flag. |
| Waves.StartWaveSystem | Assets/Scripts/WaveManager.cs:134-147 | Refuses without waves. Otherwise it rewinds to wave 0, Waiting, with a zero timer. |
| Waves.ForceStartNextWave | Assets/Scripts/WaveManager.cs:353-359 | In Waiting it fills the timer. In any other state it changes nothing. |
| Waves.StartWaveSystemRestarts | Assets/Scripts/WaveManager.cs:134-147 | With waves configured, the restart keeps the manager consistent and shows wave 1. The first later frame with the core present announces wave 1 exactly when its delta reaches the time between waves. |
| Waves.ForceStartStartsNextWave | Assets/Scripts/WaveManager.cs:353-359 | In Waiting, the next `Update` after forcing starts the next wave (or wins past the last one), whatever the timer read, for any non-negative delta. |
| Waves.TimeUntilNextWave | Assets/Scripts/WaveManager.cs:363 | Never negative. It is 0 exactly when the timer has reached the interval, and otherwise timer + result = interval. |
| Waves.UpdateKeepsValid | Assets/Scripts/WaveManager.cs:79-100 | `Update` keeps the coroutines and subscriptions consistent and never moves the wave index back. |
| Waves.FrameKeepsValid | Assets/Scripts/WaveManager.cs:79-190 | A whole frame (`Update`, then every coroutine) keeps the manager consistent. |
| Waves.EndedIsFinal | Assets/Scripts/WaveManager.cs:81 | Once the game has ended, `Update` is a no-op, and a frame raises no event and keeps the game ended. |
| Waves.CoreLossEndsGame | Assets/Scripts/WaveManager.cs:83-88 | Losing the core ends the game on that frame with exactly OnGameOver, whatever the state. |
| Waves.WaitingCountsUp | Assets/Scripts/WaveManager.cs:102-110 | In Waiting, the timer only counts until it reaches the interval. Then the next wave starts, or past the last wave the game is won. |
| Waves.FightingCompletesOnConfirmedZero | Assets/Scripts/WaveManager.cs:112-132 | A Fighting wave completes exactly when the fresh recount finds no live enemy and the counter (after any due recount) read zero. Completion moves to the next index in Waiting with a zero timer. Otherwise the wave keeps Fighting. |
| Waves.PointsOf | Assets/Scripts/WaveManager.cs:247-258 | The points that k consecutive spawns use, with no death between them, are all in bounds. In order mode the i-th is `(enemiesAlive + i) mod n`. |
| Waves.RoundRobinSpreads | Assets/Scripts/WaveManager.cs:253-257 | In order mode, up to n consecutive spawns with no death between them all use different spawn points. |
| Waves.FrameTerminals | Assets/Scripts/WaveManager.cs:334-350 | A frame raises at most one end-of-game event, only if the game had not ended, and the game ends exactly then. |
| Waves.GameEndsOnce | Assets/Scripts/WaveManager.cs:342-350 | Over any run of frames at most one end-of-game event is raised, none once the game has ended. `gameEnded` never reverts. |
| Waves.SpawningOutlivesGameOver | Assets/Scripts/WaveManager.cs:186-188 | A coroutine that finishes on the frame the core is lost still sets Fighting after the game has ended. |
| Factory.Init | Assets/Scripts/Buildings/FactoryProduction.cs:32-34 | A new factory is not producing, with a zero timer and nothing produced. |
| Factory.StartProduction | Assets/Scripts/Buildings/FactoryProduction.cs:93-98 | Production starts with a fresh timer. Nothing else changes. |
| Factory.StopProduction | Assets/Scripts/Buildings/FactoryProduction.cs:100-104 | Production stops. The timer and the count are kept. |
| Factory.ToggleProduction | Assets/Scripts/Buildings/FactoryProduction.cs:106-112 | Toggling flips whether the factory is producing and keeps the count. Starting restarts the timer; stopping keeps it. |
| Factory.ToggleTwice | Assets/Scripts/Buildings/FactoryProduction.cs:106-112 | Toggling twice gives back the same factory, except that the timer has restarted at 0. |
| Factory.Start | Assets/Scripts/Buildings/FactoryProduction.cs:36-59 | Without a placement manager the factory never charges. With auto-start it produces, with the timer restarted at 0. Otherwise the timer is kept. |
| Factory.ProduceWorker | Assets/Scripts/Buildings/FactoryProduction.cs:114-163 | A charging factory that cannot afford the cost changes nothing. Otherwise the cost is paid first, and a worker is counted only when the prefab is set. |
| Factory.LimitReached | Assets/Scripts/Buildings/FactoryProduction.cs:70 | The limit counts only when it is switched on and not the unlimited −1. A limit that counts is reached exactly when the count is at or past it. |
| Factory.Update | Assets/Scripts/Buildings/FactoryProduction.cs:61-91 | An idle factory does nothing. At its limit it stops. Otherwise the timer advances, and on reaching the interval one attempt is made and the timer restarts at 0. At most one worker per frame. |
| Factory.UpdateKeepsBankNonNegative | Assets/Scripts/Buildings/FactoryProduction.cs:117-127 | Production never drives a non-negative recruitment pool negative. |
| Factory.UpdateKeepsTimerInRange | Assets/Scripts/Buildings/FactoryProduction.cs:77-90 | With non-negative deltas the timer stays in [0, interval). |
| Factory.ProducesOnlyOnSchedule | Assets/Scripts/Buildings/FactoryProduction.cs:61-91 | A frame produces a worker exactly when all of these hold: the factory is producing, it is below its limit, the timer reaches the interval, the prefab is set, and the pool can pay or is not charged. |
| Factory.ProductionProgress | Assets/Scripts/Buildings/FactoryProduction.cs:209-213 | Progress lies in [0, 1]. It is 0 for a non-positive interval. For a positive interval: progress × interval = timer when 0 ≤ timer ≤ interval, 1 from the interval on, and 0 for a non-positive timer. |
| Factory.TimeUntilNextProduction | Assets/Scripts/Buildings/FactoryProduction.cs:215-218 | Never negative. It is 0 exactly when the timer reached the interval, and otherwise timer + result = interval. |
| Factory.ResetProductionCount | Assets/Scripts/Buildings/FactoryProduction.cs:225-229 | Only the count is reset. |
| Factory.ResetLiftsLimit | Assets/Scripts/Buildings/FactoryProduction.cs:225-229 | After a reset, a factory with a positive limit is below it again, and a producing one keeps producing on the next frame. |
| Factory.DefaultFactoryFirstWorker | Assets/Scripts/Buildings/FactoryProduction.cs:13-23 | With the serialized defaults and a placement manager, a fresh factory produces and charges. 9.5 s changes only the timer; the frame that reaches 10 s produces one worker for 5 from the pool. |
| Factory.LimitIsRespected | Assets/Scripts/Buildings/FactoryProduction.cs:69-75 | With a limit set, no run of frames produces past `maxUnitsProduced`. |
| Factory.PoolPaysPerWorker | Assets/Scripts/Buildings/FactoryProduction.cs:114-152 | Over any run of frames, a charging factory with its prefab set takes exactly cost × workers produced from the pool. A factory that does not charge leaves the pool untouched. |
| Placement.Init | Assets/Scripts/Placement/PlacerManager.cs:11 | The pool starts at 10, with no builds and nothing placed. |
| Placement.Footprint | Assets/Scripts/Placement/PlacerManager.cs:63-71 | The footprint is 0.45 × the larger sprite dimension, or the configured check radius for a prefab without a sprite. |
| Placement.StartBuild | Assets/Scripts/Placement/PlacerManager.cs:88-115 | A positive build time starts a build that has already counted this frame's delta. Otherwise the instance is created at once. |
| Placement.RequestPlace | Assets/Scripts/Placement/PlacerManager.cs:54-86 | Unaffordable exactly when the pool is below the cost. Blocked exactly when affordable but the rules reject the footprint. Only an accepted request spends the cost and starts a build. |
| Placement.Resume | Assets/Scripts/Placement/PlacerManager.cs:109-126 | A build short of its time counts the delta and waits. Otherwise it creates exactly its instance. |
| Placement.ResumeAll | Assets/Scripts/Placement/PlacerManager.cs:109-129 | Resuming builds neither loses nor duplicates one, keeps earlier instances, and leaves the pool and the settings unchanged. |
| Placement.AdvanceBuilds | Assets/Scripts/Placement/PlacerManager.cs:109-129 | A frame of building keeps pending + built constant, keeps earlier instances, and leaves the pool and the settings unchanged. |
| Placement.BuildProgress | Assets/Scripts/Placement/PlacerManager.cs:113 | The bar fill lies in [0, 1] and is full exactly when the build time is reached. |
| Placement.RefundPartial | Assets/Scripts/Placement/PlacerManager.cs:134-138 | The pool changes by exactly the refunded amount. Nothing else changes. |
| Placement.RefundRestoresPool | Assets/Scripts/Placement/PlacerManager.cs:54-86 | Refunding the cost of an accepted request restores the pool exactly, and the placement stays outstanding. |
| Placement.DefaultPlacementExample | Assets/Scripts/Placement/PlacerManager.cs:11-21 | With the serialized defaults, a fresh manager on open ground accepts a placement costing 3, leaving 7. The build has counted its first frame, and the instance appears on the frame that finds two seconds built. |
| Placement.PlacementKeepsPoolNonNegative | Assets/Scripts/Placement/PlacerManager.cs:56-81 | Whatever the cost, a placement never takes a non-negative pool below zero. |
| Placement.SmallerFootprintStillFits | Assets/Scripts/Placement/PlacerManager.cs:41-86 | When overlap counts grow with the radius, a spot where a request was accepted accepts, at the same cost, any prefab whose footprint is no larger. |
| Placement.BuildFinishesOnTime | Assets/Scripts/Placement/PlacerManager.cs:109-118 | A build creates its instance exactly on a frame that finds it at its build time. Before that it only counts time. |
| Placement.AcceptedIsOutstanding | Assets/Scripts/Placement/PlacerManager.cs:80-85 | A request is accepted exactly when it adds one outstanding placement and pays its cost. |
| Battle.Hit | Assets/Scripts/Units/UnitBase.cs:168-182 | A hit on a gone object is lost, and a dead unit ignores it. Otherwise the victim takes the archetype's damage, and the wave manager changes only when the hit kills it, by exactly its `OnEnemyDied`. Nothing else in the scene changes. |
| Battle.KillCountedOnce | Assets/Scripts/WaveManager.cs:234-279 | Over any run of hits on an enemy subscribed while alive, the subscription is dropped exactly when it dies. The counter (from 3 up) drops by exactly one when it dies and is otherwise unchanged. No other unit changes, and hits on the dead enemy change nothing. |
| Battle.AttackKillIsCounted | Assets/Scripts/Units/UnitBase.cs:168-182 | An attacker's tick whose hit kills a subscribed enemy leaves the victim dead and unsubscribed and the counter (from 3 up) one lower. |
| Battle.Apply | Assets/Scripts/Buildings/FactoryProduction.cs:117-127 | A factory frame, a placement request or a build frame changes neither the units nor the wave manager. |
| Battle.PoolStaysSolvent | Assets/Scripts/Placement/PlacerManager.cs:36-81 | In any interleaving of factory frames, placement requests and build frames, the shared pool never goes negative. |

## Left out

- Movement, positions and sprite flipping. Distances come from the caller, and the movement step inside `MoveBehavior` and `MoveTowardsObjective` is not modelled.
- Physics colliders. The overlap query is modelled as points within `attackRange × 1.5`. Collider extents and layer masks are not modelled; the team and `UnitBase` filter is applied instead.
- Visual and audio effects: the hurt flash, the death fade, colour changes, gizmos, the build placeholder and its HUD, and the production effect.
- Destroying a dead unit's object after its fade is left to the caller. It shows up as a `None` distance once the object is gone.
- Logging, layer assignment in `Start`, and tags. This includes `ComradeRecruit.OnWaveSurvived`, which only logs.
- Random spawn jitter around a spawn point, and the factory's spawn position.
- Parenting new instances under containers.
- `WaveManager.Start` and `autoStartWaves`. The manager starts in its field defaults (`Waves.Init`), which already equal what `StartWaveSystem` sets.
- `WaveManager.SpawnEnemy` assigning the player core as a basic enemy's `targetObjective`. In the source, the field it writes is private and holds a different type; here objectives come only from `Archetypes.Start`.
- `EnemyTank` uses a rigid body when one is present. Only the movement step differs, and movement is not modelled.
- Floating-point rounding. Health, time and multipliers are exact reals.
- Units.HealthPercent and PlayerCore.HealthPercent: a zero maximum health is excluded by a precondition, because the source divides by it.
- Archetypes.Start: treats any pre-assigned objective as present. The source also runs `FindObjective` for an objective destroyed before `Start`, because Unity's `== null` is true for destroyed objects.
- Units.TakeDamageKeepsValid and Archetypes.ArchetypeDamageKeepsValid: stated only for non-negative damage. Negative damage raises health without bound in the source as well.
- The getters that only read a field (`GetCurrentWave`, `GetTotalWaves`, `GetEnemiesAlive`, `IsGameEnded`, `GetUnitsProducedCount`, `GetCurrentHealth`, `GetMaxHealth`): the model reads the record fields directly. `Waves.CurrentWave` and the other wave getters are defined without contracts; `Waves.StartWaveSystemRestarts` states what `CurrentWave` and `TimeUntilNextWave` show after a restart.
- Battle: the engine's frame order is an input. The model does not fix which component's `Update` runs first, and it does not route OnDamageTaken, OnAttack or OnDestroyed to the visual listeners.
- Waves.Frame: one random spawn-point choice serves every coroutine resumed in a frame. Two spawns in the same frame draw separate `Random.Range` values in the source.
- `RequestPlaceMultiple`: the placement front end calls it, but `PlacerManager` does not define it. The front end itself (ghost, cards, UI) is also not part of this model.
