/** The wave orchestrator (`WaveManager`).

    States Waiting → Spawning → Fighting → Waiting … → Complete.  The
    `SpawnWave` coroutine is an explicit `Spawner` record holding the spawns
    still to come and the time left on its `WaitForSeconds`; Unity resumes it
    after `Update` on every frame, whether or not the game has ended, so a
    frame here is `Update` followed by one resumption of every spawner that
    existed before the frame.

    The engine's inputs to a frame are the frame delta, whether the player
    core object still exists, whether this is a periodic-recount frame
    (`Time.frameCount % 60 == 0`), the objects a `FindGameObjectsWithTag
    ("Enemies")` scan returns, and the choice `Random.Range` makes when spawn
    points are random.  Enemies spawned by the manager are named by a running
    instance number; the manager listens for the OnDeath of those that carry
    a UnitBase. */
module Waves {
  import opened Wrappers
  import opened Mathf

  datatype WaveState = Waiting | Spawning | Fighting | Complete

  /** The prefab of a spawn group: missing, or present with or without a
      UnitBase component. */
  datatype Prefab = NoPrefab | Prefab(hasUnit: bool)

  /** `EnemySpawnData`: `count` copies of one prefab. */
  datatype Group = Group(prefab: Prefab, count: int)

  /** `Wave`: spawn groups in order (the wave's name is a label only). */
  datatype Wave = Wave(groups: seq<Group>)

  datatype Config = Config(
    waves: seq<Wave>,
    timeBetweenWaves: real,
    timeBetweenSpawns: real,
    spawnPoints: nat,                // spawnPoints.Length (0 when unset)
    randomSpawnPoints: bool)

  /** A running `SpawnWave(wave)` coroutine: what is left to spawn, the time
      left on its current wait, and its `spawnedCount`. */
  datatype Spawner = Spawner(wave: Wave, queue: seq<Prefab>, wait: real, spawned: nat)

  datatype Manager = Manager(
    config: Config,
    index: nat,                      // currentWaveIndex
    state: WaveState,
    alive: nat,                      // enemiesAlive
    timer: real,                     // waveTimer
    ended: bool,                     // gameEnded
    spawners: seq<Spawner>,
    listening: set<nat>,             // instances whose OnDeath is subscribed
    instances: nat)                  // enemies instantiated so far

  datatype WaveEvent = WaveStart(wave: int) | WaveComplete(wave: int) | AllWavesComplete | GameOver

  datatype Step = Step(m: Manager, events: seq<WaveEvent>)

  /** One object the "Enemies" tag scan returned. */
  datatype Tagged = Tagged(present: bool, hasUnit: bool, dead: bool)

  datatype FrameInput = FrameInput(
    delta: real,                     // Time.deltaTime
    corePresent: bool,               // playerCore != null
    recountDue: bool,                // Time.frameCount % 60 == 0
    census: seq<Tagged>,             // FindGameObjectsWithTag("Enemies")
    pick: nat)                       // Random.Range choice of spawn point

  /** The manager as the scene creates it (all fields at their defaults). */
  function Init(config: Config): (m: Manager)
    ensures m.state == Waiting && m.index == 0 && m.alive == 0 && m.timer == 0.0
    ensures !m.ended && m.spawners == [] && m.listening == {}
  {
    Manager(config, 0, Waiting, 0, 0.0, false, [], {}, 0)
  }

  // ---------------------------------------------------------------------
  // What a wave spawns

  /** `count` copies of a prefab; a negative count spawns nothing. */
  function Repeat(p: Prefab, count: int): (r: seq<Prefab>)
    ensures |r| == NonNegative(count)
    ensures forall i :: 0 <= i < |r| ==> r[i] == p
  {
    seq(NonNegative(count), _ => p)
  }

  /** The number of spawn attempts the nested loops make: Σ max(0, count). */
  function Attempts(gs: seq<Group>): nat
  {
    if |gs| == 0 then 0 else NonNegative(gs[0].count) + Attempts(gs[1..])
  }

  /** `totalToSpawn` as the coroutine computes it: Σ count. */
  function TotalToSpawn(gs: seq<Group>): int
  {
    if |gs| == 0 then 0 else gs[0].count + TotalToSpawn(gs[1..])
  }

  /** The spawn attempts of a wave, in order. */
  function SpawnList(gs: seq<Group>): (r: seq<Prefab>)
    ensures |r| == Attempts(gs)
  {
    if |gs| == 0 then [] else Repeat(gs[0].prefab, gs[0].count) + SpawnList(gs[1..])
  }

  /** With no negative counts the attempts are exactly `totalToSpawn`. */
  lemma {:induction false} AttemptsMatchTotal(gs: seq<Group>)
    requires forall i :: 0 <= i < |gs| ==> gs[i].count >= 0
    ensures Attempts(gs) == TotalToSpawn(gs)
    ensures |SpawnList(gs)| == TotalToSpawn(gs)
    decreases |gs|
  {
    if |gs| > 0 {
      AttemptsMatchTotal(gs[1..]);
    }
  }

  /** A spawner is the coroutine of its wave, `spawned` attempts in. */
  ghost predicate Tracks(sp: Spawner)
  {
    var all := SpawnList(sp.wave.groups);
    1 <= sp.spawned <= |all| && sp.queue == all[sp.spawned..]
  }

  ghost predicate Valid(m: Manager)
  {
    && (forall i :: 0 <= i < |m.spawners| ==> Tracks(m.spawners[i]))
    && (forall id :: id in m.listening ==> id < m.instances)
  }

  // ---------------------------------------------------------------------
  // Counting

  /** The enemies the authoritative scan counts: still existing, carrying a
      UnitBase, not dead. */
  function CountAlive(census: seq<Tagged>): (n: nat)
    ensures n <= |census|
    ensures n == 0 <==> forall i :: 0 <= i < |census| ==>
      !(census[i].present && census[i].hasUnit && !census[i].dead)
  {
    if |census| == 0 then 0
    else
      var t := census[0];
      (if t.present && t.hasUnit && !t.dead then 1 else 0) + CountAlive(census[1..])
  }

  /** `UpdateEnemyCount`: the recount replaces the counter. */
  function Recount(m: Manager, census: seq<Tagged>): (r: Manager)
    ensures r.alive == CountAlive(census)
    ensures r == m.(alive := r.alive)
  {
    if CountAlive(census) != m.alive then m.(alive := CountAlive(census)) else m
  }

  /** `OnEnemyDied`, reached only through a live subscription: unsubscribe,
      decrement clamped at 0, and recount when at most one enemy is left. */
  function OnEnemyDied(m: Manager, id: nat, census: seq<Tagged>): (r: Manager)
    ensures id !in m.listening ==> r == m
    ensures id in m.listening ==> r.listening == m.listening - {id}
    ensures id in m.listening && m.alive >= 3 ==> r.alive == m.alive - 1
    ensures id in m.listening && m.alive < 3 ==> r.alive == CountAlive(census)
    ensures r == m.(alive := r.alive, listening := r.listening)
  {
    if id !in m.listening then m
    else
      var m1 := m.(listening := m.listening - {id}, alive := NonNegative(m.alive - 1));
      if m1.alive <= 1 then Recount(m1, census) else m1
  }

  /** A second death notification for the same enemy changes nothing. */
  lemma DeathCountedOnce(m: Manager, id: nat, c1: seq<Tagged>, c2: seq<Tagged>)
    ensures OnEnemyDied(OnEnemyDied(m, id, c1), id, c2) == OnEnemyDied(m, id, c1)
  {
  }

  // ---------------------------------------------------------------------
  // Spawning

  /** `GetSpawnPoint`: a random index or the round-robin `enemiesAlive %
      spawnPoints.Length`; None when no spawn point is configured, where the
      spawn-point lookup throws. */
  function SpawnPoint(m: Manager, pick: nat): (r: Option<nat>)
    ensures r.None? <==> m.config.spawnPoints == 0
    ensures r.Some? ==> r.value < m.config.spawnPoints
    ensures r.Some? && !m.config.randomSpawnPoints ==> r.value == m.alive % m.config.spawnPoints
  {
    var n := m.config.spawnPoints;
    if n == 0 then None
    else if m.config.randomSpawnPoints then Some(pick % n)
    else Some(m.alive % n)
  }

  /** `SpawnEnemy`: a missing prefab spawns nothing; otherwise the enemy is
      instantiated, its OnDeath subscribed when it has a UnitBase, and the
      counter goes up by one.  None is the exception that ends the coroutine
      when there is no spawn point. */
  function SpawnEnemy(m: Manager, p: Prefab, pick: nat): (r: Option<Manager>)
    ensures p.NoPrefab? ==> r == Some(m)
    ensures p.Prefab? ==> (r.None? <==> m.config.spawnPoints == 0)
    ensures p.Prefab? && r.Some? ==>
      && r.value.alive == m.alive + 1
      && r.value.instances == m.instances + 1
      && r.value.listening == (if p.hasUnit then m.listening + {m.instances} else m.listening)
      && r.value == m.(alive := r.value.alive, instances := r.value.instances, listening := r.value.listening)
  {
    match p
    case NoPrefab => Some(m)
    case Prefab(hasUnit) =>
      match SpawnPoint(m, pick)
      case None => None
      case Some(_) =>
        var id := m.instances;
        Some(m.(alive := m.alive + 1, instances := id + 1,
                listening := if hasUnit then m.listening + {id} else m.listening))
  }

  /** The synchronous start of `SpawnWave(wave)`: announce the wave, then run
      up to the first wait — the first spawn attempt — or, for a wave with
      nothing to spawn, straight to Fighting. */
  function StartSpawner(m: Manager, wave: Wave, pick: nat): (r: Step)
    ensures r.events == [WaveStart(m.index + 1)]
    ensures |SpawnList(wave.groups)| == 0 ==> r.m == m.(state := Fighting)
    ensures |SpawnList(wave.groups)| > 0 ==> r.m.state == m.state
    ensures r.m.ended == m.ended && r.m.index == m.index && r.m.config == m.config
  {
    var all := SpawnList(wave.groups);
    var announced := [WaveStart(m.index + 1)];
    if |all| == 0 then Step(m.(state := Fighting), announced)
    else
      match SpawnEnemy(m, all[0], pick)
      case None => Step(m, announced)
      case Some(m2) =>
        Step(m2.(spawners := m2.spawners + [Spawner(wave, all[1..], m.config.timeBetweenSpawns, 1)]), announced)
  }

  /** One resumption of a spawner: its wait runs down; once it has elapsed the
      next spawn is attempted and a new wait begins, and when nothing is left
      the coroutine sets Fighting and ends.  The spawner, if it continues, is
      appended to `m.spawners`. */
  function Resume(m: Manager, sp: Spawner, delta: real, pick: nat): (r: Manager)
    ensures m.spawners <= r.spawners && |r.spawners| <= |m.spawners| + 1
    ensures r.ended == m.ended && r.index == m.index && r.timer == m.timer && r.config == m.config
    ensures r.state != m.state ==> r.state == Fighting && sp.queue == [] && sp.wait <= delta
    ensures sp.wait > delta ==> r.instances == m.instances && r.alive == m.alive && r.state == m.state
    ensures m.instances <= r.instances <= m.instances + 1
    ensures m.listening <= r.listening
    ensures forall id :: id in r.listening - m.listening ==> m.instances <= id < r.instances
  {
    var left := sp.wait - delta;
    if left > 0.0 then m.(spawners := m.spawners + [sp.(wait := left)])
    else if |sp.queue| == 0 then m.(state := Fighting)
    else
      match SpawnEnemy(m, sp.queue[0], pick)
      case None => m
      case Some(m2) =>
        m2.(spawners := m2.spawners + [Spawner(sp.wave, sp.queue[1..], m.config.timeBetweenSpawns, sp.spawned + 1)])
  }

  /** `Resume` over each of `ps` in turn.  Coroutines never touch the game
      flags, the wave index or the timer; the only state they set is
      Fighting. */
  function ResumeAll(m: Manager, ps: seq<Spawner>, delta: real, pick: nat): (r: Manager)
    ensures r.ended == m.ended && r.index == m.index && r.timer == m.timer && r.config == m.config
    ensures r.state != m.state ==> r.state == Fighting
    ensures m.spawners <= r.spawners && |r.spawners| <= |m.spawners| + |ps|
    ensures m.instances <= r.instances <= m.instances + |ps|
    decreases |ps|
  {
    if |ps| == 0 then m else ResumeAll(Resume(m, ps[0], delta, pick), ps[1..], delta, pick)
  }

  /** A resumption keeps the spawner on its wave's schedule: it spawns the
      next attempt of the list, and it sets Fighting only after the whole
      list — Σ max(0, count) attempts — has been attempted. */
  lemma ResumeTracks(m: Manager, sp: Spawner, delta: real, pick: nat)
    requires Tracks(sp)
    ensures var r := Resume(m, sp, delta, pick);
      && (|r.spawners| == |m.spawners| + 1 ==> Tracks(r.spawners[|m.spawners|]))
      && (r.state != m.state ==> sp.spawned == Attempts(sp.wave.groups))
  {
    var all := SpawnList(sp.wave.groups);
    if sp.wait - delta > 0.0 {
    } else if |sp.queue| == 0 {
    } else {
      assert sp.queue[1..] == all[sp.spawned + 1..];
    }
  }

  lemma {:induction false} ResumeAllKeepsValid(m: Manager, ps: seq<Spawner>, delta: real, pick: nat)
    requires Valid(m)
    requires forall i :: 0 <= i < |ps| ==> Tracks(ps[i])
    ensures Valid(ResumeAll(m, ps, delta, pick))
    decreases |ps|
  {
    if |ps| > 0 {
      var m1 := Resume(m, ps[0], delta, pick);
      ResumeTracks(m, ps[0], delta, pick);
      assert forall i :: 0 <= i < |m.spawners| ==> m1.spawners[i] == m.spawners[i];
      assert Valid(m1);
      ResumeAllKeepsValid(m1, ps[1..], delta, pick);
    }
  }

  // ---------------------------------------------------------------------
  // The state machine

  /** `CompleteAllWaves`: victory ends the game. */
  function CompleteAllWaves(m: Manager): (r: Step)
    ensures r.m.state == Complete && r.m.ended && r.events == [AllWavesComplete]
    ensures r.m == m.(state := Complete, ended := true)
  {
    Step(m.(state := Complete, ended := true), [AllWavesComplete])
  }

  /** `TriggerGameOver`: defeat ends the game, once. */
  function TriggerGameOver(m: Manager): (r: Step)
    ensures m.ended ==> r == Step(m, [])
    ensures !m.ended ==> r.m == m.(state := Complete, ended := true) && r.events == [GameOver]
  {
    if m.ended then Step(m, [])
    else Step(m.(ended := true, state := Complete), [GameOver])
  }

  /** `StartNextWave`: past the last wave the game is won; otherwise the
      manager enters Spawning and the wave's coroutine starts. */
  function StartNextWave(m: Manager, pick: nat): (r: Step)
    ensures m.index >= |m.config.waves| ==> r == CompleteAllWaves(m)
    ensures m.index < |m.config.waves| ==>
      r.events == [WaveStart(m.index + 1)] && r.m.ended == m.ended && r.m.index == m.index
      && (r.m.state == Spawning || r.m.state == Fighting)
  {
    if m.index >= |m.config.waves| then CompleteAllWaves(m)
    else StartSpawner(m.(state := Spawning), m.config.waves[m.index], pick)
  }

  /** `CompleteCurrentWave`. */
  function CompleteCurrentWave(m: Manager): (r: Step)
    ensures r.events == [WaveComplete(m.index + 1)]
    ensures r.m == m.(index := m.index + 1, state := Waiting, timer := 0.0)
  {
    Step(m.(index := m.index + 1, state := Waiting, timer := 0.0), [WaveComplete(m.index + 1)])
  }

  /** `UpdateWaitingState`: the timer grows by the frame delta and the next
      wave starts once it reaches `timeBetweenWaves`. */
  function UpdateWaiting(m: Manager, delta: real, pick: nat): (r: Step)
    ensures m.timer + delta < m.config.timeBetweenWaves ==>
      r == Step(m.(timer := m.timer + delta), [])
    ensures m.timer + delta >= m.config.timeBetweenWaves ==>
      r == StartNextWave(m.(timer := m.timer + delta), pick)
  {
    var m1 := m.(timer := m.timer + delta);
    if m1.timer >= m.config.timeBetweenWaves then StartNextWave(m1, pick) else Step(m1, [])
  }

  /** `UpdateFightingState`: an optional periodic recount; then, when the
      counter reads zero, a fresh recount must confirm it before the wave
      completes. */
  function UpdateFighting(m: Manager, recountDue: bool, census: seq<Tagged>): (r: Step)
    ensures r.events != [] <==> CountAlive(census) == 0 && (recountDue || m.alive == 0)
    ensures r.events != [] ==>
      r == Step(m.(index := m.index + 1, state := Waiting, timer := 0.0, alive := 0), [WaveComplete(m.index + 1)])
    ensures r.events == [] ==> r.m == m.(alive := r.m.alive)
    ensures r.events == [] && recountDue ==> r.m.alive == CountAlive(census)
  {
    var m1 := if recountDue then Recount(m, census) else m;
    if m1.alive <= 0 then
      var m2 := Recount(m1, census);
      if m2.alive <= 0 then CompleteCurrentWave(m2) else Step(m2, [])
    else Step(m1, [])
  }

  /** `Update`: nothing once the game has ended; defeat as soon as the core is
      gone, whatever the state; otherwise the Waiting or Fighting step. */
  function Update(m: Manager, frame: FrameInput): (r: Step)
    ensures m.ended ==> r == Step(m, [])
    ensures !m.ended && !frame.corePresent ==>
      r.m == m.(state := Complete, ended := true) && r.events == [GameOver]
    ensures r.m.ended == (m.ended || r.events == [GameOver] || r.events == [AllWavesComplete])
    ensures r.m.config == m.config && |r.events| <= 1
    ensures r.m.index == m.index || (r.m.index == m.index + 1 && r.events == [WaveComplete(m.index + 1)])
  {
    if m.ended then Step(m, [])
    else if !frame.corePresent then TriggerGameOver(m)
    else
      match m.state
      case Waiting => UpdateWaiting(m, frame.delta, frame.pick)
      case Fighting => UpdateFighting(m, frame.recountDue, frame.census)
      case Spawning => Step(m, [])
      case Complete => Step(m, [])
  }

  /** One frame: `Update`, then every spawner that was already running
      resumes once. */
  function Frame(m: Manager, frame: FrameInput): (r: Step)
    ensures r.events == Update(m, frame).events
    ensures r.m.config == m.config && |r.events| <= 1
    ensures r.m.index == m.index || (r.m.index == m.index + 1 && r.events == [WaveComplete(m.index + 1)])
    ensures m.ended ==> r.events == [] && r.m.ended && r.m.index == m.index && r.m.timer == m.timer
  {
    var upd := Update(m.(spawners := []), frame);
    Step(ResumeAll(upd.m, m.spawners, frame.delta, frame.pick), upd.events)
  }

  // ---------------------------------------------------------------------
  // Public controls and getters

  /** `StartWaveSystem`: refuses without waves, otherwise rewinds to the
      first wave. */
  function StartWaveSystem(m: Manager): (r: Manager)
    ensures |m.config.waves| == 0 ==> r == m
    ensures |m.config.waves| > 0 ==> r == m.(index := 0, state := Waiting, timer := 0.0)
  {
    if |m.config.waves| == 0 then m else m.(index := 0, state := Waiting, timer := 0.0)
  }

  /** `ForceStartNextWave`: in Waiting, fill the timer so the next Update
      starts the wave. */
  function ForceStartNextWave(m: Manager): (r: Manager)
    ensures m.state == Waiting ==> r == m.(timer := m.config.timeBetweenWaves)
    ensures m.state != Waiting ==> r == m
  {
    if m.state == Waiting then m.(timer := m.config.timeBetweenWaves) else m
  }

  function CurrentWave(m: Manager): int { m.index + 1 }
  function TotalWaves(m: Manager): int { |m.config.waves| }
  function EnemiesAlive(m: Manager): nat { m.alive }
  function IsGameEnded(m: Manager): bool { m.ended }

  /** `GetTimeUntilNextWave`. */
  function TimeUntilNextWave(m: Manager): (r: real)
    ensures r >= 0.0
    ensures r == 0.0 <==> m.timer >= m.config.timeBetweenWaves
    ensures r > 0.0 ==> m.timer + r == m.config.timeBetweenWaves
  {
    Max(0.0, m.config.timeBetweenWaves - m.timer)
  }

  // ---------------------------------------------------------------------
  // Properties of the state machine

  lemma SpawnEnemyKeepsValid(m: Manager, p: Prefab, pick: nat)
    requires Valid(m)
    ensures SpawnEnemy(m, p, pick).Some? ==> Valid(SpawnEnemy(m, p, pick).value)
  {
  }

  lemma StartSpawnerKeepsValid(m: Manager, wave: Wave, pick: nat)
    requires Valid(m)
    ensures Valid(StartSpawner(m, wave, pick).m)
  {
    var all := SpawnList(wave.groups);
    if |all| > 0 {
      var r := SpawnEnemy(m, all[0], pick);
      if r.Some? {
        SpawnEnemyKeepsValid(m, all[0], pick);
        var sp := Spawner(wave, all[1..], m.config.timeBetweenSpawns, 1);
        assert Tracks(sp);
        var m3 := r.value.(spawners := r.value.spawners + [sp]);
        assert forall i :: 0 <= i < |r.value.spawners| ==> m3.spawners[i] == r.value.spawners[i];
        assert Valid(m3);
      }
    }
  }

  lemma UpdateKeepsValid(m: Manager, frame: FrameInput)
    requires Valid(m)
    ensures Valid(Update(m, frame).m)
    ensures Update(m, frame).m.index >= m.index
  {
    if !m.ended && frame.corePresent && m.state == Waiting {
      var m1 := m.(timer := m.timer + frame.delta);
      if m1.timer >= m.config.timeBetweenWaves && m1.index < |m1.config.waves| {
        StartSpawnerKeepsValid(m1.(state := Spawning), m1.config.waves[m1.index], frame.pick);
      }
    }
  }

  /** Every frame keeps each running coroutine on its wave's schedule and
      every subscription on an enemy that was actually spawned. */
  lemma FrameKeepsValid(m: Manager, frame: FrameInput)
    requires Valid(m)
    ensures Valid(Frame(m, frame).m)
  {
    UpdateKeepsValid(m.(spawners := []), frame);
    ResumeAllKeepsValid(Update(m.(spawners := []), frame).m, m.spawners, frame.delta, frame.pick);
  }

  /** Once the game has ended, `Update` changes nothing and a frame raises no
      event; `gameEnded` itself never reverts. */
  lemma EndedIsFinal(m: Manager, frame: FrameInput)
    requires m.ended
    ensures Update(m, frame) == Step(m, [])
    ensures Frame(m, frame).m.ended && Frame(m, frame).events == []
    ensures Frame(m, frame).m.index == m.index && Frame(m, frame).m.timer == m.timer
  {
  }

  /** Whatever sub-state the manager is in, a missing core ends the game in
      defeat on the next `Update`, raising OnGameOver. */
  lemma CoreLossEndsGame(m: Manager, frame: FrameInput)
    requires !m.ended && !frame.corePresent
    ensures Frame(m, frame).m.ended
    ensures Frame(m, frame).events == [GameOver]
    ensures Update(m, frame).m.state == Complete
  {
  }

  /** Waiting: the timer grows by the delta, and the next wave starts exactly
      when the timer reaches `timeBetweenWaves`. */
  lemma WaitingCountsUp(m: Manager, frame: FrameInput)
    requires !m.ended && frame.corePresent && m.state == Waiting
    ensures m.timer + frame.delta < m.config.timeBetweenWaves ==>
      Update(m, frame) == Step(m.(timer := m.timer + frame.delta), [])
    ensures m.timer + frame.delta >= m.config.timeBetweenWaves && m.index < |m.config.waves| ==>
      Update(m, frame).events == [WaveStart(m.index + 1)]
      && Update(m, frame).m.state in {Spawning, Fighting}
    ensures m.timer + frame.delta >= m.config.timeBetweenWaves && m.index >= |m.config.waves| ==>
      Update(m, frame).events == [AllWavesComplete]
      && Update(m, frame).m.state == Complete && Update(m, frame).m.ended
  {
  }

  /** Fighting: the wave completes exactly when a fresh recount finds no live
      enemy and the counter (after the periodic recount, if due) read zero;
      completion announces the wave, moves to the next index, re-enters
      Waiting and restarts the timer. */
  lemma FightingCompletesOnConfirmedZero(m: Manager, frame: FrameInput)
    requires !m.ended && frame.corePresent && m.state == Fighting
    ensures var r := Update(m, frame);
      r.events != [] <==> CountAlive(frame.census) == 0 && (frame.recountDue || m.alive == 0)
    ensures var r := Update(m, frame);
      r.events != [] ==>
        && r.events == [WaveComplete(m.index + 1)]
        && r.m.index == m.index + 1 && r.m.state == Waiting && r.m.timer == 0.0 && r.m.alive == 0
    ensures var r := Update(m, frame);
      r.events == [] ==> r.m.state == Fighting && r.m.index == m.index
  {
  }

  /** `StartWaveSystem` rewinds a configured manager to the first wave
      without disturbing a running coroutine or subscription, and from there
      the first frame that fills the timer announces wave 1. */
  lemma StartWaveSystemRestarts(m: Manager, frame: FrameInput)
    requires Valid(m) && |m.config.waves| > 0
    ensures Valid(StartWaveSystem(m))
    ensures CurrentWave(StartWaveSystem(m)) == 1
    ensures TimeUntilNextWave(StartWaveSystem(m)) == Max(0.0, m.config.timeBetweenWaves)
    ensures !m.ended && frame.corePresent && frame.delta >= m.config.timeBetweenWaves ==>
      Update(StartWaveSystem(m), frame).events == [WaveStart(1)]
    ensures !m.ended && frame.corePresent && frame.delta < m.config.timeBetweenWaves ==>
      Update(StartWaveSystem(m), frame).events == []
  {
  }

  /** `ForceStartNextWave` in Waiting makes the very next `Update` start the
      next wave (or win the game past the last one), whatever the timer
      read, provided frame time does not run backwards. */
  lemma ForceStartStartsNextWave(m: Manager, frame: FrameInput)
    requires !m.ended && frame.corePresent && m.state == Waiting && frame.delta >= 0.0
    ensures Update(ForceStartNextWave(m), frame)
      == StartNextWave(m.(timer := m.config.timeBetweenWaves + frame.delta), frame.pick)
    ensures Update(ForceStartNextWave(m), frame).events
      == if m.index < |m.config.waves| then [WaveStart(m.index + 1)] else [AllWavesComplete]
  {
  }

  /** The spawn points `k` consecutive spawns use when no enemy dies in
      between: each spawn raises `enemiesAlive` by one. */
  function PointsOf(m: Manager, k: nat, pick: nat): (r: seq<nat>)
    requires m.config.spawnPoints > 0
    ensures |r| == k
    ensures forall i :: 0 <= i < k ==> r[i] < m.config.spawnPoints
    ensures !m.config.randomSpawnPoints ==>
      forall i :: 0 <= i < k ==> r[i] == (m.alive + i) % m.config.spawnPoints
    decreases k
  {
    if k == 0 then []
    else
      var next := SpawnEnemy(m, Prefab(true), pick).value;
      [SpawnPoint(m, pick).value] + PointsOf(next, k - 1, pick)
  }

  /** Distinct offsets below `n` land on distinct residues. */
  lemma ModDistinct(a: nat, i: nat, j: nat, n: nat)
    requires i < j < n
    ensures (a + i) % n != (a + j) % n
  {
    var x, y := a + i, a + j;
    var q1, q2 := x / n, y / n;
    assert x == q1 * n + x % n;
    assert y == q2 * n + y % n;
    if x % n == y % n {
      var d := q2 - q1;
      assert y - x == q2 * n - q1 * n;
      assert q2 * n - q1 * n == d * n;
      if d <= 0 {
        MulNonPositive(d, n);
      } else {
        MulAtLeast(d, n);
      }
    }
  }

  lemma MulNonPositive(d: int, n: nat)
    requires d <= 0
    ensures d * n <= 0
  {
  }

  lemma MulAtLeast(d: int, n: nat)
    requires d >= 1
    ensures d * n >= n
  {
  }

  /** In round-robin mode, up to `spawnPoints.Length` consecutive spawns with
      no death in between all use different spawn points. */
  lemma RoundRobinSpreads(m: Manager, k: nat, pick: nat)
    requires m.config.spawnPoints > 0 && !m.config.randomSpawnPoints
    requires k <= m.config.spawnPoints
    ensures forall i, j :: 0 <= i < j < k ==> PointsOf(m, k, pick)[i] != PointsOf(m, k, pick)[j]
  {
    var r := PointsOf(m, k, pick);
    forall i, j | 0 <= i < j < k
      ensures r[i] != r[j]
    {
      ModDistinct(m.alive, i, j, m.config.spawnPoints);
    }
  }

  // ---------------------------------------------------------------------
  // Runs of frames

  function Run(m: Manager, frames: seq<FrameInput>): Step
    decreases |frames|
  {
    if |frames| == 0 then Step(m, [])
    else
      var s := Frame(m, frames[0]);
      var rest := Run(s.m, frames[1..]);
      Step(rest.m, s.events + rest.events)
  }

  predicate Terminal(e: WaveEvent)
  {
    e == GameOver || e == AllWavesComplete
  }

  function Terminals(es: seq<WaveEvent>): nat
  {
    if |es| == 0 then 0 else (if Terminal(es[0]) then 1 else 0) + Terminals(es[1..])
  }

  lemma {:induction false} TerminalsAppend(a: seq<WaveEvent>, b: seq<WaveEvent>)
    ensures Terminals(a + b) == Terminals(a) + Terminals(b)
    decreases |a|
  {
    if |a| == 0 {
      assert a + b == b;
    } else {
      assert (a + b)[1..] == a[1..] + b;
      TerminalsAppend(a[1..], b);
    }
  }

  /** A frame raises at most one end-of-game event, and only on the frame
      that ends the game. */
  lemma FrameTerminals(m: Manager, frame: FrameInput)
    ensures Terminals(Frame(m, frame).events) <= 1
    ensures Terminals(Frame(m, frame).events) == 1 ==> !m.ended
    ensures Frame(m, frame).m.ended == (m.ended || Terminals(Frame(m, frame).events) == 1)
  {
    var upd := Update(m.(spawners := []), frame);
    var es := upd.events;
    assert es == [] || |es| == 1;
    assert |es| == 1 ==> Terminals(es) == (if Terminal(es[0]) then 1 else 0) + Terminals(es[1..]);
  }

  /** Game over and victory are irrevocable: over any run of frames at most
      one of OnGameOver / OnAllWavesComplete is raised, none at all once the
      game had ended, and `gameEnded` never goes back to false. */
  lemma {:induction false} GameEndsOnce(m: Manager, frames: seq<FrameInput>)
    ensures Terminals(Run(m, frames).events) <= 1
    ensures m.ended ==> Terminals(Run(m, frames).events) == 0
    ensures Run(m, frames).m.ended == (m.ended || Terminals(Run(m, frames).events) == 1)
    decreases |frames|
  {
    if |frames| > 0 {
      var s := Frame(m, frames[0]);
      FrameTerminals(m, frames[0]);
      GameEndsOnce(s.m, frames[1..]);
      TerminalsAppend(s.events, Run(s.m, frames[1..]).events);
    }
  }

  /** As written, game over does not stop a running `SpawnWave` coroutine: it
      keeps its schedule and, when done, switches the state from Complete
      back to Fighting even though the game has ended. */
  lemma SpawningOutlivesGameOver(m: Manager, frame: FrameInput)
    requires !m.ended && !frame.corePresent
    requires |m.spawners| == 1 && m.spawners[0].queue == [] && m.spawners[0].wait <= frame.delta
    ensures Frame(m, frame).m.ended
    ensures Frame(m, frame).m.state == Fighting
  {
    var u := Update(m.(spawners := []), frame).m;
    assert u.ended;
    assert ResumeAll(u, m.spawners, frame.delta, frame.pick)
      == ResumeAll(Resume(u, m.spawners[0], frame.delta, frame.pick), m.spawners[1..], frame.delta, frame.pick);
    assert Resume(u, m.spawners[0], frame.delta, frame.pick) == u.(state := Fighting);
  }
}
