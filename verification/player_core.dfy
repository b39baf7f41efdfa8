/** The player's base (`PlayerCore`): a clamped health pool and a one-way
    destroyed flag.  Destroying the core schedules the object's removal one
    second later; the wave orchestrator notices the core only once that
    removal has happened (see `Waves.FrameInput.corePresent`). */
module PlayerCore {
  import opened Mathf

  const DefaultMaxHealth: real := 500.0

  datatype Core = Core(maxHealth: real, health: real, destroyed: bool)

  /** OnHealthChanged(current, max) and OnDestroyed. */
  datatype CoreEvent = HealthChanged(current: real, max: real) | Destroyed

  datatype Hit = Hit(core: Core, events: seq<CoreEvent>)

  ghost predicate Valid(c: Core)
  {
    && c.maxHealth > 0.0
    && 0.0 <= c.health <= c.maxHealth
    && (c.destroyed <==> c.health == 0.0)
  }

  /** `Awake`: the core starts at full health, intact; with the serialized
      maximum health that is a valid core. */
  function Awake(maxHealth: real): (c: Core)
    ensures maxHealth > 0.0 ==> Valid(c)
    ensures c.health == c.maxHealth == maxHealth && !c.destroyed
  {
    Core(maxHealth, maxHealth, false)
  }

  /** `DestroyCore`: one-shot; raises OnDestroyed the first time only. */
  function DestroyCore(c: Core): (r: Hit)
    ensures r.core.destroyed
    ensures c.destroyed ==> r == Hit(c, [])
    ensures !c.destroyed ==> r.events == [Destroyed]
    ensures r.core.health == c.health && r.core.maxHealth == c.maxHealth
  {
    if c.destroyed then Hit(c, []) else Hit(c.(destroyed := true), [Destroyed])
  }

  /** `TakeDamage`: ignored once destroyed; otherwise health drops by the
      damage, clamped at 0, OnHealthChanged reports the new health, and
      reaching 0 destroys the core. */
  function TakeDamage(c: Core, damage: real): (r: Hit)
    ensures c.destroyed ==> r == Hit(c, [])
    ensures !c.destroyed ==> r.core.health == Max(0.0, c.health - damage)
    ensures !c.destroyed ==> |r.events| >= 1 && r.events[0] == HealthChanged(r.core.health, c.maxHealth)
    ensures !c.destroyed ==> (r.core.destroyed <==> damage >= c.health)
    ensures !c.destroyed ==> r.events == if damage >= c.health
      then [HealthChanged(0.0, c.maxHealth), Destroyed] else [HealthChanged(c.health - damage, c.maxHealth)]
    ensures r.core.maxHealth == c.maxHealth
  {
    if c.destroyed then Hit(c, [])
    else
      var hurt := c.(health := ClampedSub(c.health, damage));
      var changed := [HealthChanged(hurt.health, hurt.maxHealth)];
      if hurt.health <= 0.0 then
        var d := DestroyCore(hurt);
        Hit(d.core, changed + d.events)
      else Hit(hurt, changed)
  }

  /** `IsDestroyed`: for a valid core, the same as having no health left. */
  function IsDestroyed(c: Core): (r: bool)
    ensures Valid(c) ==> (r <==> c.health == 0.0)
  {
    c.destroyed
  }

  /** `GetHealthPercent`. */
  function HealthPercent(c: Core): (r: real)
    requires c.maxHealth != 0.0
    ensures r * c.maxHealth == c.health
  {
    c.health / c.maxHealth
  }

  lemma HealthPercentBounds(c: Core)
    requires Valid(c)
    ensures 0.0 <= HealthPercent(c) <= 1.0
    ensures HealthPercent(c) == 0.0 <==> IsDestroyed(c)
  {
    assert HealthPercent(c) * c.maxHealth == c.health;
  }

  /** With the serialized maximum health the core is valid and at 100%. */
  lemma DefaultCore()
    ensures Valid(Awake(DefaultMaxHealth))
    ensures HealthPercent(Awake(DefaultMaxHealth)) == 1.0
    ensures TakeDamage(Awake(DefaultMaxHealth), 125.0).core.health == 375.0
  {
  }

  lemma TakeDamageKeepsValid(c: Core, damage: real)
    requires Valid(c) && damage >= 0.0
    ensures Valid(TakeDamage(c, damage).core)
  {
  }

  // ---------------------------------------------------------------------
  // A run of hits

  function TakeAll(c: Core, ds: seq<real>): Hit
    decreases |ds|
  {
    if |ds| == 0 then Hit(c, [])
    else
      var h := TakeDamage(c, ds[0]);
      var rest := TakeAll(h.core, ds[1..]);
      Hit(rest.core, h.events + rest.events)
  }

  function DestroyedCount(es: seq<CoreEvent>): nat
  {
    if |es| == 0 then 0 else (if es[0] == Destroyed then 1 else 0) + DestroyedCount(es[1..])
  }

  lemma {:induction false} DestroyedCountAppend(a: seq<CoreEvent>, b: seq<CoreEvent>)
    ensures DestroyedCount(a + b) == DestroyedCount(a) + DestroyedCount(b)
    decreases |a|
  {
    if |a| == 0 {
      assert a + b == b;
    } else {
      assert (a + b)[1..] == a[1..] + b;
      DestroyedCountAppend(a[1..], b);
    }
  }

  /** `isDestroyed` never reverts, and over any run of hits OnDestroyed is
      raised at most once — never again by a core already destroyed — and
      exactly when the core ends up destroyed having started intact. */
  lemma {:induction false} DestroyedIsOneWay(c: Core, ds: seq<real>)
    ensures c.destroyed ==> TakeAll(c, ds) == Hit(c, [])
    ensures c.destroyed ==> TakeAll(c, ds).core.destroyed
    ensures DestroyedCount(TakeAll(c, ds).events) <= 1
    ensures DestroyedCount(TakeAll(c, ds).events) == 1 <==> !c.destroyed && TakeAll(c, ds).core.destroyed
    decreases |ds|
  {
    if |ds| == 0 {
      return;
    }
    var h := TakeDamage(c, ds[0]);
    var rest := TakeAll(h.core, ds[1..]);
    DestroyedIsOneWay(h.core, ds[1..]);
    DestroyedCountAppend(h.events, rest.events);
    if c.destroyed {
      assert h == Hit(c, []);
    } else if h.core.destroyed {
      assert DestroyedCount(h.events) == 1;
    } else {
      assert DestroyedCount(h.events) == 0;
    }
  }
}
