/** The creatures and the world they live in (frontend/src/world/creature.ts,
    frontend/src/world/world.ts, and the subclasses in herbivore.ts,
    predator.ts and plant.ts). The two classes refer to each other, so they
    share this module. Bodies are values owned by one creature; what the
    physics engine is asked to do (`applyImpulse`) is recorded in the
    creature's `impulses`; `Math.random()`, `Math.sqrt`, `Vector3.Distance`
    and `intersectsMesh` are parameters. */
module Ecosystem {
  import opened Basics
  import opened Vitals
  import opened Population
  import opened Proximity
  import opened Roaming

  const MaxTorque := 0.1
  const MaxAngularSpeed := 5.0
  const MaxSpeed := 5.0
  /** `Math.PI / 2` as a double. */
  const HalfPi := 1.5707963267948966
  /** One frame: every tick advances a creature's clocks by 1/30. */
  const Tick := 1.0 / 30.0
  /** `forwardVector`: the direction of a creature without a body, and the
      facing the starting bodies get. Its squared length is 0.999698, not 1:
      the normalized (1, 0, 1) has irrational coordinates, so the model keeps
      the source's own rounded vector. */
  const Forward := Vec3(0.707, 0.0, 0.707)

  /** A request to the physics engine: push with `force` at point `at`. */
  datatype Impulse = Impulse(force: Vec3, at: Vec3)

  /** `body?.physicsImpostor?.getLinearVelocity()?.length() || 0` */
  function SpeedOf(body: Option<Body>): real
  {
    if HasImpostor(body) then body.value.impostor.value.speed else 0.0
  }

  /** `physicsImpostor.getAngularVelocity()?.y || 0` */
  function SpinOf(body: Option<Body>): real
  {
    if HasImpostor(body) then body.value.impostor.value.spin else 0.0
  }

  /** `creatureDirection()`: where the body faces, or the fixed forward
      vector without a body. */
  function Direction(body: Option<Body>): (r: Vec3)
    ensures body.Some? ==> r == body.value.facing
    ensures body.None? ==> r == Forward
  {
    if body.Some? then body.value.facing else Forward
  }

  /** The impulses `turn(torque)` applies: none while paralyzed, without an
      impostor, or when already spinning at the limit in the torque's
      direction; otherwise a couple, two opposite pushes of torque/2 on points
      one unit in front of and behind the body. */
  function TurnImpulses(body: Option<Body>, paralyzed: bool, torque: real): (r: seq<Impulse>)
    ensures r != [] <==>
      !paralyzed && HasImpostor(body) &&
      (torque > 0.0 ==> SpinOf(body) < MaxAngularSpeed) && (torque < 0.0 ==> SpinOf(body) > -MaxAngularSpeed)
    ensures r != [] ==>
      |r| == 2 && r[0].force.x == torque / 2.0 &&
      Add(r[0].force, r[1].force) == Origin &&
      Add(r[0].at, r[1].at) == Scale(body.value.position, 2.0)
  {
    if paralyzed || !HasImpostor(body) then []
    else
      var w := SpinOf(body);
      if (torque > 0.0 && w >= MaxAngularSpeed) || (torque < 0.0 && w <= -MaxAngularSpeed) then []
      else
        var at := body.value.position;
        [Impulse(Vec3(torque / 2.0, 0.0, 0.0), Add(at, Vec3(0.0, 0.0, 1.0))),
         Impulse(Vec3(-torque / 2.0, 0.0, 0.0), Add(at, Vec3(0.0, 0.0, -1.0)))]
  }

  /** `turnTo`'s limit on the torque: at most `MaxTorque` either way, keeping
      the sign. */
  function ClampTorque(t: real): (r: real)
    ensures Abs(r) <= MaxTorque
    ensures Abs(t) <= MaxTorque ==> r == t
    ensures Abs(t) > MaxTorque ==> Abs(r) == MaxTorque
    ensures (r > 0.0 <==> t > 0.0) && (r < 0.0 <==> t < 0.0)
  {
    if t >= 0.0 then (if t > MaxTorque then MaxTorque else t)
    else (if t < -MaxTorque then -MaxTorque else t)
  }

  /** The rotational inertia `turnTo` means to use: mass · initialSize ·
      scaling.x. */
  function Inertia(mass: real, size: real, sx: real): real
  {
    mass * size * sx
  }

  /** The rotational inertia as `turnTo` computes it: the angular momentum
      mass · w · initialSize · scaling.x, divided again by the angular
      velocity w. For a creature that is not spinning that is 0/0. */
  function InertiaAsWritten(mass: real, w: real, size: real, sx: real): (r: Ratio)
    ensures w == 0.0 ==> r == NotANumber
    ensures w != 0.0 ==> r == Finite(Inertia(mass, size, sx))
  {
    var momentum := mass * w * size * sx;
    SpinCancels(mass, w, size, sx);
    if w != 0.0 then Finite(momentum / w) else NotANumber
  }

  lemma SpinCancels(mass: real, w: real, size: real, sx: real)
    ensures w != 0.0 ==> mass * w * size * sx / w == Inertia(mass, size, sx)
  {
    if w != 0.0 {
      var a := mass * size * sx;
      assert mass * w * size * sx == a * w;
    }
  }

  /** A creature at rest gets no usable torque from `turnTo` as written. */
  lemma TurnToFromRest()
    ensures InertiaAsWritten(1.0, 0.0, 1.0, 1.0) == NotANumber
    ensures Inertia(1.0, 1.0, 1.0) == 1.0
  {
  }

  /** The torque `turnTo(angle)` asks for, with the inertia above: enough to
      close the gap between `angle` and the heading one frame ahead
      (`heading` is what `absoluteCreatureAngle()` reports) in a tenth of a
      second, clamped. */
  function TurnToTorque(angle: real, heading: real, body: Option<Body>, initialSize: real): (r: real)
    ensures Abs(r) <= MaxTorque
    ensures MassOf(body) == 0.0 ==> r == 0.0
    ensures angle == heading + SpinOf(body) / 15.0 ==> r == 0.0
  {
    var w := SpinOf(body);
    var sx := if body.Some? then body.value.scaling.x else 1.0;
    var totalRotation := angle - (heading + w / 15.0);
    ClampTorque(Inertia(MassOf(body), initialSize, sx) * (totalRotation * 10.0))
  }

  /** `go`'s speed limit: at or above the top speed a creature may only push
      when the signed drift angle from its heading to its motion is at least
      a right angle. A drift below a right angle blocks it, and that includes
      every negative drift, even a nearly backwards one. Without an impostor
      the speed reads as 0, so nothing blocks. */
  predicate GoBlocked(body: Option<Body>): (r: bool)
    ensures r ==> HasImpostor(body) && SpeedOf(body) >= MaxSpeed
    ensures HasImpostor(body) && SpeedOf(body) >= MaxSpeed && body.value.impostor.value.drift < 0.0 ==> r
  {
    HasImpostor(body) && body.value.impostor.value.speed >= MaxSpeed && body.value.impostor.value.drift < HalfPi
  }

  /** The energy one `go(force)` costs: force² / 900 / 2 / mass, with a mass
      of 0 counting as 1. */
  function GoCost(force: real, mass: real): (r: real)
    ensures mass >= 0.0 ==> r >= 0.0
    ensures force == 0.0 ==> r == 0.0
    ensures force != 0.0 && mass > 0.0 ==> r > 0.0
  {
    var m := if mass != 0.0 then mass else 1.0;
    var spent := Power(force, 2) / 900.0 / 2.0;
    SquareSign(force);
    QuotientSign(spent, 1.0);
    PerMass(spent, m);
    spent / m
  }

  lemma PerMass(x: real, m: real)
    ensures m > 0.0 && x >= 0.0 ==> x / m >= 0.0
    ensures m > 0.0 && x > 0.0 ==> x / m > 0.0
  {
    if m > 0.0 {
      QuotientSign(x, m);
    }
  }

  /** What `go(force)` takes from the energy: nothing while paralyzed or at
      the speed limit, otherwise `GoCost` with or without a body. */
  function GoCharge(body: Option<Body>, paralyzed: bool, force: real): (r: real)
    ensures paralyzed || GoBlocked(body) ==> r == 0.0
    ensures !paralyzed && !GoBlocked(body) ==> r == GoCost(force, MassOf(body))
    ensures MassOf(body) >= 0.0 ==> r >= 0.0
  {
    if paralyzed || GoBlocked(body) then 0.0 else GoCost(force, MassOf(body))
  }

  /** The impulse `go(force)` applies: the creature's direction times the
      force, at its position; none while paralyzed, at the speed limit or
      without an impostor. */
  function GoImpulses(body: Option<Body>, paralyzed: bool, force: real): (r: seq<Impulse>)
    ensures r != [] <==> !paralyzed && !GoBlocked(body) && HasImpostor(body)
    ensures r != [] ==> r == [Impulse(Scale(Direction(body), force), body.value.position)]
  {
    if paralyzed || GoBlocked(body) || !HasImpostor(body) then []
    else [Impulse(Scale(Direction(body), force), body.value.position)]
  }

  /** What `init` does to a body: x from the configured position's x, and z
      from the configured position's y. */
  function Placed(body: Option<Body>, p: Vec3): (r: Option<Body>)
    ensures r.Some? == body.Some?
  {
    if body.Some? then
      var q := body.value.position;
      Some(body.value.(position := Vec3(p.x, q.y, p.y)))
    else None
  }

  /** Placing a body twice at the same configured position is placing it
      once; only the position moves, and y stays. */
  lemma PlacedTwice(body: Option<Body>, p: Vec3)
    ensures Placed(Placed(body, p), p) == Placed(body, p)
    ensures body.Some? ==>
      Placed(body, p).value.position == Vec3(p.x, body.value.position.y, p.y) &&
      Placed(body, p).value.(position := body.value.position) == body.value
  {
  }

  /** `body.material.alpha = alpha`, which only happens when the mesh has a
      material. */
  function WithAlpha(body: Option<Body>, alpha: Ratio): (r: Option<Body>)
    ensures r.Some? == body.Some?
    ensures r.Some? ==> r.value.(alpha := body.value.alpha) == body.value
    ensures r.Some? ==> r.value.alpha == if body.value.alpha.Some? then Some(alpha) else None
  {
    if body.Some? && body.value.alpha.Some? then Some(body.value.(alpha := Some(alpha))) else body
  }

  /** The meshes the subclasses' `create` build: a 2 x 0.1 x 2 box for a
      herbivore, a size x 0.1 x size box for a predator, a cylinder of
      diameter 1 for a plant; each raised to y = 0.1, with an impostor of
      mass 1, at rest, and no material. */
  const HerbivoreBody := Body(Vec3(0.0, 0.1, 0.0), Vec3(1.0, 1.0, 1.0), Vec3(2.0, 0.1, 2.0), Forward, Some(Impostor(1.0, 0.0, 0.0, 0.0)), None)

  function PredatorBody(size: real): Body
  {
    Body(Vec3(0.0, 0.1, 0.0), Vec3(1.0, 1.0, 1.0), Vec3(size, 0.1, size), Forward, Some(Impostor(1.0, 0.0, 0.0, 0.0)), None)
  }

  const PlantBody := Body(Vec3(0.0, 0.1, 0.0), Vec3(1.0, 1.0, 1.0), Vec3(1.0, 0.1, 1.0), Forward, Some(Impostor(1.0, 0.0, 0.0, 0.0)), None)

  /** What `updateNearBy` reads of each member of a population. */
  function Probes(pop: seq<Creature>): (r: seq<Probe>)
    reads pop`body, pop`sensorSize
    ensures |r| == |pop|
  {
    if pop == [] then []
    else
      var last := pop[|pop| - 1];
      Probes(pop[..|pop| - 1]) + [Probe(PositionOf(last.body), last.sensorSize, last.body)]
  }

  /** What `updateNearBy` reads of one creature. */
  function ProbeOf(c: Creature): Probe
    reads c`body, c`sensorSize
  {
    Probe(PositionOf(c.body), c.sensorSize, c.body)
  }

  /** Position k of `Probes(pop)` is what `updateNearBy` reads of pop[k]. */
  lemma ProbesAt(pop: seq<Creature>, k: nat)
    requires k < |pop|
    ensures Probes(pop)[k] == Probe(PositionOf(pop[k].body), pop[k].sensorSize, pop[k].body)
  {
    if k < |pop| - 1 {
      ProbesAt(pop[..|pop| - 1], k);
    }
  }

  /** `Vector3.Distance` is never negative. */
  ghost predicate NonNegative(dist: (Vec3, Vec3) -> real)
  {
    forall p, q :: dist(p, q) >= 0.0
  }

  class Creature {
    const world: World
    const kind: Kind
    var body: Option<Body>
    var nearBy: seq<Creature>
    var touching: seq<Creature>
    var age: real
    var reproductionTime: real
    var paralyzationTimer: real
    var maxAge: real
    var reproductionTimeThreshold: real
    var energy: real
    var mutationRate: real
    var growthRate: real
    var initialSize: real
    var initialEnergy: real
    var sensorSize: real
    /** Impulses handed to the physics engine, oldest first. */
    var impulses: seq<Impulse>

    /** The fields `init(config)` sets. */
    predicate Configured(config: Config)
      reads this
    {
      maxAge == config.maxAge && mutationRate == config.mutationRate &&
      energy == config.energy && sensorSize == config.sensorSize &&
      initialSize == config.size && initialEnergy == config.energy &&
      growthRate == config.growthRate && reproductionTimeThreshold == 0.3 * config.maxAge
    }

    /** The clocks and lists of a creature that has never stepped. */
    predicate Newborn()
      reads this
    {
      nearBy == [] && touching == [] && age == 0.0 && reproductionTime == 0.0 &&
      paralyzationTimer == 0.0 && impulses == []
    }

    /** What `reproduce` reads of a parent. */
    function TraitsOf(): Traits
      reads this
    {
      Traits(growthRate, maxAge, sensorSize, reproductionTimeThreshold, energy, initialEnergy, initialSize, mutationRate)
    }

    /** `new Creature(world, config)` of the base class, which is what the
        inherited `createChild` builds: no body, and not added to the world. */
    constructor (world: World, config: Config)
      ensures this.world == world && kind == Base && body.None?
      ensures Newborn() && Configured(config)
    {
      this.world := world;
      kind := Base;
      body := None;
      nearBy := [];
      touching := [];
      age := 0.0;
      reproductionTime := 0.0;
      paralyzationTimer := 0.0;
      maxAge := 100.0;
      reproductionTimeThreshold := 0.3 * 100.0;
      energy := 100.0;
      mutationRate := 0.1;
      growthRate := 1.0;
      initialSize := 1.0;
      initialEnergy := 100.0;
      sensorSize := 1.0;
      impulses := [];
      new;
      Init(config);
    }

    /** `new Herbivore(world, config)`: `create` builds the body and adds the
        creature to the world once, then the constructor runs `init`. */
    constructor Herbivore(world: World, config: Config)
      modifies world`population
      ensures this.world == world && kind == Kind.Herbivore
      ensures body == Placed(Some(HerbivoreBody), config.position)
      ensures Newborn() && Configured(config)
      ensures world.population == old(world.population) + [this]
    {
      this.world := world;
      kind := Kind.Herbivore;
      body := Some(HerbivoreBody);
      nearBy := [];
      touching := [];
      age := 0.0;
      reproductionTime := 0.0;
      paralyzationTimer := 0.0;
      maxAge := 100.0;
      reproductionTimeThreshold := 0.3 * 100.0;
      energy := 100.0;
      mutationRate := 0.1;
      growthRate := 1.0;
      initialSize := 1.0;
      initialEnergy := 100.0;
      sensorSize := 1.0;
      impulses := [];
      new;
      world.AddCreature(this);
      Init(config);
    }

    /** `new Predator(world, config)`: `create` builds the body, runs `init`
        and adds the creature to the world once; the constructor then runs
        `init` again, which leaves everything as one `init` did. */
    constructor Predator(world: World, config: Config)
      modifies world`population
      ensures this.world == world && kind == Kind.Predator
      ensures body == Placed(Some(PredatorBody(config.size)), config.position)
      ensures Newborn() && Configured(config)
      ensures world.population == old(world.population) + [this]
    {
      this.world := world;
      kind := Kind.Predator;
      body := Some(PredatorBody(config.size));
      nearBy := [];
      touching := [];
      age := 0.0;
      reproductionTime := 0.0;
      paralyzationTimer := 0.0;
      maxAge := 100.0;
      reproductionTimeThreshold := 0.3 * 100.0;
      energy := 100.0;
      mutationRate := 0.1;
      growthRate := 1.0;
      initialSize := 1.0;
      initialEnergy := 100.0;
      sensorSize := 1.0;
      impulses := [];
      new;
      Init(config);
      world.AddCreature(this);
      Init(config);
      PlacedTwice(Some(PredatorBody(config.size)), config.position);
    }

    /** `new Plant(world, config)`: like a herbivore, with a cylinder. */
    constructor Plant(world: World, config: Config)
      modifies world`population
      ensures this.world == world && kind == Kind.Plant
      ensures body == Placed(Some(PlantBody), config.position)
      ensures Newborn() && Configured(config)
      ensures world.population == old(world.population) + [this]
    {
      this.world := world;
      kind := Kind.Plant;
      body := Some(PlantBody);
      nearBy := [];
      touching := [];
      age := 0.0;
      reproductionTime := 0.0;
      paralyzationTimer := 0.0;
      maxAge := 100.0;
      reproductionTimeThreshold := 0.3 * 100.0;
      energy := 100.0;
      mutationRate := 0.1;
      growthRate := 1.0;
      initialSize := 1.0;
      initialEnergy := 100.0;
      sensorSize := 1.0;
      impulses := [];
      new;
      world.AddCreature(this);
      Init(config);
    }

    /** `init(config)`: copies the configuration, starts with full energy, sets
        the reproduction threshold to 0.3 of the lifespan, and places the
        body. Nothing else changes. */
    method Init(config: Config)
      modifies this
      ensures Configured(config)
      ensures body == Placed(old(body), config.position)
      ensures unchanged(this`nearBy, this`touching, this`age, this`reproductionTime, this`paralyzationTimer, this`impulses)
    {
      if body.Some? {
        var q := body.value.position;
        body := Some(body.value.(position := Vec3(config.position.x, q.y, config.position.y)));
      }
      maxAge := config.maxAge;
      mutationRate := config.mutationRate;
      energy := config.energy;
      sensorSize := config.sensorSize;
      initialSize := config.size;
      initialEnergy := config.energy;
      growthRate := config.growthRate;
      reproductionTimeThreshold := 0.3 * maxAge;
    }

    /** `paralyze(time = 2)`: the timer is overwritten, not extended. */
    method Paralyze(time: Option<real>)
      modifies this`paralyzationTimer
      ensures paralyzationTimer == if time.Some? then time.value else 2.0
      ensures time.None? || time.value > 0.0 ==> IsParalyzed()
    {
      paralyzationTimer := if time.Some? then time.value else 2.0;
    }

    /** `isParalyzed()`: a timer that has run down to 0 or below no longer
        paralyzes. */
    predicate IsParalyzed(): (r: bool)
      reads this
      ensures r <==> paralyzationTimer > 0.0
    {
      paralyzationTimer > 0.0
    }

    /** `isDead()`: out of energy, or at the end of its life span. */
    predicate IsDead(): (r: bool)
      reads this
      ensures energy <= 0.0 ==> r
      ensures age >= maxAge ==> r
      ensures r ==> energy <= 0.0 || age >= maxAge
    {
      energy <= 0.0 || age >= maxAge
    }

    /** `energyPercentage()`: energy / initialEnergy as a JavaScript number. */
    function EnergyPercentage(): (r: Ratio)
      reads this
      ensures initialEnergy != 0.0 ==> r == Finite(energy / initialEnergy)
      ensures initialEnergy == 0.0 && energy > 0.0 ==> r == PlusInfinity
      ensures initialEnergy == 0.0 && energy < 0.0 ==> r == MinusInfinity
      ensures initialEnergy == 0.0 && energy == 0.0 ==> r == NotANumber
    {
      EnergyRatio(energy, initialEnergy)
    }

    /** `canReproduce()`: past the reproduction threshold, not paralyzed, and
        with more than 60% of the initial energy; with an initial energy of 0
        the percentage is infinite for any positive energy. */
    function CanReproduce(): (r: bool)
      reads this
      ensures r ==> reproductionTime > reproductionTimeThreshold && !IsParalyzed()
      ensures initialEnergy > 0.0 ==>
        (r <==> reproductionTime > reproductionTimeThreshold && energy > 0.6 * initialEnergy && !IsParalyzed())
      ensures initialEnergy == 0.0 ==>
        (r <==> reproductionTime > reproductionTimeThreshold && energy > 0.0 && !IsParalyzed())
    {
      RatioExceeds(energy, initialEnergy, 0.6);
      reproductionTime > reproductionTimeThreshold && Exceeds(EnergyPercentage(), 0.6) && !IsParalyzed()
    }

    /** `turn(torque)`: while paralyzed, without an impostor, or already at
        the spin limit in that direction, nothing happens. */
    method Turn(torque: real)
      modifies this`impulses
      ensures impulses == old(impulses) + TurnImpulses(body, IsParalyzed(), torque)
    {
      if IsParalyzed() || body.None? || body.value.impostor.None? {
        return;
      }
      var angularVelocity := SpinOf(body);
      if (torque > 0.0 && angularVelocity >= MaxAngularSpeed) || (torque < 0.0 && angularVelocity <= -MaxAngularSpeed) {
        return;
      }
      var at := body.value.position;
      impulses := impulses + [Impulse(Vec3(torque / 2.0, 0.0, 0.0), Add(at, Vec3(0.0, 0.0, 1.0)))];
      impulses := impulses + [Impulse(Vec3(-torque / 2.0, 0.0, 0.0), Add(at, Vec3(0.0, 0.0, -1.0)))];
    }

    /** `turnTo(angle)` with the intended inertia; `heading` is what
        `absoluteCreatureAngle()` reports. Paralyzed or without an impostor
        nothing happens; otherwise it turns with a torque of at most
        `MaxTorque`. */
    method TurnTo(angle: real, heading: real)
      modifies this`impulses
      ensures impulses == old(impulses) + TurnImpulses(body, IsParalyzed(), TurnToTorque(angle, heading, body, initialSize))
      ensures Abs(TurnToTorque(angle, heading, body, initialSize)) <= MaxTorque
    {
      if IsParalyzed() || body.None? || body.value.impostor.None? {
        return;
      }
      var torque := TurnToTorque(angle, heading, body, initialSize);
      Turn(torque);
    }

    /** `go(force)`: nothing while paralyzed or at the speed limit; otherwise
        push along the creature's direction (when it has an impostor) and pay
        force² / 1800 / mass in energy, even without a body. */
    method Go(force: real)
      modifies this`impulses, this`energy
      ensures impulses == old(impulses) + GoImpulses(body, IsParalyzed(), force)
      ensures energy == old(energy) - GoCharge(body, IsParalyzed(), force)
    {
      if IsParalyzed() {
        return;
      }
      var direction := Direction(body);
      var goAngle := if HasImpostor(body) then body.value.impostor.value.drift else 0.0;
      if SpeedOf(body) >= MaxSpeed && goAngle < HalfPi {
        return;
      }
      if HasImpostor(body) {
        impulses := impulses + [Impulse(Scale(direction, force), body.value.position)];
      }
      energy := energy - GoCost(force, MassOf(body));
    }

    /** `grow(rate)`: with no rate (or 0) the default rate for this growth rate
        and age; then `GrowStep` on the body and the energy. */
    method Grow(rate: Option<real>, root: real -> real)
      requires RootPositive(root)
      modifies this`body, this`energy
      ensures (body, energy) == GrowStep(old(body), old(energy), EffectiveRate(rate, growthRate, age, root))
      ensures EffectiveRate(rate, growthRate, age, root) != 0.0 ==>
        energy + 10.0 * MassOf(body) == old(energy) + 10.0 * MassOf(old(body))
    {
      var r := EffectiveRate(rate, growthRate, age, root);
      var oldMass := MassOf(body);
      if r <= 0.0 && oldMass <= 0.0 {
        return;
      }
      body := Grown(body, r);
      energy := energy - GrowthCost(oldMass, MassOf(body));
    }

    /** `shrink(rate)`: `grow` with the rate, by default (2 - growthRate)². */
    method Shrink(rate: Option<real>, root: real -> real)
      requires RootPositive(root)
      modifies this`body, this`energy
      ensures (body, energy) == GrowStep(old(body), old(energy), EffectiveRate(ShrinkRequest(rate, growthRate), growthRate, age, root))
    {
      Grow(ShrinkRequest(rate, growthRate), root);
    }

    /** `step()`: grow at the default rate, advance both clocks by one tick,
        show the energy level as the (clamped) alpha of the material, and run
        the paralysis timer down by one tick while it is positive. */
    method Step(root: real -> real)
      requires RootPositive(root)
      modifies this`body, this`energy, this`age, this`reproductionTime, this`paralyzationTimer
      ensures var g := GrowStep(old(body), old(energy), DefaultRate(growthRate, old(age), root));
        energy == g.1 && body == WithAlpha(g.0, Transparency(EnergyRatio(g.1, initialEnergy)))
      ensures age == old(age) + Tick && reproductionTime == old(reproductionTime) + Tick
      ensures paralyzationTimer == if old(paralyzationTimer) > 0.0 then old(paralyzationTimer) - Tick else old(paralyzationTimer)
      ensures body.Some? && body.value.alpha.Some? ==>
        body.value.alpha.value == NotANumber || (body.value.alpha.value.Finite? && 0.0 <= body.value.alpha.value.v <= 1.0)
    {
      Grow(None, root);
      age := age + 1.0 / 30.0;
      reproductionTime := reproductionTime + 1.0 / 30.0;
      var alpha := Transparency(EnergyPercentage());
      if body.Some? && body.value.alpha.Some? {
        body := Some(body.value.(alpha := Some(alpha)));
      }
      if IsParalyzed() {
        paralyzationTimer := paralyzationTimer - 1.0 / 30.0;
      }
    }

    /** `takeEnergy(taker)`: moves mass · speed of the taker plus 10% of its
        initial energy from this creature to the taker; from a creature to
        itself nothing changes. */
    method TakeEnergy(taker: Creature)
      modifies this`energy, taker`energy
      ensures var e := TransferAmount(MassOf(taker.body), SpeedOf(taker.body), taker.initialEnergy);
        taker != this ==> energy == old(energy) - e && taker.energy == old(taker.energy) + e
      ensures taker != this ==> energy + taker.energy == old(energy) + old(taker.energy)
      ensures taker == this ==> energy == old(energy)
    {
      var e := TransferAmount(MassOf(taker.body), SpeedOf(taker.body), taker.initialEnergy);
      energy := energy - e;
      taker.energy := taker.energy + e;
    }

    /** `reproduce(other)` with the 20 draws it makes: nothing without both
        bodies; otherwise a body-less child (which the caller receives here)
        configured from both parents, the parents' energy halved and their
        reproduction clocks reset. */
    method Reproduce(other: Creature, ds: seq<real>) returns (child: Option<Creature>)
      requires AreDraws(ds) && |ds| >= ReproductionDraws
      modifies this`energy, this`reproductionTime, other`energy, other`reproductionTime
      ensures old(body).None? || old(other.body).None? ==>
        child.None? && unchanged(this, other)
      ensures old(body).Some? && old(other.body).Some? ==>
        child.Some? && fresh(child.value) && Reproduced(world, old(TraitsOf()), old(other.TraitsOf()), old(body.value.position), old(other.body.value.position), ds, child.value)
      ensures old(body).Some? && old(other.body).Some? ==>
        reproductionTime == 0.0 && other.reproductionTime == 0.0 &&
        (other != this ==> energy == old(energy) / 2.0 && other.energy == old(other.energy) / 2.0) &&
        (other == this ==> energy == old(energy) / 4.0)
      ensures old(body).Some? && old(other.body).Some? && other != this ==>
        energy + other.energy + child.value.energy <= old(energy) + old(other.energy) &&
        (old(energy) <= old(initialEnergy) && old(other.energy) <= old(other.initialEnergy) ==>
          energy + other.energy + child.value.energy == old(energy) + old(other.energy))
    {
      if body.None? || other.body.None? {
        return None;
      }
      var a := TraitsOf();
      var b := other.TraitsOf();
      assert AreDraws(ds[..6]) && AreDraws(ds[6..18]);
      var position := ChildPosition(a, body.value.position, other.body.value.position, ds[..6]);
      var config := ChildConfig(a, b, position, ds[6..18]);
      var c := new Creature(world, config);
      c.energy := ChildEnergy(a, b);
      energy := energy / 2.0;
      other.energy := other.energy / 2.0;
      c.reproductionTimeThreshold := Inherited(a.threshold, b.threshold, a.mutationRate, ds[18], ds[19]);
      reproductionTime := 0.0;
      other.reproductionTime := 0.0;
      child := Some(c);
    }

    /** The first nearby creature of kind `t` (every creature is of kind
        `Base`), among those whose bodies exist, at the least distance from
        this creature's body; none when there is no such creature or this
        creature has no body. */
    method GetClosestVisible(t: Kind, dist: (Vec3, Vec3) -> real) returns (r: Option<Creature>)
      requires NonNegative(dist)
      ensures r.None? <==> forall k :: 0 <= k < |nearBy| ==> !Candidate(t, k)
      ensures r.Some? ==> exists k :: Candidate(t, k) && nearBy[k] == r.value && Closest(t, dist, k)
    {
      var closest: Option<Creature> := None;
      var shortest := -1.0;
      ghost var best := -1;
      var i := 0;
      while i < |nearBy|
        invariant 0 <= i <= |nearBy|
        invariant best == -1 <==> forall k :: 0 <= k < i ==> !Candidate(t, k)
        invariant best == -1 ==> closest.None? && shortest < 0.0
        invariant best != -1 ==>
          0 <= best < i && Candidate(t, best) && closest == Some(nearBy[best]) &&
          shortest == Gap(dist, best) && shortest >= 0.0 &&
          forall j :: 0 <= j < i && Candidate(t, j) ==>
            Gap(dist, best) <= Gap(dist, j) && (j < best ==> Gap(dist, best) < Gap(dist, j))
      {
        var creature := nearBy[i];
        assert Candidate(t, i) <==> IsA(creature.kind, t) && creature.body.Some? && body.Some?;
        if IsA(creature.kind, t) && creature.body.Some? && body.Some? {
          var distance := dist(creature.body.value.position, body.value.position);
          if shortest < 0.0 || distance < shortest {
            closest := Some(creature);
            shortest := distance;
            best := i;
          }
        }
        i := i + 1;
      }
      r := closest;
      assert r.Some? ==> Candidate(t, best) && nearBy[best] == r.value && Closest(t, dist, best);
    }

    /** Position k of `nearBy` is a candidate of `getClosestVisible(t)`. */
    predicate Candidate(t: Kind, k: int)
      reads this, nearBy
    {
      0 <= k < |nearBy| && IsA(nearBy[k].kind, t) && nearBy[k].body.Some? && body.Some?
    }

    /** The distance from candidate k to this creature, in the source's
        argument order. */
    function Gap(dist: (Vec3, Vec3) -> real, k: int): real
      reads this, nearBy
      requires 0 <= k < |nearBy| && nearBy[k].body.Some? && body.Some?
    {
      dist(nearBy[k].body.value.position, body.value.position)
    }

    /** Candidate k is nearest, and strictly nearer than every earlier one. */
    ghost predicate Closest(t: Kind, dist: (Vec3, Vec3) -> real, k: int)
      reads this, nearBy
      requires Candidate(t, k)
    {
      forall j :: Candidate(t, j) ==> Gap(dist, k) <= Gap(dist, j) && (j < k ==> Gap(dist, k) < Gap(dist, j))
    }

    /** `destroy()`: the body goes, and the world's population loses what
        `splice(indexOf(this), 1)` removes. */
    method Destroy()
      modifies this`body, world`population
      ensures body.None?
      ensures world.population == SpliceOut(old(world.population), this)
    {
      body := None;
      world.population := SpliceOut(world.population, this);
    }

    /** `explore()`: herbivores and predators follow `ExplorePlan` with their
        mass as the torque, turning and then going with force 1; the other
        kinds do nothing. Returns the draws left over. */
    method Explore(ds: seq<real>) returns (rest: seq<real>)
      requires kind == Kind.Herbivore || kind == Kind.Predator ==> |ds| >= 1 && |ds| >= ExploreDraws(ds[0])
      modifies this`impulses, this`energy
      ensures kind != Kind.Herbivore && kind != Kind.Predator ==>
        rest == ds && impulses == old(impulses) && energy == old(energy)
      ensures kind == Kind.Herbivore || kind == Kind.Predator ==>
        var plan := ExplorePlan(MassOf(body), ds);
        rest == plan.1 &&
        impulses == old(impulses)
          + (if plan.0.turn.Some? then TurnImpulses(body, IsParalyzed(), plan.0.turn.value) else [])
          + (if plan.0.go then GoImpulses(body, IsParalyzed(), 1.0) else []) &&
        energy == old(energy) - (if plan.0.go then GoCharge(body, IsParalyzed(), 1.0) else 0.0)
    {
      if kind != Kind.Herbivore && kind != Kind.Predator {
        return ds;
      }
      var plan := ExplorePlan(MassOf(body), ds);
      if plan.0.turn.Some? {
        Turn(plan.0.turn.value);
      }
      if plan.0.go {
        Go(1.0);
      }
      rest := plan.1;
    }
  }

  /** The child `reproduce` builds from parents `a` and `b` at `posA` and
      `posB` with draws `ds`: a body-less plain creature in world `w`,
      configured with `ChildConfig` at the mutated midpoint, whose energy is
      then overridden by the mean of the parents' capped energies and whose
      reproduction threshold is the parents' mean threshold, mutated. */
  ghost predicate Reproduced(w: World, a: Traits, b: Traits, posA: Vec3, posB: Vec3, ds: seq<real>, child: Creature)
    requires AreDraws(ds) && |ds| >= ReproductionDraws
    reads child
  {
    var config := ChildConfig(a, b, ChildPosition(a, posA, posB, ds[..6]), ds[6..18]);
    child.world == w && child.kind == Base && child.body.None? && child.Newborn() &&
    child.maxAge == config.maxAge && child.mutationRate == config.mutationRate &&
    child.sensorSize == config.sensorSize && child.initialSize == config.size &&
    child.initialEnergy == config.energy && child.growthRate == config.growthRate &&
    child.energy == ChildEnergy(a, b) && child.initialSize >= 0.01 &&
    child.reproductionTimeThreshold == Inherited(a.threshold, b.threshold, a.mutationRate, ds[18], ds[19])
  }

  /** `updateNearBy`'s first loop: every list starts empty. */
  method ResetLists(pop: seq<Creature>)
    modifies pop`nearBy, pop`touching
    ensures forall k :: 0 <= k < |pop| ==> pop[k].nearBy == [] && pop[k].touching == []
  {
    var i := 0;
    while i < |pop|
      invariant 0 <= i <= |pop|
      invariant forall k :: 0 <= k < i ==> pop[k].nearBy == [] && pop[k].touching == []
    {
      var creature := pop[i];
      creature.nearBy := [];
      creature.touching := [];
      i := i + 1;
    }
  }

  /** The nearby lists of the members of pop from position `from` on, in order. */
  ghost function NearLists(pop: seq<Creature>, from: nat := 0): List<seq<Creature>>
    reads pop`nearBy
    decreases |pop| - from
  {
    if from >= |pop| then Nil else Cons(pop[from].nearBy, NearLists(pop, from + 1))
  }

  /** The touching lists of the members of pop from position `from` on, in order. */
  ghost function TouchLists(pop: seq<Creature>, from: nat := 0): List<seq<Creature>>
    reads pop`touching
    decreases |pop| - from
  {
    if from >= |pop| then Nil else Cons(pop[from].touching, TouchLists(pop, from + 1))
  }

  lemma {:induction false} NearListsAt(pop: seq<Creature>, from: nat, k: nat)
    requires from <= k < |pop|
    ensures Len(NearLists(pop, from)) == |pop| - from
    ensures Nth(NearLists(pop, from), k - from) == pop[k].nearBy
    decreases |pop| - from
  {
    if from < k {
      NearListsAt(pop, from + 1, k);
    } else if from + 1 < |pop| {
      NearListsAt(pop, from + 1, from + 1);
    }
  }

  lemma {:induction false} TouchListsAt(pop: seq<Creature>, from: nat, k: nat)
    requires from <= k < |pop|
    ensures Len(TouchLists(pop, from)) == |pop| - from
    ensures Nth(TouchLists(pop, from), k - from) == pop[k].touching
    decreases |pop| - from
  {
    if from < k {
      TouchListsAt(pop, from + 1, k);
    } else if from + 1 < |pop| {
      TouchListsAt(pop, from + 1, from + 1);
    }
  }

  /** Empty lists are where the pair loop starts. */
  lemma {:induction false} EmptyListsStart(pop: seq<Creature>, S: (nat, nat) -> bool, T: (nat, nat) -> bool, from: nat)
    requires forall k :: 0 <= k < |pop| ==> pop[k].nearBy == [] && pop[k].touching == []
    ensures NearLists(pop, from) == AllRows(pop, S, 0, from) && TouchLists(pop, from) == AllRows(pop, T, 0, from)
    decreases |pop| - from
  {
    if from < |pop| {
      EmptyListsStart(pop, S, T, from + 1);
    }
  }

  /** One pass of `updateNearBy`'s outer loop, for position i: the pairs
      (i, j) for every j after i, in order. */
  method LinkRow(pop: seq<Creature>, i: nat, ghost P: seq<Probe>, dist: (Vec3, Vec3) -> real, meets: (Body, Body) -> bool)
    requires i < |pop| && |P| == |pop|
    requires P == Probes(pop)
    requires NearLists(pop) == AllRows(pop, Sees(P, dist), i) && TouchLists(pop) == AllRows(pop, Touches(P, meets), i)
    modifies pop`nearBy, pop`touching
    ensures NearLists(pop) == AllRows(pop, Sees(P, dist), i + 1) && TouchLists(pop) == AllRows(pop, Touches(P, meets), i + 1)
  {
    ghost var S := Sees(P, dist);
    ghost var T := Touches(P, meets);
    AllPartialStart(pop, S, i);
    AllPartialStart(pop, T, i);
    var j := i + 1;
    while j < |pop|
      invariant i + 1 <= j <= |pop|
      invariant NearLists(pop) == AllPartial(pop, S, i, j) && TouchLists(pop) == AllPartial(pop, T, i, j)
    {
      LinkPair(pop, i, j, P, dist, meets);
      j := j + 1;
    }
    AllPartialDone(pop, S, i);
    AllPartialDone(pop, T, i);
  }

  /** One pass of `updateNearBy`'s inner loop, for positions i < j: the
      distance is measured once; population[j] joins population[i]'s nearby
      list if it is within population[i]'s sensor size, and the other way
      round; when both bodies exist and intersect each joins the other's
      touching list. */
  method LinkPair(pop: seq<Creature>, i: nat, j: nat, ghost P: seq<Probe>, dist: (Vec3, Vec3) -> real, meets: (Body, Body) -> bool)
    requires i < j < |pop| && |P| == |pop|
    requires P == Probes(pop)
    requires NearLists(pop) == AllPartial(pop, Sees(P, dist), i, j) && TouchLists(pop) == AllPartial(pop, Touches(P, meets), i, j)
    modifies pop`nearBy, pop`touching
    ensures NearLists(pop) == AllPartial(pop, Sees(P, dist), i, j + 1) && TouchLists(pop) == AllPartial(pop, Touches(P, meets), i, j + 1)
  {
    ProbesAt(pop, i);
    ProbesAt(pop, j);
    var distance := dist(PositionOf(pop[i].body), PositionOf(pop[j].body));
    LinkNear(pop, i, j, P, dist, distance);
    LinkTouch(pop, i, j, P, meets);
    AllPartialNext(pop, Sees(P, dist), i, j);
    AllPartialNext(pop, Touches(P, meets), i, j);
  }

  /** The nearby half of a pass, given the measured distance. */
  method LinkNear(pop: seq<Creature>, i: nat, j: nat, ghost P: seq<Probe>, ghost dist: (Vec3, Vec3) -> real, distance: real)
    requires i < j < |pop| && |P| == |pop|
    requires P[i] == Probe(PositionOf(pop[i].body), pop[i].sensorSize, pop[i].body)
    requires P[j] == Probe(PositionOf(pop[j].body), pop[j].sensorSize, pop[j].body)
    requires distance == dist(P[i].position, P[j].position)
    modifies pop`nearBy
    ensures NearLists(pop) == Extend(old(NearLists(pop)), pop, Sees(P, dist), i, j)
  {
    ghost var N0 := NearLists(pop);
    NearListsAt(pop, 0, 0);
    forall k | 0 <= k < |pop|
      ensures Nth(N0, k) == pop[k].nearBy
    {
      NearListsAt(pop, 0, k);
    }
    var creature := pop[i];
    var creature2 := pop[j];
    assert Sees(P, dist)(i, j) <==> distance < creature.sensorSize;
    assert Sees(P, dist)(j, i) <==> distance < creature2.sensorSize;
    if distance < creature.sensorSize {
      creature.nearBy := creature.nearBy + [creature2];
    }
    if distance < creature2.sensorSize {
      creature2.nearBy := creature2.nearBy + [creature];
    }
    forall k | 0 <= k < |pop|
      ensures pop[k].nearBy == Nth(N0, k) + ToSeq(Contrib(pop, Sees(P, dist), pop[k], i, j))
    {
      ContribSeq(pop, Sees(P, dist), pop[k], i, j);
    }
    NearListsExtend(pop, N0, Sees(P, dist), i, j);
  }

  /** Lists that each grew by their contribution from the pair (i, j) are the
      extension of the lists before. */
  lemma NearListsExtend(pop: seq<Creature>, N0: List<seq<Creature>>, S: (nat, nat) -> bool, i: nat, j: nat)
    requires i < |pop| && j < |pop| && Len(N0) == |pop|
    requires forall k :: 0 <= k < |pop| ==> pop[k].nearBy == Nth(N0, k) + ToSeq(Contrib(pop, S, pop[k], i, j))
    ensures NearLists(pop) == Extend(N0, pop, S, i, j)
  {
    NearListsAt(pop, 0, 0);
    ExtendAt(N0, pop, S, i, j, 0, 0);
    forall k: nat | k < Len(NearLists(pop))
      ensures Nth(NearLists(pop), k) == Nth(Extend(N0, pop, S, i, j), k)
    {
      NearListsAt(pop, 0, k);
      ExtendAt(N0, pop, S, i, j, 0, k);
    }
    ListExt(NearLists(pop), Extend(N0, pop, S, i, j));
  }

  /** The touching half of a pass. */
  method LinkTouch(pop: seq<Creature>, i: nat, j: nat, ghost P: seq<Probe>, meets: (Body, Body) -> bool)
    requires i < j < |pop| && |P| == |pop|
    requires P[i] == Probe(PositionOf(pop[i].body), pop[i].sensorSize, pop[i].body)
    requires P[j] == Probe(PositionOf(pop[j].body), pop[j].sensorSize, pop[j].body)
    modifies pop`touching
    ensures TouchLists(pop) == Extend(old(TouchLists(pop)), pop, Touches(P, meets), i, j)
  {
    ghost var T0 := TouchLists(pop);
    TouchListsAt(pop, 0, 0);
    forall k | 0 <= k < |pop|
      ensures Nth(T0, k) == pop[k].touching
    {
      TouchListsAt(pop, 0, k);
    }
    var creature := pop[i];
    var creature2 := pop[j];
    assert Touches(P, meets)(i, j) == Touches(P, meets)(j, i);
    if creature2.body.Some? && creature.body.Some? && meets(creature.body.value, creature2.body.value) {
      creature.touching := creature.touching + [creature2];
      creature2.touching := creature2.touching + [creature];
    }
    forall k | 0 <= k < |pop|
      ensures pop[k].touching == Nth(T0, k) + ToSeq(Contrib(pop, Touches(P, meets), pop[k], i, j))
    {
      ContribSeq(pop, Touches(P, meets), pop[k], i, j);
    }
    TouchListsExtend(pop, T0, Touches(P, meets), i, j);
  }

  lemma TouchListsExtend(pop: seq<Creature>, T0: List<seq<Creature>>, S: (nat, nat) -> bool, i: nat, j: nat)
    requires i < |pop| && j < |pop| && Len(T0) == |pop|
    requires forall k :: 0 <= k < |pop| ==> pop[k].touching == Nth(T0, k) + ToSeq(Contrib(pop, S, pop[k], i, j))
    ensures TouchLists(pop) == Extend(T0, pop, S, i, j)
  {
    TouchListsAt(pop, 0, 0);
    ExtendAt(T0, pop, S, i, j, 0, 0);
    forall k: nat | k < Len(TouchLists(pop))
      ensures Nth(TouchLists(pop), k) == Nth(Extend(T0, pop, S, i, j), k)
    {
      TouchListsAt(pop, 0, k);
      ExtendAt(T0, pop, S, i, j, 0, k);
    }
    ListExt(TouchLists(pop), Extend(T0, pop, S, i, j));
  }

  /** Every creature in d has lost its body. */
  ghost predicate Bodiless(d: seq<Creature>)
    reads d`body
  {
    forall k :: 0 <= k < |d| ==> d[k].body.None?
  }

  /** The bodies of the members of s, in order. */
  ghost function BodiesOf(s: seq<Creature>): (r: seq<Option<Body>>)
    reads s
    ensures |r| == |s| && forall k :: 0 <= k < |s| ==> r[k] == s[k].body
  {
    seq(|s|, k requires 0 <= k < |s| reads s => s[k].body)
  }

  /** The ages, reproduction clocks and paralysis timers of the members of
      s, in order. */
  ghost function AgesOf(s: seq<Creature>): (r: seq<real>)
    reads s`age
    ensures |r| == |s| && forall k {:trigger r[k]} :: 0 <= k < |s| ==> r[k] == s[k].age
  {
    if s == [] then [] else [s[0].age] + AgesOf(s[1..])
  }

  ghost function ClocksOf(s: seq<Creature>): (r: seq<real>)
    reads s`reproductionTime
    ensures |r| == |s| && forall k {:trigger r[k]} :: 0 <= k < |s| ==> r[k] == s[k].reproductionTime
  {
    if s == [] then [] else [s[0].reproductionTime] + ClocksOf(s[1..])
  }

  ghost function TimersOf(s: seq<Creature>): (r: seq<real>)
    reads s`paralyzationTimer
    ensures |r| == |s| && forall k {:trigger r[k]} :: 0 <= k < |s| ==> r[k] == s[k].paralyzationTimer
  {
    if s == [] then [] else [s[0].paralyzationTimer] + TimersOf(s[1..])
  }

  /** Every member of s0 outside d still has the body recorded in b0. */
  ghost predicate Kept(s0: seq<Creature>, b0: seq<Option<Body>>, d: seq<Creature>)
    reads s0`body
  {
    |b0| == |s0| && forall k {:trigger b0[k]} :: 0 <= k < |s0| && s0[k] !in d ==> s0[k].body == b0[k]
  }

  /** The outer loop of `updateNearBy`, over every row i. */
  method LinkRows(pop: seq<Creature>, ghost P: seq<Probe>, dist: (Vec3, Vec3) -> real, meets: (Body, Body) -> bool)
    requires P == Probes(pop)
    requires NearLists(pop) == AllRows(pop, Sees(P, dist), 0) && TouchLists(pop) == AllRows(pop, Touches(P, meets), 0)
    modifies pop`nearBy, pop`touching
    ensures NearLists(pop) == AllRows(pop, Sees(P, dist), |pop|) && TouchLists(pop) == AllRows(pop, Touches(P, meets), |pop|)
  {
    var i := 0;
    while i < |pop|
      invariant 0 <= i <= |pop|
      invariant P == Probes(pop)
      invariant NearLists(pop) == AllRows(pop, Sees(P, dist), i) && TouchLists(pop) == AllRows(pop, Touches(P, meets), i)
    {
      LinkRow(pop, i, P, dist, meets);
      i := i + 1;
    }
  }

  /** After every row, each member's lists are exactly what the pair loop builds. */
  lemma ListsBuilt(pop: seq<Creature>, S: (nat, nat) -> bool, T: (nat, nat) -> bool)
    requires NearLists(pop) == AllRows(pop, S, |pop|) && TouchLists(pop) == AllRows(pop, T, |pop|)
    ensures forall k {:trigger pop[k].nearBy} :: 0 <= k < |pop| ==> pop[k].nearBy == ToSeq(Built(pop, S, pop[k]))
    ensures forall k {:trigger pop[k].touching} :: 0 <= k < |pop| ==> pop[k].touching == ToSeq(Built(pop, T, pop[k]))
  {
    forall k {:trigger pop[k].nearBy} | 0 <= k < |pop|
      ensures pop[k].nearBy == ToSeq(Built(pop, S, pop[k]))
    {
      NearBuiltAt(pop, S, k);
    }
    forall k {:trigger pop[k].touching} | 0 <= k < |pop|
      ensures pop[k].touching == ToSeq(Built(pop, T, pop[k]))
    {
      TouchBuiltAt(pop, T, k);
    }
  }

  lemma NearBuiltAt(pop: seq<Creature>, S: (nat, nat) -> bool, k: nat)
    requires k < |pop| && NearLists(pop) == AllRows(pop, S, |pop|)
    ensures pop[k].nearBy == ToSeq(Built(pop, S, pop[k]))
  {
    NearListsAt(pop, 0, k);
    AllRowsAt(pop, S, |pop|, 0, k);
  }

  lemma TouchBuiltAt(pop: seq<Creature>, T: (nat, nat) -> bool, k: nat)
    requires k < |pop| && TouchLists(pop) == AllRows(pop, T, |pop|)
    ensures pop[k].touching == ToSeq(Built(pop, T, pop[k]))
  {
    TouchListsAt(pop, 0, k);
    AllRowsAt(pop, T, |pop|, 0, k);
  }

  lemma BodilessMembers(d: seq<Creature>)
    requires Bodiless(d)
    ensures forall c :: c in d ==> c.body.None?
  {
    forall c | c in d
      ensures c.body.None?
    {
      var k :| 0 <= k < |d| && d[k] == c;
    }
  }

  lemma KeptMembers(s0: seq<Creature>, b0: seq<Option<Body>>, d: seq<Creature>)
    requires Kept(s0, b0, d)
    ensures forall c :: c in s0 && c !in d ==> exists k :: 0 <= k < |s0| && s0[k] == c && c.body == b0[k]
  {
    forall c | c in s0 && c !in d
      ensures exists k :: 0 <= k < |s0| && s0[k] == c && c.body == b0[k]
    {
      var k :| 0 <= k < |s0| && s0[k] == c;
      assert c.body == b0[k];
    }
  }

  /** The ticks a creature has aged after the first i steps of s. */
  ghost function Ticks(s: seq<Creature>, i: nat, c: Creature): real
    requires i <= |s|
  {
    (multiset(s[..i])[c] as real) / 30.0
  }

  lemma TicksNext(s: seq<Creature>, i: nat, c: Creature)
    requires i < |s|
    ensures Ticks(s, i + 1, c) == Ticks(s, i, c) + if s[i] == c then Tick else 0.0
  {
    assert s[..i + 1] == s[..i] + [s[i]];
  }

  /** Each member of s has aged by its ticks over the first i steps, from
      the clocks a0 and r0. */
  ghost predicate AgedBy(s: seq<Creature>, a0: seq<real>, r0: seq<real>, i: nat)
    requires i <= |s|
    reads s`age, s`reproductionTime
  {
    |a0| == |s| && |r0| == |s| &&
    forall k {:trigger a0[k]} :: 0 <= k < |s| ==>
      s[k].age == a0[k] + Ticks(s, i, s[k]) && s[k].reproductionTime == r0[k] + Ticks(s, i, s[k])
  }

  /** What one tick does to a paralysis timer: a positive timer runs down
      by a tick, and one at or below 0 stays. */
  function Countdown(t: real): (r: real)
    ensures t > 0.0 ==> r < t && t - r == Tick
    ensures t <= 0.0 ==> r == t
  {
    if t > 0.0 then t - Tick else t
  }

  /** Every member's nearby and touching lists are what the pair loop builds
      from the probes P. */
  ghost predicate ListsFrom(pop: seq<Creature>, P: seq<Probe>, dist: (Vec3, Vec3) -> real, meets: (Body, Body) -> bool)
    reads pop`nearBy, pop`touching
  {
    |P| == |pop| &&
    (forall k {:trigger pop[k].nearBy} :: 0 <= k < |pop| ==>
      pop[k].nearBy == ToSeq(Built(pop, Sees(P, dist), pop[k]))) &&
    (forall k {:trigger pop[k].touching} :: 0 <= k < |pop| ==>
      pop[k].touching == ToSeq(Built(pop, Touches(P, meets), pop[k])))
  }

  /** After the pass for member i: the lists are built from P, and P agrees
      with the current probes except where member i stands. */
  ghost predicate Rebuilt(pop: seq<Creature>, P: seq<Probe>, dist: (Vec3, Vec3) -> real, meets: (Body, Body) -> bool, i: nat)
    reads pop`nearBy, pop`touching, pop`body, pop`sensorSize
    requires i < |pop|
  {
    ListsFrom(pop, P, dist, meets) &&
    forall k {:trigger P[k]} :: 0 <= k < |pop| && pop[k] != pop[i] ==> P[k] == ProbeOf(pop[k])
  }

  /** Member k of s occurs nowhere else in s. */
  ghost predicate Unique(s: seq<Creature>, k: nat)
    requires k < |s|
  {
    forall j :: 0 <= j < |s| && j != k ==> s[j] != s[k]
  }

  /** Of the members that occur once, the timers of the first i have run
      down one tick from t0 and the rest are still t0. (A creature that
      occurs twice is stepped twice, so its timer is left out.) */
  ghost predicate CountedDown(pop: seq<Creature>, t0: seq<real>, i: nat)
    reads pop`paralyzationTimer
  {
    |t0| == |pop| && i <= |pop| &&
    forall k {:trigger t0[k]} :: 0 <= k < |pop| && Unique(pop, k) ==>
      pop[k].paralyzationTimer == if k < i then Countdown(t0[k]) else t0[k]
  }

  /** The first i members of pop have been stepped: AgedBy from a0 and r0,
      and CountedDown from t0. */
  ghost predicate SteppedTo(pop: seq<Creature>, a0: seq<real>, r0: seq<real>, t0: seq<real>, i: nat)
    requires i <= |pop|
    reads pop`age, pop`reproductionTime, pop`paralyzationTimer
  {
    AgedBy(pop, a0, r0, i) && CountedDown(pop, t0, i)
  }

  /** The state the `step()` loop keeps after its first i passes, with the
      probes P the last pass read. */
  ghost predicate Looped(pop: seq<Creature>, a0: seq<real>, r0: seq<real>, t0: seq<real>, P: seq<Probe>,
                         dist: (Vec3, Vec3) -> real, meets: (Body, Body) -> bool, i: nat)
    requires i <= |pop|
    reads pop`age, pop`reproductionTime, pop`paralyzationTimer, pop`nearBy, pop`touching, pop`body, pop`sensorSize
  {
    |P| == |pop| && SteppedTo(pop, a0, r0, t0, i) && (i > 0 ==> Rebuilt(pop, P, dist, meets, i - 1))
  }

  /** Before the first step nothing has aged and no timer has run down. */
  lemma Unstepped(s: seq<Creature>)
    ensures SteppedTo(s, AgesOf(s), ClocksOf(s), TimersOf(s), 0)
  {
    assert s[..0] == [];
  }

  /** Each member of s has aged from the clocks a0 and r0 by one tick per
      occurrence of it in s. */
  ghost predicate Aged(s: seq<Creature>, a0: seq<real>, r0: seq<real>)
    reads s`age, s`reproductionTime
  {
    |a0| == |s| && |r0| == |s| &&
    forall k {:trigger a0[k]} :: 0 <= k < |s| ==>
      s[k].age == a0[k] + (multiset(s)[s[k]] as real) / 30.0 &&
      s[k].reproductionTime == r0[k] + (multiset(s)[s[k]] as real) / 30.0
  }

  /** Once every member has been stepped, each has aged by one tick per
      occurrence. */
  lemma AgedAll(s: seq<Creature>, a0: seq<real>, r0: seq<real>)
    requires AgedBy(s, a0, r0, |s|)
    ensures Aged(s, a0, r0)
  {
    assert s[..|s|] == s;
    forall k | 0 <= k < |s|
      ensures s[k].age == a0[k] + (multiset(s)[s[k]] as real) / 30.0
      ensures s[k].reproductionTime == r0[k] + (multiset(s)[s[k]] as real) / 30.0
    {
      assert s[k].age == a0[k] + Ticks(s, |s|, s[k]);
    }
  }

  class World {
    var population: seq<Creature>

    /** The population a new world starts with. */
    constructor ()
      ensures population == []
    {
      population := [];
    }

    /** `addCreature(c)`: appended once at the end; nothing else moves. */
    method AddCreature(creature: Creature)
      modifies this`population
      ensures population == old(population) + [creature]
    {
      population := population + [creature];
    }

    /** `clearInhabitants()`: destroys `population[i]` for i = 0, 1, ... while
        each `destroy` splices the array under the loop, then empties the
        array. The creatures destroyed, in order, are `ClearLoop`'s; every
        other member keeps its body. */
    method ClearInhabitants() returns (ghost destroyed: seq<Creature>)
      requires forall c :: c in population ==> c.world == this
      modifies this`population, population`body
      ensures population == []
      ensures destroyed == ClearLoop(old(population), 0)
      ensures forall c :: c in destroyed ==> c.body.None?
      ensures forall c :: c in old(population) && c !in destroyed ==> c.body == old(c.body)
    {
      ghost var s0 := population;
      ghost var b0 := BodiesOf(s0);
      destroyed := [];
      var i := 0;
      while i < |population|
        invariant forall c :: c in population ==> c in s0 && c.world == this
        invariant destroyed + ClearLoop(population, i) == ClearLoop(s0, 0)
        invariant Bodiless(destroyed) && Kept(s0, b0, destroyed)
        decreases |population| - i
      {
        destroyed := DestroyAt(i, s0, b0, destroyed);
        i := i + 1;
      }
      ClearLoopDone(destroyed, population, i, ClearLoop(s0, 0));
      BodilessMembers(destroyed);
      KeptMembers(s0, b0, destroyed);
      population := [];
    }

    /** One pass of the `clearInhabitants` loop: `population[i].destroy()`. */
    method DestroyAt(i: nat, ghost s0: seq<Creature>, ghost b0: seq<Option<Body>>, ghost done: seq<Creature>)
      returns (ghost destroyed: seq<Creature>)
      requires i < |population|
      requires forall c :: c in population ==> c in s0 && c.world == this
      requires done + ClearLoop(population, i) == ClearLoop(s0, 0)
      requires Bodiless(done) && Kept(s0, b0, done)
      modifies this`population, s0`body
      ensures |population| == |old(population)| - 1
      ensures forall c :: c in population ==> c in s0 && c.world == this
      ensures destroyed + ClearLoop(population, i + 1) == ClearLoop(s0, 0)
      ensures Bodiless(destroyed) && Kept(s0, b0, destroyed)
    {
      var creature := population[i];
      assert creature in population;
      ghost var p0 := population;
      ClearLoopStep(done, p0, i);
      creature.Destroy();
      destroyed := done + [creature];
      assert population == SpliceOut(p0, creature);
      forall k | 0 <= k < |destroyed|
        ensures destroyed[k].body.None?
      {
        if k < |done| {
          assert destroyed[k] == done[k] && old(done[k].body).None?;
        }
      }
      forall k | 0 <= k < |s0| && s0[k] !in destroyed
        ensures s0[k].body == b0[k]
      {
        assert s0[k] !in done && s0[k] != creature;
      }
    }

    /** The loop `clearInhabitants` evidently intends: every member destroyed
        (iterating over a copy that the splices do not shorten). */
    method ClearAll()
      requires forall c :: c in population ==> c.world == this
      modifies this`population, population`body
      ensures population == []
      ensures forall c :: c in old(population) ==> c.body.None?
    {
      var members := population;
      var i := 0;
      while i < |members|
        invariant 0 <= i <= |members|
        invariant forall k :: 0 <= k < i ==> members[k].body.None?
      {
        members[i].Destroy();
        i := i + 1;
      }
      population := [];
    }

    /** `updateNearBy(...)`: afterwards every member's nearby and touching
        lists are exactly what the pair loop builds from empty lists (nothing
        from earlier survives), with `dist` for `Vector3.Distance` and `meets`
        for `intersectsMesh`. */
    method UpdateNearBy(dist: (Vec3, Vec3) -> real, meets: (Body, Body) -> bool)
      modifies population`nearBy, population`touching
      ensures forall k {:trigger population[k].nearBy} :: 0 <= k < |population| ==>
        population[k].nearBy == ToSeq(Built(population, Sees(Probes(population), dist), population[k]))
      ensures forall k {:trigger population[k].touching} :: 0 <= k < |population| ==>
        population[k].touching == ToSeq(Built(population, Touches(Probes(population), meets), population[k]))
    {
      var pop := population;
      ResetLists(pop);
      ghost var P := Probes(pop);
      EmptyListsStart(pop, Sees(P, dist), Touches(P, meets), 0);
      LinkRows(pop, P, dist, meets);
      ListsBuilt(pop, Sees(P, dist), Touches(P, meets));
    }

    /** `step()`: for each member in turn, rebuild the proximity lists and
        step it. Membership never changes (dead creatures stay), and each
        creature ages by one tick per occurrence in the population. The lists
        left behind are those built from the probes P taken before the last
        member's step, which differ from the final probes at most where the
        last member stands. The paralysis timer of every creature that occurs
        once in the population runs down by one tick if it was positive. */
    method Step(root: real -> real, dist: (Vec3, Vec3) -> real, meets: (Body, Body) -> bool)
      returns (ghost P: seq<Probe>)
      requires RootPositive(root)
      modifies population`nearBy, population`touching, population`body, population`energy,
        population`age, population`reproductionTime, population`paralyzationTimer
      ensures population == old(population) && |P| == |population|
      ensures Aged(population, old(AgesOf(population)), old(ClocksOf(population)))
      ensures forall k {:trigger population[k].nearBy} :: 0 <= k < |population| ==>
        population[k].nearBy == ToSeq(Built(population, Sees(P, dist), population[k]))
      ensures forall k {:trigger population[k].touching} :: 0 <= k < |population| ==>
        population[k].touching == ToSeq(Built(population, Touches(P, meets), population[k]))
      ensures forall k {:trigger P[k]} :: 0 <= k < |population| && population[k] != population[|population| - 1] ==>
        P[k] == ProbeOf(population[k])
      ensures CountedDown(population, old(TimersOf(population)), |population|)
    {
      ghost var a0, r0, t0 := AgesOf(population), ClocksOf(population), TimersOf(population);
      Unstepped(population);
      P := StepAll(root, dist, meets, a0, r0, t0);
      AgedAll(population, a0, r0);
    }

    /** The `step()` loop itself, from the clocks a0 and r0 and the timers
        t0 it starts with. */
    method StepAll(root: real -> real, dist: (Vec3, Vec3) -> real, meets: (Body, Body) -> bool,
                   ghost a0: seq<real>, ghost r0: seq<real>, ghost t0: seq<real>) returns (ghost P: seq<Probe>)
      requires RootPositive(root) && SteppedTo(population, a0, r0, t0, 0)
      modifies population`nearBy, population`touching, population`body, population`energy,
        population`age, population`reproductionTime, population`paralyzationTimer
      ensures population == old(population) && Looped(population, a0, r0, t0, P, dist, meets, |population|)
    {
      P := Probes(population);
      var i := 0;
      while i < |population|
        invariant 0 <= i <= |population| && population == old(population)
        invariant Looped(population, a0, r0, t0, P, dist, meets, i)
      {
        P := StepAt(i, root, dist, meets, a0, r0, t0);
        i := i + 1;
      }
    }

    /** One pass of the `step()` loop: rebuild the lists from the probes P
        taken on entry, then step member i, which alone ages, runs its timer
        down and changes its body. */
    method StepAt(i: nat, root: real -> real, dist: (Vec3, Vec3) -> real, meets: (Body, Body) -> bool,
                  ghost a0: seq<real>, ghost r0: seq<real>, ghost t0: seq<real>) returns (ghost P: seq<Probe>)
      requires RootPositive(root) && i < |population| && SteppedTo(population, a0, r0, t0, i)
      modifies population`nearBy, population`touching, population`body, population`energy,
        population`age, population`reproductionTime, population`paralyzationTimer
      ensures population == old(population) && P == old(Probes(population))
      ensures Looped(population, a0, r0, t0, P, dist, meets, i + 1)
    {
      P := RebuildLists(dist, meets);
      StepMember(i, root, a0, r0, t0);
    }

    /** `updateNearBy()` inside the `step()` loop, with the probes P it
        reads. */
    method RebuildLists(dist: (Vec3, Vec3) -> real, meets: (Body, Body) -> bool) returns (ghost P: seq<Probe>)
      modifies population`nearBy, population`touching
      ensures P == Probes(population) && ListsFrom(population, P, dist, meets)
      ensures forall k {:trigger P[k]} :: 0 <= k < |population| ==> P[k] == ProbeOf(population[k])
    {
      P := Probes(population);
      forall k | 0 <= k < |population|
        ensures P[k] == ProbeOf(population[k])
      {
        ProbesAt(population, k);
      }
      UpdateNearBy(dist, meets);
    }

    /** `population[i].step()` inside the `step()` loop: member i ages by a
        tick and its paralysis timer runs down; every other member keeps its
        body, energy and timer. */
    method StepMember(i: nat, root: real -> real, ghost a0: seq<real>, ghost r0: seq<real>, ghost t0: seq<real>)
      requires RootPositive(root) && i < |population| && SteppedTo(population, a0, r0, t0, i)
      modifies population`body, population`energy, population`age, population`reproductionTime,
        population`paralyzationTimer
      ensures SteppedTo(population, a0, r0, t0, i + 1)
      ensures population[i].paralyzationTimer == Countdown(old(population[i].paralyzationTimer))
      ensures forall k :: 0 <= k < |population| && population[k] != population[i] ==>
        population[k].body == old(population[k].body) && population[k].energy == old(population[k].energy) &&
        population[k].paralyzationTimer == old(population[k].paralyzationTimer)
    {
      var creature := population[i];
      creature.Step(root);
      forall k | 0 <= k < |population|
        ensures population[k].age == a0[k] + Ticks(population, i + 1, population[k])
        ensures population[k].reproductionTime == r0[k] + Ticks(population, i + 1, population[k])
      {
        TicksNext(population, i, population[k]);
      }
    }
  }
}
