/** The arithmetic of a creature's life (frontend/src/world/creature.ts): the
    growth rate `grow` picks, what growing does to a body and to energy, the
    energy `takeEnergy` moves, the JavaScript division behind
    `energyPercentage`, and the configuration `reproduce` gives a child. */
module Vitals {
  import opened Basics
  import opened Mutation

  /** `x / k` keeps the sign of `x` when `k` is positive. */
  lemma QuotientSign(x: real, k: real)
    requires k > 0.0
    ensures x / k > 0.0 <==> x > 0.0
    ensures x / k < 0.0 <==> x < 0.0
  {
    var q := x / k;
    assert q * k == x;
    if q > 0.0 { PositiveProduct(q, k); }
    if q < 0.0 { PositiveProduct(-q, k); }
  }

  lemma PositiveProduct(x: real, y: real)
    requires x > 0.0 && y > 0.0
    ensures x * y > 0.0
  {
  }

  /** The rate `grow()` uses when it is given none: `growthRate` with its
      distance from 1 divided by sqrt(age) / 10 once the creature is older
      than 1. The rate stays on the same side of 1 as `growthRate`. Between
      ages 1 and 100 the divisor is below 1, so the distance from 1 is
      enlarged rather than reduced, and a rate below 1 can become negative
      (growthRate 0.7 at age 4 gives -0.5). */
  function DefaultRate(growthRate: real, age: real, root: real -> real): (r: real)
    requires RootPositive(root)
    ensures age <= 1.0 ==> r == growthRate
    ensures r > 1.0 <==> growthRate > 1.0
    ensures r < 1.0 <==> growthRate < 1.0
  {
    var damping := if age > 1.0 then root(age) / 10.0 else 1.0;
    assert damping > 0.0;
    QuotientSign(growthRate - 1.0, damping);
    1.0 + (growthRate - 1.0) / damping
  }

  /** `if (!growthRate)`: a missing rate and a rate of 0 both fall back to the
      default. */
  function EffectiveRate(requested: Option<real>, growthRate: real, age: real, root: real -> real): (r: real)
    requires RootPositive(root)
    ensures requested.Some? && requested.value != 0.0 ==> r == requested.value
    ensures requested.None? || requested.value == 0.0 ==> r == DefaultRate(growthRate, age, root)
  {
    if requested.None? || requested.value == 0.0 then DefaultRate(growthRate, age, root) else requested.value
  }

  /** The rate `shrink()` hands to `grow`: the given one, or (2 - growthRate)^2.
      The default is never negative, and it is 0 (so that `grow` falls back to
      its own default and grows) exactly when growthRate is 2. */
  function ShrinkRequest(requested: Option<real>, growthRate: real): (r: Option<real>)
    ensures requested.Some? && requested.value != 0.0 ==> r == requested
    ensures requested.None? || requested.value == 0.0 ==>
      r.Some? && (growthRate == 2.0 ==> r.value == 0.0) && (growthRate != 2.0 ==> r.value > 0.0)
  {
    if requested.None? || requested.value == 0.0 then
      SquareSign(2.0 - growthRate);
      Some(Power(2.0 - growthRate, 2))
    else requested
  }

  lemma SquareSign(x: real)
    ensures x != 0.0 ==> Power(x, 2) > 0.0
    ensures x == 0.0 ==> Power(x, 2) == 0.0
  {
    assert Power(x, 2) == x * Power(x, 1);
    assert Power(x, 1) == x;
    if x > 0.0 { PositiveProduct(x, x); }
    if x < 0.0 { PositiveProduct(-x, -x); assert (-x) * (-x) == x * x; }
  }

  /** A body scaled by `rate`: every scaling factor and the impostor's mass
      are multiplied by it, while position, heading, velocity and spin are
      kept (the source saves and restores the velocities around the mass
      update). */
  function Grown(body: Option<Body>, rate: real): (r: Option<Body>)
    ensures r.Some? == body.Some? && HasImpostor(r) == HasImpostor(body)
    ensures MassOf(r) == MassOf(body) * rate
    ensures r.Some? ==> r.value.position == body.value.position && r.value.facing == body.value.facing
    ensures r.Some? ==>
      r.value.scaling == Scale(body.value.scaling, rate) &&
      r.value.dims == body.value.dims && r.value.alpha == body.value.alpha
    ensures HasImpostor(r) ==>
      r.value.impostor.value.speed == body.value.impostor.value.speed &&
      r.value.impostor.value.spin == body.value.impostor.value.spin &&
      r.value.impostor.value.drift == body.value.impostor.value.drift
  {
    match body
    case None => None
    case Some(b) =>
      var impostor := match b.impostor
        case None => None
        case Some(p) => Some(p.(mass := p.mass * rate));
      Some(b.(scaling := Scale(b.scaling, rate), impostor := impostor))
  }

  /** The energy `grow` charges: 10 per unit of mass gained, where a new mass
      of 0 counts as no change (`newMass || oldMass`). */
  function GrowthCost(oldMass: real, newMass: real): (r: real)
    ensures newMass != 0.0 ==> r + 10.0 * oldMass == 10.0 * newMass
    ensures newMass == 0.0 ==> r == 0.0
  {
    10.0 * ((if newMass != 0.0 then newMass else oldMass) - oldMass)
  }

  /** `grow(rate)` on a body and an energy level: nothing happens when the rate
      and the mass are both at most 0; otherwise the body is scaled and the
      energy pays for the mass gained. Energy plus 10 times mass is kept
      whenever the rate is not 0; at rate 0 a positive mass drops to 0 and
      nothing is charged, because the new mass 0 reads as the old one. */
  function GrowStep(body: Option<Body>, energy: real, rate: real): (r: (Option<Body>, real))
    ensures rate <= 0.0 && MassOf(body) <= 0.0 ==> r == (body, energy)
    ensures !(rate <= 0.0 && MassOf(body) <= 0.0) ==>
      r == (Grown(body, rate), energy - GrowthCost(MassOf(body), MassOf(body) * rate))
    ensures rate != 0.0 ==> r.1 + 10.0 * MassOf(r.0) == energy + 10.0 * MassOf(body)
    ensures rate == 0.0 ==> r.1 == energy && (MassOf(body) > 0.0 ==> MassOf(r.0) == 0.0)
    ensures !HasImpostor(body) ==> r.1 == energy
  {
    var oldMass := MassOf(body);
    if rate <= 0.0 && oldMass <= 0.0 then (body, energy)
    else
      var grown := Grown(body, rate);
      ZeroFactor(oldMass, rate);
      (grown, energy - GrowthCost(oldMass, MassOf(grown)))
  }

  lemma ZeroFactor(x: real, y: real)
    ensures y != 0.0 && x * y == 0.0 ==> x == 0.0
  {
    if x > 0.0 && y > 0.0 { PositiveProduct(x, y); }
    if x > 0.0 && y < 0.0 { PositiveProduct(x, -y); }
    if x < 0.0 && y > 0.0 { PositiveProduct(-x, y); }
    if x < 0.0 && y < 0.0 { PositiveProduct(-x, -y); }
  }

  /** Growing costs energy and shrinking releases it: for a positive mass, a
      rate above 1 has a positive cost, a rate in (0, 1) a negative one. */
  lemma GrowthPaysForMass(m: real, rate: real)
    requires m > 0.0 && rate > 0.0
    ensures rate > 1.0 ==> GrowthCost(m, m * rate) > 0.0
    ensures rate < 1.0 ==> GrowthCost(m, m * rate) < 0.0
    ensures rate == 1.0 ==> GrowthCost(m, m * rate) == 0.0
  {
    PositiveProduct(m, rate);
    if rate > 1.0 { PositiveProduct(m, rate - 1.0); }
    if rate < 1.0 { PositiveProduct(m, 1.0 - rate); }
  }

  /** The energy `takeEnergy` moves to the taker: its momentum (mass times
      speed) plus a tenth of its initial energy, so at least that tenth
      whenever mass and speed are not negative. */
  function TransferAmount(mass: real, speed: real, initialEnergy: real): (r: real)
    ensures mass >= 0.0 && speed >= 0.0 ==> r >= 0.1 * initialEnergy
    ensures mass == 0.0 || speed == 0.0 ==> r == 0.1 * initialEnergy
  {
    NonNegativeFactors(mass, speed);
    mass * speed + 0.1 * initialEnergy
  }

  /** `energy / initialEnergy` as JavaScript computes it: a division by 0 gives
      an infinity of the numerator's sign, or NaN for 0 / 0. */
  function EnergyRatio(energy: real, initialEnergy: real): (r: Ratio)
    ensures r.Finite? <==> initialEnergy != 0.0
    ensures r.Finite? ==> r.v * initialEnergy == energy
    ensures initialEnergy == 0.0 ==>
      (r == PlusInfinity <==> energy > 0.0) && (r == MinusInfinity <==> energy < 0.0)
  {
    if initialEnergy != 0.0 then Finite(energy / initialEnergy)
    else if energy > 0.0 then PlusInfinity
    else if energy < 0.0 then MinusInfinity
    else NotANumber
  }

  /** JavaScript's `r > t` for a finite `t`. */
  predicate Exceeds(r: Ratio, t: real)
  {
    match r
    case Finite(v) => v > t
    case PlusInfinity => true
    case MinusInfinity => false
    case NotANumber => false
  }

  /** `energy / initialEnergy > t`, stated without the division: above t
      times the initial energy when that is positive, below it when it is
      negative, positive energy when it is 0. */
  lemma {:induction false} RatioExceeds(energy: real, initialEnergy: real, t: real)
    ensures initialEnergy > 0.0 ==> (Exceeds(EnergyRatio(energy, initialEnergy), t) <==> energy > t * initialEnergy)
    ensures initialEnergy < 0.0 ==> (Exceeds(EnergyRatio(energy, initialEnergy), t) <==> energy < t * initialEnergy)
    ensures initialEnergy == 0.0 ==> (Exceeds(EnergyRatio(energy, initialEnergy), t) <==> energy > 0.0)
  {
    if initialEnergy > 0.0 {
      var q := energy / initialEnergy;
      assert q * initialEnergy == energy;
      ScaledCompare(q, t, initialEnergy);
    } else if initialEnergy < 0.0 {
      var q := energy / initialEnergy;
      assert q * initialEnergy == energy;
      assert (-q) * (-initialEnergy) == energy;
      assert t * initialEnergy == (-t) * (-initialEnergy);
      ScaledCompare(-q, -t, -initialEnergy);
    }
  }

  lemma ScaledCompare(q: real, t: real, k: real)
    requires k > 0.0
    ensures q > t <==> q * k > t * k
  {
    if q > t { PositiveProduct(q - t, k); assert (q - t) * k == q * k - t * k; }
    if q <= t { NonNegativeProduct(t - q, k); assert (t - q) * k == t * k - q * k; }
  }

  lemma NonNegativeProduct(x: real, y: real)
    requires x >= 0.0 && y > 0.0
    ensures x * y >= 0.0
  {
    if x > 0.0 { PositiveProduct(x, y); }
  }

  /** The alpha `step` writes to a material: the ratio clamped to [0, 1]; a NaN
      passes both comparisons and is written as is. */
  function Transparency(ratio: Ratio): (r: Ratio)
    ensures r == NotANumber || (r.Finite? && 0.0 <= r.v <= 1.0)
    ensures ratio.Finite? && 0.0 <= ratio.v <= 1.0 ==> r == ratio
    ensures r == NotANumber <==> ratio == NotANumber
  {
    match ratio
    case Finite(v) => if v < 0.0 then Finite(0.0) else if v > 1.0 then Finite(1.0) else ratio
    case PlusInfinity => Finite(1.0)
    case MinusInfinity => Finite(0.0)
    case NotANumber => NotANumber
  }

  /** What `reproduce` reads of a parent. */
  datatype Traits = Traits(
    growthRate: real,
    maxAge: real,
    sensorSize: real,
    threshold: real,
    energy: real,
    initialEnergy: real,
    initialSize: real,
    mutationRate: real)

  /** `CreatureConfiguration`. */
  datatype Config = Config(
    growthRate: real,
    maxAge: real,
    size: real,
    sensorSize: real,
    energy: real,
    mutationRate: real,
    position: Vec3)

  function Mean(x: real, y: real): real { (x + y) / 2.0 }

  /** A parent's energy, capped at its initial energy. */
  function Capped(energy: real, cap: real): (r: real)
    ensures r <= energy && r <= cap && (r == energy || r == cap)
  {
    if energy > cap then cap else energy
  }

  /** The energy a child gets: the mean of the parents' capped energies. It
      never exceeds what the parents give up by halving their own energy, and
      equals it when neither parent is above its initial energy. */
  function ChildEnergy(a: Traits, b: Traits): (r: real)
    ensures a.energy / 2.0 + b.energy / 2.0 + r <= a.energy + b.energy
    ensures a.energy <= a.initialEnergy && b.energy <= b.initialEnergy ==>
      a.energy / 2.0 + b.energy / 2.0 + r == a.energy + b.energy
  {
    Mean(Capped(a.energy, a.initialEnergy), Capped(b.energy, b.initialEnergy))
  }

  function Power(x: real, n: nat): (r: real)
    ensures x >= 0.0 ==> r >= 0.0
  {
    if n == 0 then 1.0
    else
      var p := Power(x, n - 1);
      NonNegativeFactors(x, p);
      x * p
  }

  lemma NonNegativeFactors(x: real, y: real)
    ensures x >= 0.0 && y >= 0.0 ==> x * y >= 0.0
  {
    if x > 0.0 && y > 0.0 { PositiveProduct(x, y); }
  }

  /** The number of `Math.random()` calls `reproduce` makes. */
  const ReproductionDraws := 20

  /** Where `reproduce` places a child: the parents' midpoint, mutated with
      rate initialSize * mutationRate of parent `a` (six draws). */
  function ChildPosition(a: Traits, posA: Vec3, posB: Vec3, ds: seq<real>): (r: Vec3)
    requires AreDraws(ds) && |ds| >= 6
    ensures Within(Vector(r), Vector(Scale(Add(posA, posB), 0.5)), a.initialSize * a.mutationRate)
  {
    Mutate(Vector(Scale(Add(posA, posB), 0.5)), a.initialSize * a.mutationRate, ds).0.v
  }

  /** One inherited trait: the parents' mean, mutated with the mean times
      `rate` (two draws). */
  function Inherited(x: real, y: real, rate: real, signDraw: real, sizeDraw: real): (r: real)
    requires IsDraw(sizeDraw)
    ensures Near(r, Mean(x, y), Mean(x, y) * rate)
  {
    Jitter(Mean(x, y), Mean(x, y) * rate, signDraw, sizeDraw)
  }

  /** The child's size: the parents' mean size mutated like any trait, then
      raised to 0.01 if it fell below. */
  function ChildSize(x: real, y: real, rate: real, signDraw: real, sizeDraw: real): (r: real)
    requires IsDraw(sizeDraw)
    ensures r >= 0.01
    ensures r == Inherited(x, y, rate, signDraw, sizeDraw) || (r == 0.01 && Inherited(x, y, rate, signDraw, sizeDraw) < 0.01)
  {
    var size := Inherited(x, y, rate, signDraw, sizeDraw);
    if size < 0.01 then 0.01 else size
  }

  /** The configuration `reproduce` builds for a child from parent `a` (the
      one whose method runs, and whose mutation rate is used throughout),
      parent `b`, the already mutated position and the next 12 draws: two
      for the size, then two for each field in the order the configuration
      lists them. The growth rate mutates with the tenth power of the
      mutation rate, and the energy starts from the capped mean. */
  function ChildConfig(a: Traits, b: Traits, position: Vec3, ds: seq<real>): (r: Config)
    requires AreDraws(ds) && |ds| >= 12
    ensures r.position == position && r.size >= 0.01
  {
    var rate := a.mutationRate;
    var energy := ChildEnergy(a, b);
    Config(
      Inherited(a.growthRate, b.growthRate, Power(rate, 10), ds[2], ds[3]),
      Inherited(a.maxAge, b.maxAge, rate, ds[4], ds[5]),
      ChildSize(a.initialSize, b.initialSize, rate, ds[0], ds[1]),
      Inherited(a.sensorSize, b.sensorSize, rate, ds[6], ds[7]),
      Inherited(energy, energy, rate, ds[8], ds[9]),
      Inherited(a.mutationRate, b.mutationRate, rate, ds[10], ds[11]),
      position)
  }
}
