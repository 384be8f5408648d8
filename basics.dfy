/** Value types shared by the whole simulation model: optional values, 3-vectors,
    the physical body a creature owns, and the random draws that stand for
    `Math.random()`. */
module Basics {

  datatype Option<+T> = None | Some(value: T)

  function Abs(x: real): real { if x < 0.0 then -x else x }

  /** A Babylon `Vector3`. */
  datatype Vec3 = Vec3(x: real, y: real, z: real)

  const Origin := Vec3(0.0, 0.0, 0.0)

  function Add(p: Vec3, q: Vec3): Vec3 { Vec3(p.x + q.x, p.y + q.y, p.z + q.z) }

  function Scale(p: Vec3, k: real): Vec3 { Vec3(p.x * k, p.y * k, p.z * k) }

  /** What the physics engine reports about a body: its mass, the length of its
      linear velocity, its angular velocity about the vertical axis, and the
      signed angle about the vertical axis from the heading to the linear
      velocity (Babylon's `GetAngleBetweenVectors` with normal (0, 1, 0)). */
  datatype Impostor = Impostor(mass: real, speed: real, spin: real, drift: real)

  /** A JavaScript number that a division can produce. */
  datatype Ratio = Finite(v: real) | PlusInfinity | MinusInfinity | NotANumber

  /** A mesh owned by exactly one creature: its position, scaling and box
      dimensions, the direction it faces (what `getDirection` reports,
      normalized; the starting bodies carry the rational approximation
      (0.707, 0, 0.707) of the normalized (1, 0, 1)), its physics impostor if
      any, and its material's alpha, `None` when the mesh has no material. */
  datatype Body = Body(
    position: Vec3,
    scaling: Vec3,
    dims: Vec3,
    facing: Vec3,
    impostor: Option<Impostor>,
    alpha: Option<Ratio>)

  /** `body?.physicsImpostor?.mass || 0` */
  function MassOf(body: Option<Body>): real
  {
    if body.Some? && body.value.impostor.Some? then body.value.impostor.value.mass else 0.0
  }

  predicate HasImpostor(body: Option<Body>) { body.Some? && body.value.impostor.Some? }

  /** `body?.position || new Vector3()` */
  function PositionOf(body: Option<Body>): Vec3
  {
    if body.Some? then body.value.position else Origin
  }

  /** The class of a creature: `Base` is a plain `Creature` (what the inherited
      `createChild` builds), the others are its three subclasses. */
  datatype Kind = Base | Plant | Herbivore | Predator

  /** `creature instanceof T`: every creature is an instance of `Creature`,
      and of a subclass only when it was built as one. */
  predicate IsA(k: Kind, t: Kind): (r: bool)
    ensures t == Base ==> r
    ensures t != Base ==> (r <==> k == t)
  {
    t == Base || k == t
  }

  /** A value `Math.random()` can return. */
  predicate IsDraw(d: real) { 0.0 <= d < 1.0 }

  predicate AreDraws(ds: seq<real>) { forall k :: 0 <= k < |ds| ==> IsDraw(ds[k]) }

  /** The host's `Math.sqrt`, as far as the model needs it. */
  ghost predicate RootPositive(root: real -> real) { forall x :: x > 1.0 ==> root(x) > 0.0 }

  /** A draw times a nonzero rate stays strictly below the rate in size. */
  lemma ScaledDraw(d: real, rate: real)
    requires IsDraw(d)
    ensures rate != 0.0 ==> Abs(d * rate) < Abs(rate)
    ensures rate > 0.0 && d > 0.0 ==> d * rate > 0.0
    ensures rate == 0.0 ==> d * rate == 0.0
  {
    if rate > 0.0 {
      PositiveRate(d, rate);
    } else if rate < 0.0 {
      NegativeRate(d, rate);
    }
  }

  lemma PositiveRate(d: real, rate: real)
    requires IsDraw(d) && rate > 0.0
    ensures 0.0 <= d * rate < rate
    ensures d > 0.0 ==> d * rate > 0.0
  {
  }

  lemma NegativeRate(d: real, rate: real)
    requires IsDraw(d) && rate < 0.0
    ensures rate < d * rate <= 0.0
  {
  }
}
