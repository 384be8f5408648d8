/** The wandering rule `explore` of herbivores and predators
    (frontend/src/world/herbivore.ts, frontend/src/world/predator.ts; the two
    are the same apart from a log line). `Math.random()` is called once for
    the turn decision, once more for the turn's direction only when turning,
    and once for the go decision. */
module Roaming {
  import opened Basics

  /** What one call of `explore` asks for: a `turn` with the given torque, and
      whether it calls `go(1)`. */
  datatype Plan = Plan(turn: Option<real>, go: bool)

  /** The number of draws `explore` consumes with first draw `d`. */
  function ExploreDraws(d: real): nat
  {
    if d < 0.1 then 3 else 2
  }

  /** The plan for a creature whose impostor mass is `mass` (0 without one),
      and the draws left over. */
  function ExplorePlan(mass: real, ds: seq<real>): (r: (Plan, seq<real>))
    requires |ds| >= 1 && |ds| >= ExploreDraws(ds[0])
    ensures r.0.turn.Some? <==> ds[0] < 0.1
    ensures r.0.turn.Some? ==> Abs(r.0.turn.value) == Abs(mass)
    ensures r.0.turn.Some? && mass > 0.0 ==> (r.0.turn.value > 0.0 <==> ds[1] > 0.5)
    ensures r.0.go <==> ds[ExploreDraws(ds[0]) - 1] < 0.1
    ensures r.1 == ds[ExploreDraws(ds[0])..]
  {
    var torque := 1.0 * mass;
    if ds[0] < 0.1 then
      (Plan(Some(if ds[1] > 0.5 then torque else -torque), ds[2] < 0.1), ds[3..])
    else
      (Plan(None, ds[1] < 0.1), ds[2..])
  }

  /** Whether `explore` goes does not depend on whether it turned: only the
      draw after the turn decision (and its direction draw) counts. */
  lemma GoIndependentOfTurn(mass: real, turnSign: real, go: real)
    ensures ExplorePlan(mass, [0.05, turnSign, go]).0.go == ExplorePlan(mass, [0.5, go]).0.go == (go < 0.1)
    ensures ExplorePlan(mass, [0.05, turnSign, go]).0.turn.Some? && ExplorePlan(mass, [0.5, go]).0.turn.None?
  {
  }
}
