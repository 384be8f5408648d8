# alife-web simulation core in Dafny

A model of the bookkeeping core of the alife-web artificial-life simulator.
Creatures live in a world, grow, spend and trade energy, reproduce with
mutation, wander at random, and notice which other creatures are near them
or touching them. The model covers:

- the `Creature` class (creature.ts) and its subclasses' construction and
  `explore` rule (herbivore.ts, predator.ts);
- the `World` class (world.ts): the population array, `clearInhabitants`,
  the pair loop of `updateNearBy` and the per-tick `step`;
- `Utils.mutate` (utils.ts).

Modules, one per file:

| file | module | what it holds |
|---|---|---|
| basics.dfy | Basics | `Option`, 3-vectors, bodies (mesh plus physics impostor), creature kinds, random draws |
| mutation.dfy | Mutation | `Utils.mutate` over numbers, vectors and records, with explicit draws |
| vitals.dfy | Vitals | the arithmetic of `grow`, `shrink`, `takeEnergy`, `energyPercentage`, the alpha clamp and `reproduce`'s child configuration |
| population.dfy | Population | `indexOf`, `splice(indexOf(x), 1)` and the destroy-while-iterating loop of `clearInhabitants` |
| proximity.dfy | Proximity | a specification of what `updateNearBy`'s pair loop builds, and the relations it yields |
| roaming.dfy | Roaming | the `explore` decision rule |
| ecosystem.dfy | Ecosystem | the classes `Creature` and `World`, which update their fields in place |

How the model treats the source's environment:

- **Bodies.** A Babylon mesh with its physics impostor is a value (`Body`):
  position, scaling, size, facing, an optional impostor (mass, speed, spin,
  drift angle) and an optional material alpha. Each creature owns its body.
- **Physics.** `applyImpulse` calls are appended to the creature's
  `impulses` list instead of being executed.
- **Randomness.** Each `Math.random()` call is one element of an explicit
  sequence of draws in [0, 1). The draws are consumed in the order the
  source makes the calls.
- **Engine functions.** `Math.sqrt`, `Vector3.Distance` and `intersectsMesh`
  are parameters (`root`, `dist`, `meets`). Only `sqrt`'s positivity above
  1 is assumed of `root`.
- **Numbers.** They are `real`. A division by `initialEnergy` is modelled
  with its IEEE outcomes (±Infinity, NaN) through the `Ratio` datatype,
  because `canReproduce` and the alpha clamp depend on them.

## Model

| member | source | states |
|---|---|---|
| Basics.IsA | frontend/src/world/creature.ts:129 | `instanceof`: every creature is an instance of the base type, and of a subclass exactly when it was built as one |
| Mutation.Jitter | frontend/src/world/utils.ts:26-28 | the scalar result is strictly within the rate of the input (equal to it at rate 0); for a positive rate and draw it lies below the input exactly when the first draw exceeds 0.5 |
| Mutation.JitterMagnitude | frontend/src/world/utils.ts:26-27 | the distance moved is the second draw times the rate, downwards iff the first draw exceeds 0.5 |
| Mutation.Mutate | frontend/src/world/utils.ts:4-29 | the result has the input's shape (number, vector, or record with the same keys in order, recursively), every number is within its rate, and exactly the draws the value needs are consumed |
| Mutation.MutateFields | frontend/src/world/utils.ts:16-22 | each record field keeps its key and is mutated with the field-times-rate for numbers and the unchanged rate otherwise; together the fields consume exactly the draws they need, and the rest are returned |
| Mutation.MutateKeepsKeys | frontend/src/world/utils.ts:13-24 | a mutated record has exactly the input's key list |
| Mutation.NumericFieldBound | frontend/src/world/utils.ts:17-21 | a numeric field v of a record mutated at rate r stays numeric and within v·r of v |
| Mutation.FieldWithin | frontend/src/world/utils.ts:17-21 | any value within a record's bounds keeps a numeric field numeric and within field·rate |
| Mutation.ZeroRateIdentity | frontend/src/world/utils.ts:26-28 | with rate 0, mutation returns the input unchanged, at every depth |
| Vitals.DefaultRate | frontend/src/world/creature.ts:264-267 | the default growth rate equals growthRate up to age 1, and is above (below) 1 exactly when growthRate is |
| Vitals.EffectiveRate | frontend/src/world/creature.ts:263-267 | a given non-zero rate is used as is; a missing or zero rate falls back to the default rate |
| Vitals.ShrinkRequest | frontend/src/world/creature.ts:288-293 | `shrink`'s default rate is (2 − growthRate)², positive unless growthRate is 2; a given non-zero rate passes through |
| Vitals.Grown | frontend/src/world/creature.ts:277-283 | scaling multiplies every scaling factor and the mass by the rate; the position, facing, box dimensions, alpha, velocities and drift are kept |
| Vitals.GrowthCost | frontend/src/world/creature.ts:285 | the energy charged is 10·(new mass − old mass), or nothing when the new mass reads as 0 |
| Vitals.GrowStep | frontend/src/world/creature.ts:269-286 | with rate ≤ 0 and mass ≤ 0 nothing changes; otherwise the body grows; for a non-zero rate energy + 10·mass is conserved; at rate 0 a positive mass is dropped to 0 and nothing is charged; without an impostor energy is untouched |
| Vitals.GrowthPaysForMass | frontend/src/world/creature.ts:278-285 | growing (rate > 1) costs energy, shrinking (rate < 1) returns energy, rate 1 is free |
| Vitals.TransferAmount | frontend/src/world/creature.ts:296-298 | the energy taken is at least 10% of the taker's initial energy for non-negative mass and speed, exactly that when either is 0 |
| Vitals.EnergyRatio | frontend/src/world/creature.ts:64-66 | `energyPercentage` is finite iff initialEnergy ≠ 0, and then times initialEnergy gives energy; otherwise ±Infinity by the sign of energy |
| Vitals.RatioExceeds | frontend/src/world/creature.ts:68-72 | the percentage exceeds t iff energy > t·initialEnergy (for positive initialEnergy), with the flipped and infinite cases spelled out |
| Vitals.Transparency | frontend/src/world/creature.ts:172-178 | the alpha written is in [0, 1] (or NaN from NaN), and a percentage already in [0, 1] is kept |
| Vitals.Capped | frontend/src/world/creature.ts:235-236 | a parent's energy is capped at its initial energy |
| Vitals.ChildEnergy | frontend/src/world/creature.ts:235-254 | parents' halves plus the child's energy never exceed the parents' energy before, and equal it when neither parent is above its initial energy |
| Vitals.ChildPosition | frontend/src/world/creature.ts:219-222 | the child's position is the parents' midpoint mutated with rate initialSize·mutationRate |
| Vitals.Inherited | frontend/src/world/creature.ts:241-246 | an inherited trait is within mean·rate of the parents' mean |
| Vitals.ChildSize | frontend/src/world/creature.ts:223-225 | the child's size is the mutated mean size, raised to 0.01 when below |
| Vitals.ChildConfig | frontend/src/world/creature.ts:240-248 | the configuration keeps the mutated position and has size ≥ 0.01 |
| Population.IndexOf | frontend/src/world/creature.ts:337 | `indexOf` is −1 iff the element is absent, and otherwise the first position holding it |
| Population.SpliceStart | frontend/src/world/creature.ts:337 | `splice`'s start: a start in range is kept, a negative one counts from the end |
| Population.SpliceOne | frontend/src/world/creature.ts:337 | `splice(start, 1)` removes one element when the start is inside the array, none at its end |
| Population.SpliceOut | frontend/src/world/creature.ts:337 | `splice(indexOf(x), 1)` removes exactly the first occurrence of a member, but the last element of a non-empty array when x is absent |
| Population.SpliceOutOne | frontend/src/world/creature.ts:337 | on a member, `splice(indexOf(x), 1)` removes exactly one copy of x and nothing else from the multiset of creatures |
| Population.ClearLoop | frontend/src/world/world.ts:44-47 | the creatures the loop destroys, in order; each is a member of the array it started from |
| Population.ClearLoopStep | frontend/src/world/world.ts:44-47 | one iteration destroys the creature at i and continues at i + 1 over the spliced array |
| Population.ClearLoopDone | frontend/src/world/world.ts:44 | once the index passes the shrunken array, the destroyed creatures are all there are |
| Population.SpliceOutAt | frontend/src/world/creature.ts:337 | without duplicates, removing population[k] leaves the others in order, still without duplicates |
| Population.ClearLoopSkips | frontend/src/world/world.ts:44-47 | from position \|l\| of l + r, the loop destroys exactly the even positions of r |
| Population.ClearDestroysEvens | frontend/src/world/world.ts:43-49 | on a population without duplicates, `clearInhabitants` destroys exactly the creatures at original positions 0, 2, 4, … |
| Population.SecondSurvives | frontend/src/world/world.ts:43-49 | with two creatures, only the first is destroyed |
| Proximity.ContribSeq | frontend/src/world/world.ts:124-140 | what one pair (i, j) pushes onto creature c's list: j when c is at i and i relates to j, then i when c is at j and j relates to i |
| Proximity.Contrib | frontend/src/world/world.ts:124-140 | one pair pushes at most two entries (one per direction), and only onto the lists of its own two creatures |
| Proximity.Row | frontend/src/world/world.ts:123-141 | what one row of the inner loop has pushed so far; nothing for a creature outside the population |
| Proximity.Rows | frontend/src/world/world.ts:121-142 | what the outer loop has pushed after i rows; nothing for a creature outside the population |
| Proximity.Built | frontend/src/world/world.ts:115-142 | a creature's list when `updateNearBy` returns; empty for a creature outside the population |
| Proximity.PartialNext | frontend/src/world/world.ts:123-141 | one more inner iteration appends exactly the pair's contribution |
| Proximity.PartialDone | frontend/src/world/world.ts:121-142 | the end of row i is the start of row i + 1 |
| Proximity.AllPartialNext | frontend/src/world/world.ts:123-141 | over all members, one more inner iteration is that pair's extension |
| Proximity.AllPartialDone | frontend/src/world/world.ts:121-142 | over all members, the end of row i is the start of row i + 1 |
| Proximity.LinkedHas | frontend/src/world/world.ts:121-142 | b's entry is in a's reference list iff b ≠ a, b is in range and a relates to b |
| Proximity.BuiltIsLinked | frontend/src/world/world.ts:121-142 | without duplicates, a creature's final list is all positions b ≠ a it relates to, in index order |
| Proximity.LinkedClean | frontend/src/world/world.ts:121-124 | without duplicates, no creature is in its own list and no entry repeats |
| Proximity.Sees | frontend/src/world/world.ts:125-134 | the nearby relation holds only between positions of the population |
| Proximity.Touches | frontend/src/world/world.ts:137-140 | the touching relation holds only between positions of the population whose bodies both exist |
| Proximity.NearByExactly | frontend/src/world/world.ts:125-134 | b is in a's nearby list iff b ≠ a and their distance is below a's sensor size, whatever b's sensor size |
| Proximity.TouchingSymmetric | frontend/src/world/world.ts:137-140 | b is in a's touching list iff a is in b's, iff both bodies exist and the meshes intersect |
| Proximity.NearByDirectional | frontend/src/world/world.ts:128-134 | a creature with a wide sensor sees one with a zero sensor, which does not see it back |
| Roaming.ExplorePlan | frontend/src/world/herbivore.ts:19-29 | a turn iff the first draw < 0.1, with torque ± mass, positive iff the second draw > 0.5; go(1) iff the next draw < 0.1; the draws used are returned |
| Roaming.GoIndependentOfTurn | frontend/src/world/predator.ts:21-32 | going depends only on its own draw, with and without a turn |
| Ecosystem.TurnImpulses | frontend/src/world/creature.ts:74-90 | `turn` pushes nothing while paralyzed, without an impostor or at the spin limit in the torque's direction; otherwise two opposite pushes of torque/2, symmetric about the body |
| Ecosystem.Direction | frontend/src/world/creature.ts:92-94 | a creature faces where its body faces, and along the fixed forward vector without a body |
| Ecosystem.ClampTorque | frontend/src/world/creature.ts:116-121 | the torque is limited to ±maxTorque, keeping its sign, and unchanged inside the limit |
| Ecosystem.InertiaAsWritten | frontend/src/world/creature.ts:109-112 | the inertia as computed is NaN for a creature that is not spinning, and the intended mass·size·scale otherwise |
| Ecosystem.TurnToFromRest | frontend/src/world/creature.ts:109-112 | at rest the computed inertia is NaN while the intended one is 1 |
| Ecosystem.TurnToTorque | frontend/src/world/creature.ts:104-121 | `turnTo`'s torque is within ±maxTorque, and is 0 for a massless creature or one already heading at the angle one frame ahead |
| Ecosystem.GoBlocked | frontend/src/world/creature.ts:150-156 | blocking needs an impostor at or above the top speed; at that speed every negative drift angle blocks |
| Ecosystem.GoCost | frontend/src/world/creature.ts:159-163 | `go`'s energy cost force²/1800/mass (mass 0 read as 1) is non-negative, zero iff there is no force, positive for a force on a positive mass |
| Ecosystem.GoCharge | frontend/src/world/creature.ts:143-163 | `go` costs nothing while paralyzed or at the speed limit, and GoCost otherwise, even without a body |
| Ecosystem.GoImpulses | frontend/src/world/creature.ts:143-158 | `go` pushes along the creature's direction at its position, unless paralyzed, at the speed limit or without an impostor |
| Ecosystem.Placed | frontend/src/world/creature.ts:316-319 | `init` moves a body it has and creates none |
| Ecosystem.PlacedTwice | frontend/src/world/creature.ts:316-319 | `init`'s placement is idempotent: x from the configured x, z from the configured y, y kept, nothing else touched |
| Ecosystem.WithAlpha | frontend/src/world/creature.ts:180-182 | only a body with a material gets the new alpha; nothing else in the body changes |
| Ecosystem.Probes | frontend/src/world/world.ts:124-125 | one probe per creature, in population order |
| Ecosystem.ProbesAt | frontend/src/world/world.ts:124-125 | the pair loop reads each creature's position (origin without a body), sensor size and body |
| Ecosystem.Creature.constructor | frontend/src/world/creature.ts:22-27 | the base creature `createChild` builds has no body, fresh clocks and lists, and the configured fields |
| Ecosystem.Creature.Herbivore | frontend/src/world/herbivore.ts:9-17 | a herbivore gets its box body, is added once at the end of the population, and is configured by `init` |
| Ecosystem.Creature.Predator | frontend/src/world/predator.ts:9-18 | a predator is configured, added once at the end of the population, and configured again, with the same outcome as one `init` |
| Ecosystem.Creature.Plant | frontend/src/world/plant.ts:9-17 | a plant gets its cylinder body and is added once at the end of the population |
| Ecosystem.Creature.Init | frontend/src/world/creature.ts:315-329 | `init` copies the configuration, sets initialEnergy = energy and the threshold to 0.3·maxAge, places the body, and changes nothing else |
| Ecosystem.Creature.Paralyze | frontend/src/world/creature.ts:56-62 | the timer is overwritten with the given time, 2 by default, and a positive time paralyzes |
| Ecosystem.Creature.IsParalyzed | frontend/src/world/creature.ts:60-62 | a creature is paralyzed exactly while its timer is positive |
| Ecosystem.Creature.EnergyPercentage | frontend/src/world/creature.ts:64-66 | energy / initialEnergy when initialEnergy ≠ 0, and otherwise +Infinity, −Infinity or NaN by the sign of energy |
| Ecosystem.Creature.CanReproduce | frontend/src/world/creature.ts:68-72 | reproduction is possible iff past the threshold, energy above 60% of the initial energy, and not paralyzed |
| Ecosystem.Creature.IsDead | frontend/src/world/creature.ts:210-212 | a creature is dead iff its energy is at most 0 or its age has reached maxAge |
| Ecosystem.Creature.Turn | frontend/src/world/creature.ts:74-90 | `turn` appends exactly TurnImpulses and changes nothing else |
| Ecosystem.Creature.TurnTo | frontend/src/world/creature.ts:100-124 | `turnTo` turns with a torque of at most maxTorque, and does nothing while paralyzed or without an impostor |
| Ecosystem.Creature.Go | frontend/src/world/creature.ts:143-164 | `go` appends GoImpulses and lowers energy by GoCharge |
| Ecosystem.Creature.Grow | frontend/src/world/creature.ts:263-286 | `grow` is GrowStep at the effective rate; for a non-zero rate energy + 10·mass is conserved |
| Ecosystem.Creature.Shrink | frontend/src/world/creature.ts:288-293 | `shrink` is `grow` at the shrink rate |
| Ecosystem.Creature.Step | frontend/src/world/creature.ts:166-187 | age and reproductionTime rise by exactly 1/30; the paralysis timer falls by 1/30 iff it was positive; the body grows at the default rate; the alpha written is clamped to [0, 1] |
| Ecosystem.Creature.TakeEnergy | frontend/src/world/creature.ts:295-301 | between two creatures the transfer is zero-sum; from a creature to itself nothing changes |
| Ecosystem.Creature.Reproduce | frontend/src/world/creature.ts:214-261 | nothing happens without both bodies; otherwise a fresh child configured from both parents, parents' energy halved (quartered for one parent with itself), both clocks reset; the child belongs to the parent's world; for distinct parents the total energy is not increased, and it is kept when neither is above its initial energy; a creature reproducing with itself keeps a quarter of its energy and the child gets min(energy, initialEnergy), so the total can rise |
| Ecosystem.Creature.GetClosestVisible | frontend/src/world/creature.ts:126-141 | none iff no nearby creature of the type has a body (or this one has none); otherwise a candidate at the least distance, and the first one on ties |
| Ecosystem.Creature.Destroy | frontend/src/world/creature.ts:331-338 | the body goes and the world's population is spliced by `splice(indexOf(this), 1)` |
| Ecosystem.Creature.Explore | frontend/src/world/herbivore.ts:19-29 | herbivores and predators turn and go as ExplorePlan says; other kinds do nothing |
| Ecosystem.ResetLists | frontend/src/world/world.ts:115-119 | every creature's nearby and touching lists are emptied |
| Ecosystem.EmptyListsStart | frontend/src/world/world.ts:115-121 | emptied lists are the state before the first row |
| Ecosystem.LinkNear | frontend/src/world/world.ts:125-134 | the nearby pushes of pair (i, j) extend each creature's list by its contribution |
| Ecosystem.LinkTouch | frontend/src/world/world.ts:137-140 | the touching pushes of pair (i, j) extend each creature's list by its contribution |
| Ecosystem.LinkPair | frontend/src/world/world.ts:124-140 | one inner iteration advances both relations by one pair |
| Ecosystem.LinkRow | frontend/src/world/world.ts:122-141 | one outer iteration advances both relations by one row |
| Ecosystem.LinkRows | frontend/src/world/world.ts:121-142 | the outer loop builds every row |
| Ecosystem.ListsBuilt | frontend/src/world/world.ts:121-142 | after every row each creature's lists are what the pair loop specifies |
| Ecosystem.TicksNext | frontend/src/world/world.ts:146-148 | one more step adds a tick to the stepped creature only |
| Ecosystem.World.constructor | frontend/src/world/world.ts:18 | a world starts with an empty population |
| Ecosystem.World.AddCreature | frontend/src/world/world.ts:39-41 | the creature is appended once at the end and nothing else moves |
| Ecosystem.World.ClearInhabitants | frontend/src/world/world.ts:43-49 | the population ends empty, the creatures destroyed are those of the splicing loop, and every other creature keeps its body |
| Ecosystem.World.DestroyAt | frontend/src/world/world.ts:45-46 | one iteration of that loop shortens the population by one and keeps the loop's invariant |
| Ecosystem.World.ClearAll | frontend/src/world/world.ts:43-49 | every creature is destroyed and the population ends empty |
| Ecosystem.World.UpdateNearBy | frontend/src/world/world.ts:114-143 | afterwards every creature's nearby and touching lists are exactly the specified ones, with nothing left from before |
| Ecosystem.World.Step | frontend/src/world/world.ts:145-154 | the population is unchanged, and each creature ages by 1/30 per occurrence; every nearby and touching list is the one built from the probes P read by the last pass, and P is every creature's current probe except where the last creature stands; every creature that occurs once has its paralysis timer run down one tick if it was positive; only lists, bodies, energies, clocks and timers change |
| Ecosystem.World.StepAll | frontend/src/world/world.ts:146-153 | after the loop every creature has been stepped (ageing and timers) and the lists are those of the last pass |
| Ecosystem.World.StepAt | frontend/src/world/world.ts:146-149 | one iteration: P is the probes on entry, every list is rebuilt from P, P still matches every creature's probe except the one stepped, and that creature alone ages and runs its timer down |
| Ecosystem.World.RebuildLists | frontend/src/world/world.ts:147 | `updateNearBy()` inside the loop builds every list from the current probes, which it returns |
| Ecosystem.World.StepMember | frontend/src/world/world.ts:148 | `creature.step()` for member i: it ages one tick and its timer runs down, while every other creature keeps its body, energy and timer |
| Ecosystem.Countdown | frontend/src/world/creature.ts:184-186 | a positive paralysis timer loses exactly one tick; one at or below 0 stays |
| Ecosystem.Unstepped | frontend/src/world/world.ts:146 | before the first pass nothing has aged and no timer has run down |
| Ecosystem.AgedAll | frontend/src/world/world.ts:146-148 | once every member has been stepped, each has aged by one tick per occurrence |

## Left out

- Scene and mesh disposal (`scene.removeMesh`, `dispose`) in `destroy`: rendering only. A body that is gone is `None`.
- The `World` constructor's light and shadow setup and `createBorder`: Babylon geometry setup. The model's constructor only starts the population.
- `setFaceColor`, `creatureDirection` and `absoluteCreatureAngle`: vertex colours and engine geometry. The heading is an input of `TurnTo`, and the facing is a field of `Body`.
- Physics inside `grow` (`setMass`, `forceUpdate`, velocity restore): mass is a field, and the velocities are kept as values.
- `Math.sqrt`, `Vector3.Distance` and `intersectsMesh` are uninterpreted parameters. IEEE rounding is not modelled: numbers are exact reals.
- Removal of dead creatures: world.ts:150-152 is an empty branch, so `World.Step` keeps every member.
- Console logging in `create`, `createChild` and predator `explore`: output only.
- Ecosystem.Creature.Reproduce returns the child it builds so that callers can state its fields. In the source the child is dropped, because the inherited `createChild` does not add it to the world.
- Ecosystem.Creature.TurnTo uses the intended inertia (mass · initialSize · scaling.x), not the 0/0 of the source at rest; see Findings.
- Vitals.ChildConfig promises only the position and the size floor. Each other field is an `Inherited` value, whose bound is stated by that function.
- Ecosystem.World.Step states the lists, the clocks and the timers. It does not restate energy, body and alpha, which Creature.Step's own contract gives per creature; the timer of a creature that occurs twice (stepped twice) is not stated.
- Ecosystem.Creature.GetClosestVisible: `instanceof` becomes the `IsA` test on kinds. Every creature is an instance of the base type.
- Ecosystem.World.ClearInhabitants and Ecosystem.World.ClearAll require every member of the population to belong to this world. Every constructor passes its world and adds the creature to it, but the model does not carry this as an invariant of `World`.

- Non-numeric record fields in `mutate` (utils.ts:4-29): `Mutation.Value` only has numbers, vectors and records. The source gives a null field to `Object.keys`, which throws; it appends the two-draw jitter to a string; and it turns a boolean into a number. None of these is modelled, and the core's only callers (creature.ts:219-256) pass a vector and plain numbers.
- The exact unit facing of a new body: the starting bodies face (0.707, 0, 0.707), the source's rounded `forwardVector`, whose squared length is 0.999698. The normalized (1, 0, 1) has irrational coordinates.

## Findings

| source | as written | input that shows it | evidently intended | confidence | as-written member | corrected member |
|---|---|---|---|---|---|---|
| frontend/src/world/world.ts:43-49 | `clearInhabitants` destroys `population[i]` for increasing i while each `destroy` splices the same array, so every other creature is skipped | population [a, b]: a is destroyed, then i = 1 is past the one-element array and b keeps its body | every creature destroyed before the array is emptied | high, not executed | Population.ClearDestroysEvens | Ecosystem.World.ClearAll |
| frontend/src/world/creature.ts:109-112 | `turnTo` divides the angular momentum by the angular velocity, which is 0/0 for a creature that is not spinning | mass 1, initialSize 1, scaling 1, angular velocity 0: inertia NaN, so the torque is NaN | inertia mass · initialSize · scaling.x | medium, not executed | Ecosystem.TurnToFromRest | Ecosystem.Creature.TurnTo |
