# Foliage spawn manager, modelled in Dafny

This project models `FoliageSpawnManager`, the Unity component of
VirtualFoliage that scatters decorative foliage over the scanned scene.
Once per frame it checks a population cap and then adds the frame time to
an accumulator. When the spawn delay has elapsed, it casts one randomly
perturbed ray from the camera and resets the accumulator. On a hit, it
classifies the surface as ground or wall, draws a random prefab from the
matching list, instantiates it under its anchor transform, places and
orients it, and counts it. At start-up the authored `Foliage[]` catalog is
split into a ground list and a wall list. `Clear` destroys every child of
the anchor and resets the count.

Layout:

- `basics.dfy` (`Basics`): `Option`, `Vec3`, the ray-cast `Hit`, and
  `Without`, which removes an object from an ordered child list.
- `foliage_catalog.dfy` (`FoliageCatalog`): the `Foliage` struct and its
  `FoliageType` enum. `Bucket` specifies the ground/wall partition, and
  lemmas show that it is a complete, order-keeping partition.
- `placement.dfy` (`Placement`): the surface classifier, `GetRandomPrefab`,
  and `AttemptOutcome`, which gives the result of one placement attempt.
- `schedule.dfy` (`Schedule`): `NextCounters`, the per-frame transition of
  `timecount` and `nPlants`. `Run` folds it over a sequence of frames, and
  lemmas cover the cap, the freeze at the cap and two concrete schedules.
- `spawner.dfy` (`Spawner`): the classes `FoliageSpawnManager` and
  `FoliageInstance`. Their methods follow the C# methods one to one and are
  proved against the functions above. The object invariant `Valid()`
  states four things:
  - the catalog is the partition of the authored descriptors;
  - the live count equals the number of anchor children;
  - the live count stays within the cap;
  - the children are distinct and none of them is destroyed.

  The module `SpawnerScenario` holds two clients that drive the class
  through a cap of one, a clear, and an empty wall list.

Engine services become inputs of `LateUpdate`:

- `delta` is `Time.deltaTime`.
- `hit` is the result of `Physics.Raycast` on the perturbed ray.
- `viewer` is the camera position.
- `idx` is the value `Random.Range(0, n)` would draw for the prefab.
  `DrawFits` asks only that it is in range whenever a draw is made.

Two behaviours of the code are worth knowing. The model follows the code
on both:

- An empty candidate list does not skip the attempt quietly.
  `GetRandomPrefab` returns null, and `CreateFoliage` passes that null
  straight to `Instantiate`, which throws. The frame therefore ends before
  `timecount = 0f` (line 56) and before `nPlants++`. The accumulator keeps
  its value, so the next frame attempts again. The model has an explicit
  outcome for this, `Attempt.InstantiateFailed`. The same outcome covers a
  list entry whose template was left unassigned (`Handle.Null`).
- At the cap, the frame returns before the accumulator is touched. The
  accumulator is frozen and does not keep growing.

The ground test compares the normal's y component with the single-precision
literal `0.7f`. That literal's exact value is 0.699999988079071044921875, and
`GroundThreshold` holds exactly that value. For every single-precision normal
the comparison therefore agrees with the engine's. A normal whose y is the
float `0.7f` classifies as Wall.

## Model

| member | source | states |
|---|---|---|
| `FoliageCatalog.Bucket` | VirtualFoliage/Assets/Scripts/FoliageSpawnManager.cs:84-90 | one list of the partition is never longer than the authored array |
| `FoliageCatalog.BucketAppend` | VirtualFoliage/Assets/Scripts/FoliageSpawnManager.cs:84-90 | partitioning a concatenation concatenates the partitions, so a single left-to-right pass builds both lists |
| `FoliageCatalog.PartitionSizes` | VirtualFoliage/Assets/Scripts/FoliageSpawnManager.cs:77-91 | the ground and wall lists' lengths add up to `spawnableFoliage.Length` |
| `FoliageCatalog.PartitionMultiset` | VirtualFoliage/Assets/Scripts/FoliageSpawnManager.cs:84-90 | the two lists together hold exactly the authored templates, with multiplicity |
| `FoliageCatalog.BucketMembers` | VirtualFoliage/Assets/Scripts/FoliageSpawnManager.cs:86-89 | every template in the ground (wall) list comes from a Ground-typed (non-Ground) descriptor |
| `FoliageCatalog.BucketPlacement` | VirtualFoliage/Assets/Scripts/FoliageSpawnManager.cs:84-90 | input order is kept: descriptor i lands at the position equal to the number of earlier descriptors of its list |
| `Placement.Classify` | VirtualFoliage/Assets/Scripts/FoliageSpawnManager.cs:122 | a hit normal is Ground exactly when its y component strictly exceeds the exact value of `0.7f`, otherwise Wall; every normal whose y is at least 0.7 is Ground |
| `Placement.ListFor` | VirtualFoliage/Assets/Scripts/FoliageSpawnManager.cs:156-157 | the ground list is the candidate list for a Ground surface and the wall list for a Wall surface |
| `Placement.ClassifyBoundary` | VirtualFoliage/Assets/Scripts/FoliageSpawnManager.cs:122 | (0,1,0) is Ground, (1,0,0) is Wall, y equal to `0.7f` is Wall (strict test), and the classification is monotone in y |
| `Placement.GetRandomPrefab` | VirtualFoliage/Assets/Scripts/FoliageSpawnManager.cs:141-153 | a null or empty list yields null; otherwise the result is an element of the list (the drawn index is in range) |
| `Placement.AttemptOutcome` | VirtualFoliage/Assets/Scripts/FoliageSpawnManager.cs:115-159 | a miss exactly when the ray cast reports none; on a hit, the category is the classifier's; a spawn uses a non-null template from the matching list; instantiation fails exactly when that list is empty or the drawn template is null |
| `Placement.EmptyListFails` | VirtualFoliage/Assets/Scripts/FoliageSpawnManager.cs:154-159 | a hit on a surface whose list is empty ends in the instantiation failure, never in a spawn |
| `Schedule.NextCounters` | VirtualFoliage/Assets/Scripts/FoliageSpawnManager.cs:45-57 | at the cap, nothing changes; nPlants grows by at most one, and by one exactly when the frame is below the cap, the delay has elapsed and the attempt spawned; below the cap, a frame whose accumulated time is still short of the delay, or whose attempt threw, leaves timecount at its old value plus the frame time and nPlants unchanged; an attempt that missed or spawned resets timecount to 0 |
| `Schedule.RunFrozenAtCap` | VirtualFoliage/Assets/Scripts/FoliageSpawnManager.cs:46-47 | once nPlants reaches maximumPlants, no sequence of frames changes timecount or nPlants |
| `Schedule.RunRespectsCap` | VirtualFoliage/Assets/Scripts/FoliageSpawnManager.cs:45-57 | starting within the cap, nPlants never decreases, never exceeds maximumPlants, and grows by at most one per frame |
| `Schedule.TwoHalfSecondFrames` | VirtualFoliage/Assets/Scripts/FoliageSpawnManager.cs:49-56 | with a 1 s delay, two 0.5 s frames make exactly one attempt (on the second frame), which resets the accumulator |
| `Schedule.CapOfOne` | VirtualFoliage/Assets/Scripts/FoliageSpawnManager.cs:45-57 | with a cap of one, two eligible frames that both hit create one instance; the second frame is a no-op |
| `Spawner.FoliageInstance.Instantiate` | VirtualFoliage/Assets/Scripts/FoliageSpawnManager.cs:159 | a new live instance of a non-null prefab |
| `Spawner.FoliageSpawnManager.Start` | VirtualFoliage/Assets/Scripts/FoliageSpawnManager.cs:40-43 | after start-up the invariant holds, with counters at zero, no children, and the catalog partitioned |
| `Spawner.FoliageSpawnManager.ExtractFoliage` | VirtualFoliage/Assets/Scripts/FoliageSpawnManager.cs:77-91 | the loop leaves the ground list equal to the Ground-typed templates and the wall list equal to all the others, each in input order |
| `Spawner.FoliageSpawnManager.LateUpdate` | VirtualFoliage/Assets/Scripts/FoliageSpawnManager.cs:45-57 | keeps the invariant (including the cap); the counters follow `NextCounters`; Capped exactly at the cap, with no attempt; Waiting exactly when the accumulated time is below the delay; otherwise one attempt; a spawn appends exactly one fresh, placed child, and every other outcome leaves the children unchanged |
| `Spawner.FoliageSpawnManager.CastFoliageRay` | VirtualFoliage/Assets/Scripts/FoliageSpawnManager.cs:99-119 | a miss changes nothing; a hit is handed to the spawn step; timecount is not touched |
| `Spawner.FoliageSpawnManager.SpawnNewFoliage` | VirtualFoliage/Assets/Scripts/FoliageSpawnManager.cs:120-140 | a created instance is parented under the anchor at the hit point, its `up` is assigned the normal, it is turned to face the viewer at its own height only on ground, and nPlants is incremented; a failed creation changes nothing |
| `Spawner.FoliageSpawnManager.CreateFoliage` | VirtualFoliage/Assets/Scripts/FoliageSpawnManager.cs:154-160 | instantiates the prefab drawn from the list for the category; fails exactly when that prefab is null |
| `Spawner.FoliageSpawnManager.Destroy` | VirtualFoliage/Assets/Scripts/FoliageSpawnManager.cs:66-67 | the object is destroyed and is no longer a child of the anchor |
| `Spawner.FoliageSpawnManager.Clear` | VirtualFoliage/Assets/Scripts/FoliageSpawnManager.cs:59-70 | every child present before the call is destroyed, the anchor has no children, nPlants is 0, and timecount is unchanged |

## Left out

- Ray perturbation (lines 106-111): the random pitch and yaw within ±`randomRaySpread`/2, the Euler rotation, `Matrix4x4.TRS` and the renormalisation are single-precision vector math on engine types. The perturbed ray is not modelled; only its cast result is.
- `Physics.Raycast` with the inverted layer mask and the 10-unit range (line 115) is the engine's physics. Its result is the `hit` input.
- `Random.Range` is an input (`idx`), with the only promise the engine makes: an integer draw from [0, n) is in range.
- Orientation: `transform.up = normal` and `LookAt` (lines 128-137) are recorded as the values they are given: the `up` vector and the look-at target. The rotation they produce is not computed. This includes how `LookAt`, with its default world-up hint, re-derives the up axis.
- The pose an instance has before placement is the prefab's authored transform. It is left unspecified.
- `Destroy` is modelled as taking effect at once. The engine defers the actual destruction and detachment to the end of the frame.
- The anchor is assumed to start without children. Children authored under the manager in the scene would also be destroyed by `Clear`, but the model does not count them.
- Single-precision arithmetic: `timecount` and `spawnDelay` are exact reals, so rounding in the accumulation is not modelled. `nPlants` is an unbounded integer; the cap keeps it far below 32-bit overflow.
- `Camera.main`, the `Singleton<>` base class, `SetParent`'s world-position handling, and the capacity hint of the snapshot list in `Clear` (line 61) are engine or library services with no bearing on the decisions modelled.
- Exceptions other than instantiating a null prefab (a missing main camera, a `Clear` before `Start`) are not modelled.
- VirtualFoliage/Assets/Scripts/PlantRising.cs and VirtualFoliage/Assets/Scripts/FlowerBloom.cs are per-frame interpolations of position and blend-shape weight. They are not part of this model.
