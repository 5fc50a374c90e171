/** The foliage spawn manager as an object: the fields it updates every
    frame, the anchor whose children are the placed instances, and the
    operations the engine drives (start, the per-frame update, clear). */
module Spawner {
  import opened Basics
  import opened FoliageCatalog
  import opened Placement
  import opened Schedule

  /** A live foliage object created from a prefab. Its pose before
      placement is whatever the prefab was authored with. */
  class FoliageInstance {
    const template: Handle
    var position: Vec3
    var up: Vec3
    /** The point it was turned to face, if any. */
    var lookTarget: Option<Vec3>
    var destroyed: bool

    /** Instantiating a prefab; the engine refuses a null one. */
    constructor Instantiate(template: Handle)
      requires template != Null
      ensures this.template == template && lookTarget == None && !destroyed
    {
      this.template := template;
      lookTarget := None;
      destroyed := false;
    }
  }

  /** How a frame of the per-frame update ends. */
  datatype TickOutcome = Capped | Waiting | Attempted(attempt: Attempt)

  class FoliageSpawnManager {
    const settings: SpawnSettings
    const spawnableFoliage: seq<Foliage>

    var timecount: real
    var nPlants: int
    var ground: seq<Handle>
    var wall: seq<Handle>
    /** The children of the anchor transform, in order. */
    var children: seq<FoliageInstance>

    /** The catalog is the partition of the authored descriptors; the
        live count is the number of anchor children and stays within the
        cap (or at zero for a negative cap); the children are distinct,
        live objects. */
    ghost predicate Valid()
      reads this, children
    {
      && ground == Bucket(spawnableFoliage, true)
      && wall == Bucket(spawnableFoliage, false)
      && nPlants == |children|
      && (nPlants == 0 || nPlants <= settings.maximumPlants)
      && (forall i, j :: 0 <= i < j < |children| ==> children[i] != children[j])
      && (forall i :: 0 <= i < |children| ==> !children[i].destroyed)
    }

    function Counts(): Counters
      reads this
    {
      Counters(timecount, nPlants)
    }

    /** An instance placed at a hit: positioned at the hit point, its up
        axis along the normal, and, on ground only, turned towards the
        viewer's position taken at the instance's own height. */
    ghost predicate PlacedAt(f: FoliageInstance, h: Hit, viewer: Vec3)
      reads f
    {
      && f.position == h.point
      && f.up == h.normal
      && f.lookTarget == (if Classify(h.normal) == Ground
                          then Some(Vec3(viewer.x, h.point.y, viewer.z)) else None)
      && !f.destroyed
    }

    /** Field initialisation followed by `Start`, which builds the catalog. */
    constructor Start(settings: SpawnSettings, spawnableFoliage: seq<Foliage>)
      ensures Valid()
      ensures this.settings == settings && this.spawnableFoliage == spawnableFoliage
      ensures timecount == 0.0 && nPlants == 0 && children == []
    {
      this.settings := settings;
      this.spawnableFoliage := spawnableFoliage;
      timecount := 0.0;
      nPlants := 0;
      children := [];
      ground := [];
      wall := [];
      new;
      ExtractFoliage();
    }

    /** One pass over the authored descriptors, appending each template to
        the ground list or the wall list. */
    method ExtractFoliage()
      modifies this`ground, this`wall
      ensures ground == Bucket(spawnableFoliage, true)
      ensures wall == Bucket(spawnableFoliage, false)
    {
      ground := [];
      wall := [];
      for i := 0 to |spawnableFoliage|
        invariant ground == Bucket(spawnableFoliage[..i], true)
        invariant wall == Bucket(spawnableFoliage[..i], false)
      {
        var foliage := spawnableFoliage[i];
        assert spawnableFoliage[..i + 1] == spawnableFoliage[..i] + [foliage];
        BucketAppend(spawnableFoliage[..i], [foliage], true);
        BucketAppend(spawnableFoliage[..i], [foliage], false);
        if foliage.kind == Ground {
          ground := ground + [foliage.template];
        } else {
          wall := wall + [foliage.template];
        }
      }
      assert spawnableFoliage[..|spawnableFoliage|] == spawnableFoliage;
    }

    /** The per-frame update (`LateUpdate`). `delta` is the frame time, `hit`
        what the ray cast would report, `viewer` the camera position and
        `idx` the random index that would be drawn for the prefab. */
    method LateUpdate(delta: real, hit: Option<Hit>, viewer: Vec3, idx: nat) returns (outcome: TickOutcome)
      requires Valid()
      requires RollFits(ground, wall, hit, idx)
      modifies this
      ensures Valid()
      ensures Counts() == NextCounters(old(Counts()), settings, delta, AttemptOutcome(ground, wall, hit, idx))
      ensures outcome.Capped? <==> old(nPlants) >= settings.maximumPlants
      ensures outcome.Waiting? <==>
        old(nPlants) < settings.maximumPlants && old(timecount) + delta < settings.spawnDelay
      ensures outcome.Attempted? ==> outcome.attempt == AttemptOutcome(ground, wall, hit, idx)
      ensures outcome.Attempted? && outcome.attempt.Spawned? ==>
        && |children| == |old(children)| + 1
        && children[..|old(children)|] == old(children)
        && fresh(children[|old(children)|])
        && children[|old(children)|].template == outcome.attempt.template
        && PlacedAt(children[|old(children)|], hit.value, viewer)
      ensures !(outcome.Attempted? && outcome.attempt.Spawned?) ==> children == old(children)
    {
      if nPlants >= settings.maximumPlants {
        return Capped;
      }
      timecount := timecount + delta;
      if timecount < settings.spawnDelay {
        return Waiting;
      }
      var attempt := CastFoliageRay(hit, viewer, idx);
      outcome := Attempted(attempt);
      if attempt.InstantiateFailed? {
        // The engine's exception ends the frame before the reset.
        return;
      }
      timecount := 0.0;
    }

    /** Casts the (already perturbed) ray and spawns on a hit. */
    method CastFoliageRay(hit: Option<Hit>, viewer: Vec3, idx: nat) returns (a: Attempt)
      requires Valid() && nPlants < settings.maximumPlants
      requires RollFits(ground, wall, hit, idx)
      modifies this`children, this`nPlants
      ensures Valid()
      ensures a == AttemptOutcome(ground, wall, hit, idx)
      ensures nPlants == old(nPlants) + (if a.Spawned? then 1 else 0)
      ensures a.Spawned? ==>
        && |children| == |old(children)| + 1
        && children[..|old(children)|] == old(children)
        && fresh(children[|old(children)|])
        && children[|old(children)|].template == a.template
        && PlacedAt(children[|old(children)|], hit.value, viewer)
      ensures !a.Spawned? ==> children == old(children)
    {
      if hit.Some? {
        a := SpawnNewFoliage(hit.value, viewer, idx);
      } else {
        a := Missed;
      }
    }

    /** Classifies the surface, creates an instance of a matching prefab,
        parents it under the anchor, places and orients it, and counts it. */
    method SpawnNewFoliage(h: Hit, viewer: Vec3, idx: nat) returns (a: Attempt)
      requires Valid() && nPlants < settings.maximumPlants
      requires RollFits(ground, wall, Some(h), idx)
      modifies this`children, this`nPlants
      ensures Valid()
      ensures a == AttemptOutcome(ground, wall, Some(h), idx)
      ensures nPlants == old(nPlants) + (if a.Spawned? then 1 else 0)
      ensures a.Spawned? ==>
        && |children| == |old(children)| + 1
        && children[..|old(children)|] == old(children)
        && fresh(children[|old(children)|])
        && children[|old(children)|].template == a.template
        && PlacedAt(children[|old(children)|], h, viewer)
      ensures !a.Spawned? ==> children == old(children)
    {
      var kind := Classify(h.normal);
      var created := CreateFoliage(kind, idx);
      if created.None? {
        // Instantiate threw: nothing is parented and nothing is counted.
        return InstantiateFailed(kind);
      }
      var foliage := created.value;
      children := children + [foliage];
      foliage.position := h.point;
      foliage.up := h.normal;
      if kind == Ground {
        foliage.lookTarget := Some(Vec3(viewer.x, foliage.position.y, viewer.z));
      }
      nPlants := nPlants + 1;
      a := Spawned(kind, foliage.template);
    }

    /** Draws a prefab from the list for `kind` and instantiates it; `None`
        stands for the exception the engine raises on a null prefab. */
    method CreateFoliage(kind: FoliageType, idx: nat) returns (created: Option<FoliageInstance>)
      requires DrawFits(Some(ListFor(kind, ground, wall)), idx)
      ensures created.None? <==> GetRandomPrefab(Some(ListFor(kind, ground, wall)), idx) == Null
      ensures created.Some? ==>
        && fresh(created.value)
        && created.value.template == GetRandomPrefab(Some(ListFor(kind, ground, wall)), idx)
        && created.value.lookTarget == None
        && !created.value.destroyed
    {
      var prefab := if kind == Ground then GetRandomPrefab(Some(ground), idx)
                    else GetRandomPrefab(Some(wall), idx);
      if prefab == Null {
        return None;
      }
      var instance := new FoliageInstance.Instantiate(prefab);
      created := Some(instance);
    }

    /** Destroys one object, which also detaches it from the anchor. */
    method Destroy(f: FoliageInstance)
      modifies this`children, f
      ensures f.destroyed
      ensures children == Without(old(children), f)
    {
      f.destroyed := true;
      children := Without(children, f);
    }

    /** Snapshots the anchor's children, destroys each one of the snapshot
        and resets the live count; the accumulator is left alone. */
    method Clear()
      requires Valid()
      modifies this`children, this`nPlants, children
      ensures Valid()
      ensures children == [] && nPlants == 0
      ensures timecount == old(timecount)
      ensures forall f :: f in old(children) ==> f.destroyed
    {
      var snapshot: seq<FoliageInstance> := [];
      for i := 0 to |children|
        invariant snapshot == children[..i]
      {
        snapshot := snapshot + [children[i]];
      }
      assert snapshot == old(children);
      for j := 0 to |snapshot|
        invariant children == snapshot[j..]
        invariant forall k :: 0 <= k < j ==> snapshot[k].destroyed
        invariant forall k :: j <= k < |snapshot| ==> !snapshot[k].destroyed
      {
        WithoutHead(snapshot[j..]);
        Destroy(snapshot[j]);
        assert snapshot[j..][1..] == snapshot[j + 1..];
      }
      nPlants := 0;
    }
  }
}

/** A client of the spawner: with a cap of one and a single ground
    prefab, the first eligible frame that hits the floor spawns, the next
    frame is capped, and clearing empties the anchor and restarts the
    count. */
module SpawnerScenario {
  import opened Basics
  import opened FoliageCatalog
  import opened Placement
  import opened Schedule
  import opened Spawner

  method CapOfOneScenario(floor: Vec3, viewer: Vec3)
  {
    var settings := SpawnSettings(1, 1.0, 20.0, 31);
    var m := new FoliageSpawnManager.Start(settings, [Foliage(Prefab(7), Ground), Foliage(Prefab(8), Wall)]);
    assert m.ground == [Prefab(7)] && m.wall == [Prefab(8)];
    var up := Hit(floor, Vec3(0.0, 1.0, 0.0));

    var first := m.LateUpdate(0.5, Some(up), viewer, 0);
    assert first == Waiting && m.nPlants == 0 && m.timecount == 0.5;

    var second := m.LateUpdate(0.5, Some(up), viewer, 0);
    assert second == Attempted(Spawned(Ground, Prefab(7)));
    assert m.nPlants == 1 && |m.children| == 1 && m.timecount == 0.0;
    assert m.children[0].lookTarget == Some(Vec3(viewer.x, floor.y, viewer.z));

    var third := m.LateUpdate(5.0, Some(up), viewer, 0);
    assert third == Capped && m.nPlants == 1 && m.timecount == 0.0;

    m.Clear();
    assert m.nPlants == 0 && m.children == [];
  }

  /** With the default settings and no wall prefab authored, a frame that hits a wall fails in the
      engine: nothing is spawned and the accumulator is not reset, so the
      next frame tries again at once. */
  method EmptyWallListScenario(point: Vec3, viewer: Vec3)
  {
    var m := new FoliageSpawnManager.Start(DefaultSettings, [Foliage(Prefab(7), Ground)]);
    var side := Hit(point, Vec3(1.0, 0.0, 0.0));

    var first := m.LateUpdate(1.5, Some(side), viewer, 0);
    assert first == Attempted(InstantiateFailed(Wall));
    assert m.nPlants == 0 && m.children == [] && m.timecount == 1.5;

    var second := m.LateUpdate(0.25, None, viewer, 0);
    assert second == Attempted(Missed) && m.timecount == 0.0;
  }
}
