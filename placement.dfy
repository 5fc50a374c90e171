/** The pure decisions of one placement attempt: which surface a hit
    normal denotes, which prefab is drawn for it, and what the attempt
    comes to. */
module Placement {
  import opened Basics
  import opened FoliageCatalog

  /** The exact value of the single-precision literal `0.7f` against which
      the hit normal's vertical component is compared. */
  const GroundThreshold: real := 0.699999988079071044921875

  /** Surface classification of a hit normal: ground when the normal's
      vertical component strictly exceeds the threshold, wall otherwise. */
  function Classify(normal: Vec3): (k: FoliageType)
    ensures k == Ground <==> normal.y > GroundThreshold
    ensures normal.y >= 0.7 ==> k == Ground
  {
    if normal.y > GroundThreshold then Ground else Wall
  }

  /** The classifier's fixed points: straight up is ground, horizontal is
      wall, the threshold itself is wall, and anything steeper-up than a
      ground normal is ground too. */
  lemma ClassifyBoundary(a: Vec3, b: Vec3)
    requires a.y <= b.y
    ensures Classify(Vec3(0.0, 1.0, 0.0)) == Ground
    ensures Classify(Vec3(1.0, 0.0, 0.0)) == Wall
    ensures Classify(Vec3(a.x, GroundThreshold, a.z)) == Wall
    ensures Classify(a) == Ground ==> Classify(b) == Ground
    ensures Classify(b) == Wall ==> Classify(a) == Wall
  {
  }

  /** A random index drawn for a list is in range whenever a draw is made:
      the engine's integer `Random.Range(0, n)` yields 0 <= i < n, and no
      draw is made for a missing or empty list. */
  predicate DrawFits(list: Option<seq<Handle>>, idx: nat)
  {
    list.None? || |list.value| == 0 || idx < |list.value|
  }

  /** Picks the prefab at the drawn index; a missing (null) or empty list
      yields the null prefab. */
  function GetRandomPrefab(list: Option<seq<Handle>>, idx: nat): (r: Handle)
    requires DrawFits(list, idx)
    ensures (list.None? || list.value == []) ==> r == Null
    ensures list.Some? && list.value != [] ==> r in list.value
  {
    if list.None? then Null
    else
      var n := |list.value|;
      if n == 0 then Null
      else list.value[idx]
  }

  /** The candidate list for a surface category. */
  function ListFor(kind: FoliageType, ground: seq<Handle>, wall: seq<Handle>): (r: seq<Handle>)
    ensures kind == Ground ==> r == ground
    ensures kind == Wall ==> r == wall
  {
    if kind == Ground then ground else wall
  }

  /** How one placement attempt ends: the ray missed; an instance of
      `template` was created for a `kind` surface; or the prefab drawn for
      a `kind` surface was null, so instantiating it threw. */
  datatype Attempt =
    | Missed
    | Spawned(kind: FoliageType, template: Handle)
    | InstantiateFailed(kind: FoliageType)

  /** The draw fits the list that a hit would select. */
  predicate RollFits(ground: seq<Handle>, wall: seq<Handle>, hit: Option<Hit>, idx: nat)
  {
    hit.Some? ==> DrawFits(Some(ListFor(Classify(hit.value.normal), ground, wall)), idx)
  }

  /** The result of one attempt, given the ray cast's result and the
      random index. */
  function AttemptOutcome(ground: seq<Handle>, wall: seq<Handle>, hit: Option<Hit>, idx: nat): (a: Attempt)
    requires RollFits(ground, wall, hit, idx)
    ensures a.Missed? <==> hit.None?
    ensures hit.Some? ==> !a.Missed? && a.kind == Classify(hit.value.normal)
    ensures a.Spawned? ==> a.template != Null && a.template in ListFor(a.kind, ground, wall)
    ensures a.InstantiateFailed? <==>
      hit.Some? && (ListFor(a.kind, ground, wall) == [] || ListFor(a.kind, ground, wall)[idx] == Null)
  {
    match hit
    case None => Missed
    case Some(h) =>
      var kind := Classify(h.normal);
      var prefab := GetRandomPrefab(Some(ListFor(kind, ground, wall)), idx);
      if prefab == Null then InstantiateFailed(kind) else Spawned(kind, prefab)
  }

  /** An attempt that hits a surface whose list is empty never creates an
      instance: it fails in the engine rather than being skipped. */
  lemma EmptyListFails(ground: seq<Handle>, wall: seq<Handle>, h: Hit, idx: nat)
    requires ListFor(Classify(h.normal), ground, wall) == []
    ensures AttemptOutcome(ground, wall, Some(h), idx) == InstantiateFailed(Classify(h.normal))
  {
  }
}
