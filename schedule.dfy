/** The placement scheduler: the population cap, the time accumulator and
    the reset after an attempt, stated over the two counters the spawn
    manager keeps. */
module Schedule {
  import opened Placement

  /** Tunable settings of the spawner. The ray spread and the layer mask
      only feed the ray cast, which is an input of this model. */
  datatype SpawnSettings = SpawnSettings(
    maximumPlants: int,
    spawnDelay: real,
    randomRaySpread: real,
    layerMask: int)

  /** The defaults the settings are authored with. */
  const DefaultSettings := SpawnSettings(40, 1.0, 20.0, 31)

  /** Seconds accumulated since the last attempt, and the live count. */
  datatype Counters = Counters(timecount: real, nPlants: int)

  /** What one frame of the scheduler does: nothing at the cap; below the
      cap it adds the frame time, and once the delay has elapsed it makes
      one attempt. A miss or a spawn resets the accumulator; a failed
      instantiation aborts the frame before the reset. */
  function NextCounters(c: Counters, s: SpawnSettings, delta: real, a: Attempt): (n: Counters)
    ensures c.nPlants >= s.maximumPlants ==> n == c
    ensures n.nPlants == c.nPlants || n.nPlants == c.nPlants + 1
    ensures n.nPlants == c.nPlants + 1 <==>
      c.nPlants < s.maximumPlants && c.timecount + delta >= s.spawnDelay && a.Spawned?
    ensures c.nPlants < s.maximumPlants && c.timecount + delta >= s.spawnDelay && !a.InstantiateFailed?
      ==> n.timecount == 0.0
    ensures c.nPlants < s.maximumPlants && (c.timecount + delta < s.spawnDelay || a.InstantiateFailed?)
      ==> n == Counters(c.timecount + delta, c.nPlants)
    ensures c.nPlants < s.maximumPlants && c.timecount + delta >= s.spawnDelay && a.Missed?
      ==> n == Counters(0.0, c.nPlants)
  {
    if c.nPlants >= s.maximumPlants then c
    else
      var t := c.timecount + delta;
      if t < s.spawnDelay then Counters(t, c.nPlants)
      else
        match a
        case Missed => Counters(0.0, c.nPlants)
        case Spawned(_, _) => Counters(0.0, c.nPlants + 1)
        case InstantiateFailed(_) => Counters(t, c.nPlants)
  }

  /** One frame's inputs as far as the counters are concerned. */
  datatype Frame = Frame(delta: real, attempt: Attempt)

  /** The counters after a run of frames. */
  function Run(c: Counters, s: SpawnSettings, frames: seq<Frame>): Counters
    decreases |frames|
  {
    if frames == [] then c
    else Run(NextCounters(c, s, frames[0].delta, frames[0].attempt), s, frames[1..])
  }

  /** Once the cap is reached the scheduler is frozen: no run of frames
      changes either counter. */
  lemma {:induction false} RunFrozenAtCap(c: Counters, s: SpawnSettings, frames: seq<Frame>)
    requires c.nPlants >= s.maximumPlants
    ensures Run(c, s, frames) == c
    decreases |frames|
  {
    if frames != [] {
      RunFrozenAtCap(c, s, frames[1..]);
    }
  }

  /** The population never exceeds the cap if it starts within it, and
      grows by at most one per frame. */
  lemma {:induction false} RunRespectsCap(c: Counters, s: SpawnSettings, frames: seq<Frame>)
    requires c.nPlants <= s.maximumPlants
    ensures c.nPlants <= Run(c, s, frames).nPlants <= s.maximumPlants
    ensures Run(c, s, frames).nPlants <= c.nPlants + |frames|
    decreases |frames|
  {
    if frames != [] {
      RunRespectsCap(NextCounters(c, s, frames[0].delta, frames[0].attempt), s, frames[1..]);
    }
  }

  /** With a delay of one second, two half-second frames trigger exactly
      one attempt: the first only accumulates, whatever its attempt would
      have been, and the second fires and resets. */
  lemma TwoHalfSecondFrames(s: SpawnSettings, first: Attempt, second: Attempt)
    requires s.spawnDelay == 1.0 && s.maximumPlants > 0
    requires !second.InstantiateFailed?
    ensures NextCounters(Counters(0.0, 0), s, 0.5, first) == Counters(0.5, 0)
    ensures Run(Counters(0.0, 0), s, [Frame(0.5, first), Frame(0.5, second)])
      == Counters(0.0, if second.Spawned? then 1 else 0)
  {
    var frames := [Frame(0.5, first), Frame(0.5, second)];
    assert frames[1..] == [Frame(0.5, second)];
    assert Run(Counters(0.5, 0), s, [Frame(0.5, second)])
      == Run(NextCounters(Counters(0.5, 0), s, 0.5, second), s, []);
  }

  /** With a cap of one, two eligible frames that both hit create one
      instance; the second frame changes nothing. */
  lemma CapOfOne(s: SpawnSettings, t: real, d1: real, d2: real, a1: Attempt, a2: Attempt)
    requires s.maximumPlants == 1
    requires t + d1 >= s.spawnDelay && a1.Spawned? && a2.Spawned?
    ensures NextCounters(Counters(t, 0), s, d1, a1) == Counters(0.0, 1)
    ensures NextCounters(Counters(0.0, 1), s, d2, a2) == Counters(0.0, 1)
  {
  }
}
