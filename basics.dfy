/** Value types shared by the spawner model: optional values, engine vectors,
    ray-cast hits, and removal of one element from an ordered sequence. */
module Basics {

  datatype Option<T> = None | Some(value: T)

  /** A world-space point or direction. The engine's single-precision
      components are read as the exact reals they denote. */
  datatype Vec3 = Vec3(x: real, y: real, z: real)

  /** What a ray cast that struck scene geometry reports: the point of
      impact and the surface normal there. */
  datatype Hit = Hit(point: Vec3, normal: Vec3)

  /** `s` with every occurrence of `x` taken out, the rest in order. */
  function Without<T(==)>(s: seq<T>, x: T): (r: seq<T>)
    ensures |r| <= |s|
    ensures x !in r
    ensures forall i :: 0 <= i < |s| && s[i] != x ==> s[i] in r
    ensures forall i :: 0 <= i < |r| ==> r[i] in s
  {
    if s == [] then []
    else (if s[0] == x then [] else [s[0]]) + Without(s[1..], x)
  }

  /** Removing an element that is not there changes nothing. */
  lemma {:induction false} WithoutAbsent<T>(s: seq<T>, x: T)
    requires x !in s
    ensures Without(s, x) == s
  {
    if s != [] {
      WithoutAbsent(s[1..], x);
    }
  }

  /** In a sequence without repetitions, removing the first element's
      occurrences leaves exactly the tail. */
  lemma WithoutHead<T>(s: seq<T>)
    requires s != []
    requires forall i :: 0 < i < |s| ==> s[i] != s[0]
    ensures Without(s, s[0]) == s[1..]
  {
    WithoutAbsent(s[1..], s[0]);
  }
}
