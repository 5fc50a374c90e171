/** The authored foliage descriptors (the `Foliage` struct) and the
    partition of a descriptor list into a ground list and a wall list
    that the spawn manager builds once at start-up. */
module FoliageCatalog {

  /** A reference to an authored prefab. The inspector may leave the
      template field unassigned, which the engine sees as null. */
  datatype Handle = Null | Prefab(id: nat)

  /** The surface a piece of foliage prefers to be anchored to. */
  datatype FoliageType = Ground | Wall

  /** A prefab paired with its preferred anchoring. */
  datatype Foliage = Foliage(template: Handle, kind: FoliageType)

  /** The templates of `fs`, in order. */
  function Templates(fs: seq<Foliage>): (r: seq<Handle>)
    ensures |r| == |fs|
  {
    if fs == [] then [] else [fs[0].template] + Templates(fs[1..])
  }

  /** Whether a descriptor goes to the ground list (`toGround`) or the
      wall list: only Ground-typed entries go to the ground list, every
      other entry goes to the wall list. */
  predicate GoesTo(f: Foliage, toGround: bool)
  {
    (f.kind == Ground) == toGround
  }

  /** The templates one pass of the partition puts in one list, in input
      order. */
  function Bucket(fs: seq<Foliage>, toGround: bool): (r: seq<Handle>)
    ensures |r| <= |fs|
  {
    if fs == [] then [] else Keep(fs[0], toGround) + Bucket(fs[1..], toGround)
  }

  /** What one descriptor contributes to one list. */
  function Keep(f: Foliage, toGround: bool): seq<Handle>
  {
    if GoesTo(f, toGround) then [f.template] else []
  }

  /** The partition of a concatenation is the concatenation of the
      partitions: this is what lets a single left-to-right pass build it. */
  lemma {:induction false} BucketAppend(a: seq<Foliage>, b: seq<Foliage>, toGround: bool)
    ensures Bucket(a + b, toGround) == Bucket(a, toGround) + Bucket(b, toGround)
  {
    if a == [] {
      assert a + b == b;
    } else {
      var ab := a + b;
      assert ab[0] == a[0];
      assert ab[1..] == a[1..] + b;
      BucketAppend(a[1..], b, toGround);
      calc {
        Bucket(ab, toGround);
        Keep(a[0], toGround) + Bucket(a[1..] + b, toGround);
        Keep(a[0], toGround) + (Bucket(a[1..], toGround) + Bucket(b, toGround));
        (Keep(a[0], toGround) + Bucket(a[1..], toGround)) + Bucket(b, toGround);
        Bucket(a, toGround) + Bucket(b, toGround);
      }
    }
  }

  /** Every descriptor lands in exactly one of the two lists: their
      lengths add up to the number of descriptors. */
  lemma {:induction false} PartitionSizes(fs: seq<Foliage>)
    ensures |Bucket(fs, true)| + |Bucket(fs, false)| == |fs|
  {
    if fs != [] {
      PartitionSizes(fs[1..]);
    }
  }

  /** The two lists together hold exactly the authored templates, with
      their multiplicities. */
  lemma {:induction false} PartitionMultiset(fs: seq<Foliage>)
    ensures multiset(Bucket(fs, true)) + multiset(Bucket(fs, false)) == multiset(Templates(fs))
  {
    if fs != [] {
      PartitionMultiset(fs[1..]);
      assert Templates(fs) == [fs[0].template] + Templates(fs[1..]);
    }
  }

  /** Every template in a list comes from a descriptor that belongs to
      that list. */
  lemma {:induction false} BucketMembers(fs: seq<Foliage>, toGround: bool, j: nat)
    requires j < |Bucket(fs, toGround)|
    ensures exists i :: 0 <= i < |fs| && GoesTo(fs[i], toGround) && fs[i].template == Bucket(fs, toGround)[j]
  {
    if GoesTo(fs[0], toGround) && j == 0 {
      assert GoesTo(fs[0], toGround) && fs[0].template == Bucket(fs, toGround)[j];
    } else {
      var k: nat := if GoesTo(fs[0], toGround) then j - 1 else j;
      BucketMembers(fs[1..], toGround, k);
      var i :| 0 <= i < |fs[1..]| && GoesTo(fs[1..][i], toGround) && fs[1..][i].template == Bucket(fs[1..], toGround)[k];
      assert fs[i + 1] == fs[1..][i];
    }
  }

  /** Input order is kept: the descriptor at index `i` lands in its list
      at the position equal to the number of earlier descriptors that went
      to the same list. */
  lemma BucketPlacement(fs: seq<Foliage>, toGround: bool, i: nat)
    requires i < |fs| && GoesTo(fs[i], toGround)
    ensures |Bucket(fs[..i], toGround)| < |Bucket(fs, toGround)|
    ensures Bucket(fs, toGround)[|Bucket(fs[..i], toGround)|] == fs[i].template
  {
    assert fs == fs[..i] + fs[i..];
    BucketAppend(fs[..i], fs[i..], toGround);
  }
}
