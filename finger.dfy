/** The finger value type of the hand model: four joints listed from the tip to the base. */
module FingerModel {
  import opened Wrappers
  import opened Geometry

  /** The five fingers of a hand. */
  datatype FingerName = Thumb | Index | Middle | Ring | Little

  /** Every finger name, in the order in which a hand lists its fingers. */
  const FingerNames: seq<FingerName> := [Thumb, Index, Middle, Ring, Little]

  /** Where a finger stands in `FingerNames` (and in a hand's list of fingers). */
  function Position(name: FingerName): (k: nat)
    ensures k < |FingerNames| && FingerNames[k] == name
  {
    match name
    case Thumb => 0
    case Index => 1
    case Middle => 2
    case Ring => 3
    case Little => 4
  }

  /** The names are pairwise distinct, so `Position` is a bijection onto 0..4. */
  lemma FingerNamesDistinct(i: nat, j: nat)
    requires i < j < |FingerNames|
    ensures FingerNames[i] != FingerNames[j]
  {
  }

  /** A finger: `one` is the tip, `four` the joint nearest the palm. */
  datatype Finger = Finger(one: Point, two: Point, three: Point, four: Point) {

    /** The joints in declaration order, tip first, base last. */
    function Points(): (r: seq<Point>)
      ensures |r| == 4
      ensures r[0] == one && r[|r| - 1] == four
    {
      [one, two, three, four]
    }
  }

  /** Rebuilds a finger from its tip-to-base joint list; a list of any other length is no finger. */
  function FingerOfPoints(ps: seq<Point>): (r: Option<Finger>)
    ensures r.Some? <==> |ps| == 4
  {
    if |ps| == 4 then Some(Finger(ps[0], ps[1], ps[2], ps[3])) else None
  }

  /** `Points` loses nothing: the finger is recovered from its list ... */
  lemma PointsRoundTrip(f: Finger)
    ensures FingerOfPoints(f.Points()) == Some(f)
  {
  }

  /** ... and every four-element list is the list of exactly one finger. */
  lemma FingerOfPointsRoundTrip(ps: seq<Point>)
    requires |ps| == 4
    ensures FingerOfPoints(ps).value.Points() == ps
  {
  }
}
