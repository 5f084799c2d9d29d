/**
 * The hand value type and the gesture classifier: which fingers are closed, and which
 * gesture their closed/open pattern spells.
 */
module HandModel {
  import opened Wrappers
  import opened Geometry
  import opened FingerModel

  /** The recognised gestures. */
  datatype HandGesture = Rock | Victory | Fist

  /**
   * A finger is closed when its tip is strictly nearer the wrist than its base joint is.
   * The distances are compared through their squares, which the contract shows is the same
   * as comparing the distances themselves.
   */
  predicate IsClosed(finger: Finger, wrist: Point)
    ensures forall tip: real, base: real
      {:trigger IsDistance(tip, finger.one, wrist), IsDistance(base, finger.four, wrist)} ::
      IsDistance(tip, finger.one, wrist) && IsDistance(base, finger.four, wrist) ==>
        (IsClosed(finger, wrist) <==> tip < base)
  {
    DistancesCompareBySquares(finger.one, finger.four, wrist);
    SquaredDistance(finger.one, wrist) < SquaredDistance(finger.four, wrist)
  }

  /** The closed test is the comparison of the two Euclidean distances; equal distances mean open. */
  lemma ClosedIffDistanceLess(finger: Finger, wrist: Point, tipDistance: real, baseDistance: real)
    requires IsDistance(tipDistance, finger.one, wrist)
    requires IsDistance(baseDistance, finger.four, wrist)
    ensures IsClosed(finger, wrist) <==> tipDistance < baseDistance
    ensures tipDistance == baseDistance ==> !IsClosed(finger, wrist)
  {
    DistanceLessIffSquaredLess(tipDistance, finger.one, wrist, baseDistance, finger.four, wrist);
  }

  /** The closed test reads the first and the last of the finger's listed joints. */
  lemma ClosedUsesTipAndBase(finger: Finger, wrist: Point)
    ensures IsClosed(finger, wrist) <==>
      SquaredDistance(finger.Points()[0], wrist) < SquaredDistance(finger.Points()[3], wrist)
  {
  }

  /** Which of index, middle, ring and little are closed (true = closed). */
  datatype Pattern = Pattern(index: bool, middle: bool, ring: bool, little: bool)

  /** A hand: five fingers and the wrist. */
  datatype Hand = Hand(thumb: Finger, index: Finger, middle: Finger, ring: Finger, little: Finger, wrist: Point) {

    predicate IsThumbClosed() { IsClosed(thumb, wrist) }
    predicate IsIndexClosed() { IsClosed(index, wrist) }
    predicate IsMiddleClosed() { IsClosed(middle, wrist) }
    predicate IsRingClosed() { IsClosed(ring, wrist) }
    predicate IsLittleClosed() { IsClosed(little, wrist) }

    /** The finger with the given name. */
    function Named(name: FingerName): Finger {
      match name
      case Thumb => thumb
      case Index => index
      case Middle => middle
      case Ring => ring
      case Little => little
    }

    /** The fingers, thumb to little. */
    function Fingers(): (r: seq<Finger>)
      ensures |r| == |FingerNames|
      ensures forall name :: r[Position(name)] == Named(name)
    {
      [thumb, index, middle, ring, little]
    }

    /** The closed/open pattern of the four fingers the classifier reads. */
    function ClosedPattern(): Pattern {
      Pattern(IsIndexClosed(), IsMiddleClosed(), IsRingClosed(), IsLittleClosed())
    }

    /**
     * The gesture the hand shows, if any: rock, then victory, then fist, checked in that order.
     * The three patterns exclude each other, so each gesture is returned exactly for its pattern.
     */
    function Gesture(): (r: Option<HandGesture>)
      ensures r == Some(Rock) <==> !IsIndexClosed() && IsMiddleClosed() && IsRingClosed() && !IsLittleClosed()
      ensures r == Some(Victory) <==> !IsIndexClosed() && !IsMiddleClosed() && IsRingClosed() && IsLittleClosed()
      ensures r == Some(Fist) <==> IsIndexClosed() && IsMiddleClosed() && IsRingClosed() && IsLittleClosed()
      ensures r.Some? ==> IsRingClosed()
    {
      if !IsIndexClosed() && IsMiddleClosed() && IsRingClosed() && !IsLittleClosed() then
        Some(Rock)
      else if !IsIndexClosed() && !IsMiddleClosed() && IsRingClosed() && IsLittleClosed() then
        Some(Victory)
      else if IsIndexClosed() && IsMiddleClosed() && IsRingClosed() && IsLittleClosed() then
        Some(Fist)
      else
        None
    }
  }

  /** The thumb is classified but never consulted: replacing it leaves the gesture unchanged. */
  lemma ThumbDoesNotMatter(hand: Hand, thumb: Finger)
    ensures hand.(thumb := thumb).Gesture() == hand.Gesture()
  {
  }

  /** A hand with all four fingers open shows no gesture. */
  lemma AllOpenIsNoGesture(hand: Hand)
    requires !hand.IsIndexClosed() && !hand.IsMiddleClosed() && !hand.IsRingClosed() && !hand.IsLittleClosed()
    ensures hand.Gesture() == None
  {
  }

  // An independent statement of the classifier as a table of (pattern, gesture) rows.

  /** The classification table, one row per gesture. */
  const GestureRules: seq<(Pattern, HandGesture)> := [
    (Pattern(false, true, true, false), Rock),
    (Pattern(false, false, true, true), Victory),
    (Pattern(true, true, true, true), Fist)
  ]

  /** The gesture of the first row whose pattern is `p`. */
  function FirstMatch(rules: seq<(Pattern, HandGesture)>, p: Pattern): (r: Option<HandGesture>)
    ensures r.Some? ==> (p, r.value) in rules
  {
    if rules == [] then None
    else if rules[0].0 == p then Some(rules[0].1)
    else FirstMatch(rules[1..], p)
  }

  /** No two rows of the table have the same pattern. */
  ghost predicate DistinctPatterns(rules: seq<(Pattern, HandGesture)>) {
    forall i, j :: 0 <= i < j < |rules| ==> rules[i].0 != rules[j].0
  }

  /** With distinct patterns, the first match is the only match. */
  lemma {:induction false} FirstMatchIsOnlyMatch(rules: seq<(Pattern, HandGesture)>, p: Pattern, g: HandGesture)
    requires DistinctPatterns(rules)
    ensures FirstMatch(rules, p) == Some(g) <==> (p, g) in rules
  {
    if rules != [] {
      assert DistinctPatterns(rules[1..]) by {
        forall i, j | 0 <= i < j < |rules[1..]| ensures rules[1..][i].0 != rules[1..][j].0 {
          assert rules[1..][i] == rules[i + 1] && rules[1..][j] == rules[j + 1];
        }
      }
      FirstMatchIsOnlyMatch(rules[1..], p, g);
      if rules[0].0 == p {
        forall j | 0 <= j < |rules[1..]| ensures rules[1..][j].0 != p {
          assert rules[1..][j] == rules[j + 1];
        }
      }
      assert rules == [rules[0]] + rules[1..];
    }
  }

  /** The order of the rows never changes the result: two tables with the same rows classify alike. */
  lemma RuleOrderIrrelevant(rules: seq<(Pattern, HandGesture)>, reordered: seq<(Pattern, HandGesture)>, p: Pattern)
    requires DistinctPatterns(rules) && DistinctPatterns(reordered)
    requires forall row :: row in rules <==> row in reordered
    ensures FirstMatch(rules, p) == FirstMatch(reordered, p)
  {
    var r := FirstMatch(rules, p);
    var s := FirstMatch(reordered, p);
    if r.Some? {
      FirstMatchIsOnlyMatch(reordered, p, r.value);
    } else if s.Some? {
      FirstMatchIsOnlyMatch(rules, p, s.value);
    }
  }

  /** The classifier is the table lookup of the hand's pattern, whatever order the rows are in. */
  lemma GestureIsTableLookup(hand: Hand, reordered: seq<(Pattern, HandGesture)>)
    requires DistinctPatterns(reordered)
    requires forall row :: row in GestureRules <==> row in reordered
    ensures hand.Gesture() == FirstMatch(reordered, hand.ClosedPattern())
  {
    var p := hand.ClosedPattern();
    assert DistinctPatterns(GestureRules);
    assert FirstMatch(GestureRules, p) == hand.Gesture() by {
      assert GestureRules[1..] == [GestureRules[1], GestureRules[2]];
      assert GestureRules[1..][1..] == [GestureRules[2]];
    }
    RuleOrderIrrelevant(GestureRules, reordered, p);
  }
}
