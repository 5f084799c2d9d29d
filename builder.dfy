/**
 * Building a hand from the joint landmarks of one frame. The build is all-or-nothing:
 * a single missing joint means no hand. Every point is rotated into the overlay's frame.
 */
module HandBuilder {
  import opened Wrappers
  import opened Geometry
  import opened FingerModel
  import opened HandModel

  /** The joints the pose detector reports: the wrist and four joints per finger. */
  datatype JointName =
    | Wrist
    | ThumbTip | ThumbIP | ThumbMP | ThumbCMC
    | IndexTip | IndexDIP | IndexPIP | IndexMCP
    | MiddleTip | MiddleDIP | MiddlePIP | MiddleMCP
    | RingTip | RingDIP | RingPIP | RingMCP
    | LittleTip | LittleDIP | LittlePIP | LittleMCP

  /** A recognised joint: its normalised location in the camera image (its confidence is not used). */
  datatype RecognizedPoint = RecognizedPoint(location: Point)

  /** One frame's landmarks: a joint is absent when the detector did not report it. */
  type Landmarks = map<JointName, RecognizedPoint>

  /**
   * The orientation correction: the raw location (x, y) becomes (1 - y, x). It loses
   * nothing: `RawLocation` recovers the raw location from the corrected point.
   */
  function CreatePoint(p: RecognizedPoint): (r: Point)
    ensures RawLocation(r) == p.location
  {
    Point(1.0 - p.location.y, p.location.x)
  }

  /** The inverse correction, from a model point back to the raw location. */
  function RawLocation(q: Point): Point {
    Point(q.y, 1.0 - q.x)
  }

  lemma RawLocationRoundTrip(q: Point)
    ensures CreatePoint(RecognizedPoint(RawLocation(q))) == q
  {
  }

  /** The correction is a rigid motion: it keeps every distance, so it never changes which fingers are closed. */
  lemma CreatePointKeepsDistances(a: RecognizedPoint, b: RecognizedPoint)
    ensures SquaredDistance(CreatePoint(a), CreatePoint(b)) == SquaredDistance(a.location, b.location)
  {
  }

  /** The joints of a finger, tip to base: tip/IP/MP/CMC for the thumb, tip/DIP/PIP/MCP for the others. */
  function Chain(name: FingerName): (r: seq<JointName>)
    ensures |r| == 4 && Wrist !in r
  {
    match name
    case Thumb => [ThumbTip, ThumbIP, ThumbMP, ThumbCMC]
    case Index => [IndexTip, IndexDIP, IndexPIP, IndexMCP]
    case Middle => [MiddleTip, MiddleDIP, MiddlePIP, MiddleMCP]
    case Ring => [RingTip, RingDIP, RingPIP, RingMCP]
    case Little => [LittleTip, LittleDIP, LittlePIP, LittleMCP]
  }

  /** Different fingers use different joints. */
  lemma ChainsDisjoint(a: FingerName, b: FingerName, j: JointName)
    requires a != b && j in Chain(a)
    ensures j !in Chain(b)
  {
  }

  /** The finger `name`, built from its four joints, or nothing when one of them is absent. */
  function CreateFinger(name: FingerName, landmarks: Landmarks): (r: Option<Finger>)
    ensures r.Some? <==> forall j :: j in Chain(name) ==> j in landmarks
    ensures r.Some? ==> forall k :: 0 <= k < 4 ==> r.value.Points()[k] == CreatePoint(landmarks[Chain(name)[k]])
  {
    var chain := Chain(name);
    if chain[0] in landmarks && chain[1] in landmarks && chain[2] in landmarks && chain[3] in landmarks then
      Some(Finger(CreatePoint(landmarks[chain[0]]), CreatePoint(landmarks[chain[1]]),
                  CreatePoint(landmarks[chain[2]]), CreatePoint(landmarks[chain[3]])))
    else
      None
  }

  /** Every joint a hand needs: all four joints of each finger, and the wrist. */
  const RequiredJoints: set<JointName> := {
    Wrist,
    ThumbTip, ThumbIP, ThumbMP, ThumbCMC,
    IndexTip, IndexDIP, IndexPIP, IndexMCP,
    MiddleTip, MiddleDIP, MiddlePIP, MiddleMCP,
    RingTip, RingDIP, RingPIP, RingMCP,
    LittleTip, LittleDIP, LittlePIP, LittleMCP
  }

  /** The required joints are exactly the wrist and the joints of the five chains. */
  lemma RequiredJointsAreChains(j: JointName)
    ensures j in RequiredJoints <==> j == Wrist || exists name :: j in Chain(name)
  {
    match j
    case Wrist =>
    case ThumbTip | ThumbIP | ThumbMP | ThumbCMC => assert j in Chain(Thumb);
    case IndexTip | IndexDIP | IndexPIP | IndexMCP => assert j in Chain(Index);
    case MiddleTip | MiddleDIP | MiddlePIP | MiddleMCP => assert j in Chain(Middle);
    case RingTip | RingDIP | RingPIP | RingMCP => assert j in Chain(Ring);
    case LittleTip | LittleDIP | LittlePIP | LittleMCP => assert j in Chain(Little);
  }

  /** The hand, or nothing when the wrist or any finger is absent. */
  function CreateHand(landmarks: Landmarks): (r: Option<Hand>)
    ensures r.Some? ==> Wrist in landmarks && r.value.wrist == CreatePoint(landmarks[Wrist])
  {
    var thumb :- CreateFinger(Thumb, landmarks);
    var index :- CreateFinger(Index, landmarks);
    var middle :- CreateFinger(Middle, landmarks);
    var ring :- CreateFinger(Ring, landmarks);
    var little :- CreateFinger(Little, landmarks);
    if Wrist in landmarks then
      Some(Hand(thumb, index, middle, ring, little, CreatePoint(landmarks[Wrist])))
    else
      None
  }

  /** A built hand holds, under each name, the finger `CreateFinger` builds for that name. */
  lemma CreateHandFingers(landmarks: Landmarks, name: FingerName)
    ensures CreateHand(landmarks).Some? ==> CreateFinger(name, landmarks) == Some(CreateHand(landmarks).value.Named(name))
    ensures CreateFinger(name, landmarks).None? ==> CreateHand(landmarks).None?
  {
  }

  /** The build is all-or-nothing: a hand exactly when every required joint is present. */
  lemma CreateHandAllOrNothing(landmarks: Landmarks)
    ensures CreateHand(landmarks).Some? <==> RequiredJoints <= landmarks.Keys
    ensures CreateHand(landmarks).Some? <==> forall j: JointName :: j in landmarks
  {
    if RequiredJoints <= landmarks.Keys {
      forall name ensures CreateFinger(name, landmarks).Some? {
        forall j | j in Chain(name) ensures j in landmarks {
          RequiredJointsAreChains(j);
        }
      }
      assert CreateFinger(Thumb, landmarks).Some? && CreateFinger(Index, landmarks).Some?
        && CreateFinger(Middle, landmarks).Some? && CreateFinger(Ring, landmarks).Some?
        && CreateFinger(Little, landmarks).Some?;
    } else {
      var j :| j in RequiredJoints && j !in landmarks;
      RequiredJointsAreChains(j);
      if j != Wrist {
        var name :| j in Chain(name);
        CreateHandFingers(landmarks, name);
      }
    }
    forall j: JointName ensures j in RequiredJoints {
      RequiredJointsAreChains(j);
    }
  }

  /** One absent joint, whichever it is, means no hand. */
  lemma MissingJointMeansNoHand(landmarks: Landmarks, j: JointName)
    requires j !in landmarks
    ensures CreateHand(landmarks) == None
  {
    CreateHandAllOrNothing(landmarks);
  }

  /** A frame that reports every joint always yields a hand. */
  lemma CompleteLandmarksGiveHand(landmarks: Landmarks)
    requires forall j: JointName :: j in landmarks
    ensures CreateHand(landmarks).Some?
  {
    CreateHandAllOrNothing(landmarks);
  }

  /** A built hand's finger is tip/one to base/four along its joint chain, each point corrected. */
  lemma HandFingerFollowsChain(landmarks: Landmarks, name: FingerName)
    requires CreateHand(landmarks).Some?
    ensures CreateHand(landmarks).value.Named(name).one == CreatePoint(landmarks[Chain(name)[0]])
    ensures CreateHand(landmarks).value.Named(name).four == CreatePoint(landmarks[Chain(name)[3]])
  {
    CreateHandFingers(landmarks, name);
    var f := CreateHand(landmarks).value.Named(name);
    assert f.Points()[0] == f.one && f.Points()[3] == f.four;
  }
}
