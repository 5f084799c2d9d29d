# VisionGestureKit hand-gesture core, in Dafny

This project models the core of VisionGestureKit, an iOS library that turns the hand
joints a pose detector reports into a gesture label (rock, victory or fist). It also
debounces gesture changes into one delayed "gesture action" for its delegate. Three parts
are modelled:

- **Hand model builder** (`HandBuilder`). Joint landmarks go in and a hand of five fingers
  plus the wrist comes out. The build is all-or-nothing: one missing joint means no hand.
  Every point goes through the orientation correction (x, y) ↦ (1 − y, x).
- **Gesture classifier** (`Geometry`, `FingerModel`, `HandModel`). A finger is closed when
  its tip is strictly nearer the wrist than its base joint. The closed/open pattern of
  index, middle, ring and little is looked up in a table of three rows: rock, victory,
  fist.
- **Debounce state machine** (`GestureDetector`). It keeps the last gesture and at most one
  pending delayed action. `Perceive` turns a frame into what `update` makes of it (a built
  hand with its gesture, a failed build, no observation, or a thrown request). Pure
  functions `OnFrame` and `OnTimer` then give the exact transitions and delegate calls.
  The class `HandGestureDetector` has the source's fields and methods. `Update` and `Fire`
  are proved equal to `OnFrame` and `OnTimer`. The helpers they call (`TrySendHandAction`,
  `CancelHandAction`, `SendHandAction`) each state their own exact effect.

Files: `wrappers.dfy` (Option), `geometry.dfy`, `finger.dfy`, `hand.dfy`, `builder.dfy`,
`detector.dfy`.

Design decisions:

- **Distance.** Distances are compared through squared distances. Dafny has no square root,
  so `distance(from:to:)` is the relation `IsDistance(d, p, q)`: d ≥ 0 and d² is the
  squared distance. `SqrtMonotone` proves that comparing roots is the same as comparing
  radicands. `ClosedIffDistanceLess` proves that the squared test agrees with the
  source's `sqrt` test.
- **Time and the pending action.** The pending delayed action is `Option<real>`, the time
  at which it is due. The run loop is a separate step, `OnTimer` / `Fire(now)`, that can run
  at any time. It runs the action once the deadline has passed.
- **Failure frames.** Both failure paths of `update`
  (Source/HandGesture/VGKHandGestureDetector.swift:48-53) only call `cancelHandAction()`.
  They leave `lastDetectedGesture` as it was. `gestureDetectingFail` is reported only when
  there is no observation (line 53), and `gestureDetected` only for a built hand (line 44).
  `FailuresCancelAndKeepGesture` states both outcomes. `ReturnAfterFailureSchedulesNothing`
  shows what follows: when the same gesture comes back after a failure frame, no action is
  scheduled.

## Model

| member | source | states |
|---|---|---|
| `Geometry.SquaredDistance` | VisionGestureKit/HandGesture/Models/Hand.swift:50-52 | the radicand of `distance` is never negative |
| `Geometry.SquaredDistanceSymmetric` | VisionGestureKit/HandGesture/Models/Hand.swift:50-52 | the squared distance does not depend on the order of the points |
| `Geometry.SqrtMonotone` | VisionGestureKit/HandGesture/Models/Hand.swift:51 | for non-negative roots, r1 < r2 iff a1 < a2 and r1 = r2 iff a1 = a2 (sqrt is strictly monotone) |
| `Geometry.DistanceWellDefined` | VisionGestureKit/HandGesture/Models/Hand.swift:50-52 | `distance` is determined by its points, symmetric and non-negative |
| `Geometry.DistanceLessIffSquaredLess` | VisionGestureKit/HandGesture/Models/Hand.swift:50-52 | comparing two distances is comparing their squared distances |
| `Geometry.IsDistance` | VisionGestureKit/HandGesture/Models/Hand.swift:50-52 | `distance(from:to:)` as a relation: d is the non-negative root of the squared distance; `DistanceWellDefined` shows at most one d fits |
| `Geometry.DistancesCompareBySquares` | VisionGestureKit/HandGesture/Models/Hand.swift:17-31 | for two points and a common origin, every pair of distances compares as the squared distances do |
| `FingerModel.Position` | Source/HandGesture/Models/Finger.swift:3-9 | each of the five finger names has its own place 0..4 in the order thumb, index, middle, ring, little |
| `FingerModel.FingerNamesDistinct` | Source/HandGesture/Models/Finger.swift:3-9 | the five finger names are pairwise distinct |
| `FingerModel.Finger.Points` | Source/HandGesture/Models/Finger.swift:24-26 | `points` has exactly 4 elements, the first is the tip `one` and the last is the base `four` |
| `FingerModel.FingerOfPoints` | Source/HandGesture/Models/Finger.swift:18-26 | a joint list is the list of some finger exactly when it has 4 elements |
| `FingerModel.PointsRoundTrip` | Source/HandGesture/Models/Finger.swift:24-26 | `points` loses nothing: the finger is rebuilt from it |
| `FingerModel.FingerOfPointsRoundTrip` | Source/HandGesture/Models/Finger.swift:24-26 | every 4-element list is `points` of the finger rebuilt from it, in order one, two, three, four |
| `HandModel.IsClosed` | VisionGestureKit/HandGesture/Models/Hand.swift:17-31 | for any values the distance relation allows, a finger is closed iff distance(tip, wrist) < distance(base, wrist) |
| `HandModel.Hand.IsThumbClosed` | VisionGestureKit/HandGesture/Models/Hand.swift:17-19 | `IsClosed` of the thumb against the hand's wrist, so closed iff the thumb tip is strictly nearer the wrist than its base |
| `HandModel.Hand.IsIndexClosed` | VisionGestureKit/HandGesture/Models/Hand.swift:20-22 | `IsClosed` of the index finger against the wrist |
| `HandModel.Hand.IsMiddleClosed` | VisionGestureKit/HandGesture/Models/Hand.swift:23-25 | `IsClosed` of the middle finger against the wrist |
| `HandModel.Hand.IsRingClosed` | VisionGestureKit/HandGesture/Models/Hand.swift:26-28 | `IsClosed` of the ring finger against the wrist |
| `HandModel.Hand.IsLittleClosed` | VisionGestureKit/HandGesture/Models/Hand.swift:29-31 | `IsClosed` of the little finger against the wrist |
| `HandModel.ClosedIffDistanceLess` | VisionGestureKit/HandGesture/Models/Hand.swift:17-31 | a finger is closed iff distance(tip, wrist) < distance(base, wrist); equal distances mean open |
| `HandModel.ClosedUsesTipAndBase` | VisionGestureKit/HandGesture/Models/Hand.swift:20-21 | the closed test compares `points[0]` and `points[3]` with the wrist |
| `HandModel.Hand.Fingers` | VisionGestureKit/HandGesture/Models/Hand.swift:33-35 | `fingers` has 5 elements, and the finger named n stands at n's position, thumb to little |
| `HandModel.Hand.Gesture` | VisionGestureKit/HandGesture/Models/Hand.swift:37-48 | rock iff (open, closed, closed, open); victory iff (open, open, closed, closed); fist iff all four closed; every gesture has the ring finger closed |
| `HandModel.ThumbDoesNotMatter` | VisionGestureKit/HandGesture/Models/Hand.swift:17-19 | replacing the thumb never changes the gesture |
| `HandModel.AllOpenIsNoGesture` | VisionGestureKit/HandGesture/Models/Hand.swift:47 | four open fingers give no gesture |
| `HandModel.FirstMatch` | VisionGestureKit/HandGesture/Models/Hand.swift:37-48 | a first-match table lookup only returns a gesture whose (pattern, gesture) row is in the table |
| `HandModel.FirstMatchIsOnlyMatch` | VisionGestureKit/HandGesture/Models/Hand.swift:37-48 | when patterns are distinct, the lookup gives g iff (p, g) is a row |
| `HandModel.RuleOrderIrrelevant` | VisionGestureKit/HandGesture/Models/Hand.swift:37-48 | two tables with distinct patterns and the same rows classify every pattern alike, so priority order never matters |
| `HandModel.GestureIsTableLookup` | VisionGestureKit/HandGesture/Models/Hand.swift:37-48 | `gesture` equals the lookup of the hand's pattern in the three-row table, in any row order |
| `HandBuilder.CreatePoint` | Source/HandGesture/VGKHandGestureDetector.swift:180-182 | the corrected point loses nothing: `RawLocation` of it is the raw location |
| `HandBuilder.RawLocationRoundTrip` | Source/HandGesture/VGKHandGestureDetector.swift:180-182 | every model point is the corrected point of exactly one raw location |
| `HandBuilder.CreatePointKeepsDistances` | Source/HandGesture/VGKHandGestureDetector.swift:180-182 | the correction keeps all distances, so it never changes which fingers are closed |
| `HandBuilder.Chain` | Source/HandGesture/VGKHandGestureDetector.swift:125-177 | each finger reads four joints, none of them the wrist |
| `HandBuilder.ChainsDisjoint` | Source/HandGesture/VGKHandGestureDetector.swift:125-177 | two different fingers never read the same joint |
| `HandBuilder.CreateFinger` | Source/HandGesture/VGKHandGestureDetector.swift:125-177 | a finger is built iff all four of its joints are present, and points[k] is the corrected k-th joint of its tip-to-base chain |
| `HandBuilder.RequiredJointsAreChains` | Source/HandGesture/VGKHandGestureDetector.swift:108-115 | the required joints are exactly the wrist and the joints of the five chains |
| `HandBuilder.CreateHand` | Source/HandGesture/VGKHandGestureDetector.swift:108-123 | a built hand's wrist is the corrected wrist landmark |
| `HandBuilder.CreateHandFingers` | Source/HandGesture/VGKHandGestureDetector.swift:108-123 | a built hand holds, under each name, the finger `createFinger` builds; one unbuildable finger means no hand |
| `HandBuilder.CreateHandAllOrNothing` | Source/HandGesture/VGKHandGestureDetector.swift:108-115 | a hand is built iff all 21 required joints are present, which is every joint name there is |
| `HandBuilder.MissingJointMeansNoHand` | Source/HandGesture/VGKHandGestureDetector.swift:108-115 | any single missing joint gives no hand |
| `HandBuilder.CompleteLandmarksGiveHand` | Source/HandGesture/VGKHandGestureDetector.swift:108-123 | a frame with every joint always gives a hand |
| `HandBuilder.HandFingerFollowsChain` | Source/HandGesture/VGKHandGestureDetector.swift:127-136 | a built finger's tip and base are the corrected first and last joints of its chain |
| `GestureDetector.Perceive` | Source/HandGesture/VGKHandGestureDetector.swift:29-35 | a frame yields a hand iff it is an observation from which `createHand` builds one, and then carries that hand and its gesture; a failed build and a missing observation are told apart |
| `GestureDetector.OnFrame` | Source/HandGesture/VGKHandGestureDetector.swift:26-58 | an update keeps the invariant "pending action implies a committed gesture"; a pending deadline after it is the old one or now + 1.0 |
| `GestureDetector.Drawn` | Source/HandGesture/VGKHandGestureDetector.swift:45-47 | the overlay is reported once iff an overlay frame is configured |
| `GestureDetector.OnTimer` | Source/HandGesture/VGKHandGestureDetector.swift:75-79 | the timer keeps the invariant and never changes the committed gesture or moves a deadline |
| `GestureDetector.NewGestureSchedulesAction` | Source/HandGesture/VGKHandGestureDetector.swift:36-44 | a new non-nil gesture cancels any pending action, schedules one at now + 1.0, commits the gesture and reports it |
| `GestureDetector.SameGestureKeepsDeadline` | Source/HandGesture/VGKHandGestureDetector.swift:36-44 | the committed gesture again (nil included) leaves the state and deadline unchanged and only reports |
| `GestureDetector.LostGestureCancelsAction` | Source/HandGesture/VGKHandGestureDetector.swift:39-42 | a nil gesture after a non-nil one cancels the action, schedules nothing and commits nil |
| `GestureDetector.FailuresCancelAndKeepGesture` | Source/HandGesture/VGKHandGestureDetector.swift:48-53 | a failed build and no observation both cancel and keep the gesture; only the latter reports `gestureDetectingFail` |
| `GestureDetector.RequestErrorIsIgnored` | Source/HandGesture/VGKHandGestureDetector.swift:55-57 | a thrown request changes nothing and reports nothing |
| `GestureDetector.DetectedOncePerBuiltHand` | Source/HandGesture/VGKHandGestureDetector.swift:42-53 | an update reports `gestureDetected` once, with the new committed gesture, iff a hand was built; `gestureDetectingFail` iff there was no observation; never an action |
| `GestureDetector.TimerReportsCommittedGesture` | Source/HandGesture/VGKHandGestureDetector.swift:75-79 | in a reachable state the timer reports the committed gesture iff an action is pending and due, and then clears it |
| `GestureDetector.TimerRunsAtMostOnce` | Source/HandGesture/VGKHandGestureDetector.swift:62-79 | after the action has run, the timer reports nothing more |
| `GestureDetector.SwitchReplacesPendingAction` | Source/HandGesture/VGKHandGestureDetector.swift:36-38 | after a switch to gesture B, the timer stays silent before now + 1.0 and then reports B only |
| `GestureDetector.ReturnAfterFailureSchedulesNothing` | Source/HandGesture/VGKHandGestureDetector.swift:36-53 | the same gesture coming back after a failure frame leaves no action pending |
| `GestureDetector.RunKeepsConsistent` | Source/HandGesture/VGKHandGestureDetector.swift:26-79 | every state reached by frames and timer runs has no pending action without a committed gesture |
| `GestureDetector.DetectionsCountBuiltHands` | Source/HandGesture/VGKHandGestureDetector.swift:33-44 | over any run, `gestureDetected` is reported exactly once per frame that yields a hand |
| `GestureDetector.HoldingKeepsDeadline` | Source/HandGesture/VGKHandGestureDetector.swift:36-44 | any number of frames, each with any hand showing the committed gesture, keep the state and deadline exactly, report the gesture once per frame and fire nothing |
| `GestureDetector.StepFiresWithinSchedules` | Source/HandGesture/VGKHandGestureDetector.swift:36-79 | one step's fired actions plus the action left pending never exceed the action pending before plus the one it schedules |
| `GestureDetector.FiresWithinSchedules` | Source/HandGesture/VGKHandGestureDetector.swift:36-79 | at most one fire per commit: over any run, actions fired plus the one still pending are at most the frames that committed a new non-nil gesture, plus the one pending at the start |
| `GestureDetector.RunAppend` | Source/HandGesture/VGKHandGestureDetector.swift:26-79 | the detector keeps no state beyond `DebounceState`: running two stretches of steps in turn is running them joined |
| `GestureDetector.FistLostBeforeDelayFiresNothing` | Source/HandGesture/VGKHandGestureDetector.swift:26-79 | fist at 0.0, 0.1, 0.2, hand lost at 0.3: three fists and one failure are reported, and no action runs even at 5.0 |
| `GestureDetector.HandGestureDetector.constructor` | Source/HandGesture/VGKHandGestureDetector.swift:14-15 | a new detector has no gesture, no pending action, no overlay frame and an empty delegate log |
| `GestureDetector.HandGestureDetector.Update` | Source/HandGesture/VGKHandGestureDetector.swift:26-58 | the new state and the appended delegate calls are exactly `OnFrame` of the old state and `Perceive(frame)`; the invariant is kept |
| `GestureDetector.HandGestureDetector.TrySendHandAction` | Source/HandGesture/VGKHandGestureDetector.swift:62-67 | cancels the pending action, then schedules one 1.0 s after now |
| `GestureDetector.HandGestureDetector.CancelHandAction` | Source/HandGesture/VGKHandGestureDetector.swift:69-73 | no action is pending afterwards |
| `GestureDetector.HandGestureDetector.SendHandAction` | Source/HandGesture/VGKHandGestureDetector.swift:75-79 | reports `gestureActionDetected` with the last gesture iff there is one |
| `GestureDetector.HandGestureDetector.Fire` | Source/HandGesture/VGKHandGestureDetector.swift:64-66 | the new state and the appended calls are exactly `OnTimer` of the old state; the invariant is kept |

## Left out

- The pose request (Source/HandGesture/VGKHandGestureDetector.swift:18-22, 27-32). The
  Vision framework is an opaque pose model. It is replaced by the `Frame` input: a
  landmark map, no observation, or a thrown request. A recognised point's confidence is
  ignored, as in the source. The crash of `try!` on `recognizedPoints` is not modelled.
- Grand Central Dispatch and Objective-C timing (`DispatchQueue.main.async`,
  `perform(_:with:afterDelay:)`, `cancelPreviousPerformRequests`, `actionQueue`). The
  queues are assumed to run in FIFO order, so cancel-then-schedule is atomic. The pending
  action is one deadline. When the run loop runs it is a separate `Fire`/`TimerRuns` step
  whose time is a parameter. The main-queue hop inside `cancelHandAction`
  (Source/HandGesture/VGKHandGestureDetector.swift:69-73) is applied at once, inside
  `update`. In the source, `lastDetectedGesture` is written (line 42) before that queued
  cancel runs. A due `sendHandAction` (lines 75-79) can run in that window and report the
  new gesture early. For example, a switch from A to B just before A's deadline can report B
  early and then again a second later. `FiresWithinSchedules` and
  `SwitchReplacesPendingAction` hold only under the model's immediate cancel.
- The overlay drawing (`drawLines`, lines 81-106). The `drawDetectedHand` call is modelled
  as an event that carries the hand. The path geometry, colours and layer are not
  modelled.
- The delegate. It is a weak optional reference, and its protocol lives in
  VisionGestureKit/HandGesture/HandGestureDetectorDelegate.swift. The event log records the
  calls a delegate would receive. The case of no delegate is not modelled.
- `print(error)` in the catch path. It is modelled as "no state change, no call".
- CGFloat and `sqrt`. Points are mathematical reals, and floating-point rounding is not
  modelled. The existence of a square root is not proved. The distance lemmas hold for any
  value that satisfies the square-root relation.
- `VGKPhalanx` (Source/HandGesture/Models/Finger.swift:11-16). It is declared and never
  used.
