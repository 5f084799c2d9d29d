/**
 * The gesture detector: per frame it builds the hand, classifies it, reports to its delegate,
 * and debounces gesture changes into one delayed "gesture action".
 *
 * The pending delayed action (`perform(_:with:afterDelay:)` and
 * `cancelPreviousPerformRequests`) is a single optional deadline; the main-queue hops of the
 * source are taken to run in FIFO order, so "cancel, then schedule" happens in that order.
 * Delegate calls are events appended to a log. Time is a parameter of each step.
 */
module GestureDetector {
  import opened Wrappers
  import opened HandModel
  import opened HandBuilder

  /** The delay between a gesture change and the action it schedules, in seconds. */
  const ActionDelay: real := 1.0

  /** The overlay rectangle; its geometry only scales the drawing, which is not modelled. */
  datatype FrameRect = FrameRect(width: real, height: real)

  /** What the pose request yields for one frame. */
  datatype Frame =
    | Observation(landmarks: Landmarks)  // a hand observation with its recognised joints
    | NoObservation                      // the request ran and found no hand
    | RequestError                       // the request threw

  /** What `update` makes of a frame before it touches any state. */
  datatype Perception =
    | HandBuilt(hand: Hand, gesture: Option<HandGesture>)  // the hand built from an observation, and its gesture
    | BuildFailed            // an observation with a missing joint
    | NotObserved            // no observation
    | RequestFailed          // the request threw

  /** The first half of `update`: run the request's result through `createHand`, then classify the hand. */
  function Perceive(frame: Frame): (p: Perception)
    ensures p.HandBuilt? <==> frame.Observation? && CreateHand(frame.landmarks).Some?
    ensures p.HandBuilt? ==> Some(p.hand) == CreateHand(frame.landmarks) && p.gesture == p.hand.Gesture()
    ensures p.BuildFailed? <==> frame.Observation? && CreateHand(frame.landmarks).None?
    ensures p.NotObserved? <==> frame.NoObservation?
  {
    match frame
    case Observation(landmarks) =>
      (match CreateHand(landmarks)
       case Some(hand) => HandBuilt(hand, hand.Gesture())
       case None => BuildFailed)
    case NoObservation => NotObserved
    case RequestError => RequestFailed
  }

  /** A delegate call. */
  datatype Event =
    | DrawDetectedHand(hand: Hand)
    | GestureDetectingFail
    | GestureDetected(gesture: Option<HandGesture>)
    | GestureActionDetected(action: HandGesture)

  /** The state that survives between frames: the last gesture and the pending action's deadline. */
  datatype DebounceState = DebounceState(last: Option<HandGesture>, pending: Option<real>)

  /** The state after a step, and the delegate calls the step made, in order. */
  datatype Outcome = Outcome(state: DebounceState, emitted: seq<Event>)

  const Initial: DebounceState := DebounceState(None, None)

  /** An action is only ever pending while a gesture is committed. */
  predicate Consistent(s: DebounceState) {
    s.pending.Some? ==> s.last.Some?
  }

  /** The second half of `update`: the debounce transition and the delegate calls for one frame at time `now`. */
  function OnFrame(s: DebounceState, p: Perception, now: real, frameLayer: Option<FrameRect>): (o: Outcome)
    ensures Consistent(s) ==> Consistent(o.state)
    ensures o.state.pending.Some? ==> o.state.pending == s.pending || o.state.pending == Some(now + ActionDelay)
  {
    match p
    case RequestFailed => Outcome(s, [])
    case NotObserved => Outcome(s.(pending := None), [GestureDetectingFail])
    case BuildFailed => Outcome(s.(pending := None), [])
    case HandBuilt(hand, g) =>
      var pending :=
        if g.Some? && s.last != g then Some(now + ActionDelay)
        else if g.None? && s.last != g then None
        else s.pending;
      Outcome(DebounceState(g, pending), [GestureDetected(g)] + Drawn(hand, frameLayer))
  }

  /** The overlay call for a built hand: made only when an overlay frame is configured. */
  function Drawn(hand: Hand, frameLayer: Option<FrameRect>): (r: seq<Event>)
    ensures |r| <= 1 && (r != [] <==> frameLayer.Some?)
    ensures forall e :: e in r ==> e == DrawDetectedHand(hand)
  {
    if frameLayer.Some? then [DrawDetectedHand(hand)] else []
  }

  /** The pending action's timer at time `now`: once its deadline has passed it runs `sendHandAction`. */
  function OnTimer(s: DebounceState, now: real): (o: Outcome)
    ensures Consistent(s) ==> Consistent(o.state)
    ensures o.state.last == s.last && (o.state.pending.Some? ==> o.state.pending == s.pending)
  {
    if s.pending.Some? && s.pending.value <= now then
      Outcome(s.(pending := None), if s.last.Some? then [GestureActionDetected(s.last.value)] else [])
    else
      Outcome(s, [])
  }

  /** One thing that can happen to the detector. */
  datatype Step = FrameArrives(perception: Perception, at: real) | TimerRuns(at: real)

  function OnStep(s: DebounceState, step: Step, frameLayer: Option<FrameRect>): (o: Outcome)
    ensures Consistent(s) ==> Consistent(o.state)
  {
    match step
    case FrameArrives(p, at) => OnFrame(s, p, at, frameLayer)
    case TimerRuns(at) => OnTimer(s, at)
  }

  /** A run of steps from state `s`: the final state and every delegate call, in order. */
  function Run(s: DebounceState, steps: seq<Step>, frameLayer: Option<FrameRect>): Outcome
    decreases |steps|
  {
    if steps == [] then Outcome(s, [])
    else
      var first := OnStep(s, steps[0], frameLayer);
      var rest := Run(first.state, steps[1..], frameLayer);
      Outcome(rest.state, first.emitted + rest.emitted)
  }

  /** The payloads of the `gestureDetected` calls in a log. */
  function Detections(events: seq<Event>): (r: seq<Option<HandGesture>>)
    ensures |r| <= |events|
  {
    if events == [] then []
    else (if events[0].GestureDetected? then [events[0].gesture] else []) + Detections(events[1..])
  }

  /** The `gestureActionDetected` payloads in a log. */
  function Actions(events: seq<Event>): (r: seq<HandGesture>)
    ensures |r| <= |events|
  {
    if events == [] then []
    else (if events[0].GestureActionDetected? then [events[0].action] else []) + Actions(events[1..])
  }

  lemma {:induction false} DetectionsAppend(a: seq<Event>, b: seq<Event>)
    ensures Detections(a + b) == Detections(a) + Detections(b)
  {
    if a != [] {
      assert (a + b)[1..] == a[1..] + b;
      DetectionsAppend(a[1..], b);
    } else {
      assert a + b == b;
    }
  }

  lemma {:induction false} ActionsAppend(a: seq<Event>, b: seq<Event>)
    ensures Actions(a + b) == Actions(a) + Actions(b)
  {
    if a != [] {
      assert (a + b)[1..] == a[1..] + b;
      ActionsAppend(a[1..], b);
    } else {
      assert a + b == b;
    }
  }

  // ---- The transitions of one frame ----

  /** A built hand whose gesture is new and non-nil: the old action is cancelled, one is scheduled a second later. */
  lemma NewGestureSchedulesAction(s: DebounceState, hand: Hand, g: Option<HandGesture>, now: real, frameLayer: Option<FrameRect>)
    requires g.Some? && g != s.last
    ensures OnFrame(s, HandBuilt(hand, g), now, frameLayer)
      == Outcome(DebounceState(g, Some(now + ActionDelay)), [GestureDetected(g)] + Drawn(hand, frameLayer))
  {
  }

  /** A built hand showing the committed gesture (nil included): nothing is cancelled or rescheduled. */
  lemma SameGestureKeepsDeadline(s: DebounceState, hand: Hand, g: Option<HandGesture>, now: real, frameLayer: Option<FrameRect>)
    requires g == s.last
    ensures OnFrame(s, HandBuilt(hand, g), now, frameLayer) == Outcome(s, [GestureDetected(s.last)] + Drawn(hand, frameLayer))
  {
  }

  /** A built hand showing no gesture while one is committed: the action is cancelled, none is scheduled. */
  lemma LostGestureCancelsAction(s: DebounceState, hand: Hand, now: real, frameLayer: Option<FrameRect>)
    requires s.last.Some?
    ensures OnFrame(s, HandBuilt(hand, None), now, frameLayer).state == DebounceState(None, None)
  {
  }

  /**
   * Both failure paths cancel the action and keep the committed gesture; only the
   * no-observation path reports a failure, and neither reports a gesture.
   */
  lemma FailuresCancelAndKeepGesture(s: DebounceState, now: real, frameLayer: Option<FrameRect>)
    ensures OnFrame(s, BuildFailed, now, frameLayer) == Outcome(DebounceState(s.last, None), [])
    ensures OnFrame(s, NotObserved, now, frameLayer) == Outcome(DebounceState(s.last, None), [GestureDetectingFail])
  {
  }

  /** A thrown request changes nothing and reports nothing. */
  lemma RequestErrorIsIgnored(s: DebounceState, now: real, frameLayer: Option<FrameRect>)
    ensures OnFrame(s, RequestFailed, now, frameLayer) == Outcome(s, [])
  {
  }

  /**
   * `gestureDetected` is reported once per built hand, carrying the gesture just committed,
   * and never otherwise; `gestureDetectingFail` only when no hand was observed.
   */
  lemma DetectedOncePerBuiltHand(s: DebounceState, p: Perception, now: real, frameLayer: Option<FrameRect>)
    ensures var o := OnFrame(s, p, now, frameLayer);
      Detections(o.emitted) == (if p.HandBuilt? then [o.state.last] else [])
    ensures GestureDetectingFail in OnFrame(s, p, now, frameLayer).emitted <==> p.NotObserved?
    ensures Actions(OnFrame(s, p, now, frameLayer).emitted) == []
  {
    if p.HandBuilt? {
      var seen := [GestureDetected(p.gesture)];
      var drawn := Drawn(p.hand, frameLayer);
      DetectionsAppend(seen, drawn);
      ActionsAppend(seen, drawn);
    }
  }

  // ---- The timer ----

  /**
   * In a consistent state the timer reports the committed gesture exactly when an action is
   * pending and its deadline has passed; it then clears the pending action.
   */
  lemma TimerReportsCommittedGesture(s: DebounceState, now: real)
    requires Consistent(s)
    ensures var o := OnTimer(s, now);
      Actions(o.emitted) == (if s.pending.Some? && s.pending.value <= now then [s.last.value] else [])
      && Detections(o.emitted) == []
      && (s.pending.Some? && s.pending.value <= now ==> o.state == DebounceState(s.last, None))
      && (s.pending.None? || now < s.pending.value ==> o.state == s)
  {
  }

  /** One schedule, at most one action: once the timer has run, running it again reports nothing. */
  lemma TimerRunsAtMostOnce(s: DebounceState, t1: real, t2: real)
    requires OnTimer(s, t1).emitted != []
    ensures OnTimer(OnTimer(s, t1).state, t2).emitted == []
  {
  }

  /**
   * Switching gestures before the old action runs replaces it: the timer stays silent until a
   * full delay after the switch, and then reports the new gesture.
   */
  lemma SwitchReplacesPendingAction(s: DebounceState, hand: Hand, g: HandGesture, now: real, later: real, frameLayer: Option<FrameRect>)
    requires s.last != Some(g)
    ensures var after := OnFrame(s, HandBuilt(hand, Some(g)), now, frameLayer).state;
      OnTimer(after, later).emitted ==
        (if now + ActionDelay <= later then [GestureActionDetected(g)] else [])
  {
    NewGestureSchedulesAction(s, hand, Some(g), now, frameLayer);
  }

  /**
   * After a failure frame cancels the action, the same gesture coming back schedules nothing:
   * the gesture is still committed, so the hand is seen as unchanged.
   */
  lemma ReturnAfterFailureSchedulesNothing(s: DebounceState, failed: Perception, hand: Hand, t1: real, t2: real, frameLayer: Option<FrameRect>)
    requires failed == NotObserved || failed == BuildFailed
    ensures var mid := OnFrame(s, failed, t1, frameLayer).state;
      OnFrame(mid, HandBuilt(hand, s.last), t2, frameLayer).state == DebounceState(s.last, None)
  {
  }

  // ---- Runs ----

  /** Every reachable state is consistent. */
  lemma {:induction false} RunKeepsConsistent(s: DebounceState, steps: seq<Step>, frameLayer: Option<FrameRect>)
    requires Consistent(s)
    ensures Consistent(Run(s, steps, frameLayer).state)
    decreases |steps|
  {
    if steps != [] {
      var first := OnStep(s, steps[0], frameLayer);
      RunKeepsConsistent(first.state, steps[1..], frameLayer);
      assert Run(s, steps, frameLayer).state == Run(first.state, steps[1..], frameLayer).state;
    }
  }

  /** 1 while an action is pending, else 0. */
  function PendingCount(s: DebounceState): (n: nat)
    ensures n <= 1 && (n == 1 <==> s.pending.Some?)
  {
    if s.pending.Some? then 1 else 0
  }

  /** Whether `step`, taken in state `s`, schedules an action: a frame committing a new non-nil gesture. */
  predicate Schedules(s: DebounceState, step: Step) {
    step.FrameArrives? && step.perception.HandBuilt?
    && step.perception.gesture.Some? && step.perception.gesture != s.last
  }

  /** How many steps of the run from `s` schedule an action. */
  function Scheduled(s: DebounceState, steps: seq<Step>, frameLayer: Option<FrameRect>): (n: nat)
    ensures n <= |steps|
    decreases |steps|
  {
    if steps == [] then 0
    else
      (if Schedules(s, steps[0]) then 1 else 0)
      + Scheduled(OnStep(s, steps[0], frameLayer).state, steps[1..], frameLayer)
  }

  /**
   * One step never creates an action out of nothing: the actions it fires plus the action
   * left pending are at most the action pending before plus the one it schedules.
   */
  lemma StepFiresWithinSchedules(s: DebounceState, step: Step, frameLayer: Option<FrameRect>)
    ensures var o := OnStep(s, step, frameLayer);
      |Actions(o.emitted)| + PendingCount(o.state) <= (if Schedules(s, step) then 1 else 0) + PendingCount(s)
  {
    match step
    case FrameArrives(p, at) =>
      DetectedOncePerBuiltHand(s, p, at, frameLayer);
    case TimerRuns(at) =>
      if s.pending.Some? && s.pending.value <= at && s.last.Some? {
        assert OnStep(s, step, frameLayer).emitted == [GestureActionDetected(s.last.value)];
      }
  }

  /**
   * At most one fire per commit: over any run, the actions fired plus the one still pending
   * number at most the frames that scheduled one, plus the one pending at the start.
   */
  lemma {:induction false} FiresWithinSchedules(s: DebounceState, steps: seq<Step>, frameLayer: Option<FrameRect>)
    ensures var o := Run(s, steps, frameLayer);
      |Actions(o.emitted)| + PendingCount(o.state) <= Scheduled(s, steps, frameLayer) + PendingCount(s)
    decreases |steps|
  {
    if steps != [] {
      var first := OnStep(s, steps[0], frameLayer);
      var rest := Run(first.state, steps[1..], frameLayer);
      StepFiresWithinSchedules(s, steps[0], frameLayer);
      FiresWithinSchedules(first.state, steps[1..], frameLayer);
      ActionsAppend(first.emitted, rest.emitted);
    }
  }

  /** How many steps are frames from which a hand was built. */
  function BuiltHandFrames(steps: seq<Step>): (n: nat)
    ensures n <= |steps|
  {
    if steps == [] then 0
    else (if steps[0].FrameArrives? && steps[0].perception.HandBuilt? then 1 else 0) + BuiltHandFrames(steps[1..])
  }

  /** Over any run, `gestureDetected` is reported exactly once per frame that yields a hand. */
  lemma {:induction false} DetectionsCountBuiltHands(s: DebounceState, steps: seq<Step>, frameLayer: Option<FrameRect>)
    ensures |Detections(Run(s, steps, frameLayer).emitted)| == BuiltHandFrames(steps)
    decreases |steps|
  {
    if steps != [] {
      var first := OnStep(s, steps[0], frameLayer);
      var rest := Run(first.state, steps[1..], frameLayer);
      DetectionsCountBuiltHands(first.state, steps[1..], frameLayer);
      DetectionsAppend(first.emitted, rest.emitted);
      match steps[0]
      case FrameArrives(p, at) =>
        DetectedOncePerBuiltHand(s, p, at, frameLayer);
      case TimerRuns(at) =>
        assert Detections(first.emitted) == [] by {
          if s.pending.Some? && s.pending.value <= at && s.last.Some? {
            assert first.emitted == [GestureActionDetected(s.last.value)];
          }
        }
    }
  }

  /**
   * Every step is a frame from which some hand was built with gesture `g`; the hands and the
   * times may differ from frame to frame.
   */
  predicate ShowsGesture(steps: seq<Step>, g: Option<HandGesture>) {
    forall step :: step in steps ==> step.FrameArrives? && step.perception.HandBuilt? && step.perception.gesture == g
  }

  /**
   * Holding the committed gesture never resets or extends the timer: any number of frames,
   * each with whatever hand shows that gesture, leave the state, and so the deadline, exactly
   * as it was, and each reports the gesture.
   */
  lemma {:induction false} HoldingKeepsDeadline(s: DebounceState, steps: seq<Step>, frameLayer: Option<FrameRect>)
    requires ShowsGesture(steps, s.last)
    ensures Run(s, steps, frameLayer).state == s
    ensures Detections(Run(s, steps, frameLayer).emitted) == seq(|steps|, _ => s.last)
    ensures Actions(Run(s, steps, frameLayer).emitted) == []
    decreases |steps|
  {
    if steps != [] {
      assert steps[0] in steps;
      var first := OnStep(s, steps[0], frameLayer);
      HeldFrameStep(s, steps[0], frameLayer);
      ShowsGestureTail(steps, s.last);
      HoldingKeepsDeadline(s, steps[1..], frameLayer);
      var rest := Run(s, steps[1..], frameLayer);
      DetectionsAppend(first.emitted, rest.emitted);
      ActionsAppend(first.emitted, rest.emitted);
      RepeatCons(s.last, |steps| - 1);
    }
  }

  /** One frame showing the committed gesture: the state is kept, the gesture reported, nothing fired. */
  lemma HeldFrameStep(s: DebounceState, step: Step, frameLayer: Option<FrameRect>)
    requires step.FrameArrives? && step.perception.HandBuilt? && step.perception.gesture == s.last
    ensures var o := OnStep(s, step, frameLayer);
      o.state == s && Detections(o.emitted) == [s.last] && Actions(o.emitted) == []
  {
    var p := step.perception;
    SameGestureKeepsDeadline(s, p.hand, p.gesture, step.at, frameLayer);
    DetectedOncePerBuiltHand(s, p, step.at, frameLayer);
  }

  lemma ShowsGestureTail(steps: seq<Step>, g: Option<HandGesture>)
    requires steps != [] && ShowsGesture(steps, g)
    ensures ShowsGesture(steps[1..], g)
  {
    forall step | step in steps[1..] ensures step in steps {
    }
  }

  lemma RepeatCons<T>(x: T, n: nat)
    ensures [x] + seq(n, _ => x) == seq(n + 1, _ => x)
  {
  }

  /** Running two stretches of steps one after the other is running their concatenation. */
  lemma {:induction false} RunAppend(s: DebounceState, a: seq<Step>, b: seq<Step>, frameLayer: Option<FrameRect>)
    ensures var first := Run(s, a, frameLayer);
      var second := Run(first.state, b, frameLayer);
      Run(s, a + b, frameLayer) == Outcome(second.state, first.emitted + second.emitted)
    decreases |a|
  {
    if a == [] {
      assert a + b == b;
    } else {
      var head := OnStep(s, a[0], frameLayer);
      var joined := Run(head.state, a[1..] + b, frameLayer);
      assert Run(s, a + b, frameLayer) == Outcome(joined.state, head.emitted + joined.emitted) by {
        assert (a + b)[0] == a[0] && (a + b)[1..] == a[1..] + b;
      }
      RunAppend(head.state, a[1..], b, frameLayer);
      var first := Run(head.state, a[1..], frameLayer);
      var second := Run(first.state, b, frameLayer);
      assert head.emitted + (first.emitted + second.emitted) == (head.emitted + first.emitted) + second.emitted;
    }
  }

  /** A frame at time `t` followed by a chance for the timer to run at the same time. */
  function FrameThenTimer(p: Perception, t: real): seq<Step> {
    [FrameArrives(p, t), TimerRuns(t)]
  }

  /**
   * A hand held for three frames 0.1 s apart and lost on the fourth, with the timer given
   * every chance to run, until well after the delay.
   */
  function HeldThenLost(p: Perception): (r: seq<Step>)
    ensures |r| == 9
  {
    FrameThenTimer(p, 0.0) + (FrameThenTimer(p, 0.1) + (FrameThenTimer(p, 0.2) + LossThenTimer()))
  }

  /** The hand lost at 0.3 s, and the timer's chances at 0.3 s and 5.0 s. */
  function LossThenTimer(): seq<Step> {
    FrameThenTimer(NotObserved, 0.3) + [TimerRuns(5.0)]
  }

  /**
   * For a hand perceived as a fist (any `Perceive` result carrying `Some(Fist)`): three fists
   * are reported, then the failure, and no action ever runs.
   */
  lemma FistLostBeforeDelayFiresNothing(p: Perception)
    requires p.HandBuilt? && p.gesture == Some(Fist)
    ensures Run(Initial, HeldThenLost(p), None) == Outcome(DebounceState(Some(Fist), None),
      [GestureDetected(Some(Fist)), GestureDetected(Some(Fist)), GestureDetected(Some(Fist)), GestureDetectingFail])
  {
    var held := DebounceState(Some(Fist), Some(ActionDelay));
    LossIsQuiet(held);
    HeldFrameIsQuiet(held, p, 0.2);
    RunAppend(held, FrameThenTimer(p, 0.2), LossThenTimer(), None);
    HeldFrameIsQuiet(held, p, 0.1);
    RunAppend(held, FrameThenTimer(p, 0.1), FrameThenTimer(p, 0.2) + LossThenTimer(), None);
    FirstFrameSchedules(p);
    RunAppend(Initial, FrameThenTimer(p, 0.0), FrameThenTimer(p, 0.1) + (FrameThenTimer(p, 0.2) + LossThenTimer()), None);
  }

  /** The first fist schedules the action a second later; the timer stays quiet meanwhile. */
  lemma FirstFrameSchedules(p: Perception)
    requires p.HandBuilt? && p.gesture == Some(Fist)
    ensures Run(Initial, FrameThenTimer(p, 0.0), None)
      == Outcome(DebounceState(Some(Fist), Some(ActionDelay)), [GestureDetected(Some(Fist))])
  {
    var steps := FrameThenTimer(p, 0.0);
    var first := OnStep(Initial, steps[0], None);
    var second := OnStep(first.state, steps[1], None);
    assert first == Outcome(DebounceState(Some(Fist), Some(ActionDelay)), [GestureDetected(Some(Fist))]);
    assert second == Outcome(first.state, []);
    assert steps[1..][1..] == [];
    assert Run(first.state, steps[1..], None) == Outcome(first.state, []);
  }

  /** The fist held before the deadline: reported again, the deadline untouched, the timer quiet. */
  lemma HeldFrameIsQuiet(held: DebounceState, p: Perception, t: real)
    requires held == DebounceState(Some(Fist), Some(ActionDelay)) && t < ActionDelay
    requires p.HandBuilt? && p.gesture == Some(Fist)
    ensures Run(held, FrameThenTimer(p, t), None) == Outcome(held, [GestureDetected(Some(Fist))])
  {
    var steps := FrameThenTimer(p, t);
    var first := OnStep(held, steps[0], None);
    assert first == Outcome(held, [GestureDetected(Some(Fist))]);
    assert OnStep(held, steps[1], None) == Outcome(held, []);
    assert steps[1..][1..] == [];
    assert Run(held, steps[1..], None) == Outcome(held, []);
  }

  /** The hand lost before the deadline: the failure is reported and the action never runs. */
  lemma LossIsQuiet(held: DebounceState)
    requires held == DebounceState(Some(Fist), Some(ActionDelay))
    ensures Run(held, LossThenTimer(), None) == Outcome(DebounceState(Some(Fist), None), [GestureDetectingFail])
  {
    var steps := LossThenTimer();
    var lost := DebounceState(Some(Fist), None);
    assert OnStep(held, steps[0], None) == Outcome(lost, [GestureDetectingFail]);
    assert OnStep(lost, steps[1], None) == Outcome(lost, []);
    assert OnStep(lost, steps[2], None) == Outcome(lost, []);
    assert steps[1..][1..][1..] == [];
    assert Run(lost, steps[1..][1..], None) == Outcome(lost, []);
    assert Run(lost, steps[1..], None) == Outcome(lost, []);
  }

  // ---- The detector object ----

  /** The detector: its overlay frame, its last gesture, its pending action and its delegate's log. */
  class HandGestureDetector {
    var frameLayer: Option<FrameRect>
    var lastDetectedGesture: Option<HandGesture>
    var pendingAction: Option<real>
    ghost var events: seq<Event>

    function State(): DebounceState
      reads this
    {
      DebounceState(lastDetectedGesture, pendingAction)
    }

    ghost predicate Valid()
      reads this
    {
      Consistent(State())
    }

    constructor ()
      ensures Valid() && State() == Initial && frameLayer == None && events == []
    {
      frameLayer := None;
      lastDetectedGesture := None;
      pendingAction := None;
      events := [];
    }

    /** Processes one frame at time `now`. */
    method Update(frame: Frame, now: real)
      requires Valid()
      modifies this
      ensures Valid() && frameLayer == old(frameLayer)
      ensures State() == OnFrame(old(State()), Perceive(frame), now, frameLayer).state
      ensures events == old(events) + OnFrame(old(State()), Perceive(frame), now, frameLayer).emitted
    {
      match frame {
        case RequestError =>
        case NoObservation =>
          CancelHandAction();
          events := events + [GestureDetectingFail];
        case Observation(landmarks) =>
          var hand := CreateHand(landmarks);
          if hand.Some? {
            var gesture := hand.value.Gesture();
            if gesture.Some? && lastDetectedGesture != gesture {
              TrySendHandAction(now);
            }
            if gesture.None? && lastDetectedGesture != gesture {
              CancelHandAction();
            }
            lastDetectedGesture := gesture;
            events := events + [GestureDetected(lastDetectedGesture)];
            if frameLayer.Some? {
              events := events + [DrawDetectedHand(hand.value)];
            }
          } else {
            CancelHandAction();
          }
      }
    }

    /** Cancels the pending action and schedules a new one `ActionDelay` after `now`. */
    method TrySendHandAction(now: real)
      modifies this`pendingAction
      ensures pendingAction == Some(now + ActionDelay)
    {
      CancelHandAction();
      pendingAction := Some(now + ActionDelay);
    }

    /** Cancels the pending action, if any. */
    method CancelHandAction()
      modifies this`pendingAction
      ensures pendingAction == None
    {
      pendingAction := None;
    }

    /** The delayed action: reports the last gesture to the delegate, when there is one. */
    method SendHandAction()
      modifies this`events
      ensures events == old(events) + (if lastDetectedGesture.Some? then [GestureActionDetected(lastDetectedGesture.value)] else [])
    {
      if lastDetectedGesture.Some? {
        events := events + [GestureActionDetected(lastDetectedGesture.value)];
      }
    }

    /** The run loop at time `now`: the pending action runs once its deadline has passed. */
    method Fire(now: real)
      requires Valid()
      modifies this
      ensures Valid() && frameLayer == old(frameLayer)
      ensures State() == OnTimer(old(State()), now).state
      ensures events == old(events) + OnTimer(old(State()), now).emitted
    {
      if pendingAction.Some? && pendingAction.value <= now {
        pendingAction := None;
        SendHandAction();
      }
    }
  }
}
