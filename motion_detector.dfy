/** The gesture detector: turns a stream of pitch readings into a debounced,
    rising-edge "hand raised" trigger. The pitch itself comes from the
    accelerometer through floating-point trigonometry, which is not part of
    this model: each poll receives the pitch (in degrees) and the time. */
module Gesture {
  import opened Config

  /** The hand counts as raised only strictly above the activation angle. */
  predicate Raised(pitch: real)
  {
    pitch > ACTIVATION_ANGLE as real
  }

  /** `debounce()`: true once at least DEBOUNCE_TIME ms have passed since the
      last trigger. */
  function Debounce(lastTriggerTime: nat, now: nat): (ok: bool)
    requires now >= lastTriggerTime
    ensures ok <==> now >= lastTriggerTime + DEBOUNCE_TIME
  {
    !(now - lastTriggerTime < DEBOUNCE_TIME)
  }

  /** The detector's two fields, as a value. */
  datatype DetectorState = DetectorState(wasRaised: bool, lastTriggerTime: nat)

  /** One reading: the pitch and the time it was taken. */
  datatype Poll = Poll(pitch: real, now: nat)

  /** What one call of `isHandRaised` returns and leaves behind. */
  datatype Reaction = Reaction(next: DetectorState, fired: bool)

  /** One call of `isHandRaised`, as a function of the state before it. */
  function Step(s: DetectorState, p: Poll): Reaction
    requires p.now >= s.lastTriggerTime
  {
    if Raised(p.pitch) && !s.wasRaised && Debounce(s.lastTriggerTime, p.now) then
      Reaction(DetectorState(true, p.now), true)
    else if !Raised(p.pitch) then
      Reaction(DetectorState(false, s.lastTriggerTime), false)
    else
      Reaction(s, false)
  }

  /** A monotone clock: every reading is taken no earlier than `t` and no
      earlier than the readings before it. */
  ghost predicate ClockFrom(t: nat, polls: seq<Poll>)
  {
    && (forall i :: 0 <= i < |polls| ==> t <= polls[i].now)
    && (forall i, j :: 0 <= i <= j < |polls| ==> polls[i].now <= polls[j].now)
  }

  /** The results of polling the detector once per reading, in order. */
  ghost function Run(s: DetectorState, polls: seq<Poll>): (fired: seq<bool>)
    requires ClockFrom(s.lastTriggerTime, polls)
    ensures |fired| == |polls|
    decreases |polls|
  {
    if polls == [] then []
    else
      var r := Step(s, polls[0]);
      assert r.next.lastTriggerTime <= polls[0].now;
      [r.fired] + Run(r.next, polls[1..])
  }

  /** `MotionDetector`: the state machine of `isHandRaised`. */
  class MotionDetector {
    var wasRaised: bool
    var lastTriggerTime: nat

    ghost function State(): DetectorState
      reads this
    {
      DetectorState(wasRaised, lastTriggerTime)
    }

    constructor ()
      ensures !wasRaised && lastTriggerTime == 0
    {
      wasRaised := false;
      lastTriggerTime := 0;
    }

    /** `isHandRaised()`: true on a debounced rising edge of "pitch above
        the activation angle". A low reading re-arms the detector; a high
        reading that does not trigger leaves the state as it was. */
    method IsHandRaised(pitch: real, now: nat) returns (fired: bool)
      requires now >= lastTriggerTime
      modifies this
      ensures fired <==> Raised(pitch) && !old(wasRaised) && now >= old(lastTriggerTime) + DEBOUNCE_TIME
      ensures fired ==> wasRaised && lastTriggerTime == now
      ensures !Raised(pitch) ==> !wasRaised && lastTriggerTime == old(lastTriggerTime)
      ensures Raised(pitch) && !fired ==> wasRaised == old(wasRaised) && lastTriggerTime == old(lastTriggerTime)
      ensures Reaction(State(), fired) == Step(old(State()), Poll(pitch, now))
    {
      var isRaised := Raised(pitch);
      if isRaised && !wasRaised && Debounce(lastTriggerTime, now) {
        wasRaised := true;
        lastTriggerTime := now;
        return true;
      }
      if !isRaised {
        wasRaised := false;
      }
      return false;
    }
  }

  lemma ClockFromTail(t: nat, t': nat, polls: seq<Poll>)
    requires ClockFrom(t, polls) && polls != []
    requires t' <= t || t' == polls[0].now
    ensures ClockFrom(t', polls[1..])
  {
  }

  /** The trigger times only move forward: a trigger at position j comes at
      least DEBOUNCE_TIME after the last trigger recorded in the start state. */
  lemma {:induction false} FiredAfterDebounce(s: DetectorState, polls: seq<Poll>, j: nat)
    requires ClockFrom(s.lastTriggerTime, polls)
    requires j < |polls| && Run(s, polls)[j]
    ensures polls[j].now >= s.lastTriggerTime + DEBOUNCE_TIME
    decreases |polls|
  {
    var r := Step(s, polls[0]);
    if j > 0 {
      ClockFromTail(s.lastTriggerTime, r.next.lastTriggerTime, polls);
      assert Run(r.next, polls[1..])[j - 1];
      FiredAfterDebounce(r.next, polls[1..], j - 1);
    }
  }

  /** From a raised state, nothing fires until some reading is at or below
      the activation angle. */
  lemma {:induction false} FiredNeedsLowering(s: DetectorState, polls: seq<Poll>, j: nat)
    requires ClockFrom(s.lastTriggerTime, polls)
    requires s.wasRaised
    requires j < |polls| && Run(s, polls)[j]
    ensures exists k :: 0 <= k < j && !Raised(polls[k].pitch)
    decreases |polls|
  {
    var r := Step(s, polls[0]);
    if Raised(polls[0].pitch) {
      assert r.next == s && j > 0;
      ClockFromTail(s.lastTriggerTime, r.next.lastTriggerTime, polls);
      assert Run(r.next, polls[1..])[j - 1];
      FiredNeedsLowering(r.next, polls[1..], j - 1);
      var k :| 0 <= k < j - 1 && !Raised(polls[1..][k].pitch);
      assert !Raised(polls[k + 1].pitch);
    } else {
      assert j > 0 && !Raised(polls[0].pitch);
    }
  }

  /** Any two triggers are at least DEBOUNCE_TIME apart, and between them
      the hand was lowered at least once: a sustained raise never retriggers. */
  lemma {:induction false} TriggersSeparated(s: DetectorState, polls: seq<Poll>, i: nat, j: nat)
    requires ClockFrom(s.lastTriggerTime, polls)
    requires i < j < |polls| && Run(s, polls)[i] && Run(s, polls)[j]
    ensures polls[j].now >= polls[i].now + DEBOUNCE_TIME
    ensures exists k :: i < k < j && !Raised(polls[k].pitch)
    decreases |polls|
  {
    var r := Step(s, polls[0]);
    ClockFromTail(s.lastTriggerTime, r.next.lastTriggerTime, polls);
    assert Run(r.next, polls[1..])[j - 1];
    if i == 0 {
      assert r.fired && r.next == DetectorState(true, polls[0].now);
      FiredAfterDebounce(r.next, polls[1..], j - 1);
      FiredNeedsLowering(r.next, polls[1..], j - 1);
      var k :| 0 <= k < j - 1 && !Raised(polls[1..][k].pitch);
      assert !Raised(polls[k + 1].pitch);
    } else {
      assert Run(r.next, polls[1..])[i - 1];
      TriggersSeparated(r.next, polls[1..], i - 1, j - 1);
      var k :| i - 1 < k < j - 1 && !Raised(polls[1..][k].pitch);
      assert !Raised(polls[k + 1].pitch);
    }
  }

  /** A raise inside the debounce window does not fire and does not latch:
      if the hand is still up once the window has passed, the next reading
      fires. */
  lemma RaiseInsideWindowRetriesLater(t: nat, pitch: real, now1: nat, now2: nat)
    requires Raised(pitch)
    requires t <= now1 < t + DEBOUNCE_TIME <= now2
    ensures Run(DetectorState(false, t), [Poll(pitch, now1), Poll(pitch, now2)]) == [false, true]
  {
    var polls := [Poll(pitch, now1), Poll(pitch, now2)];
    assert ClockFrom(t, polls[1..]);
  }

  /** Once fired, a hand held up for any number of further readings yields
      no further trigger. */
  lemma {:induction false} SustainedRaiseFiresOnce(s: DetectorState, polls: seq<Poll>)
    requires ClockFrom(s.lastTriggerTime, polls)
    requires s.wasRaised
    requires forall i :: 0 <= i < |polls| ==> Raised(polls[i].pitch)
    ensures forall i :: 0 <= i < |polls| ==> !Run(s, polls)[i]
    decreases |polls|
  {
    if polls != [] {
      ClockFromTail(s.lastTriggerTime, s.lastTriggerTime, polls);
      SustainedRaiseFiresOnce(s, polls[1..]);
    }
  }
}
