/** The unified sketch: the same four-state animation as `LEDController`,
    kept in global variables and drawn through the LED facade, plus the loop
    that polls the gesture detector and a timed LED test sequence for the
    test build. The globals and statics become the fields of `Sketch`; the
    default build (F5 LEDs, blue) is modelled, with its `F5LedFacade`. */
module UnifiedSketch {
  import opened Arduino
  import opened Config
  import opened AnimationMath
  import opened F5Leds
  import Gesture
  import Controller

  datatype AnimationState = AnimOff | AnimPowerUp | AnimSteady | AnimFadeOut

  datatype Option<T> = None | Some(value: T)

  /** `getColorForIndex`: red and gold alternating on an addressable strip,
      blue everywhere on F5 LEDs. */
  function ColorForIndex(ledType: LedType, index: Byte): Rgb
  {
    match ledType
    case FastLed => if index % 2 == 0 then COLOR_RED else COLOR_GOLD
    case F5 => COLOR_BLUE
  }

  /** The strip build uses the palette of `LEDController`; the F5 build has a
      single colour. */
  lemma ColorForIndexPalette(index: Byte)
    ensures ColorForIndex(FastLed, index) == Controller.IronManColor(index)
    ensures ColorForIndex(F5, index) == COLOR_BLUE
    ensures ColorForIndex(FastLed, index) != COLOR_OFF && ColorForIndex(F5, index) != COLOR_OFF
  {
  }

  /** The colour of the single-colour LEDs each F5 build selects (the
      COLOR_PRIMARY of `src/config.h`). That header defines no COLOR_GREEN;
      green is taken to be (0, 255, 0). With no colour selected, blue. */
  function PrimaryColor(build: LedColor): Rgb
  {
    match build
    case Blue => COLOR_BLUE
    case Red => COLOR_RED
    case Green => Rgb(0, 255, 0)
    case Unselected => COLOR_BLUE
  }

  /** The colour an animation frame asks for at `index`: `getColorForIndex`
      with the F5 branch giving the build's own LED colour rather than blue
      in every build. This is what the sketch below draws with. */
  function FrameColor(ledType: LedType, build: LedColor, index: Byte): Rgb
  {
    match ledType
    case FastLed => ColorForIndex(FastLed, index)
    case F5 => PrimaryColor(build)
  }

  /** As written, a red or green F5 build stores brightness 0 for every LED
      `getColorForIndex` colours, so `show()` never lights anything. */
  lemma ColorForIndexDarkOnRedOrGreen(index: Byte, global: Byte)
    ensures PixelOf(Red, ColorForIndex(F5, index)).level == 0
    ensures PixelOf(Green, ColorForIndex(F5, index)).level == 0
    ensures ScaleByGlobalBrightness(PixelOf(Red, ColorForIndex(F5, index)).level, global) == 0
    ensures ScaleByGlobalBrightness(PixelOf(Green, ColorForIndex(F5, index)).level, global) == 0
  {
  }

  /** With the build's own colour every F5 build stores full brightness for
      a lit LED, and in the default build and on the strip the colours are
      exactly those of `getColorForIndex`. */
  lemma FrameColorLightsEveryBuild(build: LedColor, index: Byte)
    ensures PixelOf(build, FrameColor(F5, build, index)).level == 255
    ensures FrameColor(FastLed, build, index) == ColorForIndex(FastLed, index)
    ensures FrameColor(LED_TYPE, LED_COLOR, index) == ColorForIndex(LED_TYPE, index)
  {
  }

  /** The pixel an animation frame writes at `index` in this build. */
  function LitPixel(build: LedColor, index: Byte): Pixel
  {
    PixelOf(build, FrameColor(LED_TYPE, build, index))
  }

  function PalettePixels(build: LedColor): seq<Pixel>
  {
    seq(NUM_LEDS, i requires 0 <= i < NUM_LEDS => LitPixel(build, i))
  }

  /** The power-up frame: the first `numLit` LEDs lit, the rest dark. */
  function PowerUpPixels(build: LedColor, numLit: Byte): seq<Pixel>
  {
    seq(NUM_LEDS, i requires 0 <= i < NUM_LEDS => if i < numLit then LitPixel(build, i) else DARK)
  }

  /** The "one by one" test frame: only LED `lit` on. */
  function OneLitPixels(build: LedColor, lit: nat): seq<Pixel>
  {
    seq(NUM_LEDS, i requires 0 <= i < NUM_LEDS => if i == lit then LitPixel(build, i) else DARK)
  }

  /** How long each test phase lasts before the next one starts (ms). */
  function TestPhaseLength(phase: nat): nat
  {
    if phase == 0 then 2000 else if phase == 1 then 2000 else if phase == 2 then 4000 else 5000
  }

  /** The "one by one" frame has exactly one LED on, at `lit`. */
  lemma OneLitExactlyOne(build: LedColor, lit: nat)
    requires lit < NUM_LEDS
    ensures forall i :: 0 <= i < NUM_LEDS ==> (OneLitPixels(build, lit)[i].level != 0 <==> i == lit)
  {
  }

  /** A power-up frame lights a prefix: LED i is on exactly when i < numLit. */
  lemma PowerUpPixelsPrefix(build: LedColor, numLit: Byte)
    ensures forall i :: 0 <= i < NUM_LEDS ==> (PowerUpPixels(build, numLit)[i].level != 0 <==> i < numLit)
    ensures numLit >= NUM_LEDS ==> PowerUpPixels(build, numLit) == PalettePixels(build)
    ensures numLit == 0 ==> PowerUpPixels(build, numLit) == Uniform(DARK)
  {
  }

  /** On F5 LEDs a lit LED glows at exactly the global brightness and a dark
      one not at all. */
  lemma LitLedShowsGlobalBrightness(build: LedColor, index: Byte, global: Byte)
    ensures ScaleByGlobalBrightness(LitPixel(build, index).level, global) == global
    ensures ScaleByGlobalBrightness(DARK.level, global) == 0
  {
    FrameColorLightsEveryBuild(build, index);
    assert 255 * global == 255 * global;
    ExactDiv(global, 255);
  }

  class Sketch {
    /** `ledFacade` and `motionDetector`. */
    const led: F5LedFacade
    const detector: Gesture.MotionDetector
    /** Whether this is the TEST_MODE build. */
    const testMode: bool
    var systemReady: bool
    var lastActivation: nat
    var isActive: bool
    var currentAnimation: AnimationState
    var animationStartTime: nat
    /** The statics of `runTestSequence`. */
    var testStartTime: nat
    var testPhase: nat

    /** `isActive` mirrors "an animation is running"; the phase timer never
        precedes the activation time; the test phase is one of 0..3. */
    ghost predicate Valid()
      reads this
    {
      && led.Valid()
      && (isActive <==> currentAnimation != AnimOff)
      && lastActivation <= animationStartTime
      && testPhase <= 3
    }

    constructor (testMode: bool)
      ensures Valid() && fresh(led) && fresh(detector)
      ensures fresh(led.ledR) && fresh(led.ledG) && fresh(led.ledB) && fresh(led.ledBrightness)
      ensures this.testMode == testMode && !systemReady
      ensures !isActive && currentAnimation == AnimOff && lastActivation == 0 && animationStartTime == 0
      ensures testStartTime == 0 && testPhase == 0
      ensures led.colorBuild == LED_COLOR && led.Pixels() == Uniform(DARK) && led.globalBrightness == BRIGHTNESS
      ensures !detector.wasRaised && detector.lastTriggerTime == 0
    {
      led := new F5LedFacade(LED_COLOR);
      detector := new Gesture.MotionDetector();
      this.testMode := testMode;
      systemReady := false;
      lastActivation := 0;
      isActive := false;
      currentAnimation := AnimOff;
      animationStartTime := 0;
      testStartTime := 0;
      testPhase := 0;
    }

    /** `setup()`, without the hardware: the sketch becomes ready unless the
        full build finds no sensor (it then flashes the LEDs forever). */
    method Setup(sensorFound: bool)
      requires Valid()
      modifies this
      ensures Valid()
      ensures systemReady == (old(systemReady) || testMode || sensorFound)
      ensures isActive == old(isActive) && currentAnimation == old(currentAnimation)
      ensures lastActivation == old(lastActivation) && animationStartTime == old(animationStartTime)
      ensures testStartTime == old(testStartTime) && testPhase == old(testPhase)
    {
      if testMode || sensorFound {
        systemReady := true;
      }
    }

    /** `startAnimation()`: enter power-up and start both timers. */
    method StartAnimation(now: nat)
      requires Valid()
      modifies this
      ensures Valid()
      ensures currentAnimation == AnimPowerUp && isActive
      ensures animationStartTime == now && lastActivation == now
      ensures systemReady == old(systemReady) && testStartTime == old(testStartTime) && testPhase == old(testPhase)
    {
      currentAnimation := AnimPowerUp;
      animationStartTime := now;
      lastActivation := now;
      isActive := true;
    }

    /** Set every LED to its colour for this build. */
    method FillPalette()
      requires Valid()
      modifies led.ledR, led.ledG, led.ledB, led.ledBrightness
      ensures led.Pixels() == PalettePixels(led.colorBuild)
    {
      var i: Byte := 0;
      while i < led.NumLeds()
        invariant 0 <= i <= NUM_LEDS
        invariant forall k :: 0 <= k < i ==> led.Pixels()[k] == LitPixel(led.colorBuild, k)
      {
        var c := FrameColor(LED_TYPE, led.colorBuild, i);
        led.SetLed(i, c.r, c.g, c.b);
        i := i + 1;
      }
      assert led.Pixels() == PalettePixels(led.colorBuild);
    }

    /** The power-up case of `updateAnimation()`: clear, light the first
        `map(elapsed, 0, 500, 0, n)` LEDs, show; after 500 ms, go steady. */
    method PowerUpTick(now: nat) returns (duty: seq<Byte>)
      requires Valid() && now >= animationStartTime && currentAnimation == AnimPowerUp
      modifies this, led.ledR, led.ledG, led.ledB, led.ledBrightness
      ensures Valid()
      ensures systemReady == old(systemReady) && lastActivation == old(lastActivation)
      ensures testStartTime == old(testStartTime) && testPhase == old(testPhase)
      ensures led.Pixels() == PowerUpPixels(led.colorBuild, LitCount(now - old(animationStartTime), NUM_LEDS))
      ensures duty == Duty(led.Pixels(), led.globalBrightness)
      ensures if now - old(animationStartTime) > POWER_UP_TIME
              then currentAnimation == AnimSteady && animationStartTime == now
              else currentAnimation == AnimPowerUp && animationStartTime == old(animationStartTime)
    {
      var elapsed := now - animationStartTime;
      var numLit := LitCount(elapsed, led.NumLeds());
      led.Clear();
      var i: Byte := 0;
      while i < numLit && i < led.NumLeds()
        modifies led.ledR, led.ledG, led.ledB, led.ledBrightness
        invariant 0 <= i <= NUM_LEDS && i <= numLit
        invariant forall k :: 0 <= k < NUM_LEDS ==> led.Pixels()[k] == (if k < i then LitPixel(led.colorBuild, k) else DARK)
      {
        var c := FrameColor(LED_TYPE, led.colorBuild, i);
        led.SetLed(i, c.r, c.g, c.b);
        i := i + 1;
      }
      assert led.Pixels() == PowerUpPixels(led.colorBuild, numLit);
      duty := led.Show();
      if elapsed > POWER_UP_TIME {
        currentAnimation := AnimSteady;
        animationStartTime := now;
      }
    }

    /** The steady case: the breathing level (computed by the caller) as the
        global brightness, every LED lit, show; more than ACTIVE_DURATION ms
        after activation, start the fade. */
    method SteadyTick(now: nat, breath: Byte) returns (duty: seq<Byte>)
      requires Valid() && now >= animationStartTime && currentAnimation == AnimSteady
      modifies this, led, led.ledR, led.ledG, led.ledB, led.ledBrightness
      ensures Valid()
      ensures systemReady == old(systemReady) && lastActivation == old(lastActivation)
      ensures testStartTime == old(testStartTime) && testPhase == old(testPhase)
      ensures led.Pixels() == PalettePixels(led.colorBuild) && led.globalBrightness == breath
      ensures duty == Duty(led.Pixels(), breath)
      ensures if now - lastActivation > ACTIVE_DURATION
              then currentAnimation == AnimFadeOut && animationStartTime == now
              else currentAnimation == AnimSteady && animationStartTime == old(animationStartTime)
    {
      var totalElapsed := now - lastActivation;
      led.SetBrightness(breath);
      FillPalette();
      duty := led.Show();
      if totalElapsed > ACTIVE_DURATION {
        currentAnimation := AnimFadeOut;
        animationStartTime := now;
      }
    }

    /** The fade-out case: `map(elapsed, 0, 1000, BRIGHTNESS, 0)` as the global
        brightness over a lit strip; once it is 0 or 1000 ms have passed,
        clear, show, stop and restore the base brightness. */
    method FadeOutTick(now: nat) returns (duty: seq<Byte>)
      requires Valid() && now >= animationStartTime && currentAnimation == AnimFadeOut
      modifies this, led, led.ledR, led.ledG, led.ledB, led.ledBrightness
      ensures Valid()
      ensures systemReady == old(systemReady) && lastActivation == old(lastActivation)
      ensures testStartTime == old(testStartTime) && testPhase == old(testPhase)
      ensures animationStartTime == old(animationStartTime)
      ensures FadeDone(now - animationStartTime, BRIGHTNESS) ==>
                && currentAnimation == AnimOff && !isActive
                && led.Pixels() == Uniform(DARK)
                && duty == Duty(Uniform(DARK), old(led.globalBrightness))
                && led.globalBrightness == BRIGHTNESS
      ensures !FadeDone(now - animationStartTime, BRIGHTNESS) ==>
                && currentAnimation == AnimFadeOut && isActive
                && led.Pixels() == PalettePixels(led.colorBuild)
                && led.globalBrightness == FadeLevel(now - animationStartTime, BRIGHTNESS)
                && duty == Duty(led.Pixels(), led.globalBrightness)
    {
      var elapsed := now - animationStartTime;
      var brightness := FadeLevel(elapsed, BRIGHTNESS);
      if elapsed > FADE_TIME || brightness == 0 {
        led.Clear();
        duty := led.Show();
        currentAnimation := AnimOff;
        isActive := false;
        led.SetBrightness(BRIGHTNESS);
      } else {
        led.SetBrightness(brightness);
        FillPalette();
        duty := led.Show();
      }
    }

    /** `updateAnimation()`: one tick of the animation, drawn into the facade;
        returns what `show()` wrote to the pins, if it was called. */
    method UpdateAnimation(now: nat, breath: Byte) returns (shown: Option<seq<Byte>>)
      requires Valid() && now >= animationStartTime
      modifies this, led, led.ledR, led.ledG, led.ledB, led.ledBrightness
      ensures Valid()
      ensures systemReady == old(systemReady) && lastActivation == old(lastActivation)
      ensures testStartTime == old(testStartTime) && testPhase == old(testPhase)
      ensures old(currentAnimation) == AnimOff <==> shown == None
      ensures old(currentAnimation) == AnimOff ==>
                currentAnimation == AnimOff && animationStartTime == old(animationStartTime) &&
                led.Pixels() == old(led.Pixels()) && led.globalBrightness == old(led.globalBrightness)
      ensures old(currentAnimation) == AnimPowerUp ==>
                led.Pixels() == PowerUpPixels(led.colorBuild, LitCount(now - old(animationStartTime), NUM_LEDS)) &&
                led.globalBrightness == old(led.globalBrightness) &&
                shown == Some(Duty(led.Pixels(), led.globalBrightness)) &&
                (if now - old(animationStartTime) > POWER_UP_TIME
                 then currentAnimation == AnimSteady && animationStartTime == now
                 else currentAnimation == AnimPowerUp && animationStartTime == old(animationStartTime))
      ensures old(currentAnimation) == AnimSteady ==>
                led.Pixels() == PalettePixels(led.colorBuild) && led.globalBrightness == breath &&
                shown == Some(Duty(led.Pixels(), breath)) &&
                (if now - lastActivation > ACTIVE_DURATION
                 then currentAnimation == AnimFadeOut && animationStartTime == now
                 else currentAnimation == AnimSteady && animationStartTime == old(animationStartTime))
      ensures old(currentAnimation) == AnimFadeOut ==>
                animationStartTime == old(animationStartTime) &&
                (currentAnimation == AnimOff <==> FadeDone(now - old(animationStartTime), BRIGHTNESS)) &&
                (currentAnimation == AnimOff ==>
                   led.Pixels() == Uniform(DARK) && led.globalBrightness == BRIGHTNESS &&
                   shown == Some(Duty(Uniform(DARK), old(led.globalBrightness)))) &&
                (currentAnimation != AnimOff ==>
                   currentAnimation == AnimFadeOut && led.Pixels() == PalettePixels(led.colorBuild) &&
                   led.globalBrightness == FadeLevel(now - old(animationStartTime), BRIGHTNESS) &&
                   shown == Some(Duty(led.Pixels(), led.globalBrightness)))
      ensures old(currentAnimation) != AnimOff && old(currentAnimation) != AnimFadeOut ==> currentAnimation != AnimOff
      ensures currentAnimation != old(currentAnimation) && currentAnimation != AnimOff ==> animationStartTime == now
      ensures currentAnimation == old(currentAnimation) ==> animationStartTime == old(animationStartTime)
      ensures animationStartTime <= now
    {
      match currentAnimation {
        case AnimOff =>
          shown := None;
        case AnimPowerUp =>
          var duty := PowerUpTick(now);
          shown := Some(duty);
        case AnimSteady =>
          var duty := SteadyTick(now, breath);
          shown := Some(duty);
        case AnimFadeOut =>
          var duty := FadeOutTick(now);
          shown := Some(duty);
      }
    }

    /** What the current test phase draws at `elapsed` ms into it: all on
        and all off only on a call at exactly 0 ms, one LED at a time, or the
        whole strip at the breathing level. */
    method DrawTestPhase(elapsed: nat, breath: Byte) returns (shown: Option<seq<Byte>>)
      requires Valid()
      modifies led, led.ledR, led.ledG, led.ledB, led.ledBrightness
      ensures testPhase <= 1 ==> led.globalBrightness == old(led.globalBrightness)
      ensures testPhase <= 1 && elapsed != 0 ==> shown == None && led.Pixels() == old(led.Pixels())
      ensures testPhase == 0 && elapsed == 0 ==>
                led.Pixels() == PalettePixels(led.colorBuild) && shown == Some(Duty(led.Pixels(), led.globalBrightness))
      ensures testPhase == 1 && elapsed == 0 ==>
                led.Pixels() == Uniform(DARK) && shown == Some(Duty(led.Pixels(), led.globalBrightness))
      ensures testPhase == 2 ==>
                && led.Pixels() == OneLitPixels(led.colorBuild, (elapsed / 500) % NUM_LEDS)
                && led.globalBrightness == old(led.globalBrightness)
                && shown == Some(Duty(led.Pixels(), led.globalBrightness))
      ensures testPhase == 3 ==>
                led.Pixels() == PalettePixels(led.colorBuild) && led.globalBrightness == breath &&
                shown == Some(Duty(led.Pixels(), breath))
    {
      shown := None;
      if testPhase == 0 {
        if elapsed == 0 {
          FillPalette();
          var duty := led.Show();
          shown := Some(duty);
        }
      } else if testPhase == 1 {
        if elapsed == 0 {
          led.Clear();
          var duty := led.Show();
          shown := Some(duty);
        }
      } else if testPhase == 2 {
        var lit: Byte := (elapsed / 500) % led.NumLeds();
        led.Clear();
        var c := FrameColor(LED_TYPE, led.colorBuild, lit);
        led.SetLed(lit, c.r, c.g, c.b);
        assert led.Pixels() == OneLitPixels(led.colorBuild, lit);
        var duty := led.Show();
        shown := Some(duty);
      } else {
        led.SetBrightness(breath);
        FillPalette();
        var duty := led.Show();
        shown := Some(duty);
      }
    }

    /** `runTestSequence()`: all on (2 s), all off (2 s), one by one (4 s),
        breathing (5 s), then again from the start with the base brightness
        restored. The timer starts on the first call. */
    method RunTestSequence(now: nat, breath: Byte) returns (shown: Option<seq<Byte>>)
      requires Valid() && now >= testStartTime
      modifies this, led, led.ledR, led.ledG, led.ledB, led.ledBrightness
      ensures Valid()
      ensures systemReady == old(systemReady) && isActive == old(isActive) && currentAnimation == old(currentAnimation)
      ensures lastActivation == old(lastActivation) && animationStartTime == old(animationStartTime)
      ensures var start := if old(testStartTime) == 0 then now else old(testStartTime);
              var elapsed := now - start;
              && (elapsed > TestPhaseLength(old(testPhase)) ==> testPhase == (old(testPhase) + 1) % 4 && testStartTime == now)
              && (elapsed <= TestPhaseLength(old(testPhase)) ==> testPhase == old(testPhase) && testStartTime == start)
              && (old(testPhase) <= 1 && elapsed != 0 ==> shown == None && led.Pixels() == old(led.Pixels()))
              && (old(testPhase) == 0 && elapsed == 0 ==>
                    led.Pixels() == PalettePixels(led.colorBuild) && shown == Some(Duty(led.Pixels(), led.globalBrightness)))
              && (old(testPhase) == 1 && elapsed == 0 ==>
                    led.Pixels() == Uniform(DARK) && shown == Some(Duty(led.Pixels(), led.globalBrightness)))
              && (old(testPhase) == 2 ==>
                    led.Pixels() == OneLitPixels(led.colorBuild, (elapsed / 500) % NUM_LEDS) &&
                    shown == Some(Duty(led.Pixels(), led.globalBrightness)))
              && (old(testPhase) == 3 ==>
                    led.Pixels() == PalettePixels(led.colorBuild) && shown == Some(Duty(led.Pixels(), breath)) &&
                    led.globalBrightness == (if elapsed > TestPhaseLength(3) then BRIGHTNESS else breath))
              && (old(testPhase) < 3 ==> led.globalBrightness == old(led.globalBrightness))
    {
      var currentTime := now;
      if testStartTime == 0 {
        testStartTime := currentTime;
      }
      var elapsed := currentTime - testStartTime;
      shown := DrawTestPhase(elapsed, breath);
      if elapsed > TestPhaseLength(testPhase) {
        if testPhase == 3 {
          testPhase := 0;
          testStartTime := currentTime;
          led.SetBrightness(BRIGHTNESS);
        } else {
          testPhase := testPhase + 1;
          testStartTime := currentTime;
        }
      }
    }

    /** `loop()`: nothing until set up; in the test build, the test sequence;
        otherwise poll the detector only while no animation runs, start one on
        a trigger, and advance the running animation. */
    method Loop(pitch: real, now: nat, breath: Byte) returns (shown: Option<seq<Byte>>)
      requires Valid()
      requires now >= animationStartTime && now >= detector.lastTriggerTime && now >= testStartTime
      modifies this, detector, led, led.ledR, led.ledG, led.ledB, led.ledBrightness
      ensures Valid()
      ensures systemReady == old(systemReady)
      ensures !old(systemReady) ==>
                shown == None && unchanged(this) && unchanged(detector) && unchanged(led) &&
                led.Pixels() == old(led.Pixels())
      ensures animationStartTime <= now && testStartTime <= now && detector.lastTriggerTime <= now
      ensures testMode ==>
                detector.State() == old(detector.State()) && currentAnimation == old(currentAnimation) &&
                isActive == old(isActive) && lastActivation == old(lastActivation) &&
                animationStartTime == old(animationStartTime)
      ensures old(systemReady) && testMode ==>
                var start := if old(testStartTime) == 0 then now else old(testStartTime);
                var elapsed := now - start;
                && (elapsed > TestPhaseLength(old(testPhase)) ==> testPhase == (old(testPhase) + 1) % 4 && testStartTime == now)
                && (elapsed <= TestPhaseLength(old(testPhase)) ==> testPhase == old(testPhase) && testStartTime == start)
                && (old(testPhase) <= 1 && elapsed != 0 ==> shown == None && led.Pixels() == old(led.Pixels()))
                && (old(testPhase) == 0 && elapsed == 0 ==>
                      led.Pixels() == PalettePixels(led.colorBuild) && shown == Some(Duty(led.Pixels(), led.globalBrightness)))
                && (old(testPhase) == 1 && elapsed == 0 ==>
                      led.Pixels() == Uniform(DARK) && shown == Some(Duty(led.Pixels(), led.globalBrightness)))
                && (old(testPhase) == 2 ==>
                      led.Pixels() == OneLitPixels(led.colorBuild, (elapsed / 500) % NUM_LEDS) &&
                      shown == Some(Duty(led.Pixels(), led.globalBrightness)))
                && (old(testPhase) == 3 ==>
                      led.Pixels() == PalettePixels(led.colorBuild) && shown == Some(Duty(led.Pixels(), breath)) &&
                      led.globalBrightness == (if elapsed > TestPhaseLength(3) then BRIGHTNESS else breath))
                && (old(testPhase) < 3 ==> led.globalBrightness == old(led.globalBrightness))
      ensures !testMode ==> testStartTime == old(testStartTime) && testPhase == old(testPhase)
      ensures old(systemReady) && !testMode && old(isActive) ==>
                detector.State() == old(detector.State()) && lastActivation == old(lastActivation)
      ensures old(systemReady) && !testMode && !old(isActive) ==>
                var r := Gesture.Step(old(detector.State()), Gesture.Poll(pitch, now));
                && detector.State() == r.next
                && led.globalBrightness == old(led.globalBrightness)
                && (r.fired ==> isActive && currentAnimation == AnimPowerUp && lastActivation == now && animationStartTime == now &&
                                led.Pixels() == PowerUpPixels(led.colorBuild, LitCount(0, NUM_LEDS)) &&
                                shown == Some(Duty(led.Pixels(), led.globalBrightness)))
                && (!r.fired ==> !isActive && shown == None && lastActivation == old(lastActivation) &&
                                 currentAnimation == old(currentAnimation) &&
                                 animationStartTime == old(animationStartTime) && led.Pixels() == old(led.Pixels()))
    {
      if !systemReady {
        return None;
      }
      if testMode {
        shown := RunTestSequence(now, breath);
        return;
      }
      if !isActive {
        var raised := detector.IsHandRaised(pitch, now);
        if raised {
          StartAnimation(now);
        }
      }
      if isActive {
        shown := UpdateAnimation(now, breath);
      } else {
        shown := None;
      }
    }
  }
}
