/** `LEDController`: the class form of the activation animation, driving an
    addressable strip. Four modes, OFF -> POWER_UP -> STEADY -> FADE_OUT ->
    OFF, two timers, and the `leds[]` frame buffer that the strip driver
    displays. The driver's global brightness is kept as `stripBrightness`. */
module Controller {
  import opened Arduino
  import opened Config
  import opened AnimationMath

  datatype Mode = Off | PowerUp | Steady | FadeOut

  /** FastLED's `CRGB::Black`. */
  const BLACK := COLOR_OFF

  /** `getIronManColor`: red on even positions, gold on odd ones. */
  function IronManColor(index: Byte): Rgb
  {
    if index % 2 == 0 then COLOR_RED else COLOR_GOLD
  }

  /** The Iron Man palette over the whole strip. */
  function PaletteFrame(): seq<Rgb>
  {
    seq(NUM_LEDS, i requires 0 <= i < NUM_LEDS => IronManColor(i))
  }

  /** A strip with every LED off. */
  function DarkFrame(): seq<Rgb>
  {
    seq(NUM_LEDS, _ => BLACK)
  }

  /** The power-up frame: the palette on the first `numLit` LEDs, black after. */
  function PowerUpFrame(numLit: Byte): seq<Rgb>
  {
    seq(NUM_LEDS, i requires 0 <= i < NUM_LEDS => if i < numLit then IronManColor(i) else BLACK)
  }

  /** The mode moves one step along OFF -> POWER_UP -> STEADY -> FADE_OUT -> OFF
      per tick, or stays. */
  predicate ModeStep(m: Mode, m': Mode)
  {
    m' == m || (m == PowerUp && m' == Steady) || (m == Steady && m' == FadeOut) || (m == FadeOut && m' == Off)
  }

  /** Neighbouring LEDs differ in colour and the pattern repeats every two. */
  lemma IronManColorAlternates(i: Byte)
    requires i + 2 < 256
    ensures IronManColor(i) != IronManColor(i + 1)
    ensures IronManColor(i) == IronManColor(i + 2)
    ensures IronManColor(i) != BLACK
  {
  }

  /** A power-up frame lights exactly the first `numLit` LEDs: none for 0,
      the whole palette from NUM_LEDS on. */
  lemma PowerUpLightsPrefix(numLit: Byte)
    ensures forall i :: 0 <= i < NUM_LEDS ==> (PowerUpFrame(numLit)[i] != BLACK <==> i < numLit)
    ensures numLit == 0 ==> PowerUpFrame(numLit) == DarkFrame()
    ensures numLit >= NUM_LEDS ==> PowerUpFrame(numLit) == PaletteFrame()
  {
  }

  /** Over the 500 ms ramp the strip starts dark, ends fully lit, and an LED
      once lit stays lit. */
  lemma PowerUpRamp(e1: nat, e2: nat)
    requires e1 <= e2 <= POWER_UP_TIME
    ensures PowerUpFrame(LitCount(0, NUM_LEDS)) == DarkFrame()
    ensures PowerUpFrame(LitCount(POWER_UP_TIME, NUM_LEDS)) == PaletteFrame()
    ensures forall i :: 0 <= i < NUM_LEDS && PowerUpFrame(LitCount(e1, NUM_LEDS))[i] != BLACK ==>
                          PowerUpFrame(LitCount(e2, NUM_LEDS))[i] != BLACK
  {
    LitCountRamp(0, NUM_LEDS);
    LitCountRamp(POWER_UP_TIME, NUM_LEDS);
    LitCountMonotone(e1, e2, NUM_LEDS);
    PowerUpLightsPrefix(0);
    PowerUpLightsPrefix(NUM_LEDS);
    PowerUpLightsPrefix(LitCount(e1, NUM_LEDS));
    PowerUpLightsPrefix(LitCount(e2, NUM_LEDS));
  }

  class LedController {
    /** `leds[NUM_LEDS]`, the frame the strip shows. */
    const leds: array<Rgb>
    var currentMode: Mode
    var animationStartTime: nat
    var activationTime: nat
    var currentBrightness: Byte
    /** The brightness last handed to the strip driver (`FastLED.setBrightness`). */
    var stripBrightness: Byte

    /** The buffer holds NUM_LEDS colours, and the phase timer never
        precedes the activation time. */
    ghost predicate Valid()
      reads this
    {
      leds.Length == NUM_LEDS && activationTime <= animationStartTime
    }

    /** The constructor followed by `begin()`: everything off, base brightness. */
    constructor ()
      ensures Valid() && fresh(leds)
      ensures currentMode == Off && animationStartTime == 0 && activationTime == 0
      ensures currentBrightness == BRIGHTNESS && stripBrightness == BRIGHTNESS
      ensures leds[..] == DarkFrame()
    {
      leds := new Rgb[NUM_LEDS](_ => BLACK);
      currentMode := Off;
      animationStartTime := 0;
      activationTime := 0;
      currentBrightness := BRIGHTNESS;
      stripBrightness := BRIGHTNESS;
      new;
      assert leds[..] == DarkFrame();
    }

    method SetBrightness(brightness: Byte)
      requires Valid()
      modifies this
      ensures Valid()
      ensures currentBrightness == brightness && stripBrightness == brightness
      ensures currentMode == old(currentMode) && animationStartTime == old(animationStartTime)
      ensures activationTime == old(activationTime)
    {
      currentBrightness := brightness;
      stripBrightness := brightness;
    }

    /** `activate()`: (re)start the sequence from POWER_UP, whatever the mode. */
    method Activate(now: nat)
      requires Valid()
      modifies this
      ensures Valid()
      ensures currentMode == PowerUp && animationStartTime == now && activationTime == now
      ensures currentBrightness == old(currentBrightness) && stripBrightness == old(stripBrightness)
    {
      currentMode := PowerUp;
      animationStartTime := now;
      activationTime := now;
    }

    method IsActive() returns (active: bool)
      ensures active <==> currentMode != Off
    {
      return currentMode != Off;
    }

    /** `turnOff()`: mode OFF and the whole buffer black. */
    method TurnOff()
      requires Valid()
      modifies this, leds
      ensures Valid()
      ensures currentMode == Off && leds[..] == DarkFrame()
      ensures animationStartTime == old(animationStartTime) && activationTime == old(activationTime)
      ensures currentBrightness == old(currentBrightness) && stripBrightness == old(stripBrightness)
    {
      currentMode := Off;
      var i := 0;
      while i < NUM_LEDS
        modifies leds
        invariant 0 <= i <= NUM_LEDS
        invariant forall k :: 0 <= k < i ==> leds[k] == BLACK
      {
        leds[i] := BLACK;
        i := i + 1;
      }
      assert leds[..] == DarkFrame();
    }

    /** Write the palette into every LED. */
    method FillPalette()
      requires Valid()
      modifies leds
      ensures leds[..] == PaletteFrame()
    {
      var i := 0;
      while i < NUM_LEDS
        invariant 0 <= i <= NUM_LEDS
        invariant forall k :: 0 <= k < i ==> leds[k] == IronManColor(k)
      {
        leds[i] := IronManColor(i);
        i := i + 1;
      }
      assert leds[..] == PaletteFrame();
    }

    /** `animatePowerUp()`: light the first `map(elapsed, 0, 500, 0, NUM_LEDS)`
        LEDs; once more than 500 ms have passed, move to STEADY. */
    method AnimatePowerUp(now: nat)
      requires Valid() && now >= animationStartTime
      modifies this, leds
      ensures Valid()
      ensures leds[..] == PowerUpFrame(LitCount(now - old(animationStartTime), NUM_LEDS))
      ensures if now - old(animationStartTime) > POWER_UP_TIME
              then currentMode == Steady && animationStartTime == now
              else currentMode == old(currentMode) && animationStartTime == old(animationStartTime)
      ensures activationTime == old(activationTime)
      ensures currentBrightness == old(currentBrightness) && stripBrightness == old(stripBrightness)
    {
      var elapsed := now - animationStartTime;
      var numLit := LitCount(elapsed, NUM_LEDS);
      var i := 0;
      while i < NUM_LEDS
        modifies leds
        invariant 0 <= i <= NUM_LEDS
        invariant forall k :: 0 <= k < i ==> leds[k] == PowerUpFrame(numLit)[k]
      {
        leds[i] := if i < numLit then IronManColor(i) else BLACK;
        i := i + 1;
      }
      assert leds[..] == PowerUpFrame(numLit);
      if elapsed > POWER_UP_TIME {
        currentMode := Steady;
        animationStartTime := now;
      }
    }

    /** `animateSteady()`: the breathing level (computed by the caller) goes to
        the strip, every LED shows the palette, and once more than
        ACTIVE_DURATION ms have passed since activation the fade starts. */
    method AnimateSteady(now: nat, breath: Byte)
      requires Valid() && now >= animationStartTime
      modifies this, leds
      ensures Valid()
      ensures stripBrightness == breath && leds[..] == PaletteFrame()
      ensures if now - activationTime > ACTIVE_DURATION
              then currentMode == FadeOut && animationStartTime == now
              else currentMode == old(currentMode) && animationStartTime == old(animationStartTime)
      ensures activationTime == old(activationTime) && currentBrightness == old(currentBrightness)
    {
      stripBrightness := breath;
      FillPalette();
      if now - activationTime > ACTIVE_DURATION {
        currentMode := FadeOut;
        animationStartTime := now;
      }
    }

    /** `animateFadeOut()`: ramp the strip brightness from `currentBrightness`
        down to 0 over 1000 ms; when it reaches 0 or the time is up, turn off. */
    method AnimateFadeOut(now: nat)
      requires Valid() && now >= animationStartTime
      modifies this, leds
      ensures Valid()
      ensures FadeDone(now - old(animationStartTime), currentBrightness) ==>
                currentMode == Off && leds[..] == DarkFrame() && stripBrightness == old(stripBrightness)
      ensures !FadeDone(now - old(animationStartTime), currentBrightness) ==>
                currentMode == old(currentMode) && leds[..] == PaletteFrame() &&
                stripBrightness == FadeLevel(now - old(animationStartTime), currentBrightness)
      ensures animationStartTime == old(animationStartTime) && activationTime == old(activationTime)
      ensures currentBrightness == old(currentBrightness)
    {
      var elapsed := now - animationStartTime;
      var brightness := FadeLevel(elapsed, currentBrightness);
      if brightness == 0 || elapsed > FADE_TIME {
        TurnOff();
        return;
      }
      stripBrightness := brightness;
      FillPalette();
    }

    /** `update()`: one animation tick. Nothing happens while OFF; otherwise
        the current mode's animation runs and may advance the mode by one. */
    method Update(now: nat, breath: Byte)
      requires Valid() && now >= animationStartTime
      modifies this, leds
      ensures Valid()
      ensures ModeStep(old(currentMode), currentMode)
      ensures old(currentMode) == Off ==> unchanged(this) && unchanged(leds)
      ensures old(currentMode) == PowerUp ==>
                leds[..] == PowerUpFrame(LitCount(now - old(animationStartTime), NUM_LEDS)) &&
                stripBrightness == old(stripBrightness) &&
                (currentMode == Steady <==> now - old(animationStartTime) > POWER_UP_TIME)
      ensures old(currentMode) == Steady ==>
                leds[..] == PaletteFrame() && stripBrightness == breath &&
                (currentMode == FadeOut <==> now - activationTime > ACTIVE_DURATION)
      ensures old(currentMode) == FadeOut ==>
                (currentMode == Off <==> FadeDone(now - old(animationStartTime), currentBrightness)) &&
                (currentMode == Off ==> leds[..] == DarkFrame() && stripBrightness == old(stripBrightness)) &&
                (currentMode != Off ==>
                   leds[..] == PaletteFrame() &&
                   stripBrightness == FadeLevel(now - old(animationStartTime), currentBrightness))
      ensures currentMode != old(currentMode) ==> animationStartTime == now || currentMode == Off
      ensures currentMode == old(currentMode) || currentMode == Off ==> animationStartTime == old(animationStartTime)
      ensures animationStartTime <= now
      ensures activationTime == old(activationTime) && currentBrightness == old(currentBrightness)
    {
      match currentMode {
        case PowerUp => AnimatePowerUp(now);
        case Steady => AnimateSteady(now, breath);
        case FadeOut => AnimateFadeOut(now);
        case Off =>
      }
    }
  }
}
