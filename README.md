# Iron Man glove: gesture trigger and LED animation, in Dafny

The glove reads an accelerometer. When the hand is raised above 45 degrees it
plays a short light show on four LEDs:

- a power-up that lights the LEDs one by one over 500 ms;
- a "breathing" steady glow until 3 s after activation;
- a one-second fade to dark.

This project models the integer and state logic behind that behaviour:

- **The gesture detector** (`MotionDetector`, module `Gesture`). It is a two-field
  state machine that turns pitch readings into a debounced rising-edge trigger.
  Traces of polls are specified by `Step` and `Run`, and lemmas prove the trace
  properties.
- **The class form of the animation** (`LEDController`, module `Controller`). It
  has four modes, two timers, and a frame buffer `leds[]`, which is an `array`
  overwritten in place.
- **The single-colour LED sink** (`F5LEDFacade`, module `F5Leds`). It keeps four
  per-LED arrays and a global brightness. Writes are bounds-checked, each LED's
  brightness comes from one colour channel, and `show()` scales it by the global
  brightness.
- **The unified sketch** (`main_unified.cpp`, module `UnifiedSketch`). Its
  globals and the statics of `runTestSequence` become the fields of a `Sketch`
  object that owns the detector and the facade. The model covers the
  four-state animation drawn through the facade, the loop rule that polls the
  detector only while no animation runs, and the timed test sequence of the
  test build.

Shared pieces:

- **`Arduino`** models the C rules the code relies on:
  - narrowing to `uint8_t`;
  - signed division that truncates toward zero;
  - the core's `map`, written out because Dafny's `/` is Euclidean and the
    fade-out divides a negative numerator.
- **`Config`** holds the constants of `src/config.h`.
- **`AnimationMath`** holds the two `map` ramps that both animation engines use.

Time is a `now: nat` parameter, read once per call. It replaces the several
`millis()` reads a call makes. Every method that compares timestamps requires
`now` to be no earlier than the stored ones, which means a monotone clock.

The default build is modelled: F5 LEDs, colour blue, and full mode unless
`Sketch` is constructed with `testMode`. The build's colour selection is a
parameter of the facade, so every `LED_COLOR_*` choice is covered.

Notes on the code's behaviour:

- Power-up moves to steady only when more than 500 ms have passed, not at
  500 ms. Steady moves to fade only when more than `ACTIVE_DURATION` ms have
  passed.
- The fade is non-increasing rather than strictly decreasing: the level falls
  in whole steps, see `AnimationMath.FadeLevelPlateaus`. It still ends exactly
  at 1000 ms, see `AnimationMath.FadeDoneExactly`.
- Only the unified sketch restores the base brightness after a fade. In
  `LEDController`, `turnOff()` leaves the strip at the last fade level, which
  `LedController.AnimateFadeOut` states.
- In the test sequence, phases 0 and 1 draw their frame only on a call that
  falls exactly at 0 ms into the phase.

## Model

| member | source | states |
|---|---|---|
| `Arduino.TruncDivTowardZero` | src/led_controller.cpp:97 | C's signed division rounds toward zero: its magnitude is the floor of the magnitudes' quotient, its sign that of the numerator, and it commutes with negation |
| `Arduino.MapEndpoints` | src/led_controller.cpp:53 | `map` sends the ends of the input range to the ends of the output range |
| `AnimationMath.LitCountRamp` | src/led_controller.cpp:52-53 | on [0, 500] ms the power-up lit count is `elapsed * n / 500`, at most n, 0 at the start and n at 500 ms |
| `AnimationMath.LitCountMonotone` | src/led_controller.cpp:51-61 | the lit count never decreases during the ramp |
| `AnimationMath.FadeLevelRamp` | src/led_controller.cpp:96-97 | on [0, 1000] ms the fade level is `base - elapsed * base / 1000`, starts at base and never wraps below 0 |
| `AnimationMath.FadeLevelMonotone` | src/led_controller.cpp:95-111 | the fade level never rises during the fade |
| `AnimationMath.FadeLevelPlateaus` | src/led_controller.cpp:97 | the level can stay the same from one millisecond to the next (200 at 1 ms and 2 ms, 199 at 5 ms) |
| `AnimationMath.FadeDoneExactly` | src/led_controller.cpp:95-103 | the test "level is 0 or elapsed > 1000" holds exactly from 1000 ms on, or at once when the base is 0 |
| `Gesture.Debounce` | src/motion_detector.cpp:53-61 | true if and only if at least DEBOUNCE_TIME ms have passed since the last trigger |
| `Gesture.MotionDetector.constructor` | src/motion_detector.cpp:5-7 | a new detector is not raised and its last trigger time is 0 |
| `Gesture.MotionDetector.IsHandRaised` | src/motion_detector.cpp:63-90 | fires exactly when the pitch is strictly above 45, the detector was not raised and the debounce window has passed; on firing, it records raised and the time; a low reading clears raised and keeps the time; any other raised reading changes nothing; the new state equals one `Step` |
| `Gesture.FiredAfterDebounce` | src/motion_detector.cpp:53-82 | in any trace, a trigger comes at least DEBOUNCE_TIME after the trigger time recorded in the start state |
| `Gesture.FiredNeedsLowering` | src/motion_detector.cpp:74-89 | from a raised state, no trigger happens before some reading at or below the activation angle |
| `Gesture.TriggersSeparated` | src/motion_detector.cpp:74-89 | any two triggers in a trace are at least DEBOUNCE_TIME apart, and some reading between them is not raised |
| `Gesture.RaiseInsideWindowRetriesLater` | src/motion_detector.cpp:56-86 | a raise inside the debounce window does not fire and does not latch, so the same raise fires on the first reading after the window |
| `Gesture.SustainedRaiseFiresOnce` | src/motion_detector.cpp:77-89 | once raised, a hand held up for any number of readings never fires again |
| `Controller.IronManColorAlternates` | src/led_controller.cpp:42-48 | neighbouring LEDs get different colours, the pattern repeats every two LEDs, and no LED is black |
| `Controller.PowerUpLightsPrefix` | src/led_controller.cpp:55-61 | a power-up frame lights exactly the first numLit LEDs: all dark for 0, the full palette from NUM_LEDS on |
| `Controller.PowerUpRamp` | src/led_controller.cpp:51-61 | over the 500 ms ramp the strip starts dark, ends fully lit, and an LED once lit stays lit |
| `Controller.LedController.constructor` | src/led_controller.cpp:4-18 | mode OFF, both timers 0, base brightness on the controller and on the strip, every LED black |
| `Controller.LedController.SetBrightness` | src/led_controller.cpp:20-23 | records the brightness and hands it to the strip; mode and timers unchanged |
| `Controller.LedController.Activate` | src/led_controller.cpp:25-30 | from any mode, enters POWER_UP with both timers at now |
| `Controller.LedController.IsActive` | src/led_controller.cpp:32-34 | active if and only if the mode is not OFF |
| `Controller.LedController.TurnOff` | src/led_controller.cpp:36-40 | mode OFF and every LED black; timers and brightness unchanged |
| `Controller.LedController.FillPalette` | src/led_controller.cpp:81-83 | every LED gets its Iron Man colour |
| `Controller.LedController.AnimatePowerUp` | src/led_controller.cpp:51-71 | the buffer is the power-up frame for `map(elapsed, 0, 500, 0, NUM_LEDS)`; the mode becomes STEADY with a restarted phase timer exactly when elapsed > 500 |
| `Controller.LedController.AnimateSteady` | src/led_controller.cpp:73-93 | the strip takes the breathing level and shows the palette; FADE_OUT starts, with a restarted timer, exactly when more than ACTIVE_DURATION ms have passed since activation |
| `Controller.LedController.AnimateFadeOut` | src/led_controller.cpp:95-112 | when the fade test holds, the mode is OFF with a black buffer and the strip brightness untouched; otherwise the palette is shown at `map(elapsed, 0, 1000, currentBrightness, 0)` |
| `Controller.LedController.Update` | src/led_controller.cpp:114-133 | OFF changes nothing; each mode's frame and strip brightness (the palette at the fade level while fading) and its exact transition condition; the phase timer is kept unless a new phase starts, so ticks chain; the mode advances by at most one step along the cycle |
| `F5Leds.CalculateBrightness` | src/f5led_facade.h:42-58 | the level is the blue, red or green channel in those builds, and the largest channel when no colour is selected |
| `F5Leds.ScaleByGlobalBrightness` | src/f5led_facade.h:61-63 | the scaled value never exceeds the stored one, equals it at global 255 and is 0 at global 0 |
| `F5Leds.ScaleMonotone` | src/f5led_facade.h:60-63 | scaling is monotone in both the LED's level and the global brightness |
| `F5Leds.F5LedFacade.constructor` | src/f5led_facade.h:66-73 | every LED dark with brightness 0, and the global brightness is BRIGHTNESS |
| `F5Leds.F5LedFacade.NumLeds` | src/f5led_facade.h:127-129 | the LED count is the length of the arrays |
| `F5Leds.F5LedFacade.SetLed` | src/f5led_facade.h:90-97 | an index past the end changes nothing; otherwise that one LED stores the colour and its derived brightness, and every other LED is unchanged |
| `F5Leds.F5LedFacade.SetAll` | src/f5led_facade.h:99-103 | every LED holds the same colour and brightness |
| `F5Leds.F5LedFacade.Clear` | src/f5led_facade.h:105-113 | every LED dark: all four arrays zero |
| `F5Leds.F5LedFacade.Show` | src/f5led_facade.h:115-121 | the duty written to pin i is LED i's brightness scaled by the global brightness |
| `F5Leds.F5LedFacade.SetBrightness` | src/f5led_facade.h:123-125 | only the global brightness changes |
| `UnifiedSketch.ColorForIndexPalette` | src/main_unified.cpp:42-54 | on the strip build the colours are the `LEDController` palette; on F5 every LED is blue; no LED is asked to be black |
| `UnifiedSketch.ColorForIndexDarkOnRedOrGreen` | src/main_unified.cpp:50-53 | as written, a red or green F5 build stores brightness 0 for blue, so `show()` writes 0 |
| `UnifiedSketch.FrameColorLightsEveryBuild` | src/main_unified.cpp:42-54 | with the build's own colour, a lit F5 LED has full brightness in every build, and the colours equal `getColorForIndex` on the strip build and in the default build |
| `UnifiedSketch.OneLitExactlyOne` | src/main_unified.cpp:187-194 | the "one by one" frame has exactly one LED with non-zero brightness |
| `UnifiedSketch.PowerUpPixelsPrefix` | src/main_unified.cpp:75-83 | a power-up frame has non-zero brightness exactly on the first numLit LEDs: all dark for 0, the full palette from NUM_LEDS on |
| `UnifiedSketch.LitLedShowsGlobalBrightness` | src/main_unified.cpp:98-105 | a lit LED is shown at exactly the global brightness and a dark one at 0 |
| `UnifiedSketch.Sketch.constructor` | src/main_unified.cpp:25-39 | not ready, not active, animation OFF, timers and test phase 0, LEDs dark at BRIGHTNESS, detector reset |
| `UnifiedSketch.Sketch.Setup` | src/main_unified.cpp:250-278 | the sketch becomes ready in the test build or when the sensor is found; otherwise it never becomes ready |
| `UnifiedSketch.Sketch.StartAnimation` | src/main_unified.cpp:56-62 | enters POWER_UP, active, with both timers at now |
| `UnifiedSketch.Sketch.FillPalette` | src/main_unified.cpp:100-104 | every LED gets its frame colour |
| `UnifiedSketch.Sketch.PowerUpTick` | src/main_unified.cpp:73-91 | the facade holds the power-up frame for `map(elapsed, 0, 500, 0, n)`, this frame is shown, and STEADY starts exactly when elapsed > 500 |
| `UnifiedSketch.Sketch.SteadyTick` | src/main_unified.cpp:93-114 | the whole palette is shown at the breathing level; FADE_OUT starts exactly when more than ACTIVE_DURATION ms have passed since activation |
| `UnifiedSketch.Sketch.FadeOutTick` | src/main_unified.cpp:116-138 | once the fade test holds: LEDs cleared and shown, OFF, not active, brightness back to BRIGHTNESS; before that: the palette is shown at the fade level |
| `UnifiedSketch.Sketch.UpdateAnimation` | src/main_unified.cpp:64-140 | nothing is drawn or changed when OFF; each state's frame, pin output and exact transition, including the cleared frame shown before the brightness reset when the fade ends; the phase timer is kept unless a new state starts; `isActive` stays in step with the state |
| `UnifiedSketch.Sketch.DrawTestPhase` | src/main_unified.cpp:154-216 | phases 0 and 1 draw all on or all off only at 0 ms, phase 2 lights only LED `(elapsed / 500) % n`, phase 3 shows the palette at the breathing level |
| `UnifiedSketch.Sketch.RunTestSequence` | src/main_unified.cpp:142-225 | the timer starts on the first call; the phase advances 0, 1, 2, 3, 0 after more than 2000, 2000, 4000 and 5000 ms, restarting the timer; each phase's frame and pin output (all on, all off, one LED, breathing); the global brightness is kept in phases 0-2 and restored to BRIGHTNESS on leaving phase 3 |
| `UnifiedSketch.Sketch.Loop` | src/main_unified.cpp:281-305 | nothing before setup; the test build runs only the test sequence (its phase, timer, frame, pin output and brightness, and nothing else changes); outside it the test statics are untouched, the detector is polled only while idle with the global brightness kept, a poll without a trigger changes nothing else, and a trigger starts the animation and draws its first, dark power-up frame; triggers during an animation are never seen; every stored timestamp is at most now, so polls chain |

## Findings

| source | as written | input that shows it | evidently intended | confidence | as-written member | corrected member |
|---|---|---|---|---|---|---|
| src/main_unified.cpp:50-53 | the F5 branch of `getColorForIndex` returns (0, 0, 255) whatever LED colour is selected; `calculateBrightness` (src/f5led_facade.h:47-50) then takes the red or green channel, which is 0 | an F5 build with `LED_COLOR_RED` (the option listed at src/config.h:37), any index, any global brightness: stored brightness 0, duty 0, so no animation or test frame lights (only `setup()`'s red error flash does) | draw in the build's own colour, its COLOR_PRIMARY (src/config.h:72-82) | high for red, medium for green (config.h never defines COLOR_GREEN); not executed | `UnifiedSketch.ColorForIndexDarkOnRedOrGreen` (about `UnifiedSketch.ColorForIndex`) | `UnifiedSketch.FrameColorLightsEveryBuild` (about `UnifiedSketch.FrameColor`, which `Sketch` draws with) |

The corrected `FrameColor` agrees with `getColorForIndex` on the strip build
and in the default blue build. So in the default configuration the sketch
model behaves exactly as the code does.

## Left out

- Pitch computation (`calculatePitch`, atan2/sqrt in floating point) is left out. The pitch is a `real` input, and the float comparison with 45 is taken as exact.
- Sensor I/O is left out: `MotionDetector::begin`, `getAcceleration` and `isConnected` drive the MPU6050 over I2C, which is not part of this model.
- Breathing brightness (`sin` in floating point) is left out. `LedController.AnimateSteady`, `Sketch.SteadyTick`, `Sketch.UpdateAnimation`, `Sketch.DrawTestPhase`, `Sketch.RunTestSequence` and `Sketch.Loop` take it as a `breath` byte from the caller. They do not constrain it to 150-255 (50-255 in the test sequence).
- LED hardware calls are left out. The FastLED driver's `addLeds`, `show` and `clear` and `pinMode`/`digitalWrite`/`analogWrite` are not modelled. The strip's global brightness is the field `stripBrightness`. The strip frame is the `leds` array. `F5LedFacade.Show` returns the pin duty cycles instead of writing them.
- `F5LedFacade::begin` (pin setup) and the `digitalWrite(LOW)` inside `clear()` (src/f5led_facade.h:111) only drive pins, so they are left out.
- `src/fastled_facade.h` is not part of this model. The sketch is modelled with the F5 facade of the default build; the strip build's colours appear in `ColorForIndex`.
- `millis()` wrap-around of `unsigned long` is left out. The clock is monotone and unbounded.
- The 32-bit `long` overflow inside `map` is left out; `map` is computed over unbounded integers. In the fade, `elapsed * -base` overflows after about 2^31 / 200 ms (about 3 hours); in the power-up, `elapsed * NUM_LEDS` after about 6 days. Each of those phases ends about 1 s after it starts, so with the loop polling every 20 ms elapsed never comes near either bound.
- The error-flash loop of `setup()` never returns, so it is left out. `Sketch.Setup` with no sensor only leaves the sketch not ready.
- Serial and DEBUG logging, and the `delay(20)` at the end of `loop()`, are left out.
- `src/main.cpp`, `src/main_led_test.cpp` and `src/main_f5_led_test.cpp` are other sketches and are not part of this model.
- `Sketch.Loop`: while an animation runs, its contract states only that the detector is not polled and the activation time is kept. The frame drawn is stated by `Sketch.UpdateAnimation`.
