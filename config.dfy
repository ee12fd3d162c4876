/** Build-time configuration of the glove: the constants of `src/config.h`
    and the two build selections (LED hardware type and single-LED colour). */
module Config {
  import opened Arduino

  const NUM_LEDS: nat := 4
  const ACTIVATION_ANGLE: int := 45
  const DEBOUNCE_TIME: nat := 100
  const ACTIVE_DURATION: nat := 3000
  const BRIGHTNESS: Byte := 200

  /** A colour as three 8-bit channels (FastLED's `CRGB`). */
  datatype Rgb = Rgb(r: Byte, g: Byte, b: Byte)

  const COLOR_RED := Rgb(255, 0, 0)
  const COLOR_GOLD := Rgb(255, 180, 0)
  const COLOR_BLUE := Rgb(0, 0, 255)
  const COLOR_OFF := Rgb(0, 0, 0)

  /** LED_TYPE_FASTLED (addressable strip) or LED_TYPE_F5 (discrete 5 mm LEDs). */
  datatype LedType = FastLed | F5

  /** Which LED_COLOR_* macro the F5 build defines; `Unselected` is none of them. */
  datatype LedColor = Blue | Red | Green | Unselected

  /** The default build: F5 LEDs that are blue. */
  const LED_TYPE := F5
  const LED_COLOR := Blue
}
