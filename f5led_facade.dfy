/** `F5LEDFacade`: the LED sink for discrete single-colour 5 mm LEDs. It keeps
    the requested colour and a derived brightness per LED in four arrays and
    a global brightness; `show()` drives each pin with the LED's brightness
    scaled by the global one. */
module F5Leds {
  import opened Arduino
  import opened Config

  /** What the facade stores for one LED: the colour asked for and the
      brightness it derived from it. */
  datatype Pixel = Pixel(r: Byte, g: Byte, b: Byte, level: Byte)

  const DARK := Pixel(0, 0, 0, 0)

  /** `calculateBrightness`: a single-colour LED shows the channel of its own
      colour; with no colour selected, the brightest channel. */
  function CalculateBrightness(build: LedColor, r: Byte, g: Byte, b: Byte): (level: Byte)
    ensures level == r || level == g || level == b
    ensures build == Blue ==> level == b
    ensures build == Red ==> level == r
    ensures build == Green ==> level == g
    ensures build == Unselected ==> level >= r && level >= g && level >= b
  {
    match build
    case Blue => b
    case Red => r
    case Green => g
    case Unselected =>
      var m1 := if g > r then g else r;
      if b > m1 then b else m1
  }

  /** The pixel that `setLED(i, c.r, c.g, c.b)` stores. */
  function PixelOf(build: LedColor, c: Rgb): Pixel
  {
    Pixel(c.r, c.g, c.b, CalculateBrightness(build, c.r, c.g, c.b))
  }

  /** `scaleByGlobalBrightness`: `value * global / 255`, computed in 16 bits
      (the product is at most 255 * 255, so it never overflows). */
  function ScaleByGlobalBrightness(value: Byte, global: Byte): (scaled: Byte)
    ensures scaled <= value
    ensures global == 255 ==> scaled == value
    ensures global == 0 ==> scaled == 0
  {
    DivBound(global, value, 255);
    assert value * global == global * value;
    ExactDiv(value, 255);
    value * global / 255
  }

  /** Scaling never reorders: a brighter LED or a higher global brightness
      never gives a dimmer output. */
  lemma ScaleMonotone(v1: Byte, v2: Byte, g1: Byte, g2: Byte)
    requires v1 <= v2 && g1 <= g2
    ensures ScaleByGlobalBrightness(v1, g1) <= ScaleByGlobalBrightness(v2, g2)
  {
    MulMonotone(v1, v2, g1);
    MulMonotone(g1, g2, v2);
    assert v2 * g1 == g1 * v2 && v2 * g2 == g2 * v2;
    DivMonotone(v1 * g1, v2 * g2, 255);
  }

  /** The pin duty cycles that `show()` writes for the given pixels. */
  function Duty(pixels: seq<Pixel>, global: Byte): seq<Byte>
  {
    seq(|pixels|, i requires 0 <= i < |pixels| => ScaleByGlobalBrightness(pixels[i].level, global))
  }

  /** A strip with every LED set to `p`. */
  function Uniform(p: Pixel): seq<Pixel>
  {
    seq(NUM_LEDS, _ => p)
  }

  class F5LedFacade {
    /** The LED_COLOR_* selection of this build. */
    const colorBuild: LedColor
    const ledBrightness: array<Byte>
    const ledR: array<Byte>
    const ledG: array<Byte>
    const ledB: array<Byte>
    var globalBrightness: Byte

    /** Four distinct arrays of NUM_LEDS entries each. */
    ghost predicate Valid()
    {
      && ledBrightness.Length == NUM_LEDS && ledR.Length == NUM_LEDS
      && ledG.Length == NUM_LEDS && ledB.Length == NUM_LEDS
      && ledR != ledG && ledR != ledB && ledG != ledB
      && ledBrightness != ledR && ledBrightness != ledG && ledBrightness != ledB
    }

    /** The stored state of every LED. */
    ghost function Pixels(): (ps: seq<Pixel>)
      reads ledR, ledG, ledB, ledBrightness
      requires Valid()
      ensures |ps| == NUM_LEDS
    {
      var rs, gs, bs, ls := ledR[..], ledG[..], ledB[..], ledBrightness[..];
      seq(NUM_LEDS, i requires 0 <= i < NUM_LEDS => Pixel(rs[i], gs[i], bs[i], ls[i]))
    }

    constructor (build: LedColor)
      ensures Valid() && fresh(ledR) && fresh(ledG) && fresh(ledB) && fresh(ledBrightness)
      ensures colorBuild == build && globalBrightness == BRIGHTNESS
      ensures Pixels() == Uniform(DARK)
    {
      colorBuild := build;
      globalBrightness := BRIGHTNESS;
      ledBrightness := new Byte[NUM_LEDS];
      ledR := new Byte[NUM_LEDS];
      ledG := new Byte[NUM_LEDS];
      ledB := new Byte[NUM_LEDS];
      new;
      var i := 0;
      while i < NUM_LEDS
        modifies ledBrightness, ledR, ledG, ledB
        invariant 0 <= i <= NUM_LEDS
        invariant forall k :: 0 <= k < i ==> ledBrightness[k] == 0 && ledR[k] == 0 && ledG[k] == 0 && ledB[k] == 0
      {
        ledBrightness[i] := 0;
        ledR[i] := 0;
        ledG[i] := 0;
        ledB[i] := 0;
        i := i + 1;
      }
      assert Pixels() == Uniform(DARK);
    }

    /** `getNumLEDs()`. */
    function NumLeds(): (n: Byte)
      requires Valid()
      ensures n == ledBrightness.Length
    {
      NUM_LEDS
    }

    /** `setLED`: store the colour and its brightness at `index`; an index
        past the end is ignored. */
    method SetLed(index: Byte, r: Byte, g: Byte, b: Byte)
      requires Valid()
      modifies ledR, ledG, ledB, ledBrightness
      ensures index >= NUM_LEDS ==> Pixels() == old(Pixels())
      ensures index < NUM_LEDS ==> Pixels() == old(Pixels())[index := PixelOf(colorBuild, Rgb(r, g, b))]
    {
      if index >= NUM_LEDS {
        return;
      }
      ledR[index] := r;
      ledG[index] := g;
      ledB[index] := b;
      ledBrightness[index] := CalculateBrightness(colorBuild, r, g, b);
      assert Pixels() == old(Pixels())[index := PixelOf(colorBuild, Rgb(r, g, b))];
    }

    /** `setAll`: every LED the same colour. */
    method SetAll(r: Byte, g: Byte, b: Byte)
      requires Valid()
      modifies ledR, ledG, ledB, ledBrightness
      ensures Pixels() == Uniform(PixelOf(colorBuild, Rgb(r, g, b)))
    {
      var p := PixelOf(colorBuild, Rgb(r, g, b));
      var i := 0;
      while i < NUM_LEDS
        invariant 0 <= i <= NUM_LEDS
        invariant forall k :: 0 <= k < i ==> Pixels()[k] == p
      {
        SetLed(i, r, g, b);
        i := i + 1;
      }
      assert Pixels() == Uniform(p);
    }

    /** `clear()`: every LED dark. */
    method Clear()
      requires Valid()
      modifies ledR, ledG, ledB, ledBrightness
      ensures Pixels() == Uniform(DARK)
    {
      var i := 0;
      while i < NUM_LEDS
        invariant 0 <= i <= NUM_LEDS
        invariant forall k :: 0 <= k < i ==> ledBrightness[k] == 0 && ledR[k] == 0 && ledG[k] == 0 && ledB[k] == 0
      {
        ledBrightness[i] := 0;
        ledR[i] := 0;
        ledG[i] := 0;
        ledB[i] := 0;
        i := i + 1;
      }
      assert Pixels() == Uniform(DARK);
    }

    /** `show()`: the duty cycle written to each LED's pin. */
    method Show() returns (duty: seq<Byte>)
      requires Valid()
      ensures |duty| == NUM_LEDS
      ensures forall i :: 0 <= i < NUM_LEDS ==> duty[i] == ScaleByGlobalBrightness(ledBrightness[i], globalBrightness)
      ensures duty == Duty(Pixels(), globalBrightness)
    {
      duty := [];
      var i := 0;
      while i < NUM_LEDS
        invariant 0 <= i <= NUM_LEDS
        invariant |duty| == i
        invariant forall k :: 0 <= k < i ==> duty[k] == ScaleByGlobalBrightness(ledBrightness[k], globalBrightness)
      {
        duty := duty + [ScaleByGlobalBrightness(ledBrightness[i], globalBrightness)];
        i := i + 1;
      }
    }

    /** `setBrightness`: only the global brightness changes. */
    method SetBrightness(brightness: Byte)
      requires Valid()
      modifies this
      ensures globalBrightness == brightness
    {
      globalBrightness := brightness;
    }
  }
}
