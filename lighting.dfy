/** RGB-matrix colours and the LEDs the per-frame overlay writes. */
module Lighting {
  import opened Words

  datatype Rgb = Rgb(r: u8, g: u8, b: u8)

  const RgbOff: Rgb := Rgb(0, 0, 0)
  const RgbWhite: Rgb := Rgb(0xFF, 0xFF, 0xFF)
  const RgbRed: Rgb := Rgb(0xFF, 0, 0)

  /** DRIVER_LED_TOTAL: twelve key LEDs, the wheel LED and the indicator. */
  const LedCount: nat := 14

  /** The LED that shows hue-adjust mode; the flash covers all below it. */
  const IndicatorLed: nat := 13

  /** The colour of the factory-reset flash for counter value `count`.
      In the source the RGB_RED macro expands inside the conditional, so
      only the red channel is conditional; green and blue are 0 either way. */
  function FlashColour(count: u8): (c: Rgb)
    ensures c == RgbRed <==> count % 2 == 0
    ensures c == RgbOff <==> count % 2 == 1
  {
    Rgb(if count % 2 != 0 then 0 else 0xFF, 0, 0)
  }
}
