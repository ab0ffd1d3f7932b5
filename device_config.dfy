/** Screen parameters of the dual-screen handheld (`DeviceConfig`). */
module DeviceConfig {

  const UpperScreenWidth: int := 1920
  const UpperScreenHeight: int := 1080
  const LowerScreenWidth: int := 1240
  const LowerScreenHeight: int := 1080

  /** Pixel densities: a 6" 1920x1080 upper panel and a 3.92" 1240x1080 lower panel. */
  const UpperScreenPpi: real := 367.0
  const LowerScreenPpi: real := 297.0

  /**
   * The density ratio of the lower panel to the upper one, about 0.809 (the
   * unit test compares it with `297f / 367f` within 0.001). The lower panel is
   * the less dense one.
   */
  function LowerToUpperPpiRatio(): (r: real)
    ensures 0.809 - 0.001 <= r <= 0.809 + 0.001
    ensures 0.0 < r < 1.0
  {
    LowerScreenPpi / UpperScreenPpi
  }

  /** The panel resolutions the unit test asserts. */
  lemma PanelResolutions()
    ensures UpperScreenWidth == 1920 && UpperScreenHeight == 1080
    ensures LowerScreenWidth == 1240 && LowerScreenHeight == 1080
    ensures UpperScreenPpi == 367.0 && LowerScreenPpi == 297.0
  {
  }
}
