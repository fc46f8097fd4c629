/** The detection record that the detectors emit and the later stages refine. */
module Peaks {
  datatype Peak = Peak(rangeBin: int, dopplerBin: int, amplitude: real, magnitude: real, snr: real)
}
