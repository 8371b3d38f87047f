/**
 * The sample records that flow between the modules: a calibration reading of one tag
 * (CalibrationSample) and a persisted per-pass reading (TagData). Java's `int` and `long`
 * fields are unbounded integers here.
 */
module Samples {

  /** One reading of tag `tagId`: when, raw RSSI, and a smoothed RSSI in dBm. */
  datatype CalibrationSample = CalibrationSample(tagId: int, timestampMs: int, rssi: int, smoothedRssi: int)

  /** One stored reading of pass `trackId`. The generated row id is not modelled. */
  datatype TagData = TagData(trackId: int, entryTimeMs: int, rssi: int)

  /** The RSSI values of a sample list, in order. */
  function RssiOf(samples: seq<CalibrationSample>): (r: seq<int>)
    ensures |r| == |samples|
    ensures forall i :: 0 <= i < |samples| ==> r[i] == samples[i].rssi
  {
    seq(|samples|, i requires 0 <= i < |samples| => samples[i].rssi)
  }

  /** `xs` keeps some of the elements of `ys`, in their original order. */
  predicate IsSubsequence<T(==)>(xs: seq<T>, ys: seq<T>)
    decreases |ys|
  {
    if |xs| == 0 then true
    else if |ys| == 0 then false
    else if xs[0] == ys[0] then IsSubsequence(xs[1..], ys[1..])
    else IsSubsequence(xs, ys[1..])
  }
}
