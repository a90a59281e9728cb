/**
 * Seismogram.py reduced to what the core reads and writes: the identifiers, the
 * time bounds and three sample channels at the classifier's rate. Resampling and
 * the Butterworth filter are library calls and enter as values and parameters.
 */
module Seismograms {
  import opened Wrappers
  import NeuralNetwork

  /** Same number of channels, each of the same length. */
  predicate SameShape(a: seq<seq<real>>, b: seq<seq<real>>) {
    |a| == |b| && forall c :: 0 <= c < |a| ==> |a[c]| == |b[c]|
  }

  class Seismogram {
    const station: string
    const network: string
    const channels: seq<string>
    const filePath: string
    const startTime: real
    const endTime: real
    /** The original channels interpolated to the classifier's sampling rate. */
    const resampled: seq<seq<real>>
    var traces: seq<seq<real>>

    /** Three named channels whose current samples keep the shape of the resampled ones. */
    ghost predicate Valid()
      reads this
    {
      && |channels| == NeuralNetwork.NumberOfTraces
      && NeuralNetwork.IsThreeChannel(resampled)
      && SameShape(traces, resampled)
    }

    constructor (station: string, network: string, channels: seq<string>, filePath: string,
                 startTime: real, endTime: real, resampled: seq<seq<real>>)
      requires |channels| == NeuralNetwork.NumberOfTraces && NeuralNetwork.IsThreeChannel(resampled)
      ensures Valid()
      ensures this.station == station && this.network == network && this.channels == channels
      ensures this.filePath == filePath && this.startTime == startTime && this.endTime == endTime
      ensures this.resampled == resampled && traces == resampled
    {
      this.station := station;
      this.network := network;
      this.channels := channels;
      this.filePath := filePath;
      this.startTime := startTime;
      this.endTime := endTime;
      this.resampled := resampled;
      traces := resampled;
    }

    /** reset_trace: the channels go back to the resampled originals. */
    method ResetTrace()
      requires Valid()
      modifies this
      ensures Valid() && traces == resampled
    {
      traces := resampled;
    }

    /**
     * apply_filter: `filter` stands for butter + sosfilt with the chosen order,
     * frequencies and type; `None` is the exception butter raises on bad parameters,
     * in which case the channels stay as they were. sosfilt keeps the array's shape.
     */
    method ApplyFilter(filter: seq<seq<real>> -> Option<seq<seq<real>>>) returns (ok: bool)
      requires Valid()
      requires forall t :: filter(t).Some? ==> SameShape(filter(t).value, t)
      modifies this
      ensures Valid()
      ensures ok == filter(old(traces)).Some?
      ensures traces == if ok then filter(old(traces)).value else old(traces)
    {
      var result := filter(traces);
      ok := result.Some?;
      if ok {
        traces := result.value;
      }
    }
  }
}
