/** The numbers of internal/controller/powercappingconfig_controller.go: peak power, percentage, cap. */
module PowerCaps {
  import opened Prelude
  import opened Rounding

  /** The answer to the peak-power query: an error, or the samples of the vector (none for another result type). */
  datatype Query = QueryFailed | Samples(values: seq<real>)

  /** queryPodPeakPower: the first sample. */
  function QueryPodPeakPower(query: Query): Result<real> {
    if query.QueryFailed? || query.values == [] then Raised else Ok(query.values[0])
  }

  /**
    watchPodPowerUsage: one tick of the timer, one query, and a peak that starts at zero. The peak is the greater
    of the first sample and zero.
  */
  method WatchPodPowerUsage(query: Query) returns (peak: Result<real>)
    ensures peak.Raised? <==> query.QueryFailed? || query.values == []
    ensures peak.Ok? ==> peak.value >= 0.0 && peak.value >= query.values[0]
    ensures peak.Ok? ==> peak.value == 0.0 || peak.value == query.values[0]
    ensures peak.Ok? ==> peak.value == PeakOf(query.values[0])
  {
    var peakPower := 0.0;
    var currentPower := QueryPodPeakPower(query);
    if currentPower.Raised? {
      return Raised;
    }
    if currentPower.value > peakPower {
      peakPower := currentPower.value;
    }
    peak := Ok(peakPower);
  }

  function PeakOf(reading: real): real {
    if reading > 0.0 then reading else 0.0
  }

  /** getPowerCapPercentage: the label decides, not the config. */
  function PowerCapPercentage(powerCapLabel: string): int {
    if powerCapLabel == "high" then 90
    else if powerCapLabel == "medium" then 80
    else if powerCapLabel == "low" then 50
    else 0
  }

  /** int(calculatePowerCap(peak, percentage)) */
  function CapAt(reading: real, percentage: int): int {
    Trunc(PeakOf(reading) * percentage as real / 100.0)
  }

  /** `cap` is the whole watts in `pct` percent of the reading, or zero for a negative reading. */
  predicate IsCapOf(cap: int, reading: real, pct: int) {
    if reading >= 0.0 then 100.0 * cap as real <= reading * pct as real < 100.0 * (cap + 1) as real else cap == 0
  }

  /** The alerted cap: the whole watts in the percentage of the reading, and never more than a reading above zero. */
  lemma CapBounds(reading: real, powerCapLabel: string)
    ensures var pct, cap := PowerCapPercentage(powerCapLabel), CapAt(reading, PowerCapPercentage(powerCapLabel));
            && IsCapOf(cap, reading, pct)
            && 0 <= cap && (cap as real <= reading || cap == 0)
  {
    var pct := PowerCapPercentage(powerCapLabel);
    assert 0 <= pct <= 90;
    WholePart(PeakOf(reading), pct);
  }

  lemma WholePart(peak: real, pct: int)
    requires peak >= 0.0 && 0 <= pct <= 100
    ensures var cap := Trunc(peak * pct as real / 100.0);
            && 0 <= cap && cap as real <= peak
            && 100.0 * cap as real <= peak * pct as real < 100.0 * (cap + 1) as real
  {
    var share := peak * pct as real;
    assert 0.0 <= share <= peak * 100.0;
    var q := share / 100.0;
    assert 0.0 <= q <= peak;
    var cap := Trunc(q);
    assert cap as real <= q < (cap + 1) as real;
  }

  /**
    The shares in plain numbers: nine tenths, four fifths, a half of a reading of at least zero, and nothing for
    any other label or a negative reading.
  */
  lemma CapShares(reading: real, powerCapLabel: string)
    ensures var cap := CapAt(reading, PowerCapPercentage(powerCapLabel));
            if reading < 0.0 then cap == 0
            else if powerCapLabel == "high" then 10.0 * cap as real <= 9.0 * reading < 10.0 * (cap as real + 1.0)
            else if powerCapLabel == "medium" then 5.0 * cap as real <= 4.0 * reading < 5.0 * (cap as real + 1.0)
            else if powerCapLabel == "low" then 2.0 * cap as real <= reading < 2.0 * (cap as real + 1.0)
            else cap == 0
  {
    CapBounds(reading, powerCapLabel);
    var cap := CapAt(reading, PowerCapPercentage(powerCapLabel));
    assert 100.0 * (cap + 1) as real == 100.0 * (cap as real + 1.0);
  }

  /**
    The config's own percentage. Its documentation calls it the power cap as a percentage of the peak; the
    controller goes by the label. The alert carries the configured share for every reading exactly when the
    label stands for the configured percentage.
  */
  lemma CapHonoursConfig(powerCapLabel: string, configured: int)
    ensures (forall reading: real :: CapAt(reading, PowerCapPercentage(powerCapLabel)) == CapAt(reading, configured))
            <==> PowerCapPercentage(powerCapLabel) == configured
  {
    assert CapAt(100.0, PowerCapPercentage(powerCapLabel)) == PowerCapPercentage(powerCapLabel);
    assert CapAt(100.0, configured) == configured;
  }

  /** A pod labelled "gold" whose config asks for 70 percent: its alert carries a cap of zero, whatever it draws. */
  lemma GoldLabelGetsNothing(reading: real)
    ensures CapAt(reading, PowerCapPercentage("gold")) == 0
    ensures reading == 100.0 ==> CapAt(reading, 70) == 70
  {
    CapShares(reading, "gold");
  }

  /** getPodDevices' answer: both devices, or nil as soon as one lookup fails. `lookup` has the answers that came. */
  function PodDevices(lookup: map<string, string>): map<string, string> {
    if "package" in lookup && "gpu" in lookup
    then map["package" := lookup["package"], "gpu" := lookup["gpu"]]
    else map[]
  }

  /** The loop over the two devices; a nil map reads as an empty one. */
  method GetPodDevices(lookup: map<string, string>) returns (devices: map<string, string>)
    ensures devices == map[] || devices.Keys == {"package", "gpu"}
    ensures forall d :: d in devices ==> d in lookup && devices[d] == lookup[d]
    ensures devices == map[] <==> !("package" in lookup && "gpu" in lookup)
    ensures devices == PodDevices(lookup)
  {
    devices := map[];
    var names := ["package", "gpu"];
    for i := 0 to |names|
      invariant devices.Keys == set j | 0 <= j < i :: names[j]
      invariant forall d :: d in devices ==> d in lookup && devices[d] == lookup[d]
    {
      if names[i] !in lookup {
        return map[];
      }
      devices := devices[names[i] := lookup[names[i]]];
    }
    assert names[0] in devices && names[1] in devices;
  }
}
