/** The operator's Prometheus gauges: python/climatik_operator/prom_metrics.py. */
module Metrics {
  import opened Prelude
  import opened LastEntries

  /** The gauges that update_metrics can set, one for each Kepler metric it knows. */
  datatype KeplerGauge =
    | GpuJoules | DramJoules | CoreJoules | BpfBlockIrq | BpfCpuTimeMs | BpfNetRxIrq | BpfNetTxIrq
    | BpfPageCacheHit | Joules

  /** A labelled gauge: the value last set for each deployment label. */
  type Series = map<string, real>

  /** The Kepler metrics by name: kepler_container_gpu_joules_total and so on. */
  datatype KeplerMetric =
    | ContainerGpuJoules | ContainerDramJoules | ContainerCoreJoules | ContainerOtherJoules | ContainerPackageJoules
    | ContainerPlatformJoules | ContainerUncoreJoules | NodeCoreJoules | NodeOtherJoules
    | ContainerBpfBlockIrq | ContainerBpfCpuTimeMs | ContainerBpfNetRxIrq | ContainerBpfNetTxIrq
    | ContainerBpfPageCacheHit | ContainerJoules

  /** The names update_metrics goes through; the core metric, which has a gauge, is not among them. */
  const KEPLER_METRICS: seq<KeplerMetric> := [
    ContainerGpuJoules, ContainerDramJoules, ContainerOtherJoules, ContainerPackageJoules, ContainerPlatformJoules,
    ContainerUncoreJoules, NodeCoreJoules, NodeOtherJoules, ContainerBpfBlockIrq, ContainerBpfCpuTimeMs,
    ContainerBpfNetRxIrq, ContainerBpfNetTxIrq, ContainerBpfPageCacheHit, ContainerJoules]

  /** The if-chain on the metric name; the other metrics of the list are fetched and set no gauge. */
  function GaugeOf(metric: KeplerMetric): Option<KeplerGauge> {
    match metric
    case ContainerGpuJoules => Some(GpuJoules)
    case ContainerDramJoules => Some(DramJoules)
    case ContainerCoreJoules => Some(CoreJoules)
    case ContainerBpfBlockIrq => Some(BpfBlockIrq)
    case ContainerBpfCpuTimeMs => Some(BpfCpuTimeMs)
    case ContainerBpfNetRxIrq => Some(BpfNetRxIrq)
    case ContainerBpfNetTxIrq => Some(BpfNetTxIrq)
    case ContainerBpfPageCacheHit => Some(BpfPageCacheHit)
    case ContainerJoules => Some(Joules)
    case _ => None
  }

  /**
    One sample of a metric: its pod label and value. A value that float() rejects raises ValueError,
    which is caught; a sample without its 'metric' or 'value' entry raises an error that is not.
  */
  datatype Sample = Sample(podName: Option<string>, value: Option<real>) | Malformed

  /** The answer to one query: samples, a caught error (request or decoding), or an error nobody catches. */
  datatype Fetch = Fetched(samples: seq<Sample>) | Caught | Uncaught

  function FetchOf(fetches: map<KeplerMetric, Fetch>, metric: KeplerMetric): Fetch {
    if metric in fetches then fetches[metric] else Fetched([])
  }

  function SamplesOf(fetches: map<KeplerMetric, Fetch>, metric: KeplerMetric): seq<Sample> {
    var fetch := FetchOf(fetches, metric);
    if fetch.Fetched? then fetch.samples else []
  }

  /** One gauge update: labels(deployment=key).set(value) */
  type Setting = Entry<string, real>

  /** The update a sample leads to; a missing pod name becomes the text None. None when the sample fails. */
  function SettingOf(sample: Sample): Option<Setting> {
    if sample.Malformed? || sample.value.None? then None
    else Some(Entry(if sample.podName.Some? then sample.podName.value else "None", sample.value.value))
  }

  /** The updates of a metric's samples, in order, up to the first sample that fails. */
  function Settings(samples: seq<Sample>): seq<Setting> {
    if samples == [] || SettingOf(samples[0]).None? then []
    else [SettingOf(samples[0]).value] + Settings(samples[1..])
  }

  /** The samples before `n` are good, and `n` is the end or a sample that fails. */
  ghost predicate FailsFirstAt(samples: seq<Sample>, n: nat) {
    && n <= |samples|
    && (forall i :: 0 <= i < n ==> samples[i].Sample? && samples[i].value.Some?)
    && (n < |samples| ==> samples[n].Malformed? || samples[n].value.None?)
  }

  /**
    Samples lead to updates one for one up to the first that fails, with their values and their pod names, or the
    text None; an error leaves the loop exactly when that first failure is a malformed sample.
  */
  lemma {:induction false} SettingsAreSamples(samples: seq<Sample>, n: nat)
    requires FailsFirstAt(samples, n)
    ensures |Settings(samples)| == n
    ensures forall i :: 0 <= i < n ==>
              && Settings(samples)[i].value == samples[i].value.value
              && Settings(samples)[i].key == (if samples[i].podName.Some? then samples[i].podName.value else "None")
    ensures EndsMalformed(samples) <==> n < |samples| && samples[n].Malformed?
  {
    if n > 0 {
      SettingsAreSamples(samples[1..], n - 1);
    }
  }

  /** A caught error crashes nothing, an uncaught one does, and samples do when the first to fail is malformed. */
  lemma WhenMetricCrashes(fetches: map<KeplerMetric, Fetch>, metric: KeplerMetric, n: nat)
    requires metric in fetches
    requires fetches[metric].Fetched? ==> FailsFirstAt(fetches[metric].samples, n)
    ensures Crashes(fetches, metric) <==>
            match fetches[metric]
            case Uncaught => true
            case Caught => false
            case Fetched(samples) => n < |samples| && samples[n].Malformed?
    ensures SamplesOf(fetches, metric) == if fetches[metric].Fetched? then fetches[metric].samples else []
  {
    if fetches[metric].Fetched? {
      SettingsAreSamples(fetches[metric].samples, n);
    }
  }

  /** The metric raises an error that update_metrics does not catch. */
  predicate Crashes(fetches: map<KeplerMetric, Fetch>, metric: KeplerMetric) {
    FetchOf(fetches, metric).Uncaught? || EndsMalformed(SamplesOf(fetches, metric))
  }

  /** The first sample that fails is a malformed one. */
  predicate EndsMalformed(samples: seq<Sample>) {
    if samples == [] then false
    else if SettingOf(samples[0]).None? then samples[0].Malformed?
    else EndsMalformed(samples[1..])
  }

  /** The values of the gauges, one series each. */
  type Gauges = map<KeplerGauge, Series>

  function SeriesOf(gauges: Gauges, gauge: KeplerGauge): Series {
    if gauge in gauges then gauges[gauge] else map[]
  }

  /** The gauges other than `gauge` show what they showed. */
  ghost predicate OthersKept(before: Gauges, gauge: Option<KeplerGauge>, after: Gauges) {
    forall g :: gauge != Some(g) ==> SeriesOf(after, g) == SeriesOf(before, g)
  }

  /** What the sample at `i` contributes to the rest. */
  lemma SettingsFrom(samples: seq<Sample>, i: nat)
    requires i < |samples|
    ensures var setting := SettingOf(samples[i]);
            && Settings(samples[i..]) == (if setting.None? then [] else [setting.value] + Settings(samples[i + 1..]))
            && EndsMalformed(samples[i..])
               == (if setting.None? then samples[i].Malformed? else EndsMalformed(samples[i + 1..]))
  {
    assert samples[i..][0] == samples[i] && samples[i..][1..] == samples[i + 1..];
  }

  lemma MoveOver(done: seq<Setting>, setting: Setting, rest: seq<Setting>)
    ensures done + ([setting] + rest) == done + [setting] + rest
  {
  }

  lemma OneMoreSetting(before: Series, done: seq<Setting>, setting: Setting)
    ensures (before + Latest(done))[setting.key := setting.value] == before + Latest(done + [setting])
  {
    LatestAppend(done, setting);
  }

  /**
    The outcome of update_metrics, gauge by gauge: the samples of its own metric if that was visited,
    its old series otherwise. No other metric has a say.
  */
  ghost predicate Updated(before: Gauges, visited: seq<KeplerMetric>, fetches: map<KeplerMetric, Fetch>,
                          after: Gauges) {
    forall gauge ::
      && (forall metric :: metric in visited && GaugeOf(metric) == Some(gauge) ==>
            SeriesOf(after, gauge) == SeriesOf(before, gauge) + Latest(Settings(SamplesOf(fetches, metric))))
      && ((forall metric :: metric in visited ==> GaugeOf(metric) != Some(gauge)) ==>
            SeriesOf(after, gauge) == SeriesOf(before, gauge))
  }

  /** One gauge and the metric it is for: that metric's samples if it was visited, else what it showed. */
  ghost predicate Refreshed(before: Gauges, visited: seq<KeplerMetric>, fetches: map<KeplerMetric, Fetch>,
                            after: Gauges, metric: KeplerMetric, gauge: KeplerGauge) {
    SeriesOf(after, gauge) ==
    if metric in visited then SeriesOf(before, gauge) + Latest(Settings(SamplesOf(fetches, metric)))
    else SeriesOf(before, gauge)
  }

  /** Each of the nine gauges is refreshed by the metric that bears its name, and by no other. */
  ghost predicate AllRefreshed(before: Gauges, visited: seq<KeplerMetric>, fetches: map<KeplerMetric, Fetch>,
                               after: Gauges) {
    && Refreshed(before, visited, fetches, after, ContainerGpuJoules, GpuJoules)
    && Refreshed(before, visited, fetches, after, ContainerDramJoules, DramJoules)
    && Refreshed(before, visited, fetches, after, ContainerCoreJoules, CoreJoules)
    && Refreshed(before, visited, fetches, after, ContainerBpfBlockIrq, BpfBlockIrq)
    && Refreshed(before, visited, fetches, after, ContainerBpfCpuTimeMs, BpfCpuTimeMs)
    && Refreshed(before, visited, fetches, after, ContainerBpfNetRxIrq, BpfNetRxIrq)
    && Refreshed(before, visited, fetches, after, ContainerBpfNetTxIrq, BpfNetTxIrq)
    && Refreshed(before, visited, fetches, after, ContainerBpfPageCacheHit, BpfPageCacheHit)
    && Refreshed(before, visited, fetches, after, ContainerJoules, Joules)
  }

  lemma UpdatedIsRefreshed(before: Gauges, visited: seq<KeplerMetric>, fetches: map<KeplerMetric, Fetch>, after: Gauges,
                           metric: KeplerMetric, gauge: KeplerGauge)
    requires Updated(before, visited, fetches, after) && GaugeOf(metric) == Some(gauge)
    ensures Refreshed(before, visited, fetches, after, metric, gauge)
  {
    if metric !in visited {
      forall m | m in visited ensures GaugeOf(m) != Some(gauge) {
        if GaugeOf(m) == Some(gauge) { OneMetricPerGauge(m, metric); }
      }
    }
  }

  lemma UpdatedIsAllRefreshed(before: Gauges, visited: seq<KeplerMetric>, fetches: map<KeplerMetric, Fetch>,
                              after: Gauges)
    requires Updated(before, visited, fetches, after)
    ensures AllRefreshed(before, visited, fetches, after)
  {
    UpdatedIsRefreshed(before, visited, fetches, after, ContainerGpuJoules, GpuJoules);
    UpdatedIsRefreshed(before, visited, fetches, after, ContainerDramJoules, DramJoules);
    UpdatedIsRefreshed(before, visited, fetches, after, ContainerCoreJoules, CoreJoules);
    UpdatedIsRefreshed(before, visited, fetches, after, ContainerBpfBlockIrq, BpfBlockIrq);
    UpdatedIsRefreshed(before, visited, fetches, after, ContainerBpfCpuTimeMs, BpfCpuTimeMs);
    UpdatedIsRefreshed(before, visited, fetches, after, ContainerBpfNetRxIrq, BpfNetRxIrq);
    UpdatedIsRefreshed(before, visited, fetches, after, ContainerBpfNetTxIrq, BpfNetTxIrq);
    UpdatedIsRefreshed(before, visited, fetches, after, ContainerBpfPageCacheHit, BpfPageCacheHit);
    UpdatedIsRefreshed(before, visited, fetches, after, ContainerJoules, Joules);
  }

  /** The gauges the operator exports, and the method that refreshes the Kepler ones. */
  class PowerCappingMetrics {
    var scaleObjects: Option<int>
    var replicas: map<string, int>
    var powerConsumption: Series
    var forecastPowerConsumption: Series
    var kepler: Gauges

    constructor ()
      ensures scaleObjects.None? && replicas == map[] && powerConsumption == map[]
      ensures forecastPowerConsumption == map[] && kepler == map[]
    {
      scaleObjects, replicas, powerConsumption, forecastPowerConsumption, kepler := None, map[], map[], map[], map[];
    }

    /** scale_objects_gauge.set(count) */
    method UpdateScaleObjects(count: int)
      modifies `scaleObjects
      ensures scaleObjects == Some(count)
    {
      scaleObjects := Some(count);
    }

    /** update_replicas and update_power_consumption, for one deployment. */
    method UpdateMeasured(deployment: string, count: int, power: real)
      modifies `replicas, `powerConsumption
      ensures replicas == old(replicas)[deployment := count]
      ensures powerConsumption == old(powerConsumption)[deployment := power]
    {
      replicas := replicas[deployment := count];
      powerConsumption := powerConsumption[deployment := power];
    }

    method UpdateForecastPowerConsumption(deployment: string, forecast: real)
      modifies `forecastPowerConsumption
      ensures forecastPowerConsumption == old(forecastPowerConsumption)[deployment := forecast]
    {
      forecastPowerConsumption := forecastPowerConsumption[deployment := forecast];
    }

    /** One Kepler gauge, one deployment. */
    method SetKepler(gauge: KeplerGauge, deployment: string, value: real)
      modifies `kepler
      ensures SeriesOf(kepler, gauge) == SeriesOf(old(kepler), gauge)[deployment := value]
      ensures OthersKept(old(kepler), Some(gauge), kepler)
    {
      kepler := kepler[gauge := SeriesOf(kepler, gauge)[deployment := value]];
    }

    /** The inner loop on the samples of one metric; an uncaught error leaves through `crashed`. */
    method UpdateMetric(metric: KeplerMetric, samples: seq<Sample>) returns (crashed: bool)
      modifies `kepler
      ensures crashed <==> EndsMalformed(samples)
      ensures OthersKept(old(kepler), GaugeOf(metric), kepler)
      ensures GaugeOf(metric).Some? ==>
                SeriesOf(kepler, GaugeOf(metric).value)
                == SeriesOf(old(kepler), GaugeOf(metric).value) + Latest(Settings(samples))
    {
      var gauge := GaugeOf(metric);
      ghost var before: Series := if gauge.Some? then SeriesOf(kepler, gauge.value) else map[];
      ghost var done: seq<Setting> := [];
      for i := 0 to |samples|
        invariant Settings(samples) == done + Settings(samples[i..])
        invariant EndsMalformed(samples) == EndsMalformed(samples[i..])
        invariant OthersKept(old(kepler), gauge, kepler)
        invariant gauge.Some? ==> SeriesOf(kepler, gauge.value) == before + Latest(done)
      {
        SettingsFrom(samples, i);
        var setting := SettingOf(samples[i]);
        if setting.None? {
          assert done + [] == done;
          return samples[i].Malformed?;
        }
        MoveOver(done, setting.value, Settings(samples[i + 1..]));
        OneMoreSetting(before, done, setting.value);
        done := done + [setting.value];
        if gauge.Some? {
          SetKepler(gauge.value, setting.value.key, setting.value.value);
        }
      }
      assert done + [] == done;
      crashed := false;
    }

    /** The body of the try statement for one metric, and its except clauses. */
    method TryMetric(metric: KeplerMetric, fetches: map<KeplerMetric, Fetch>) returns (crashed: bool)
      modifies `kepler
      ensures crashed <==> Crashes(fetches, metric)
      ensures OthersKept(old(kepler), GaugeOf(metric), kepler)
      ensures GaugeOf(metric).Some? ==>
                SeriesOf(kepler, GaugeOf(metric).value)
                == SeriesOf(old(kepler), GaugeOf(metric).value) + Latest(Settings(SamplesOf(fetches, metric)))
    {
      match FetchOf(fetches, metric)
      case Uncaught => crashed := true;
      case Caught => crashed := false;
      case Fetched(samples) => crashed := UpdateMetric(metric, samples);
    }

    /**
      update_metrics. The metrics get their turns in order, up to and including the first that raises an
      uncaught error. Whatever fails, each gauge ends with its own metric's samples up to their first failure
      if that metric got a turn, and unchanged if not.
    */
    method UpdateMetrics(metrics: seq<KeplerMetric>, fetches: map<KeplerMetric, Fetch>)
      returns (crashed: bool, turns: nat)
      modifies `kepler
      ensures turns <= |metrics| && (!crashed ==> turns == |metrics|)
      ensures crashed <==> turns > 0 && Crashes(fetches, metrics[turns - 1])
      ensures forall i :: 0 <= i < turns - 1 ==> !Crashes(fetches, metrics[i])
      ensures Updated(old(kepler), metrics[..turns], fetches, kepler)
      ensures AllRefreshed(old(kepler), metrics[..turns], fetches, kepler)
    {
      turns := 0;
      crashed := false;
      while turns < |metrics| && !crashed
        invariant turns <= |metrics|
        invariant crashed <==> turns > 0 && Crashes(fetches, metrics[turns - 1])
        invariant forall i :: 0 <= i < turns - 1 ==> !Crashes(fetches, metrics[i])
        invariant Updated(old(kepler), metrics[..turns], fetches, kepler)
      {
        ghost var before := kepler;
        crashed := TryMetric(metrics[turns], fetches);
        VisitOne(old(kepler), before, kepler, metrics[..turns], metrics[turns], fetches);
        assert metrics[..turns + 1] == metrics[..turns] + [metrics[turns]];
        turns := turns + 1;
      }
      UpdatedIsAllRefreshed(old(kepler), metrics[..turns], fetches, kepler);
    }
  }

  /** One more visited metric, new or visited before. */
  lemma VisitOne(start: Gauges, before: Gauges, after: Gauges, visited: seq<KeplerMetric>, metric: KeplerMetric,
                 fetches: map<KeplerMetric, Fetch>)
    requires Updated(start, visited, fetches, before)
    requires OthersKept(before, GaugeOf(metric), after)
    requires GaugeOf(metric).Some? ==>
               SeriesOf(after, GaugeOf(metric).value)
               == SeriesOf(before, GaugeOf(metric).value) + Latest(Settings(SamplesOf(fetches, metric)))
    ensures Updated(start, visited + [metric], fetches, after)
  {
    forall gauge, m | m in visited + [metric] && GaugeOf(m) == Some(gauge)
      ensures SeriesOf(after, gauge) == SeriesOf(start, gauge) + Latest(Settings(SamplesOf(fetches, m)))
    {
      if GaugeOf(metric) == Some(gauge) {
        OneMetricPerGauge(m, metric);
        if m !in visited {
          assert forall m' :: m' in visited ==> GaugeOf(m') != Some(gauge) by {
            forall m' | m' in visited && GaugeOf(m') == Some(gauge) ensures false { OneMetricPerGauge(m', metric); }
          }
        }
      }
    }
    forall gauge | forall m :: m in visited + [metric] ==> GaugeOf(m) != Some(gauge)
      ensures SeriesOf(after, gauge) == SeriesOf(start, gauge)
    {
      assert metric in visited + [metric];
      assert forall m :: m in visited ==> m in visited + [metric];
    }
  }

  lemma OneMetricPerGauge(m: KeplerMetric, m': KeplerMetric)
    requires GaugeOf(m).Some? && GaugeOf(m) == GaugeOf(m')
    ensures m == m'
  {
  }

  /**
    Isolation. When no metric raises an uncaught error, every gauge ends the same in whatever order the
    metrics are listed and however often; and answers that differ for other metrics only do not change it.
  */
  lemma GaugesAreIsolated(before: Gauges, metrics: seq<KeplerMetric>, metrics': seq<KeplerMetric>,
                          fetches: map<KeplerMetric, Fetch>, fetches': map<KeplerMetric, Fetch>,
                          after: Gauges, after': Gauges, gauge: KeplerGauge)
    requires Updated(before, metrics, fetches, after) && Updated(before, metrics', fetches', after')
    requires forall metric :: GaugeOf(metric) == Some(gauge) ==>
               && (metric in metrics <==> metric in metrics')
               && FetchOf(fetches, metric) == FetchOf(fetches', metric)
    ensures SeriesOf(after, gauge) == SeriesOf(after', gauge)
  {
    if metric :| metric in metrics && GaugeOf(metric) == Some(gauge) {
      assert metric in metrics';
    } else {
      assert forall metric :: metric in metrics' ==> GaugeOf(metric) != Some(gauge);
    }
  }

  /** The listed names: every metric but the container's core energy, fourteen of fifteen. */
  lemma ListedMetrics(metric: KeplerMetric)
    ensures metric in KEPLER_METRICS <==> metric != ContainerCoreJoules
    ensures |KEPLER_METRICS| == 14
  {
    match metric
    case ContainerGpuJoules => assert KEPLER_METRICS[0] == metric;
    case ContainerDramJoules => assert KEPLER_METRICS[1] == metric;
    case ContainerOtherJoules => assert KEPLER_METRICS[2] == metric;
    case ContainerPackageJoules => assert KEPLER_METRICS[3] == metric;
    case ContainerPlatformJoules => assert KEPLER_METRICS[4] == metric;
    case ContainerUncoreJoules => assert KEPLER_METRICS[5] == metric;
    case NodeCoreJoules => assert KEPLER_METRICS[6] == metric;
    case NodeOtherJoules => assert KEPLER_METRICS[7] == metric;
    case ContainerBpfBlockIrq => assert KEPLER_METRICS[8] == metric;
    case ContainerBpfCpuTimeMs => assert KEPLER_METRICS[9] == metric;
    case ContainerBpfNetRxIrq => assert KEPLER_METRICS[10] == metric;
    case ContainerBpfNetTxIrq => assert KEPLER_METRICS[11] == metric;
    case ContainerBpfPageCacheHit => assert KEPLER_METRICS[12] == metric;
    case ContainerJoules => assert KEPLER_METRICS[13] == metric;
    case ContainerCoreJoules =>
  }

  /** The gauge of core energy is never set: its metric is not among the names that update_metrics goes through. */
  lemma CoreGaugeIsNeverSet(before: Gauges, turns: nat, fetches: map<KeplerMetric, Fetch>, after: Gauges)
    requires turns <= |KEPLER_METRICS| && Updated(before, KEPLER_METRICS[..turns], fetches, after)
    ensures SeriesOf(after, CoreJoules) == SeriesOf(before, CoreJoules)
  {
    forall metric | metric in KEPLER_METRICS[..turns] ensures GaugeOf(metric) != Some(CoreJoules) {
      assert metric in KEPLER_METRICS;
    }
  }
}
