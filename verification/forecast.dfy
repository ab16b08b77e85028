/** The autoregressive forecast: a single-step classifier driven over a rolling window of
    feature rows, the sliding-window training split, and the geo-tagged alert filter. */
module Forecast {
  import opened Results
  import opened Levels

  /** Days of history the model reads per prediction. */
  const SequenceLength: nat := 7

  /** Days ahead the monitoring pass and the geo-tagging forecast. */
  const PassHorizon: int := 3

  /** Default confidence bar of the geo-tagged alerts. */
  const GeoAlertThreshold: real := 0.7

  /** One scaled feature row. */
  type Row = seq<real>

  /** Consecutive rows, oldest first. */
  type Window = seq<Row>

  /** The trained classifier: a window to one probability per class. */
  type Predictor = Window -> seq<real>

  datatype ForecastError =
    | ModelNotLoaded        // no model has been trained or loaded
    | UnknownDistrict       // no scaler was fitted for the district
    | NoHistory             // the scaler is asked to transform zero rows
    | InsufficientHistory   // fewer rows than the window the model reads
    | EmptyDistribution     // the arg-max of an empty output
    | UnknownClass          // the arg-max names no class of the label encoder

  /** One day of a forecast. `probabilities[k]` belongs to `classes[k]`. */
  datatype ForecastStep = ForecastStep(day: int, predicted: Level, probabilities: seq<real>,
                                       confidence: real)

  /** The model state the forecast reads: the classifier (absent until loaded), the label
      encoder's classes, the districts, and per district its scaled processed rows and its
      coordinates. */
  datatype System = System(model: Option<Predictor>, classes: seq<Level>, districts: seq<string>,
                           histories: map<string, seq<Row>>,
                           coordinates: map<string, (real, real)>)

  /** The first index holding the largest value. */
  function ArgMax(p: seq<real>): (k: nat)
    requires |p| > 0
    ensures k < |p|
    ensures forall j :: 0 <= j < |p| ==> p[j] <= p[k]
    ensures forall j :: 0 <= j < k ==> p[j] < p[k]
    decreases |p|
  {
    if |p| == 1 then 0
    else
      var k := ArgMax(p[..|p| - 1]);
      if p[|p| - 1] > p[k] then |p| - 1 else k
  }

  function Min(a: int, b: int): int
  {
    if a < b then a else b
  }

  /** The record of one day from the classifier's output `p`: the arg-max class, the
      probabilities paired with the classes, and the largest probability as confidence. */
  function StepOf(classes: seq<Level>, p: seq<real>, day: int): Result<ForecastStep, ForecastError>
  {
    if |p| == 0 then Err(EmptyDistribution)
    else
      var k := ArgMax(p);
      if k >= |classes| then Err(UnknownClass)
      else Ok(ForecastStep(day, classes[k], p[..Min(|classes|, |p|)], p[k]))
  }

  /** A step fails on an empty output and on an arg-max past the known classes. Otherwise
      its confidence bounds every probability of the output, and the first class whose
      probability reaches it is the predicted class. */
  lemma StepOfSpec(classes: seq<Level>, p: seq<real>, day: int)
    ensures |p| == 0 ==> StepOf(classes, p, day) == Err(EmptyDistribution)
    ensures |p| > 0 ==> (StepOf(classes, p, day).Ok? <==> ArgMax(p) < |classes|)
    ensures StepOf(classes, p, day).Ok? ==>
      var s := StepOf(classes, p, day).value;
      && s.day == day
      && (forall j :: 0 <= j < |p| ==> p[j] <= s.confidence)
      && |s.probabilities| == Min(|classes|, |p|)
      && (forall j :: 0 <= j < |s.probabilities| ==> s.probabilities[j] == p[j])
      && exists k :: 0 <= k < |s.probabilities| && k < |classes| &&
           classes[k] == s.predicted && s.probabilities[k] == s.confidence &&
           (forall j :: 0 <= j < k ==> p[j] < s.confidence)
  {
    if |p| > 0 && ArgMax(p) < |classes| {
      var k := ArgMax(p);
      assert StepOf(classes, p, day).value.probabilities[k] == p[k];
    }
  }

  function Scale(row: Row, f: real): (r: Row)
    ensures |r| == |row|
    ensures forall i :: 0 <= i < |row| ==> r[i] == row[i] * f
  {
    seq(|row|, i requires 0 <= i < |row| => row[i] * f)
  }

  /** `np.roll(w, -1, axis=0)`: the oldest row moves to the end. */
  function RollLeft(w: Window): Window
    requires |w| > 0
  {
    w[1..] + [w[0]]
  }

  /** One window update: roll left, then overwrite the last row with the row before it
      scaled by `factor`. */
  function ShiftWindow(w: Window, factor: real): (r: Window)
    requires |w| >= 2
    ensures |r| == |w|
  {
    var rolled := RollLeft(w);
    rolled[|w| - 1 := Scale(rolled[|w| - 2], factor)]
  }

  /** The updated window drops its oldest row, keeps the others in order, and ends with
      its previous newest row scaled. */
  lemma ShiftWindowSpec(w: Window, factor: real)
    requires |w| >= 2
    ensures forall i :: 0 <= i < |w| - 1 ==> ShiftWindow(w, factor)[i] == w[i + 1]
    ensures ShiftWindow(w, factor)[|w| - 1] == Scale(w[|w| - 1], factor)
  {
  }

  /** The multiplicative jitter `0.9 + u * 0.2` for a uniform draw `u` in [0, 1). */
  function JitterFactor(u: real): (f: real)
    ensures 0.0 <= u < 1.0 ==> 0.9 <= f < 1.1
  {
    0.9 + u * 0.2
  }

  /** `tail(n)` of a table, `[-n:]` of an array, for `n > 0`. */
  function LastN<T>(s: seq<T>, n: nat): (r: seq<T>)
    requires n > 0
    ensures |r| == Min(|s|, n)
    ensures r == s[|s| - |r|..]
  {
    if |s| > n then s[|s| - n..] else s
  }

  /** The first window: the last `2W` rows are scaled, and the last `W` of those kept. */
  function SeedWindow(history: seq<Row>): (w: Window)
    ensures |history| >= SequenceLength ==> w == history[|history| - SequenceLength..]
    ensures |history| < SequenceLength ==> w == history
  {
    LastN(LastN(history, 2 * SequenceLength), SequenceLength)
  }

  /** The window the classifier reads on the `k`-th step (counting from 0), for the
      reference definition of the forecast. */
  function WindowAt(seed: Window, draw: nat -> real, k: nat): (w: Window)
    requires |seed| >= 2
    ensures |w| == |seed|
  {
    if k == 0 then seed
    else ShiftWindow(WindowAt(seed, draw, k - 1), JitterFactor(draw(k - 1)))
  }

  /** Steps `day + 1 .. n` of the forecast, from window `w`; `draw(d)` is the uniform draw
      of step `d`. Any failing step fails the whole forecast. */
  function Rollout(predict: Predictor, classes: seq<Level>, w: Window, draw: nat -> real,
                   day: nat, n: nat): Result<seq<ForecastStep>, ForecastError>
    decreases n - day
  {
    if day >= n then Ok([])
    else if |w| != SequenceLength then Err(InsufficientHistory)
    else
      var first := StepOf(classes, predict(w), day + 1);
      if first.Err? then Err(first.error)
      else
        var rest := Rollout(predict, classes, ShiftWindow(w, JitterFactor(draw(day))), draw, day + 1, n);
        if rest.Err? then rest else Ok([first.value] + rest.value)
  }

  /** Every step of the forecast reads a valid classifier output. */
  ghost predicate AllStepsValid(predict: Predictor, classes: seq<Level>, seed: Window,
                                draw: nat -> real, day: nat, n: nat)
    requires |seed| >= 2
  {
    forall i :: day <= i < n ==> StepOf(classes, predict(WindowAt(seed, draw, i)), i + 1).Ok?
  }

  /** The rollout from step `day` succeeds exactly when every remaining step reads a valid
      output. */
  lemma {:induction false} RolloutOk(predict: Predictor, classes: seq<Level>, seed: Window,
                                     draw: nat -> real, day: nat, n: nat)
    requires |seed| == SequenceLength
    ensures Rollout(predict, classes, WindowAt(seed, draw, day), draw, day, n).Ok? <==>
      AllStepsValid(predict, classes, seed, draw, day, n)
    decreases n - day
  {
    if day < n {
      var w := WindowAt(seed, draw, day);
      var next := WindowAt(seed, draw, day + 1);
      assert next == ShiftWindow(w, JitterFactor(draw(day)));
      RolloutOk(predict, classes, seed, draw, day + 1, n);
      var first := StepOf(classes, predict(w), day + 1);
      var rest := Rollout(predict, classes, next, draw, day + 1, n);
      assert Rollout(predict, classes, w, draw, day, n).Ok? <==> first.Ok? && rest.Ok?;
      assert AllStepsValid(predict, classes, seed, draw, day, n) <==>
        first.Ok? && AllStepsValid(predict, classes, seed, draw, day + 1, n);
    }
  }


  /** A successful rollout from step `day` holds one step per remaining day. */
  lemma {:induction false} RolloutLength(predict: Predictor, classes: seq<Level>, w: Window,
                                         draw: nat -> real, day: nat, n: nat)
    requires Rollout(predict, classes, w, draw, day, n).Ok?
    ensures |Rollout(predict, classes, w, draw, day, n).value| == (if day <= n then n - day else 0)
    decreases n - day
  {
    if day < n {
      RolloutLength(predict, classes, ShiftWindow(w, JitterFactor(draw(day))), draw, day + 1, n);
    }
  }

  /** A successful rollout from a step before the last is the record of the current
      window followed by the successful rollout from the next window. */
  lemma RolloutUnfold(predict: Predictor, classes: seq<Level>, w: Window, draw: nat -> real,
                      day: nat, n: nat)
    requires Rollout(predict, classes, w, draw, day, n).Ok?
    requires day < n
    ensures |w| == SequenceLength
    ensures StepOf(classes, predict(w), day + 1).Ok?
    ensures Rollout(predict, classes, ShiftWindow(w, JitterFactor(draw(day))), draw, day + 1, n).Ok?
    ensures Rollout(predict, classes, w, draw, day, n).value ==
      [StepOf(classes, predict(w), day + 1).value] +
      Rollout(predict, classes, ShiftWindow(w, JitterFactor(draw(day))), draw, day + 1, n).value
  {
  }

  /** Step `i` of a successful rollout from step `day` is the record of what the
      classifier says of window `day + i`. */
  lemma {:induction false} RolloutAt(predict: Predictor, classes: seq<Level>, seed: Window,
                                     draw: nat -> real, day: nat, n: nat, i: nat)
    requires |seed| == SequenceLength
    requires Rollout(predict, classes, WindowAt(seed, draw, day), draw, day, n).Ok?
    requires day + i < n
    ensures StepOf(classes, predict(WindowAt(seed, draw, day + i)), day + i + 1).Ok?
    ensures i < |Rollout(predict, classes, WindowAt(seed, draw, day), draw, day, n).value|
    ensures Rollout(predict, classes, WindowAt(seed, draw, day), draw, day, n).value[i] ==
        StepOf(classes, predict(WindowAt(seed, draw, day + i)), day + i + 1).value
    decreases n - day
  {
    var w := WindowAt(seed, draw, day);
    var next := WindowAt(seed, draw, day + 1);
    RolloutUnfold(predict, classes, w, draw, day, n);
    assert next == ShiftWindow(w, JitterFactor(draw(day)));
    var rest := Rollout(predict, classes, next, draw, day + 1, n).value;
    assert Rollout(predict, classes, w, draw, day, n).value ==
      [StepOf(classes, predict(w), day + 1).value] + rest;
    if i == 0 {
      assert WindowAt(seed, draw, day + i) == w;
    } else {
      RolloutAt(predict, classes, seed, draw, day + 1, n, i - 1);
      assert WindowAt(seed, draw, day + 1 + (i - 1)) == WindowAt(seed, draw, day + i);
      assert Rollout(predict, classes, w, draw, day, n).value[i] == rest[i - 1];
    }
  }

  /** A seven-row window fits the classifier but any fewer rows do not. */
  lemma ShortWindowFails(predict: Predictor, classes: seq<Level>, w: Window, draw: nat -> real, n: nat)
    requires |w| < SequenceLength && n > 0
    ensures Rollout(predict, classes, w, draw, 0, n) == Err(InsufficientHistory)
  {
  }

  /** The number of days a forecast for `daysAhead` holds: none when it is not positive. */
  function Horizon(daysAhead: int): nat
  {
    if daysAhead > 0 then daysAhead else 0
  }

  /** The forecast of one district for `daysAhead` days, from the rows of its history. */
  function PredictFloodRisk(model: Option<Predictor>, classes: seq<Level>,
                            history: Option<seq<Row>>, daysAhead: int,
                            draw: nat -> real): Result<seq<ForecastStep>, ForecastError>
  {
    if model.None? then Err(ModelNotLoaded)
    else if history.None? then Err(UnknownDistrict)
    else if |history.value| == 0 then Err(NoHistory)
    else Rollout(model.value, classes, SeedWindow(history.value), draw, 0, Horizon(daysAhead))
  }

  /** The forecast fails without a model, without a scaler, and on an empty history; with
      fewer than seven rows it fails as soon as a day is asked for. */
  lemma PredictFloodRiskErrors(model: Option<Predictor>, classes: seq<Level>,
                               history: Option<seq<Row>>, daysAhead: int, draw: nat -> real)
    ensures var r := PredictFloodRisk(model, classes, history, daysAhead, draw);
      && (model.None? ==> r == Err(ModelNotLoaded))
      && (model.Some? && history.None? ==> r == Err(UnknownDistrict))
      && (model.Some? && history == Some([]) ==> r == Err(NoHistory))
      && (model.Some? && history.Some? && 0 < |history.value| < SequenceLength && daysAhead > 0 ==>
            r == Err(InsufficientHistory))
  {
  }

  /** With a model and at least seven rows of history the forecast succeeds exactly when
      every day's classifier output is valid. */
  lemma PredictFloodRiskOk(model: Option<Predictor>, classes: seq<Level>,
                           history: Option<seq<Row>>, daysAhead: int, draw: nat -> real)
    requires model.Some? && history.Some? && |history.value| >= SequenceLength
    ensures PredictFloodRisk(model, classes, history, daysAhead, draw).Ok? <==>
      AllStepsValid(model.value, classes, SeedWindow(history.value), draw, 0, Horizon(daysAhead))
  {
    RolloutOk(model.value, classes, SeedWindow(history.value), draw, 0, Horizon(daysAhead));
  }

  /** A successful forecast holds one step per day, numbered 1 to `daysAhead`. */
  lemma PredictFloodRiskLength(model: Option<Predictor>, classes: seq<Level>,
                               history: Option<seq<Row>>, daysAhead: int, draw: nat -> real)
    requires PredictFloodRisk(model, classes, history, daysAhead, draw).Ok?
    ensures |PredictFloodRisk(model, classes, history, daysAhead, draw).value| == Horizon(daysAhead)
    ensures daysAhead > 0 ==>
      model.Some? && history.Some? && |history.value| >= SequenceLength
  {
    RolloutLength(model.value, classes, SeedWindow(history.value), draw, 0, Horizon(daysAhead));
  }

  /** Day `i + 1` of a successful forecast is the record of what the classifier says of
      that day's window, which starts as the last seven rows of the history and moves one
      jittered row per day. */
  lemma {:induction false} PredictFloodRiskSteps(model: Option<Predictor>, classes: seq<Level>,
                              history: Option<seq<Row>>, daysAhead: int, draw: nat -> real, i: nat)
    requires PredictFloodRisk(model, classes, history, daysAhead, draw).Ok?
    requires i < Horizon(daysAhead)
    ensures model.Some? && history.Some? && |history.value| >= SequenceLength
    ensures |PredictFloodRisk(model, classes, history, daysAhead, draw).value| == Horizon(daysAhead)
    ensures var p := model.value(WindowAt(SeedWindow(history.value), draw, i));
      && StepOf(classes, p, i + 1).Ok?
      && PredictFloodRisk(model, classes, history, daysAhead, draw).value[i] == StepOf(classes, p, i + 1).value
      && PredictFloodRisk(model, classes, history, daysAhead, draw).value[i].day == i + 1
  {
    PredictFloodRiskIsRollout(model, classes, history, daysAhead, draw);
    RolloutAtZero(model.value, classes, SeedWindow(history.value), draw, Horizon(daysAhead), i);
  }

  /** `RolloutAt` from the first day. */
  lemma RolloutAtZero(predict: Predictor, classes: seq<Level>, seed: Window, draw: nat -> real,
                      n: nat, i: nat)
    requires |seed| == SequenceLength
    requires Rollout(predict, classes, WindowAt(seed, draw, 0), draw, 0, n).Ok?
    requires i < n
    ensures |Rollout(predict, classes, WindowAt(seed, draw, 0), draw, 0, n).value| == n
    ensures StepOf(classes, predict(WindowAt(seed, draw, i)), i + 1).Ok?
    ensures Rollout(predict, classes, WindowAt(seed, draw, 0), draw, 0, n).value[i] ==
        StepOf(classes, predict(WindowAt(seed, draw, i)), i + 1).value
  {
    RolloutLength(predict, classes, WindowAt(seed, draw, 0), draw, 0, n);
    RolloutAt(predict, classes, seed, draw, 0, n, i);
  }

  lemma PredictFloodRiskIsRollout(model: Option<Predictor>, classes: seq<Level>,
                                  history: Option<seq<Row>>, daysAhead: int, draw: nat -> real)
    requires PredictFloodRisk(model, classes, history, daysAhead, draw).Ok?
    requires daysAhead > 0
    ensures model.Some? && history.Some? && |history.value| >= SequenceLength
    ensures PredictFloodRisk(model, classes, history, daysAhead, draw) ==
      Rollout(model.value, classes, WindowAt(SeedWindow(history.value), draw, 0), draw, 0, Horizon(daysAhead))
  {
    PredictFloodRiskLength(model, classes, history, daysAhead, draw);
  }

  /** `predict_flood_risk` of the system for one district; `draw(d, k)` is the uniform
      draw of step `k` of district `d`. */
  function ForecastFor(sys: System, district: string, daysAhead: int,
                       draw: (string, nat) -> real): Result<seq<ForecastStep>, ForecastError>
  {
    var history := if district in sys.histories then Some(sys.histories[district]) else None;
    PredictFloodRisk(sys.model, sys.classes, history, daysAhead, (k: nat) => draw(district, k))
  }

  /** The confidence of step `s` is the largest of its probabilities and sits at the slot
      of its predicted class. */
  predicate CarriesMaximum(classes: seq<Level>, s: ForecastStep)
  {
    && (forall j :: 0 <= j < |s.probabilities| ==> s.probabilities[j] <= s.confidence)
    && (exists k :: 0 <= k < |s.probabilities| && k < |classes| &&
          classes[k] == s.predicted && s.probabilities[k] == s.confidence)
  }

  /** Every forecast step carries a confidence that is the largest probability of its
      output and sits at the slot of its predicted class. */
  lemma {:induction false} StepsCarryTheirMaximum(sys: System, district: string, daysAhead: int,
                               draw: (string, nat) -> real)
    requires ForecastFor(sys, district, daysAhead, draw).Ok?
    ensures var steps := ForecastFor(sys, district, daysAhead, draw).value;
      forall i :: 0 <= i < |steps| ==> CarriesMaximum(sys.classes, steps[i])
  {
    var steps := ForecastFor(sys, district, daysAhead, draw).value;
    var history := if district in sys.histories then Some(sys.histories[district]) else None;
    var dr := (k: nat) => draw(district, k);
    PredictFloodRiskLength(sys.model, sys.classes, history, daysAhead, dr);
    forall i | 0 <= i < |steps|
      ensures CarriesMaximum(sys.classes, steps[i])
    {
      PredictFloodRiskSteps(sys.model, sys.classes, history, daysAhead, dr, i);
      var p := sys.model.value(WindowAt(SeedWindow(history.value), dr, i));
      StepOfSpec(sys.classes, p, i + 1);
    }
  }

  // ---------------------------------------------------------------------------
  // Training sequences

  /** One processed row of a district with its encoded alert level. */
  datatype Sample = Sample(features: Row, target: nat)

  /** The sliding-window split: pair `k` holds the `w` rows starting at `k` and the encoded
      level of the row right after them. */
  method CreateSequences(data: seq<Sample>, w: nat) returns (xs: seq<Window>, ys: seq<nat>)
    ensures |xs| == |ys| == (if |data| > w then |data| - w else 0)
    ensures forall k :: 0 <= k < |xs| ==>
      |xs[k]| == w && forall j :: 0 <= j < w ==> xs[k][j] == data[k + j].features
    ensures forall k :: 0 <= k < |ys| ==> ys[k] == data[k + w].target
  {
    xs, ys := [], [];
    var i := w;
    while i < |data|
      invariant w <= i
      invariant i == w || i <= |data|
      invariant |xs| == |ys| == i - w
      invariant forall k :: 0 <= k < |xs| ==>
        |xs[k]| == w && forall j :: 0 <= j < w ==> xs[k][j] == data[k + j].features
      invariant forall k :: 0 <= k < |ys| ==> ys[k] == data[k + w].target
    {
      var x := seq(w, j requires 0 <= j < w => data[i - w + j].features);
      xs := xs + [x];
      ys := ys + [data[i].target];
      i := i + 1;
    }
  }

  // ---------------------------------------------------------------------------
  // Geo-tagged alerts

  datatype GeoAlert = GeoAlert(district: string, latitude: real, longitude: real, day: int,
                               level: Level, confidence: real, probabilities: seq<real>,
                               timestamp: int)

  /** `xs` lists some of the elements of `ys`, in the order `ys` lists them. */
  predicate Subsequence<T(==)>(xs: seq<T>, ys: seq<T>)
    decreases |ys|
  {
    if |xs| == 0 then true
    else if |ys| == 0 then false
    else (xs[0] == ys[0] && Subsequence(xs[1..], ys[1..])) || Subsequence(xs, ys[1..])
  }

  /** A step worth a geo-tagged alert: Orange or Red, strictly above the bar. */
  predicate HighRisk(s: ForecastStep, threshold: real)
  {
    HighSeverity(s.predicted) && s.confidence > threshold
  }

  function ToGeoAlert(district: string, coords: (real, real), s: ForecastStep, now: int): GeoAlert
  {
    GeoAlert(district, coords.0, coords.1, s.day, s.predicted, s.confidence, s.probabilities, now)
  }

  function HighRiskAlerts(district: string, coords: (real, real), steps: seq<ForecastStep>,
                          threshold: real, now: int): (r: seq<GeoAlert>)
    ensures forall a :: a in r <==> exists s :: s in steps && HighRisk(s, threshold) &&
                                       a == ToGeoAlert(district, coords, s, now)
    decreases |steps|
  {
    if |steps| == 0 then []
    else
      var rest := HighRiskAlerts(district, coords, steps[1..], threshold, now);
      assert forall s :: s in steps[1..] ==> s in steps;
      assert forall s :: s in steps ==> s == steps[0] || s in steps[1..];
      if HighRisk(steps[0], threshold) then [ToGeoAlert(district, coords, steps[0], now)] + rest
      else rest
  }

  /** The forecast of each district as the geo-tagging reads it. */
  type Forecaster = string -> Result<seq<ForecastStep>, ForecastError>

  /** The alerts of one district; a failing forecast or a missing coordinate lookup
      yields none. */
  function DistrictGeoAlerts(forecast: Forecaster, coordinates: map<string, (real, real)>,
                             district: string, threshold: real, now: int): seq<GeoAlert>
  {
    match forecast(district)
    case Err(_) => []
    case Ok(steps) =>
      if district !in coordinates then []
      else HighRiskAlerts(district, coordinates[district], steps, threshold, now)
  }

  function GeoAlertsFor(forecast: Forecaster, coordinates: map<string, (real, real)>,
                        districts: seq<string>, threshold: real, now: int): seq<GeoAlert>
    decreases |districts|
  {
    if |districts| == 0 then []
    else DistrictGeoAlerts(forecast, coordinates, districts[0], threshold, now) +
         GeoAlertsFor(forecast, coordinates, districts[1..], threshold, now)
  }

  /** Every district forecast three days ahead. */
  function GeoForecaster(sys: System, draw: (string, nat) -> real): Forecaster
  {
    (d: string) => ForecastFor(sys, d, PassHorizon, draw)
  }

  /** `generate_geo_tagged_alerts`: every district of the system is forecast three days
      ahead and its Orange and Red steps above the bar become alerts. */
  function GenerateGeoTaggedAlerts(sys: System, threshold: real, draw: (string, nat) -> real,
                                   now: int): seq<GeoAlert>
  {
    GeoAlertsFor(GeoForecaster(sys, draw), sys.coordinates, sys.districts, threshold, now)
  }

  lemma {:induction false} GeoAlertsMembers(forecast: Forecaster, coordinates: map<string, (real, real)>,
                                            districts: seq<string>, threshold: real, now: int,
                                            a: GeoAlert)
    ensures a in GeoAlertsFor(forecast, coordinates, districts, threshold, now) <==>
      exists i :: 0 <= i < |districts| &&
        a in DistrictGeoAlerts(forecast, coordinates, districts[i], threshold, now)
    decreases |districts|
  {
    if |districts| > 0 {
      GeoAlertsMembers(forecast, coordinates, districts[1..], threshold, now, a);
      var head := DistrictGeoAlerts(forecast, coordinates, districts[0], threshold, now);
      var tail := GeoAlertsFor(forecast, coordinates, districts[1..], threshold, now);
      assert GeoAlertsFor(forecast, coordinates, districts, threshold, now) == head + tail;
      if a in tail {
        var i :| 0 <= i < |districts[1..]| &&
          a in DistrictGeoAlerts(forecast, coordinates, districts[1..][i], threshold, now);
        assert districts[1..][i] == districts[i + 1];
      }
      if exists i :: 0 <= i < |districts| &&
           a in DistrictGeoAlerts(forecast, coordinates, districts[i], threshold, now) {
        var i :| 0 <= i < |districts| &&
          a in DistrictGeoAlerts(forecast, coordinates, districts[i], threshold, now);
        if i > 0 {
          assert districts[1..][i - 1] == districts[i];
        }
      }
    }
  }

  /** Every geo-tagged alert is an Orange or Red step strictly above the bar of a district
      of the system, stamped now and carrying the step's day, level and confidence and the
      district's coordinates; and every such step of every district whose forecast and
      coordinate lookup succeed yields an alert. */
  lemma GeoTaggedAlertsSpec(sys: System, threshold: real, draw: (string, nat) -> real, now: int,
                            a: GeoAlert)
    ensures a in GenerateGeoTaggedAlerts(sys, threshold, draw, now) <==>
      exists i :: 0 <= i < |sys.districts| &&
        ForecastFor(sys, sys.districts[i], PassHorizon, draw).Ok? &&
        sys.districts[i] in sys.coordinates &&
        exists s :: s in ForecastFor(sys, sys.districts[i], PassHorizon, draw).value &&
          HighRisk(s, threshold) &&
          a == ToGeoAlert(sys.districts[i], sys.coordinates[sys.districts[i]], s, now)
    ensures a in GenerateGeoTaggedAlerts(sys, threshold, draw, now) ==>
      HighSeverity(a.level) && a.confidence > threshold && a.timestamp == now
  {
    GeoAlertsMembers(GeoForecaster(sys, draw), sys.coordinates, sys.districts, threshold, now, a);
  }

  lemma {:induction false} GeoAlertsConcat(forecast: Forecaster, coordinates: map<string, (real, real)>,
                                           a: seq<string>, b: seq<string>, threshold: real, now: int)
    ensures GeoAlertsFor(forecast, coordinates, a + b, threshold, now) ==
      GeoAlertsFor(forecast, coordinates, a, threshold, now) +
      GeoAlertsFor(forecast, coordinates, b, threshold, now)
    decreases |a|
  {
    if |a| > 0 {
      assert (a + b)[1..] == a[1..] + b;
      GeoAlertsConcat(forecast, coordinates, a[1..], b, threshold, now);
    } else {
      assert a + b == b;
    }
  }

  /** A district whose forecast fails is skipped and the others are still alerted on. */
  lemma FailingDistrictSkipped(sys: System, before: seq<string>, d: string, after: seq<string>,
                               threshold: real, draw: (string, nat) -> real, now: int)
    requires ForecastFor(sys, d, PassHorizon, draw).Err?
    ensures var forecast := GeoForecaster(sys, draw);
      GeoAlertsFor(forecast, sys.coordinates, before + [d] + after, threshold, now) ==
      GeoAlertsFor(forecast, sys.coordinates, before, threshold, now) +
      GeoAlertsFor(forecast, sys.coordinates, after, threshold, now)
  {
    var forecast := GeoForecaster(sys, draw);
    GeoAlertsConcat(forecast, sys.coordinates, before + [d], after, threshold, now);
    GeoAlertsConcat(forecast, sys.coordinates, before, [d], threshold, now);
    FailingDistrictEmpty(sys, d, threshold, draw, now);
    var pre := GeoAlertsFor(forecast, sys.coordinates, before, threshold, now);
    assert GeoAlertsFor(forecast, sys.coordinates, before + [d], threshold, now) == pre + [] == pre;
  }

  lemma FailingDistrictEmpty(sys: System, d: string, threshold: real, draw: (string, nat) -> real, now: int)
    requires ForecastFor(sys, d, PassHorizon, draw).Err?
    ensures GeoAlertsFor(GeoForecaster(sys, draw), sys.coordinates, [d], threshold, now) == []
  {
    assert [d][1..] == [];
    assert GeoForecaster(sys, draw)(d).Err?;
  }

  /** Every step of a forecast, as a geo-tagged alert. */
  function StepGeoAlerts(district: string, coords: (real, real), steps: seq<ForecastStep>,
                         now: int): seq<GeoAlert>
  {
    seq(|steps|, i requires 0 <= i < |steps| => ToGeoAlert(district, coords, steps[i], now))
  }

  /** The alerts of a district come in the order of the steps they are made from. */
  lemma {:induction false} HighRiskAlertsInOrder(district: string, coords: (real, real),
                                                 steps: seq<ForecastStep>, threshold: real, now: int)
    ensures Subsequence(HighRiskAlerts(district, coords, steps, threshold, now),
                        StepGeoAlerts(district, coords, steps, now))
    decreases |steps|
  {
    if |steps| > 0 {
      HighRiskAlertsInOrder(district, coords, steps[1..], threshold, now);
      var all := StepGeoAlerts(district, coords, steps, now);
      assert all[1..] == StepGeoAlerts(district, coords, steps[1..], now);
    }
  }

  /** How many steps are worth an alert, counted from the last step back. */
  function CountHighRisk(steps: seq<ForecastStep>, threshold: real): (n: nat)
    ensures n <= |steps|
    decreases |steps|
  {
    if |steps| == 0 then 0
    else CountHighRisk(steps[..|steps| - 1], threshold) +
         (if HighRisk(steps[|steps| - 1], threshold) then 1 else 0)
  }

  lemma {:induction false} HighRiskAlertsSnoc(district: string, coords: (real, real),
                                              steps: seq<ForecastStep>, s: ForecastStep,
                                              threshold: real, now: int)
    ensures HighRiskAlerts(district, coords, steps + [s], threshold, now) ==
      HighRiskAlerts(district, coords, steps, threshold, now) +
      (if HighRisk(s, threshold) then [ToGeoAlert(district, coords, s, now)] else [])
    decreases |steps|
  {
    if |steps| == 0 {
      assert steps + [s] == [s];
      assert [s][1..] == [];
    } else {
      assert (steps + [s])[1..] == steps[1..] + [s];
      HighRiskAlertsSnoc(district, coords, steps[1..], s, threshold, now);
    }
  }

  /** One alert per qualifying step: no step is dropped and none is repeated. */
  lemma {:induction false} HighRiskAlertsCount(district: string, coords: (real, real),
                                               steps: seq<ForecastStep>, threshold: real, now: int)
    ensures |HighRiskAlerts(district, coords, steps, threshold, now)| == CountHighRisk(steps, threshold)
    decreases |steps|
  {
    if |steps| > 0 {
      var init := steps[..|steps| - 1];
      HighRiskAlertsCount(district, coords, init, threshold, now);
      assert steps == init + [steps[|steps| - 1]];
      HighRiskAlertsSnoc(district, coords, init, steps[|steps| - 1], threshold, now);
    }
  }

  /** The alerts one district contributes: none when its forecast or its coordinate lookup
      fails, one per qualifying step otherwise. */
  function DistrictAlertCount(forecast: Forecaster, coordinates: map<string, (real, real)>,
                              district: string, threshold: real): nat
  {
    match forecast(district)
    case Err(_) => 0
    case Ok(steps) => if district !in coordinates then 0 else CountHighRisk(steps, threshold)
  }

  /** The alerts a list of districts contributes, summed from the last district back. */
  function GeoAlertCount(forecast: Forecaster, coordinates: map<string, (real, real)>,
                         districts: seq<string>, threshold: real): nat
    decreases |districts|
  {
    if |districts| == 0 then 0
    else GeoAlertCount(forecast, coordinates, districts[..|districts| - 1], threshold) +
         DistrictAlertCount(forecast, coordinates, districts[|districts| - 1], threshold)
  }

  lemma DistrictGeoAlertsCount(forecast: Forecaster, coordinates: map<string, (real, real)>,
                               d: string, threshold: real, now: int)
    ensures |GeoAlertsFor(forecast, coordinates, [d], threshold, now)| ==
      DistrictAlertCount(forecast, coordinates, d, threshold)
  {
    assert [d][1..] == [];
    match forecast(d)
    case Err(_) =>
    case Ok(steps) =>
      if d in coordinates {
        HighRiskAlertsCount(d, coordinates[d], steps, threshold, now);
      }
  }

  /** The whole batch holds exactly one alert per qualifying step of every district whose
      forecast and coordinate lookup succeed. */
  lemma {:induction false} GeoAlertsCount(forecast: Forecaster, coordinates: map<string, (real, real)>,
                                          districts: seq<string>, threshold: real, now: int)
    ensures |GeoAlertsFor(forecast, coordinates, districts, threshold, now)| ==
      GeoAlertCount(forecast, coordinates, districts, threshold)
    decreases |districts|
  {
    if |districts| > 0 {
      var init := districts[..|districts| - 1];
      var d := districts[|districts| - 1];
      assert districts == init + [d];
      GeoAlertsCount(forecast, coordinates, init, threshold, now);
      GeoAlertsConcat(forecast, coordinates, init, [d], threshold, now);
      DistrictGeoAlertsCount(forecast, coordinates, d, threshold, now);
    }
  }

  /** With the default bar every geo-tagged alert is above 0.7, so it would also pass the
      alert system's per-level threshold. */
  lemma DefaultGeoAlertsQualify(sys: System, draw: (string, nat) -> real, now: int, a: GeoAlert)
    ensures a in GenerateGeoTaggedAlerts(sys, GeoAlertThreshold, draw, now) ==>
      a.confidence > 0.7 && MeetsThreshold(a.level, a.confidence)
  {
    GeoTaggedAlertsSpec(sys, GeoAlertThreshold, draw, now, a);
  }
}
