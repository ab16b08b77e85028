/** Per-district feature construction: calendar flags, one-day lags, one-day changes and
    three-day means of the two readings, after which incomplete rows are dropped. */
module Features {
  import opened Results
  import GroundTruth

  /** One day of one district's history, sorted by date. */
  datatype Observation = Observation(date: int, dayOfYear: int, month: int,
                                     waterLevel: real, precipitation: real)

  /** 1 for the monsoon months June to September, 0 otherwise. */
  function IsMonsoon(month: int): (flag: int)
    ensures flag == 0 || flag == 1
    ensures flag == 1 <==> 6 <= month <= 9
  {
    if month in {6, 7, 8, 9} then 1 else 0
  }

  /** The generator's wet months all carry the monsoon flag; September carries the
      flag although its rainfall draw has the dry-season mean. */
  lemma WetMonthsAreMonsoon(month: int)
    ensures GroundTruth.MeanPrecipitation(month) == 180.0 ==> IsMonsoon(month) == 1
    ensures IsMonsoon(9) == 1 && GroundTruth.MeanPrecipitation(9) == 120.0
  {
  }

  /** `shift(1)` at position `i`: missing on the first row. */
  function Lag1(v: seq<real>, i: nat): Option<real>
    requires i < |v|
  {
    if i >= 1 then Some(v[i - 1]) else None
  }

  /** `diff()` at position `i`: missing on the first row. */
  function Change(v: seq<real>, i: nat): Option<real>
    requires i < |v|
  {
    if i >= 1 then Some(v[i] - v[i - 1]) else None
  }

  /** `rolling(3).mean()` at position `i`: missing on the first two rows. */
  function Mean3(v: seq<real>, i: nat): Option<real>
    requires i < |v|
  {
    if i >= 2 then Some((v[i - 2] + v[i - 1] + v[i]) / 3.0) else None
  }

  /** A row before `dropna`: the derived columns may be missing. */
  datatype PartialRow = PartialRow(obs: Observation, isMonsoon: int,
                                   waterLevelMa3: Option<real>, precipitationMa3: Option<real>,
                                   waterLevelLag1: Option<real>, precipitationLag1: Option<real>,
                                   waterLevelChange: Option<real>, precipitationChange: Option<real>)

  /** A complete row, with the eleven model features. */
  datatype FeatureRow = FeatureRow(date: int, waterLevel: real, precipitation: real,
                                   dayOfYear: int, month: int, isMonsoon: int,
                                   waterLevelMa3: real, precipitationMa3: real,
                                   waterLevelLag1: real, precipitationLag1: real,
                                   waterLevelChange: real, precipitationChange: real)

  function WaterLevels(obs: seq<Observation>): (v: seq<real>)
    ensures |v| == |obs|
  {
    seq(|obs|, i requires 0 <= i < |obs| => obs[i].waterLevel)
  }

  function Rainfall(obs: seq<Observation>): (v: seq<real>)
    ensures |v| == |obs|
  {
    seq(|obs|, i requires 0 <= i < |obs| => obs[i].precipitation)
  }

  /** The derived columns of every row, before incomplete rows are dropped. */
  function WithFeatures(obs: seq<Observation>): (rows: seq<PartialRow>)
    ensures |rows| == |obs|
  {
    var wl := WaterLevels(obs);
    var pr := Rainfall(obs);
    seq(|obs|, i requires 0 <= i < |obs| =>
      PartialRow(obs[i], IsMonsoon(obs[i].month),
                 Mean3(wl, i), Mean3(pr, i), Lag1(wl, i), Lag1(pr, i),
                 Change(wl, i), Change(pr, i)))
  }

  predicate Complete(r: PartialRow)
  {
    r.waterLevelMa3.Some? && r.precipitationMa3.Some? &&
    r.waterLevelLag1.Some? && r.precipitationLag1.Some? &&
    r.waterLevelChange.Some? && r.precipitationChange.Some?
  }

  function Fill(r: PartialRow): FeatureRow
    requires Complete(r)
  {
    FeatureRow(r.obs.date, r.obs.waterLevel, r.obs.precipitation, r.obs.dayOfYear,
               r.obs.month, r.isMonsoon,
               r.waterLevelMa3.value, r.precipitationMa3.value,
               r.waterLevelLag1.value, r.precipitationLag1.value,
               r.waterLevelChange.value, r.precipitationChange.value)
  }

  /** `dropna()`: keeps the complete rows, in order. */
  function DropNa(rows: seq<PartialRow>): seq<FeatureRow>
    decreases |rows|
  {
    if |rows| == 0 then []
    else (if Complete(rows[0]) then [Fill(rows[0])] else []) + DropNa(rows[1..])
  }

  /** The processed history of one district. */
  function Preprocess(obs: seq<Observation>): seq<FeatureRow>
  {
    DropNa(WithFeatures(obs))
  }

  lemma {:induction false} DropNaComplete(rows: seq<PartialRow>)
    requires forall i :: 0 <= i < |rows| ==> Complete(rows[i])
    ensures |DropNa(rows)| == |rows|
    ensures forall i :: 0 <= i < |rows| ==> DropNa(rows)[i] == Fill(rows[i])
    decreases |rows|
  {
    if |rows| > 0 {
      DropNaComplete(rows[1..]);
    }
  }

  /** A row is complete exactly when it has two predecessors. */
  lemma CompleteFromThirdRow(obs: seq<Observation>, i: nat)
    requires i < |obs|
    ensures Complete(WithFeatures(obs)[i]) <==> i >= 2
  {
  }

  /** Preprocessing drops exactly the first two days; every kept row is the observation two
      places further on, its lag is the previous day's reading, its change the difference
      from the previous day, its mean the mean of the last three days, and its monsoon
      flag follows its month. */
  lemma PreprocessShape(obs: seq<Observation>)
    ensures |Preprocess(obs)| == if |obs| >= 2 then |obs| - 2 else 0
    ensures forall j :: 0 <= j < |Preprocess(obs)| ==>
      var r := Preprocess(obs)[j];
      && r.date == obs[j + 2].date
      && r.waterLevel == obs[j + 2].waterLevel
      && r.precipitation == obs[j + 2].precipitation
      && r.isMonsoon == IsMonsoon(obs[j + 2].month)
      && r.waterLevelLag1 == obs[j + 1].waterLevel
      && r.precipitationLag1 == obs[j + 1].precipitation
      && r.waterLevelChange == obs[j + 2].waterLevel - obs[j + 1].waterLevel
      && r.precipitationChange == obs[j + 2].precipitation - obs[j + 1].precipitation
      && r.waterLevelMa3 == (obs[j].waterLevel + obs[j + 1].waterLevel + obs[j + 2].waterLevel) / 3.0
      && r.precipitationMa3 == (obs[j].precipitation + obs[j + 1].precipitation + obs[j + 2].precipitation) / 3.0
  {
    var rows := WithFeatures(obs);
    if |obs| <= 2 {
      forall i | 0 <= i < |rows|
        ensures !Complete(rows[i])
      {
        CompleteFromThirdRow(obs, i);
      }
      if |obs| == 2 {
        assert DropNa(rows) == DropNa(rows[1..]);
        assert rows[1..][1..] == [];
      } else if |obs| == 1 {
        assert rows[1..] == [];
      }
    } else {
      assert !Complete(rows[0]) && !Complete(rows[1]);
      assert DropNa(rows) == DropNa(rows[1..]);
      assert DropNa(rows[1..]) == DropNa(rows[1..][1..]);
      assert rows[1..][1..] == rows[2..];
      forall i | 0 <= i < |rows[2..]|
        ensures Complete(rows[2..][i])
      {
        CompleteFromThirdRow(obs, i + 2);
      }
      DropNaComplete(rows[2..]);
    }
  }

  /** Number of model features per row. */
  const FeatureCount: nat := 11

  /** A processed row as the model sees it, columns in the training order: water level,
      rainfall, day of year, month, monsoon flag, the two means, the two lags and the two
      changes. */
  function Vector(r: FeatureRow): (v: seq<real>)
    ensures |v| == FeatureCount
  {
    [r.waterLevel, r.precipitation, r.dayOfYear as real, r.month as real,
     r.isMonsoon as real, r.waterLevelMa3, r.precipitationMa3,
     r.waterLevelLag1, r.precipitationLag1, r.waterLevelChange, r.precipitationChange]
  }
}
