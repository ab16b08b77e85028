/** The synthetic ground-truth generator: the alert banding of one observation and the
    day-by-district loop that writes the training table. */
module GroundTruth {
  import opened Levels

  /** Alert level of one observation of water level `wl` (metres) and rainfall `pr` (mm).
      Red when either reading is extreme; Orange when both are high; Yellow otherwise. */
  function AlertFlag(wl: real, pr: real): (l: Level)
    ensures l == Red <==> wl >= 7.0 || pr >= 200.0
    ensures l == Orange <==> 5.0 <= wl < 7.0 && 150.0 <= pr < 200.0
    ensures l == Yellow <==> wl < 7.0 && pr < 200.0 && (wl < 5.0 || pr < 150.0)
    ensures l == Red || l == Orange || l == Yellow
  {
    if wl >= 7.0 || pr >= 200.0 then Red
    else if wl >= 5.0 && pr >= 150.0 then Orange
    else Yellow
  }

  /** Raising either reading never lowers the level. */
  lemma AlertFlagMonotone(wl: real, pr: real, wl': real, pr': real)
    requires wl <= wl' && pr <= pr'
    ensures Rank(AlertFlag(wl, pr)) <= Rank(AlertFlag(wl', pr'))
  {
  }

  /** The banding comment describes Yellow as `wl < 5 and pr < 150`; the code's Yellow
      band is wider: a 6 m river with 100 mm of rain is Yellow, though it meets neither
      half of that description. */
  lemma YellowWiderThanComment()
    ensures AlertFlag(6.0, 100.0) == Yellow
    ensures AlertFlag(4.0, 180.0) == Yellow
  {
  }

  /** A monitored district with its geotag. */
  datatype District = District(name: string, latitude: real, longitude: real)

  /** The fourteen districts, in the order the generator visits them. */
  const Geo: seq<District> := [
    District("Thiruvananthapuram", 8.5241, 76.9366),
    District("Kollam", 8.8932, 76.6141),
    District("Alappuzha", 9.4981, 76.3388),
    District("Kottayam", 9.5916, 76.5222),
    District("Ernakulam", 10.0827, 76.2711),
    District("Thrissur", 10.5276, 76.2144),
    District("Palakkad", 10.7867, 76.6548),
    District("Malappuram", 11.2588, 76.3183),
    District("Kozhikode", 11.2588, 75.7804),
    District("Wayanad", 11.6854, 76.1320),
    District("Kannur", 11.8745, 75.3704),
    District("Kasaragod", 12.4990, 75.0577),
    District("Pathanamthitta", 9.2646, 76.7874),
    District("Idukki", 9.8501, 77.0166)
  ]

  /** Typical water-level range (low, high) per district, in metres. */
  const LevelRanges: map<string, (real, real)> := map[
    "Thiruvananthapuram" := (2.5, 6.0),
    "Kollam" := (3.0, 7.0),
    "Alappuzha" := (2.0, 6.5),
    "Kottayam" := (2.0, 7.5),
    "Ernakulam" := (2.0, 8.0),
    "Thrissur" := (2.0, 8.0),
    "Palakkad" := (1.5, 6.0),
    "Malappuram" := (2.5, 8.5),
    "Kozhikode" := (2.5, 8.0),
    "Wayanad" := (3.0, 7.0),
    "Kannur" := (2.5, 7.5),
    "Kasaragod" := (2.3, 7.0),
    "Pathanamthitta" := (2.0, 7.0),
    "Idukki" := (2.5, 9.0)
  ]

  predicate DistinctNames(ds: seq<District>)
  {
    forall i, j :: 0 <= i < j < |ds| ==> ds[i].name != ds[j].name
  }

  /** Every geotagged district has a water-level range with low below high, so the range
      lookup in the generation loop never fails. */
  lemma GeoHasRanges()
    ensures |Geo| == 14
    ensures forall i :: 0 <= i < |Geo| ==> Geo[i].name in LevelRanges
    ensures forall i :: 0 <= i < |Geo| ==> LevelRanges[Geo[i].name].0 < LevelRanges[Geo[i].name].1
  {
    forall i | 0 <= i < |Geo|
      ensures Geo[i].name in LevelRanges && LevelRanges[Geo[i].name].0 < LevelRanges[Geo[i].name].1
    {
      if i < 7 { SouthernRanges(i); } else { NorthernRanges(i); }
    }
  }

  lemma SouthernRanges(i: nat)
    requires i < 7
    ensures Geo[i].name in LevelRanges && LevelRanges[Geo[i].name].0 < LevelRanges[Geo[i].name].1
  {
      if i == 0 { assert Geo[i].name == "Thiruvananthapuram"; }
      else if i == 1 { assert Geo[i].name == "Kollam"; }
      else if i == 2 { assert Geo[i].name == "Alappuzha"; }
      else if i == 3 { assert Geo[i].name == "Kottayam"; }
      else if i == 4 { assert Geo[i].name == "Ernakulam"; }
      else if i == 5 { assert Geo[i].name == "Thrissur"; }
      else { assert Geo[i].name == "Palakkad"; }
  }

  lemma NorthernRanges(i: nat)
    requires 7 <= i < 14
    ensures Geo[i].name in LevelRanges && LevelRanges[Geo[i].name].0 < LevelRanges[Geo[i].name].1
  {
      if i == 7 { assert Geo[i].name == "Malappuram"; }
      else if i == 8 { assert Geo[i].name == "Kozhikode"; }
      else if i == 9 { assert Geo[i].name == "Wayanad"; }
      else if i == 10 { assert Geo[i].name == "Kannur"; }
      else if i == 11 { assert Geo[i].name == "Kasaragod"; }
      else if i == 12 { assert Geo[i].name == "Pathanamthitta"; }
      else { assert Geo[i].name == "Idukki"; }
  }

  /** No district is listed twice: the first three letters already tell them apart. */
  lemma GeoNamesDistinct()
    ensures DistinctNames(Geo)
  {
    assert Geo[0].name[..3] == "Thi";
    assert Geo[1].name[..3] == "Kol";
    assert Geo[2].name[..3] == "Ala";
    assert Geo[3].name[..3] == "Kot";
    assert Geo[4].name[..3] == "Ern";
    assert Geo[5].name[..3] == "Thr";
    assert Geo[6].name[..3] == "Pal";
    assert Geo[7].name[..3] == "Mal";
    assert Geo[8].name[..3] == "Koz";
    assert Geo[9].name[..3] == "Way";
    assert Geo[10].name[..3] == "Kan";
    assert Geo[11].name[..3] == "Kas";
    assert Geo[12].name[..3] == "Pat";
    assert Geo[13].name[..3] == "Idu";
    forall i, j | 0 <= i < j < |Geo|
      ensures Geo[i].name != Geo[j].name
    {
      assert Geo[i].name[..3] != Geo[j].name[..3];
    }
  }

  /** Mean of the rainfall draw: wetter in June, July and August. */
  function MeanPrecipitation(month: int): (m: real)
    ensures m == 180.0 <==> 6 <= month <= 8
    ensures m == 120.0 <==> !(6 <= month <= 8)
  {
    if month in {6, 7, 8} then 180.0 else 120.0
  }

  /** One generated row of the training table. */
  datatype CsvRow = CsvRow(date: int, city: string, latitude: real, longitude: real,
                           waterLevel: real, precipitation: real, flag: Level)

  /** The random sources of the loop, as parameters. `level(low, high, date, city)` is the
      rounded uniform water-level draw over [low, high]; `rain(mean, date, city)` is the
      rounded Gaussian rainfall draw with standard deviation 40 around `mean`. */
  datatype Sampler = Sampler(level: (real, real, int, string) -> real,
                             rain: (real, int, string) -> real)

  /** A sampler whose water-level draws stay inside the range they were asked for. */
  ghost predicate LevelDrawsInRange(s: Sampler)
  {
    forall lo, hi, date, city :: lo <= hi ==> lo <= s.level(lo, hi, date, city) <= hi
  }

  /** The row for one district on one day; negative rainfall draws are clipped to 0. */
  function MakeRow(s: Sampler, date: int, month: int, d: District): (r: CsvRow)
    requires d.name in LevelRanges
    ensures r.date == date && r.city == d.name
    ensures r.latitude == d.latitude && r.longitude == d.longitude
    ensures r.precipitation >= 0.0
    ensures r.flag == AlertFlag(r.waterLevel, r.precipitation)
  {
    var (lo, hi) := LevelRanges[d.name];
    var wl := s.level(lo, hi, date, d.name);
    var draw := s.rain(MeanPrecipitation(month), date, d.name);
    var pr := if draw > 0.0 then draw else 0.0;
    CsvRow(date, d.name, d.latitude, d.longitude, wl, pr, AlertFlag(wl, pr))
  }

  /** The rows of one day, one per district in table order. */
  function DayRows(s: Sampler, date: int, month: int): (rows: seq<CsvRow>)
    ensures |rows| == |Geo|
    ensures forall c :: 0 <= c < |Geo| ==> rows[c] == MakeRow(s, date, month, Geo[c])
  {
    GeoHasRanges();
    seq(|Geo|, c requires 0 <= c < |Geo| => MakeRow(s, date, month, Geo[c]))
  }

  /** The generation loop over days `start..end` inclusive; `monthOf` is the calendar. */
  function Generate(s: Sampler, start: int, end: int, monthOf: int -> int): (rows: seq<CsvRow>)
    ensures |rows| == |Geo| * (if start <= end then end - start + 1 else 0)
    decreases end - start
  {
    if start > end then []
    else DayRows(s, start, monthOf(start)) + Generate(s, start + 1, end, monthOf)
  }

  /** Position of district `c` on the `k`-th day of the generated table. */
  function RowIndex(k: nat, c: nat): nat
  {
    k * 14 + c
  }

  /** The row of district `c` on the `k`-th day is the one drawn for that district on
      that day, `date`. */
  lemma {:induction false} GenerateAt(s: Sampler, start: int, end: int, monthOf: int -> int,
                                      k: nat, c: nat, date: int)
    requires date == start + k && date <= end && c < 14
    ensures RowIndex(k, c) < |Generate(s, start, end, monthOf)|
    ensures Generate(s, start, end, monthOf)[RowIndex(k, c)] == MakeRow(s, date, monthOf(date), Geo[c])
    decreases end - start
  {
    var rows := Generate(s, start, end, monthOf);
    var today := DayRows(s, start, monthOf(start));
    var later := Generate(s, start + 1, end, monthOf);
    assert rows == today + later;
    if k > 0 {
      GenerateAt(s, start + 1, end, monthOf, k - 1, c, date);
      assert RowIndex(k, c) == |today| + RowIndex(k - 1, c);
      assert rows[RowIndex(k, c)] == later[RowIndex(k - 1, c)];
    } else {
      assert rows[c] == today[c];
    }
  }

  /** Every position of a table of `days` days is the row of some district on some day. */
  lemma SplitIndex(i: nat, days: nat) returns (k: nat, c: nat)
    requires i < 14 * days
    ensures k < days && c < 14 && i == RowIndex(k, c)
  {
    k, c := i / 14, i % 14;
  }

  /** Every generated row has non-negative rainfall and carries the banding of its own readings. */
  lemma GeneratedRowsSound(s: Sampler, start: int, end: int, monthOf: int -> int)
    ensures forall r :: r in Generate(s, start, end, monthOf) ==>
      r.precipitation >= 0.0 && r.flag == AlertFlag(r.waterLevel, r.precipitation)
  {
    var rows := Generate(s, start, end, monthOf);
    forall r | r in rows
      ensures r.precipitation >= 0.0 && r.flag == AlertFlag(r.waterLevel, r.precipitation)
    {
      var i :| 0 <= i < |rows| && rows[i] == r;
      var k, c := SplitIndex(i, end - start + 1);
      GenerateAt(s, start, end, monthOf, k, c, start + k);
    }
  }

  /** With an in-range water-level sampler, every row's level lies in its district's range. */
  lemma GeneratedLevelsInRange(s: Sampler, start: int, end: int, monthOf: int -> int)
    requires LevelDrawsInRange(s)
    ensures forall r :: r in Generate(s, start, end, monthOf) ==>
      r.city in LevelRanges && LevelRanges[r.city].0 <= r.waterLevel <= LevelRanges[r.city].1
  {
    GeoHasRanges();
    var rows := Generate(s, start, end, monthOf);
    forall r | r in rows
      ensures r.city in LevelRanges && LevelRanges[r.city].0 <= r.waterLevel <= LevelRanges[r.city].1
    {
      var i :| 0 <= i < |rows| && rows[i] == r;
      var k, c := SplitIndex(i, end - start + 1);
      GenerateAt(s, start, end, monthOf, k, c, start + k);
      var d := Geo[c];
      var (lo, hi) := LevelRanges[d.name];
      assert lo <= s.level(lo, hi, start + k, d.name) <= hi;
    }
  }

  /** Exactly one row per (district, day): district `c` on day `start + k` sits at
      `RowIndex(k, c)`, and no two rows share a day and a district. */
  lemma OneRowPerDistrictDay(s: Sampler, start: int, end: int, monthOf: int -> int)
    ensures forall k: nat, c: nat :: start + k <= end && c < |Geo| ==>
      RowIndex(k, c) < |Generate(s, start, end, monthOf)| &&
      Generate(s, start, end, monthOf)[RowIndex(k, c)].date == start + k &&
      Generate(s, start, end, monthOf)[RowIndex(k, c)].city == Geo[c].name
    ensures forall i, j :: 0 <= i < j < |Generate(s, start, end, monthOf)| ==>
      Generate(s, start, end, monthOf)[i].date != Generate(s, start, end, monthOf)[j].date ||
      Generate(s, start, end, monthOf)[i].city != Generate(s, start, end, monthOf)[j].city
  {
    GeoNamesDistinct();
    var rows := Generate(s, start, end, monthOf);
    forall k: nat, c: nat | start + k <= end && c < |Geo|
      ensures RowIndex(k, c) < |rows| && rows[RowIndex(k, c)].date == start + k
      ensures rows[RowIndex(k, c)].city == Geo[c].name
    {
      GenerateAt(s, start, end, monthOf, k, c, start + k);
    }
    forall i, j | 0 <= i < j < |rows|
      ensures rows[i].date != rows[j].date || rows[i].city != rows[j].city
    {
      var ki, ci := SplitIndex(i, end - start + 1);
      var kj, cj := SplitIndex(j, end - start + 1);
      GenerateAt(s, start, end, monthOf, ki, ci, start + ki);
      GenerateAt(s, start, end, monthOf, kj, cj, start + kj);
      if rows[i].date == rows[j].date {
        assert ki == kj;
        assert ci != cj;
        assert Geo[ci].name != Geo[cj].name;
      }
    }
  }
}
