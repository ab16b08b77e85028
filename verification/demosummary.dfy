/** The quick demo's predictions and its summary report: per-level counts of a batch of
    predictions, their guarded percentages, and the count of confident predictions. */
module DemoSummary {
  import opened Results
  import opened Levels
  import opened Counting
  import opened GroundTruth

  datatype Trend = Increasing | Stable

  /** The water-level trend shown with a prediction. */
  function TrendOf(l: Level): Trend
  {
    match l
    case Orange => Increasing
    case Red => Increasing
    case _ => Stable
  }

  /** The trend rises exactly for the levels that are e-mailed to authorities. */
  lemma TrendFollowsSeverity(l: Level)
    ensures TrendOf(l) == Increasing <==> HighSeverity(l)
    ensures TrendOf(l) == Stable <==> !HighSeverity(l)
  {
  }

  /** One demo prediction. */
  datatype Prediction = Prediction(district: string, latitude: real, longitude: real,
                                   predicted: Level, confidence: real, dayAhead: int,
                                   trend: Trend, precipitationForecast: real, timestamp: int)

  /** The districts the demo predicts for. */
  const DemoDistricts: seq<string> := ["Ernakulam", "Thiruvananthapuram", "Kottayam", "Alappuzha", "Thrissur"]

  /** The coordinates of the first generated row of `name`, which carries its table
      entry; `None` where the lookup would raise. */
  function Locate(ds: seq<District>, name: string): (r: Option<(real, real)>)
    ensures r.Some? <==> exists i :: 0 <= i < |ds| && ds[i].name == name
    ensures r.Some? ==> exists i :: 0 <= i < |ds| && ds[i].name == name &&
                                   r.value == (ds[i].latitude, ds[i].longitude)
    decreases |ds|
  {
    if |ds| == 0 then None
    else if ds[0].name == name then Some((ds[0].latitude, ds[0].longitude))
    else
      var r := Locate(ds[1..], name);
      assert forall i :: 0 <= i < |ds[1..]| ==> ds[1..][i] == ds[i + 1];
      assert forall i :: 1 <= i < |ds| ==> ds[i] == ds[1..][i - 1];
      r
  }

  /** Every demo district has generated rows, so its coordinate lookup never fails. */
  lemma DemoDistrictsLocated()
    ensures forall i :: 0 <= i < |DemoDistricts| ==> Locate(Geo, DemoDistricts[i]).Some?
  {
    forall i | 0 <= i < |DemoDistricts|
      ensures Locate(Geo, DemoDistricts[i]).Some?
    {
      var j := [4, 0, 3, 2, 5][i];
      assert Geo[j].name == DemoDistricts[i];
    }
  }

  /** A demo prediction for `district` from the drawn level, confidence and rainfall
      forecast: one day ahead, trend from the level. */
  function CreateDemoPrediction(district: string, coords: (real, real), level: Level,
                                confidence: real, rain: real, now: int): (p: Prediction)
    ensures p.district == district && p.predicted == level && p.confidence == confidence
    ensures p.dayAhead == 1
    ensures p.trend == Increasing <==> HighSeverity(level)
  {
    TrendFollowsSeverity(level);
    Prediction(district, coords.0, coords.1, level, confidence, 1, TrendOf(level), rain, now)
  }

  // ---------------------------------------------------------------------------
  // Summary

  /** The static contacts table: a section name and its entries. */
  type Contacts = seq<(string, seq<(string, string)>)>

  const EmergencyContacts: Contacts := [
    ("Kerala State Disaster Management Authority",
      [("phone", "+91-471-2721566"), ("email", "ksdma@kerala.gov.in"), ("website", "www.ksdma.kerala.gov.in")]),
    ("Emergency Services",
      [("Police", "100"), ("Fire", "101"), ("Ambulance", "108"), ("Disaster Helpline", "1077")]),
    ("District Emergency Contacts",
      [("Ernakulam", "+91-484-2368407"), ("Thiruvananthapuram", "+91-471-2463977"),
       ("Kottayam", "+91-481-2560244"), ("Alappuzha", "+91-477-2251194"), ("Thrissur", "+91-487-2420022")])]

  datatype Summary = Summary(totalDistricts: nat, alertCounts: seq<Entry<Level>>,
                             highConfidenceAlerts: nat, contacts: Contacts)

  function LevelsOf(ps: seq<Prediction>): seq<Level>
  {
    seq(|ps|, i requires 0 <= i < |ps| => ps[i].predicted)
  }

  /** The predictions with confidence strictly above 0.8, in order. */
  function HighConfidence(ps: seq<Prediction>): (r: seq<Prediction>)
    ensures |r| <= |ps|
    ensures forall p :: p in r <==> p in ps && p.confidence > 0.8
    decreases |ps|
  {
    if |ps| == 0 then []
    else
      var rest := HighConfidence(ps[1..]);
      assert forall p :: p in ps[1..] ==> p in ps;
      assert forall p :: p in ps ==> p == ps[0] || p in ps[1..];
      if ps[0].confidence > 0.8 then [ps[0]] + rest else rest
  }

  /** The high-confidence list holds each confident prediction exactly as often as the
      batch does, and nothing else. */
  lemma {:induction false} HighConfidenceMultiset(ps: seq<Prediction>, p: Prediction)
    ensures multiset(HighConfidence(ps))[p] == if p.confidence > 0.8 then multiset(ps)[p] else 0
    decreases |ps|
  {
    if |ps| > 0 {
      HighConfidenceMultiset(ps[1..], p);
      assert ps == [ps[0]] + ps[1..];
      assert multiset(ps) == multiset([ps[0]]) + multiset(ps[1..]);
      var rest := HighConfidence(ps[1..]);
      if ps[0].confidence > 0.8 {
        assert multiset([ps[0]] + rest) == multiset([ps[0]]) + multiset(rest);
      }
    }
  }

  /** The number of predictions with confidence strictly above 0.8, counted from the
      last prediction backwards. */
  function CountConfident(ps: seq<Prediction>): nat
    decreases |ps|
  {
    if |ps| == 0 then 0
    else CountConfident(ps[..|ps| - 1]) + (if ps[|ps| - 1].confidence > 0.8 then 1 else 0)
  }

  /** The high-confidence list has one entry per confident prediction. */
  lemma {:induction false} HighConfidenceCount(ps: seq<Prediction>)
    ensures |HighConfidence(ps)| == CountConfident(ps)
    decreases |ps|
  {
    if |ps| > 0 {
      var init, last := ps[..|ps| - 1], ps[|ps| - 1];
      HighConfidenceCount(init);
      HighConfidenceSnoc(init, last);
      assert init + [last] == ps;
      assert CountConfident(ps) == CountConfident(init) + (if last.confidence > 0.8 then 1 else 0);
    }
  }

  lemma {:induction false} HighConfidenceSnoc(ps: seq<Prediction>, p: Prediction)
    ensures HighConfidence(ps + [p]) == HighConfidence(ps) + (if p.confidence > 0.8 then [p] else [])
    decreases |ps|
  {
    if |ps| == 0 {
      assert [p][1..] == [];
    } else {
      assert (ps + [p])[1..] == ps[1..] + [p];
      HighConfidenceSnoc(ps[1..], p);
    }
  }

  /** `create_alert_summary`. */
  function CreateAlertSummary(ps: seq<Prediction>): Summary
  {
    Summary(|ps|, TallyOf(LevelsOf(ps)), |HighConfidence(ps)|, EmergencyContacts)
  }

  /** Each level is counted as often as it is predicted, a level is listed only when
      predicted at least once and then once, the counts add up to the number of
      predictions, which is the total, and the confident ones are counted exactly. */
  lemma {:induction false} AlertSummarySpec(ps: seq<Prediction>)
    ensures var s := CreateAlertSummary(ps);
      && s.totalDistricts == |ps|
      && (forall l :: Get(s.alertCounts, l) == Occurrences(LevelsOf(ps), l))
      && (forall l :: HasKey(s.alertCounts, l) <==> Occurrences(LevelsOf(ps), l) >= 1)
      && DistinctKeys(s.alertCounts)
      && Total(s.alertCounts) == s.totalDistricts
      && s.highConfidenceAlerts == CountConfident(ps)
      && s.highConfidenceAlerts <= s.totalDistricts
      && s.contacts == EmergencyContacts
  {
    TallyCorrect(LevelsOf(ps));
    HighConfidenceCount(ps);
  }

  /** Appending a prediction adds one to the count of its own level and nothing else. */
  lemma SummaryCountsStep(ps: seq<Prediction>, p: Prediction, l: Level)
    ensures Get(CreateAlertSummary(ps + [p]).alertCounts, l) ==
      Get(CreateAlertSummary(ps).alertCounts, l) + (if p.predicted == l then 1 else 0)
  {
    TallyCorrect(LevelsOf(ps + [p]));
    TallyCorrect(LevelsOf(ps));
    assert LevelsOf(ps + [p])[..|ps|] == LevelsOf(ps);
  }

  // ---------------------------------------------------------------------------
  // Percentages

  /** `count / total * 100`, and 0 for an empty batch instead of a division by zero. */
  function Percentage(count: nat, total: nat): (r: real)
    ensures total == 0 ==> r == 0.0
    ensures total > 0 ==> r * (total as real) == (count as real) * 100.0
    ensures count <= total ==> 0.0 <= r <= 100.0
  {
    if total > 0 then (count as real) / (total as real) * 100.0 else 0.0
  }

  /** The distribution lines of the report: Red, Orange, Yellow, each with its count and
      percentage. */
  function Distribution(s: Summary): (r: seq<(Level, nat, real)>)
    ensures |r| == 3
    ensures r[0].0 == Red && r[1].0 == Orange && r[2].0 == Yellow
    ensures forall i :: 0 <= i < 3 ==>
      r[i].1 == Get(s.alertCounts, r[i].0) && r[i].2 == Percentage(r[i].1, s.totalDistricts)
  {
    seq(3, i requires 0 <= i < 3 =>
      var l := [Red, Orange, Yellow][i];
      (l, Get(s.alertCounts, l), Percentage(Get(s.alertCounts, l), s.totalDistricts)))
  }

  /** Levels outside the three listed ones are counted nowhere, so the three listed
      counts add up to the listed predictions. */
  lemma {:induction false} ListedOccurrences(ls: seq<Level>)
    requires forall i :: 0 <= i < |ls| ==> !ls[i].Unlisted?
    ensures Occurrences(ls, Red) + Occurrences(ls, Orange) + Occurrences(ls, Yellow) == |ls|
    decreases |ls|
  {
    if |ls| > 0 {
      ListedOccurrences(ls[..|ls| - 1]);
    }
  }

  /** Percentages of counts that make up the whole batch add up to 100. */
  lemma PercentagesAdd(a: nat, b: nat, c: nat, n: nat)
    requires n > 0 && a + b + c == n
    ensures Percentage(a, n) + Percentage(b, n) + Percentage(c, n) == 100.0
  {
    var x, y, z, m := a as real, b as real, c as real, n as real;
    assert x / m + y / m + z / m == (x + y + z) / m;
    assert (x + y + z) / m == 1.0;
    calc {
      Percentage(a, n) + Percentage(b, n) + Percentage(c, n);
      x / m * 100.0 + y / m * 100.0 + z / m * 100.0;
      (x / m + y / m + z / m) * 100.0;
    }
  }

  /** When every prediction has a listed level and the batch is not empty, the three
      percentages of the report add up to 100. */
  lemma DistributionSumsToHundred(ps: seq<Prediction>)
    requires |ps| > 0
    requires forall i :: 0 <= i < |ps| ==> !ps[i].predicted.Unlisted?
    ensures var d := Distribution(CreateAlertSummary(ps));
      d[0].2 + d[1].2 + d[2].2 == 100.0
  {
    var s := CreateAlertSummary(ps);
    AlertSummarySpec(ps);
    ListedOccurrences(LevelsOf(ps));
    var d := Distribution(s);
    PercentagesAdd(d[0].1, d[1].1, d[2].1, |ps|);
  }
}
