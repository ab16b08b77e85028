/** One monitoring pass, `check_flood_risk`: every district is forecast three days ahead,
    each step whose confidence reaches its level's threshold becomes a candidate alert,
    each candidate is checked against the table and, when new, stored at once, and the
    batch of new alerts is then sent. The forecasts do not read the table, so a pass is
    the candidates of all districts, in order, run through the check-and-store loop. */
module Monitor {
  import opened Results
  import opened Levels
  import opened Forecast
  import opened AlertStore
  import opened Dispatch

  /** The alert built from step `s` of `district`, stamped `now`. */
  function AlertOf(district: string, coords: (real, real), s: ForecastStep, now: int): Alert
  {
    Alert(now, district, coords.0, coords.1, s.predicted, s.confidence, s.day, s.probabilities)
  }

  /** The steps whose confidence reaches the threshold of their level, as alerts. */
  function Qualifying(district: string, coords: (real, real), steps: seq<ForecastStep>,
                      now: int): (r: seq<Alert>)
    ensures forall a :: a in r <==> exists s :: s in steps && MeetsThreshold(s.predicted, s.confidence) &&
                                       a == AlertOf(district, coords, s, now)
    decreases |steps|
  {
    if |steps| == 0 then []
    else
      var rest := Qualifying(district, coords, steps[1..], now);
      assert forall s :: s in steps[1..] ==> s in steps;
      assert forall s :: s in steps ==> s == steps[0] || s in steps[1..];
      if MeetsThreshold(steps[0].predicted, steps[0].confidence) then
        [AlertOf(district, coords, steps[0], now)] + rest
      else rest
  }

  /** Every step of a forecast, as an alert. */
  function StepAlerts(district: string, coords: (real, real), steps: seq<ForecastStep>,
                      now: int): seq<Alert>
  {
    seq(|steps|, i requires 0 <= i < |steps| => AlertOf(district, coords, steps[i], now))
  }

  /** The qualifying alerts keep the order of the steps they come from. */
  lemma {:induction false} QualifyingInOrder(district: string, coords: (real, real),
                                             steps: seq<ForecastStep>, now: int)
    ensures Subsequence(Qualifying(district, coords, steps, now), StepAlerts(district, coords, steps, now))
    decreases |steps|
  {
    if |steps| > 0 {
      QualifyingInOrder(district, coords, steps[1..], now);
      var all := StepAlerts(district, coords, steps, now);
      assert all[1..] == StepAlerts(district, coords, steps[1..], now);
    }
  }

  /** The alerts' day-ahead strictly increases along the sequence. */
  predicate ByDay(r: seq<Alert>)
  {
    forall j, k :: 0 <= j < k < |r| ==> r[j].dayAhead < r[k].dayAhead
  }

  lemma ByDayCons(x: Alert, rest: seq<Alert>)
    requires ByDay(rest)
    requires forall a :: a in rest ==> x.dayAhead < a.dayAhead
    ensures ByDay([x] + rest)
  {
    var r := [x] + rest;
    forall j, k | 0 <= j < k < |r|
      ensures r[j].dayAhead < r[k].dayAhead
    {
      assert r[k] == rest[k - 1] && rest[k - 1] in rest;
      if j > 0 {
        assert r[j] == rest[j - 1];
      }
    }
  }

  /** Steps that come day by day give alerts whose day-ahead strictly increases: the
      nearest qualifying day comes first. */
  lemma {:induction false} QualifyingByDay(district: string, coords: (real, real),
                                           steps: seq<ForecastStep>, now: int)
    requires forall j, k :: 0 <= j < k < |steps| ==> steps[j].day < steps[k].day
    ensures ByDay(Qualifying(district, coords, steps, now))
    decreases |steps|
  {
    if |steps| > 0 {
      var rest := Qualifying(district, coords, steps[1..], now);
      QualifyingByDay(district, coords, steps[1..], now);
      if MeetsThreshold(steps[0].predicted, steps[0].confidence) {
        forall a | a in rest
          ensures steps[0].day < a.dayAhead
        {
          var st :| st in steps[1..] && MeetsThreshold(st.predicted, st.confidence) &&
            a == AlertOf(district, coords, st, now);
          var i :| 0 <= i < |steps[1..]| && steps[1..][i] == st;
          assert steps[i + 1] == st;
        }
        ByDayCons(AlertOf(district, coords, steps[0], now), rest);
      }
    }
  }

  /** The steps of a successful forecast are for days 1, 2, 3, ... in order. */
  lemma ForecastDays(sys: System, district: string, draw: (string, nat) -> real)
    ensures ForecastFor(sys, district, PassHorizon, draw).Ok? ==>
      var steps := ForecastFor(sys, district, PassHorizon, draw).value;
      forall i :: 0 <= i < |steps| ==> steps[i].day == i + 1
  {
    if ForecastFor(sys, district, PassHorizon, draw).Err? {
      return;
    }
    var steps := ForecastFor(sys, district, PassHorizon, draw).value;
    var history := if district in sys.histories then Some(sys.histories[district]) else None;
    var dr := (k: nat) => draw(district, k);
    PredictFloodRiskLength(sys.model, sys.classes, history, PassHorizon, dr);
    forall i | 0 <= i < |steps|
      ensures steps[i].day == i + 1
    {
      PredictFloodRiskSteps(sys.model, sys.classes, history, PassHorizon, dr, i);
      StepOfSpec(sys.classes, sys.model.value(WindowAt(SeedWindow(history.value), dr, i)), i + 1);
    }
  }

  /** The candidates of one district come in order of the day they are for. */
  lemma DistrictCandidatesByDay(sys: System, district: string, draw: (string, nat) -> real, now: int)
    ensures ByDay(DistrictCandidates(sys, district, draw, now))
  {
    var f := ForecastFor(sys, district, PassHorizon, draw);
    if f.Ok? && district in sys.coordinates {
      ForecastDays(sys, district, draw);
      QualifyingByDay(district, sys.coordinates[district], f.value, now);
    }
  }

  /** The candidates of one district; a failing forecast or a missing coordinate lookup
      is caught and the district yields none. */
  function DistrictCandidates(sys: System, district: string, draw: (string, nat) -> real,
                              now: int): seq<Alert>
  {
    match ForecastFor(sys, district, PassHorizon, draw)
    case Err(_) => []
    case Ok(steps) =>
      if district !in sys.coordinates then []
      else Qualifying(district, sys.coordinates[district], steps, now)
  }

  function CandidatesFor(sys: System, districts: seq<string>, draw: (string, nat) -> real,
                         now: int): seq<Alert>
    decreases |districts|
  {
    if |districts| == 0 then []
    else DistrictCandidates(sys, districts[0], draw, now) +
         CandidatesFor(sys, districts[1..], draw, now)
  }

  /** A candidate alert comes from some district, in the order the districts are listed. */
  lemma {:induction false} CandidatesMembers(sys: System, districts: seq<string>,
                                             draw: (string, nat) -> real, now: int, a: Alert)
    ensures a in CandidatesFor(sys, districts, draw, now) <==>
      exists i :: 0 <= i < |districts| && a in DistrictCandidates(sys, districts[i], draw, now)
    decreases |districts|
  {
    if |districts| > 0 {
      CandidatesMembers(sys, districts[1..], draw, now, a);
      var head := DistrictCandidates(sys, districts[0], draw, now);
      var tail := CandidatesFor(sys, districts[1..], draw, now);
      assert CandidatesFor(sys, districts, draw, now) == head + tail;
      if a in tail {
        var i :| 0 <= i < |districts[1..]| && a in DistrictCandidates(sys, districts[1..][i], draw, now);
        assert districts[1..][i] == districts[i + 1];
      }
      if exists i :: 0 <= i < |districts| && a in DistrictCandidates(sys, districts[i], draw, now) {
        var i :| 0 <= i < |districts| && a in DistrictCandidates(sys, districts[i], draw, now);
        if i > 0 {
          assert districts[1..][i - 1] == districts[i];
        }
      }
    }
  }

  /** The candidates of the pass are exactly the alerts stamped now built from the steps
      that reach their level's threshold, of every district whose forecast and coordinate
      lookup succeed. */
  lemma CandidatesSpec(sys: System, draw: (string, nat) -> real, now: int, a: Alert)
    ensures a in CandidatesFor(sys, sys.districts, draw, now) <==>
      exists i :: 0 <= i < |sys.districts| &&
        ForecastFor(sys, sys.districts[i], PassHorizon, draw).Ok? &&
        sys.districts[i] in sys.coordinates &&
        exists s :: s in ForecastFor(sys, sys.districts[i], PassHorizon, draw).value &&
          MeetsThreshold(s.predicted, s.confidence) &&
          a == AlertOf(sys.districts[i], sys.coordinates[sys.districts[i]], s, now)
    ensures a in CandidatesFor(sys, sys.districts, draw, now) ==>
      a.timestamp == now && MeetsThreshold(a.level, a.confidence)
  {
    CandidatesMembers(sys, sys.districts, draw, now, a);
  }

  lemma {:induction false} CandidatesConcat(sys: System, a: seq<string>, b: seq<string>,
                                            draw: (string, nat) -> real, now: int)
    ensures CandidatesFor(sys, a + b, draw, now) ==
      CandidatesFor(sys, a, draw, now) + CandidatesFor(sys, b, draw, now)
    decreases |a|
  {
    if |a| > 0 {
      var head := DistrictCandidates(sys, a[0], draw, now);
      assert (a + b)[0] == a[0] && (a + b)[1..] == a[1..] + b;
      assert CandidatesFor(sys, a + b, draw, now) == head + CandidatesFor(sys, a[1..] + b, draw, now);
      CandidatesConcat(sys, a[1..], b, draw, now);
      assert CandidatesFor(sys, a, draw, now) == head + CandidatesFor(sys, a[1..], draw, now);
    } else {
      assert a + b == b;
    }
  }

  lemma FailingDistrictEmpty(sys: System, d: string, draw: (string, nat) -> real, now: int)
    requires ForecastFor(sys, d, PassHorizon, draw).Err?
    ensures CandidatesFor(sys, [d], draw, now) == []
  {
    assert [d][1..] == [];
    assert DistrictCandidates(sys, d, draw, now) == [];
  }

  /** An error while checking one district is caught: the districts around it are still
      checked and contribute what they would contribute without it. */
  lemma FailingDistrictSkipped(sys: System, before: seq<string>, d: string, after: seq<string>,
                               draw: (string, nat) -> real, now: int)
    requires ForecastFor(sys, d, PassHorizon, draw).Err?
    ensures CandidatesFor(sys, before + [d] + after, draw, now) ==
      CandidatesFor(sys, before, draw, now) + CandidatesFor(sys, after, draw, now)
  {
    CandidatesConcat(sys, before + [d], after, draw, now);
    CandidatesConcat(sys, before, [d], draw, now);
    FailingDistrictEmpty(sys, d, draw, now);
    var pre := CandidatesFor(sys, before, draw, now);
    assert CandidatesFor(sys, before + [d], draw, now) == pre + [] == pre;
  }

  // ---------------------------------------------------------------------------
  // Check and store

  /** The loop over the candidates: each is checked against the table as it stands and,
      when new, recorded as issued under the next key and stored before the next check. */
  function Issue(s: Store, cands: seq<Alert>, now: int): (r: (Store, seq<Issued>))
    ensures |r.0| == |s| + |r.1|
    ensures r.0[..|s|] == s
    ensures |r.1| <= |cands|
    decreases |cands|
  {
    if |cands| == 0 then (s, [])
    else if IsNewAlert(s, cands[0], now) then
      var rest := Issue(StoreAlert(s, cands[0]), cands[1..], now);
      (rest.0, [Issued(cands[0], |s| + 1)] + rest.1)
    else Issue(s, cands[1..], now)
  }

  function AlertsOf(xs: seq<Issued>): seq<Alert>
  {
    seq(|xs|, k requires 0 <= k < |xs| => xs[k].alert)
  }

  /** The `k`-th issued alert is a candidate, was new against the table as it stood when
      it was checked, got key `|s| + k + 1`, and is the `k`-th row appended. */
  lemma {:induction false} IssueAt(s: Store, cands: seq<Alert>, now: int, k: nat)
    requires k < |Issue(s, cands, now).1|
    ensures var r := Issue(s, cands, now);
      && r.1[k].alert in cands
      && r.1[k].id == |s| + k + 1
      && r.0[|s| + k] == NewRow(|s| + k + 1, r.1[k].alert)
      && IsNewAlert(r.0[..|s| + k], r.1[k].alert, now)
    decreases |cands|
  {
    var c := cands[0];
    if IsNewAlert(s, c, now) {
      var s1 := StoreAlert(s, c);
      var rest := Issue(s1, cands[1..], now);
      var r := Issue(s, cands, now);
      assert r.0 == rest.0 && r.1 == [Issued(c, |s| + 1)] + rest.1;
      if k == 0 {
        assert rest.0[..|s1|] == s1;
        assert r.0[|s|] == s1[|s|];
        assert r.0[..|s|] == s;
      } else {
        IssueAt(s1, cands[1..], now, k - 1);
        assert r.1[k] == rest.1[k - 1];
        assert |s1| + (k - 1) == |s| + k;
      }
    } else {
      IssueAt(s, cands[1..], now, k);
    }
  }

  /** The `k`-th issued alert gets key `|s| + k + 1`. */
  lemma {:induction false} IssuedId(s: Store, cands: seq<Alert>, now: int, k: nat)
    requires k < |Issue(s, cands, now).1|
    ensures Issue(s, cands, now).1[k].id == |s| + k + 1
    decreases |cands|
  {
    if IsNewAlert(s, cands[0], now) {
      var s1 := StoreAlert(s, cands[0]);
      if k > 0 {
        IssuedId(s1, cands[1..], now, k - 1);
      }
    } else {
      IssuedId(s, cands[1..], now, k);
    }
  }

  /** Running the loop over `a + b` is running it over `a`, then over `b` against the
      table `a` left behind. */
  lemma {:induction false} IssueAppend(s: Store, a: seq<Alert>, b: seq<Alert>, now: int)
    ensures var ra := Issue(s, a, now);
      var rb := Issue(ra.0, b, now);
      Issue(s, a + b, now) == (rb.0, ra.1 + rb.1)
    decreases |a|
  {
    if |a| == 0 {
      assert a + b == b;
      assert Issue(s, a, now) == (s, []);
      assert [] + Issue(s, b, now).1 == Issue(s, b, now).1;
    } else {
      var c, rest := a[0], a[1..];
      assert (a + b)[0] == c && (a + b)[1..] == rest + b;
      if IsNewAlert(s, c, now) {
        var next := StoreAlert(s, c);
        IssueAppend(next, rest, b, now);
        var head := [Issued(c, |s| + 1)];
        var tail := Issue(next, rest, now);
        var both := Issue(next, rest + b, now);
        assert Issue(s, a, now) == (tail.0, head + tail.1);
        assert Issue(s, a + b, now) == (both.0, head + both.1);
        var rb := Issue(tail.0, b, now);
        assert head + (tail.1 + rb.1) == (head + tail.1) + rb.1;
      } else {
        IssueAppend(s, rest, b, now);
        assert Issue(s, a, now) == Issue(s, rest, now);
        assert Issue(s, a + b, now) == Issue(s, rest + b, now);
      }
    }
  }

  /** One turn of the loop over the candidates in their order: the `i`-th candidate is
      checked against the table the earlier ones left and, when new, stored under the next
      key and appended to the issued alerts; otherwise nothing changes. */
  lemma IssueStep(s: Store, cands: seq<Alert>, now: int, i: nat)
    requires i < |cands|
    ensures var before := Issue(s, cands[..i], now);
      Issue(s, cands[..i + 1], now) ==
        if IsNewAlert(before.0, cands[i], now)
        then (StoreAlert(before.0, cands[i]), before.1 + [Issued(cands[i], |before.0| + 1)])
        else before
  {
    assert cands[..i + 1] == cands[..i] + [cands[i]];
    IssueAppend(s, cands[..i], [cands[i]], now);
    var before := Issue(s, cands[..i], now);
    var c := cands[i];
    assert [c][1..] == [];
    if IsNewAlert(before.0, c, now) {
      var s1 := StoreAlert(before.0, c);
      assert Issue(s1, [c][1..], now) == (s1, []);
      var one := [Issued(c, |before.0| + 1)];
      assert Issue(before.0, [c], now) == (s1, one + []);
      assert one + [] == one;
      assert Issue(s, cands[..i] + [c], now) == (s1, before.1 + one);
    } else {
      assert Issue(before.0, [c], now) == (before.0, []);
      assert before.1 + [] == before.1;
    }
  }

  /** The `i`-th candidate is issued exactly when it is new against the table the
      candidates before it left; it is then the next issued alert, under the next key. */
  lemma IssueDecided(s: Store, cands: seq<Alert>, now: int, i: nat)
    requires i < |cands|
    ensures var before := Issue(s, cands[..i], now);
      var m := |before.1|;
      && (IsNewAlert(before.0, cands[i], now) <==> |Issue(s, cands[..i + 1], now).1| == m + 1)
      && (IsNewAlert(before.0, cands[i], now) ==>
            m < |Issue(s, cands, now).1| && Issue(s, cands, now).1[m] == Issued(cands[i], |s| + m + 1))
  {
    var before := Issue(s, cands[..i], now);
    var after := Issue(s, cands[..i + 1], now);
    IssueStep(s, cands, now, i);
    assert cands == cands[..i + 1] + cands[i + 1..];
    IssueAppend(s, cands[..i + 1], cands[i + 1..], now);
    if IsNewAlert(before.0, cands[i], now) {
      assert Issue(s, cands, now).1[|before.1|] == after.1[|before.1|];
    }
  }

  /** The issued alerts are some of the candidates, in candidate order. */
  lemma {:induction false} IssueSubsequence(s: Store, cands: seq<Alert>, now: int)
    ensures Subsequence(AlertsOf(Issue(s, cands, now).1), cands)
    decreases |cands|
  {
    if |cands| > 0 {
      if IsNewAlert(s, cands[0], now) {
        var s1 := StoreAlert(s, cands[0]);
        IssueSubsequence(s1, cands[1..], now);
        var rest := Issue(s1, cands[1..], now).1;
        assert AlertsOf([Issued(cands[0], |s| + 1)] + rest)[1..] == AlertsOf(rest);
      } else {
        IssueSubsequence(s, cands[1..], now);
      }
    }
  }

  /** Whether an alert is new depends on its district and level only. */
  lemma NewDependsOnPlace(s: Store, a: Alert, b: Alert, now: int)
    requires a.district == b.district && a.level == b.level
    ensures IsNewAlert(s, a, now) == IsNewAlert(s, b, now)
  {
    IsNewAlertSpec(s, a, now);
    IsNewAlertSpec(s, b, now);
    assert forall i :: 0 <= i < |s| ==> Suppresses(s[i], a, now) == Suppresses(s[i], b, now);
  }

  /** A later candidate with the district and level of an earlier one is never issued:
      the earlier one, or one before it, is in the table by then. */
  lemma LaterRepeatSuppressed(s: Store, cands: seq<Alert>, now: int, j: nat, k: nat)
    requires forall c :: c in cands ==> c.timestamp == now
    requires j < k < |cands|
    requires cands[j].district == cands[k].district && cands[j].level == cands[k].level
    ensures !IsNewAlert(Issue(s, cands[..k], now).0, cands[k], now)
  {
    assert cands[j] in cands[..k];
    IssueCovers(s, cands[..k], now, cands[j]);
    NewDependsOnPlace(Issue(s, cands[..k], now).0, cands[j], cands[k], now);
  }

  /** The rows the loop appends are those of the issued alerts. */
  lemma IssuedRows(s: Store, cands: seq<Alert>, now: int, i: nat)
    requires |s| <= i < |Issue(s, cands, now).0|
    ensures i - |s| < |Issue(s, cands, now).1|
    ensures Issue(s, cands, now).0[i] == NewRow(i + 1, Issue(s, cands, now).1[i - |s|].alert)
    ensures Issue(s, cands, now).1[i - |s|].alert in cands
  {
    IssueAt(s, cands, now, i - |s|);
  }

  /** When candidate `j` is new against the starting table and no earlier candidate has
      its district and level, it is issued: the first day-offset of a (district, level)
      wins and every later one is suppressed. */
  lemma FirstRepeatWins(s: Store, cands: seq<Alert>, now: int, j: nat)
    requires forall c :: c in cands ==> c.timestamp == now
    requires j < |cands|
    requires IsNewAlert(s, cands[j], now)
    requires forall i :: 0 <= i < j ==>
      cands[i].district != cands[j].district || cands[i].level != cands[j].level
    ensures var r := Issue(s, cands, now).1;
      var m := |Issue(s, cands[..j], now).1|;
      && m < |r| && r[m].alert == cands[j]
      && (forall n :: 0 <= n < |r| && n != m ==>
            r[n].alert.district != cands[j].district || r[n].alert.level != cands[j].level)
  {
    var before := Issue(s, cands[..j], now);
    var c := cands[j];
    IsNewAlertSpec(s, c, now);
    IsNewAlertSpec(before.0, c, now);
    forall i | 0 <= i < |before.0|
      ensures !Suppresses(before.0[i], c, now)
    {
      if i < |s| {
        assert before.0[..|s|][i] == s[i];
      } else {
        IssuedRows(s, cands[..j], now, i);
        var a := before.1[i - |s|].alert;
        var p :| 0 <= p < j && cands[..j][p] == a;
      }
    }
    IssueDecided(s, cands, now, j);
    var r := Issue(s, cands, now).1;
    var m := |before.1|;
    forall n | 0 <= n < |r| && n != m
      ensures r[n].alert.district != c.district || r[n].alert.level != c.level
    {
      if n < m {
        IssuedDistinct(s, cands, now, n, m);
      } else {
        IssuedDistinct(s, cands, now, m, n);
      }
    }
  }

  /** The alerts issued in one pass have pairwise different (district, level): once one
      is stored, any later candidate for the same district and level is a repeat. */
  lemma IssuedDistinct(s: Store, cands: seq<Alert>, now: int, j: nat, k: nat)
    requires forall c :: c in cands ==> c.timestamp == now
    requires j < k < |Issue(s, cands, now).1|
    ensures var issued := Issue(s, cands, now).1;
      issued[j].alert.district != issued[k].alert.district ||
      issued[j].alert.level != issued[k].alert.level
  {
    var r := Issue(s, cands, now);
    IssueAt(s, cands, now, j);
    IssueAt(s, cands, now, k);
    var before := r.0[..|s| + k];
    IsNewAlertSpec(before, r.1[k].alert, now);
    assert before[|s| + j] == r.0[|s| + j];
    assert !Suppresses(before[|s| + j], r.1[k].alert, now);
  }

  /** After the loop no candidate of the pass is new any more: each is matched by an
      active row of its district and level from the last six hours, its own or an
      earlier one. */
  lemma {:induction false} IssueCovers(s: Store, cands: seq<Alert>, now: int, c: Alert)
    requires c in cands
    requires c.timestamp > now - SuppressionWindow
    ensures !IsNewAlert(Issue(s, cands, now).0, c, now)
    decreases |cands|
  {
    var r := Issue(s, cands, now);
    var c0 := cands[0];
    var next := if IsNewAlert(s, c0, now) then StoreAlert(s, c0) else s;
    var rest := Issue(next, cands[1..], now);
    assert r.0 == rest.0;
    if c in cands[1..] {
      IssueCovers(next, cands[1..], now, c);
    } else {
      assert c == c0;
      if IsNewAlert(s, c, now) {
        StoreAlertSuppresses(s, c, c, now);
      }
      StaysSuppressed(next, rest.0, c, now);
    }
  }

  /** A candidate that is already a repeat is never issued, and with nothing new the
      table is left as it was. */
  lemma {:induction false} IssueNothingNew(s: Store, cands: seq<Alert>, now: int)
    requires forall c :: c in cands ==> !IsNewAlert(s, c, now)
    ensures Issue(s, cands, now) == (s, [])
    decreases |cands|
  {
    if |cands| > 0 {
      assert cands[0] in cands;
      assert forall c :: c in cands[1..] ==> c in cands;
      IssueNothingNew(s, cands[1..], now);
    }
  }

  // ---------------------------------------------------------------------------
  // The pass

  /** What a pass leaves behind: the table, the alerts issued, and their deliveries. */
  datatype PassResult = PassResult(store: Store, issued: seq<Issued>, deliveries: seq<Delivery>)

  /** `check_flood_risk`: candidates of every district, check and store, then send the
      batch when it is not empty. */
  function CheckFloodRisk(sys: System, s: Store, draw: (string, nat) -> real, now: int,
                          t: Transport, hooks: Webhooks): (r: PassResult)
    ensures |r.store| == |s| + |r.issued|
    ensures |r.deliveries| == |r.issued|
  {
    var (stored, issued) := Issue(s, CandidatesFor(sys, sys.districts, draw, now), now);
    if |issued| > 0 then
      var (sent, deliveries) := ProcessAlerts(stored, issued, t, hooks);
      PassResult(sent, issued, deliveries)
    else PassResult(stored, issued, [])
  }

  /** Every alert a pass issues is a candidate of the pass: stamped now, at or above its
      level's threshold, from a district whose forecast and coordinates succeed. Its
      delivery is the one its own alert and the oracles decide. */
  lemma PassIssuedSpec(sys: System, s: Store, draw: (string, nat) -> real, now: int,
                       t: Transport, hooks: Webhooks, k: nat)
    requires k < |CheckFloodRisk(sys, s, draw, now, t, hooks).issued|
    ensures var r := CheckFloodRisk(sys, s, draw, now, t, hooks);
      && r.issued[k].alert in CandidatesFor(sys, sys.districts, draw, now)
      && r.issued[k].alert.timestamp == now
      && MeetsThreshold(r.issued[k].alert.level, r.issued[k].alert.confidence)
      && r.deliveries[k] == DeliveryOf(r.issued[k].alert, t, hooks)
  {
    var cands := CandidatesFor(sys, sys.districts, draw, now);
    IssueAt(s, cands, now, k);
    CandidatesSpec(sys, draw, now, Issue(s, cands, now).1[k].alert);
  }

  /** A pass issues at most one alert per district and level. */
  lemma PassIssuedDistinct(sys: System, s: Store, draw: (string, nat) -> real, now: int,
                           t: Transport, hooks: Webhooks, j: nat, k: nat)
    requires j < k < |CheckFloodRisk(sys, s, draw, now, t, hooks).issued|
    ensures var issued := CheckFloodRisk(sys, s, draw, now, t, hooks).issued;
      issued[j].alert.district != issued[k].alert.district ||
      issued[j].alert.level != issued[k].alert.level
  {
    var cands := CandidatesFor(sys, sys.districts, draw, now);
    forall c | c in cands
      ensures c.timestamp == now
    {
      CandidatesSpec(sys, draw, now, c);
    }
    IssuedDistinct(s, cands, now, j, k);
  }

  /** After a pass every candidate of the pass is a repeat: the table holds an active
      row of its district and level from the last six hours. */
  lemma PassCovers(sys: System, s: Store, draw: (string, nat) -> real, now: int,
                   t: Transport, hooks: Webhooks, c: Alert)
    requires c in CandidatesFor(sys, sys.districts, draw, now)
    ensures !IsNewAlert(CheckFloodRisk(sys, s, draw, now, t, hooks).store, c, now)
  {
    var cands := CandidatesFor(sys, sys.districts, draw, now);
    CandidatesSpec(sys, draw, now, c);
    IssueCovers(s, cands, now, c);
    var stored := Issue(s, cands, now).0;
    var after := CheckFloodRisk(sys, s, draw, now, t, hooks).store;
    IsNewAlertSpec(stored, c, now);
    IsNewAlertSpec(after, c, now);
    var i :| 0 <= i < |stored| && Suppresses(stored[i], c, now);
    ProcessAlertsRowIfAny(sys, s, draw, now, t, hooks, i);
  }

  /** Sending changes only the notification flags of the rows it touches. */
  lemma ProcessAlertsRowIfAny(sys: System, s: Store, draw: (string, nat) -> real, now: int,
                              t: Transport, hooks: Webhooks, i: nat)
    requires i < |Issue(s, CandidatesFor(sys, sys.districts, draw, now), now).0|
    ensures var stored := Issue(s, CandidatesFor(sys, sys.districts, draw, now), now).0;
      SameColumns(CheckFloodRisk(sys, s, draw, now, t, hooks).store[i], stored[i])
  {
    var r := Issue(s, CandidatesFor(sys, sys.districts, draw, now), now);
    if |r.1| > 0 {
      ProcessAlertsRow(r.0, r.1, t, hooks, i, Email);
    }
  }

  /** In a pass over a well-formed table no delivery marks a row that was already there:
      every issued alert is keyed after the table's last row. */
  lemma OldRowsUnmarked(s: Store, cands: seq<Alert>, now: int, t: Transport, hooks: Webhooks,
                        i: nat, ch: Channel)
    requires Wellformed(s)
    requires i < |s|
    ensures !DeliveredTo(Issue(s, cands, now).1, t, hooks, s[i].id, ch)
  {
    var issued := Issue(s, cands, now).1;
    if DeliveredTo(issued, t, hooks, s[i].id, ch) {
      var k :| 0 <= k < |issued| && WentOut(issued[k], t, hooks, s[i].id, ch);
      IssuedId(s, cands, now, k);
      assert false;
    }
  }

  /** The row stored for the `k`-th issued alert is marked on a channel exactly when that
      alert went out on it: no other alert of the batch shares its key. */
  lemma NewRowOwnDelivery(s: Store, cands: seq<Alert>, now: int, t: Transport, hooks: Webhooks,
                          k: nat, ch: Channel)
    requires k < |Issue(s, cands, now).1|
    ensures var issued := Issue(s, cands, now).1;
      DeliveredTo(issued, t, hooks, |s| + k + 1, ch) <==> Sent(DeliveryOf(issued[k].alert, t, hooks), ch)
  {
    var issued := Issue(s, cands, now).1;
    IssuedId(s, cands, now, k);
    forall j | 0 <= j < |issued| && issued[j].id == issued[k].id
      ensures j == k
    {
      IssuedId(s, cands, now, j);
    }
    DeliveredToOwnKey(issued, t, hooks, k, ch);
  }

  /** A pass in terms of its two stages: the check-and-store loop, then the batch send. */
  lemma PassStages(sys: System, s: Store, draw: (string, nat) -> real, now: int,
                   t: Transport, hooks: Webhooks)
    ensures var r := Issue(s, CandidatesFor(sys, sys.districts, draw, now), now);
      var p := CheckFloodRisk(sys, s, draw, now, t, hooks);
      && p.issued == r.1
      && (|r.1| > 0 ==> p.store == ProcessAlerts(r.0, r.1, t, hooks).0)
      && (|r.1| > 0 ==> p.deliveries == ProcessAlerts(r.0, r.1, t, hooks).1)
      && (|r.1| == 0 ==> p.store == r.0)
  {
  }

  /** A pass over a well-formed table leaves every row that was already there exactly as
      it was. */
  lemma PassKeepsRows(sys: System, s: Store, draw: (string, nat) -> real, now: int,
                      t: Transport, hooks: Webhooks, i: nat)
    requires Wellformed(s)
    requires i < |s|
    ensures CheckFloodRisk(sys, s, draw, now, t, hooks).store[i] == s[i]
  {
    var cands := CandidatesFor(sys, sys.districts, draw, now);
    var r := Issue(s, cands, now);
    PassStages(sys, s, draw, now, t, hooks);
    assert r.0[..|s|] == s;
    assert r.0[i] == s[i];
    if |r.1| > 0 {
      ProcessAlertsRow(r.0, r.1, t, hooks, i, Email);
      ProcessAlertsRow(r.0, r.1, t, hooks, i, Webhook);
      OldRowsUnmarked(s, cands, now, t, hooks, i, Email);
      OldRowsUnmarked(s, cands, now, t, hooks, i, Webhook);
    }
  }

  /** A pass appends one row per issued alert, under the next key, carrying that alert,
      still active, with each notification flag set exactly when that channel went out. */
  lemma PassAppendsRows(sys: System, s: Store, draw: (string, nat) -> real, now: int,
                        t: Transport, hooks: Webhooks, k: nat)
    requires k < |CheckFloodRisk(sys, s, draw, now, t, hooks).issued|
    ensures var r := CheckFloodRisk(sys, s, draw, now, t, hooks);
      && SameColumns(r.store[|s| + k], NewRow(|s| + k + 1, r.issued[k].alert))
      && r.store[|s| + k].sentEmail == r.deliveries[k].emailSent
      && r.store[|s| + k].sentWebhook == r.deliveries[k].webhookSent
  {
    var cands := CandidatesFor(sys, sys.districts, draw, now);
    var r := Issue(s, cands, now);
    PassStages(sys, s, draw, now, t, hooks);
    IssueAt(s, cands, now, k);
    var a := r.1[k].alert;
    var i := |s| + k;
    var row := ProcessAlerts(r.0, r.1, t, hooks).0[i];
    var d := DeliveryOf(a, t, hooks);
    assert ProcessAlerts(r.0, r.1, t, hooks).1[k] == d;
    ProcessAlertsRow(r.0, r.1, t, hooks, i, Email);
    ProcessAlertsRow(r.0, r.1, t, hooks, i, Webhook);
    NewRowOwnDelivery(s, cands, now, t, hooks, k, Email);
    NewRowOwnDelivery(s, cands, now, t, hooks, k, Webhook);
    assert SameColumns(row, NewRow(i + 1, a));
    assert row.sentEmail == d.emailSent;
    assert row.sentWebhook == d.webhookSent;
  }

  /** The first candidate of a pass for a (district, level) that is new against the table
      is issued, and no other alert for that district and level is: of the three days
      forecast, the nearest that qualifies is the one alerted. */
  lemma PassFirstWins(sys: System, s: Store, draw: (string, nat) -> real, now: int,
                      t: Transport, hooks: Webhooks, j: nat)
    requires j < |CandidatesFor(sys, sys.districts, draw, now)|
    requires var cands := CandidatesFor(sys, sys.districts, draw, now);
      && IsNewAlert(s, cands[j], now)
      && forall i :: 0 <= i < j ==>
           cands[i].district != cands[j].district || cands[i].level != cands[j].level
    ensures var cands := CandidatesFor(sys, sys.districts, draw, now);
      var issued := CheckFloodRisk(sys, s, draw, now, t, hooks).issued;
      && (exists m :: 0 <= m < |issued| && issued[m].alert == cands[j])
      && (forall k, n ::
            (j < k < |cands| && 0 <= n < |issued| && cands[k] != cands[j] &&
             cands[k].district == cands[j].district && cands[k].level == cands[j].level) ==>
            issued[n].alert != cands[k])
  {
    var cands := CandidatesFor(sys, sys.districts, draw, now);
    forall c | c in cands
      ensures c.timestamp == now
    {
      CandidatesSpec(sys, draw, now, c);
    }
    FirstRepeatWins(s, cands, now, j);
    var m := |Issue(s, cands[..j], now).1|;
    assert CheckFloodRisk(sys, s, draw, now, t, hooks).issued[m].alert == cands[j];
  }

  // ---------------------------------------------------------------------------
  // The pass as written

  /** `check_flood_risk` with the status updates as written. */
  function CheckFloodRiskAsWritten(sys: System, s: Store, draw: (string, nat) -> real, now: int,
                                   t: Transport, hooks: Webhooks): (r: PassResult)
    ensures |r.store| == |s| + |r.issued|
    ensures |r.deliveries| == |r.issued|
  {
    var (stored, issued) := Issue(s, CandidatesFor(sys, sys.districts, draw, now), now);
    if |issued| > 0 then
      var (sent, deliveries) := ProcessAlertsAsWritten(stored, issued, t, hooks);
      PassResult(sent, issued, deliveries)
    else PassResult(stored, issued, [])
  }

  /** Row `i` of the table a pass leaves before sending matches the `k`-th issued alert
      exactly when it is that alert's own row, provided the old rows are older than `now`
      and no two issued alerts share a district. */
  lemma MatchesOwnRow(s: Store, cands: seq<Alert>, now: int, k: nat, i: nat)
    requires Wellformed(s)
    requires forall c :: c in cands ==> c.timestamp == now
    requires forall i :: 0 <= i < |s| ==> s[i].timestamp < now
    requires var r := Issue(s, cands, now).1;
      forall j, k :: 0 <= j < k < |r| ==> r[j].alert.district != r[k].alert.district
    requires k < |Issue(s, cands, now).1| && i < |Issue(s, cands, now).0|
    ensures var r := Issue(s, cands, now);
      Matches(r.0[i], r.1[k].alert) <==> r.0[i].id == r.1[k].id
  {
    var r := Issue(s, cands, now);
    IssueAt(s, cands, now, k);
    if i < |s| {
      assert r.0[..|s|][i] == s[i];
    } else {
      IssuedRows(s, cands, now, i);
      IssueAt(s, cands, now, i - |s|);
    }
  }

  /** When the table holds nothing stamped `now` yet and the pass issues at most one
      alert per district, every alert's district and timestamp single out its own row,
      and the pass as written leaves the same table as the pass that marks by key. */
  lemma PassAsWrittenAgrees(sys: System, s: Store, draw: (string, nat) -> real, now: int,
                            t: Transport, hooks: Webhooks)
    requires Wellformed(s)
    requires forall i :: 0 <= i < |s| ==> s[i].timestamp < now
    requires var issued := CheckFloodRisk(sys, s, draw, now, t, hooks).issued;
      forall j, k :: 0 <= j < k < |issued| ==> issued[j].alert.district != issued[k].alert.district
    ensures CheckFloodRiskAsWritten(sys, s, draw, now, t, hooks) == CheckFloodRisk(sys, s, draw, now, t, hooks)
  {
    var cands := CandidatesFor(sys, sys.districts, draw, now);
    var r := Issue(s, cands, now);
    PassStages(sys, s, draw, now, t, hooks);
    if |r.1| > 0 {
      forall c | c in cands
        ensures c.timestamp == now
      {
        CandidatesSpec(sys, draw, now, c);
      }
      forall k, i | 0 <= k < |r.1| && 0 <= i < |r.0|
        ensures Matches(r.0[i], r.1[k].alert) <==> r.0[i].id == r.1[k].id
      {
        MatchesOwnRow(s, cands, now, k, i);
      }
      AsWrittenAgreesByKey(r.0, r.1, t, hooks);
    }
  }
}
