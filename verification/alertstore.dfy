/** The alerts table as a sequence of rows in insertion order, with the queries and the
    updates the alert system runs against it. Timestamps are seconds on a single clock. */
module AlertStore {
  import opened Levels
  import opened Counting

  /** A stored alert suppresses a repeat for six hours. */
  const SuppressionWindow: int := 6 * 3600

  /** The span of the "recent alerts" query: 24 hours. */
  const RecentWindow: int := 24 * 3600

  /** The span of the per-level and per-district counts: 7 days. */
  const StatisticsWindow: int := 7 * 24 * 3600

  /** An alert as the monitoring pass builds it from one forecast step. */
  datatype Alert = Alert(timestamp: int, district: string, latitude: real, longitude: real,
                         level: Level, confidence: real, dayAhead: int, probabilities: seq<real>)

  /** One row of the `alerts` table. */
  datatype AlertRow = AlertRow(id: nat, timestamp: int, district: string, latitude: real,
                               longitude: real, level: Level, confidence: real, dayAhead: int,
                               sentEmail: bool, sentWebhook: bool, active: bool)

  type Store = seq<AlertRow>

  /** The notification channels; each has its own `sent_<channel>` column. */
  datatype Channel = Email | Webhook

  /** Rows are never deleted, so the auto-increment key of row `i` is `i + 1`. */
  predicate Wellformed(s: Store)
  {
    forall i :: 0 <= i < |s| ==> s[i].id == i + 1
  }

  // ---------------------------------------------------------------------------
  // Deduplication

  /** Row `r` makes `a` a repeat at time `now`: same district, same level, still active,
      and strictly newer than six hours before `now`. */
  predicate Suppresses(r: AlertRow, a: Alert, now: int)
  {
    r.district == a.district && r.level == a.level && r.active &&
    r.timestamp > now - SuppressionWindow
  }

  /** The `COUNT(*)` of the deduplication query. */
  function CountSuppressing(s: Store, a: Alert, now: int): nat
    decreases |s|
  {
    if |s| == 0 then 0
    else CountSuppressing(s[..|s| - 1], a, now) + (if Suppresses(s[|s| - 1], a, now) then 1 else 0)
  }

  /** `is_new_alert`: the count of suppressing rows is zero. */
  function IsNewAlert(s: Store, a: Alert, now: int): bool
  {
    CountSuppressing(s, a, now) == 0
  }

  /** An alert is new exactly when no stored row suppresses it. */
  lemma {:induction false} IsNewAlertSpec(s: Store, a: Alert, now: int)
    ensures IsNewAlert(s, a, now) <==> forall i :: 0 <= i < |s| ==> !Suppresses(s[i], a, now)
    decreases |s|
  {
    if |s| > 0 {
      var init := s[..|s| - 1];
      IsNewAlertSpec(init, a, now);
      assert forall i :: 0 <= i < |init| ==> init[i] == s[i];
    }
  }

  /** A matching row exactly six hours old no longer suppresses; one a second younger does. */
  lemma SuppressionBoundary(r: AlertRow, a: Alert, now: int)
    requires r.district == a.district && r.level == a.level && r.active
    ensures r.timestamp == now - SuppressionWindow ==> IsNewAlert([r], a, now)
    ensures r.timestamp == now - SuppressionWindow + 1 ==> !IsNewAlert([r], a, now)
  {
    assert [r][..0] == [];
  }

  // ---------------------------------------------------------------------------
  // Insertion

  /** The row `store_alert` inserts: both notification flags clear, active. */
  function NewRow(id: nat, a: Alert): AlertRow
  {
    AlertRow(id, a.timestamp, a.district, a.latitude, a.longitude, a.level, a.confidence,
             a.dayAhead, false, false, true)
  }

  /** `store_alert` appends exactly one row, which carries the alert's fields and the next
      key, and leaves every existing row as it was. */
  function StoreAlert(s: Store, a: Alert): (r: Store)
    ensures |r| == |s| + 1
    ensures r[..|s|] == s
    ensures r[|s|].id == |s| + 1
    ensures r[|s|].timestamp == a.timestamp && r[|s|].district == a.district
    ensures r[|s|].latitude == a.latitude && r[|s|].longitude == a.longitude
    ensures r[|s|].level == a.level && r[|s|].confidence == a.confidence
    ensures r[|s|].dayAhead == a.dayAhead
    ensures !r[|s|].sentEmail && !r[|s|].sentWebhook && r[|s|].active
    ensures Wellformed(s) ==> Wellformed(r)
  {
    s + [NewRow(|s| + 1, a)]
  }

  /** Once an alert stamped within the last six hours is stored, every alert for the same
      district and level is a repeat; alerts for any other district or level keep their
      verdict. */
  lemma StoreAlertSuppresses(s: Store, a: Alert, b: Alert, now: int)
    requires a.timestamp > now - SuppressionWindow
    ensures a.district == b.district && a.level == b.level ==> !IsNewAlert(StoreAlert(s, a), b, now)
    ensures a.district != b.district || a.level != b.level ==>
      IsNewAlert(StoreAlert(s, a), b, now) == IsNewAlert(s, b, now)
  {
    var r := StoreAlert(s, a);
    assert r[..|r| - 1] == s;
  }

  /** Appending rows never turns a repeat into a new alert. */
  lemma StaysSuppressed(s: Store, t: Store, a: Alert, now: int)
    requires |s| <= |t| && t[..|s|] == s
    requires !IsNewAlert(s, a, now)
    ensures !IsNewAlert(t, a, now)
  {
    IsNewAlertSpec(s, a, now);
    IsNewAlertSpec(t, a, now);
    var i :| 0 <= i < |s| && Suppresses(s[i], a, now);
    assert t[i] == t[..|s|][i];
  }

  // ---------------------------------------------------------------------------
  // Notification flags

  function Flag(r: AlertRow, ch: Channel): bool
  {
    match ch
    case Email => r.sentEmail
    case Webhook => r.sentWebhook
  }

  function SetFlag(r: AlertRow, ch: Channel, v: bool): AlertRow
  {
    match ch
    case Email => r.(sentEmail := v)
    case Webhook => r.(sentWebhook := v)
  }

  /** `x` and `y` agree on every column except `sent_<ch>`. */
  predicate SameExceptFlag(x: AlertRow, y: AlertRow, ch: Channel)
  {
    && x.id == y.id && x.timestamp == y.timestamp && x.district == y.district
    && x.latitude == y.latitude && x.longitude == y.longitude && x.level == y.level
    && x.confidence == y.confidence && x.dayAhead == y.dayAhead && x.active == y.active
    && (ch == Email ==> x.sentWebhook == y.sentWebhook)
    && (ch == Webhook ==> x.sentEmail == y.sentEmail)
  }

  /** `update_alert_status` as written: every row whose district and timestamp equal the
      alert's gets `sent_<ch>` set to `success`; no other column and no other row
      changes. */
  function UpdateAlertStatus(s: Store, a: Alert, ch: Channel, success: bool): (r: Store)
    ensures |r| == |s|
    ensures forall i :: 0 <= i < |s| ==> SameExceptFlag(r[i], s[i], ch)
    ensures forall i :: 0 <= i < |s| ==>
      Flag(r[i], ch) == if s[i].district == a.district && s[i].timestamp == a.timestamp
                        then success else Flag(s[i], ch)
  {
    seq(|s|, i requires 0 <= i < |s| =>
      if s[i].district == a.district && s[i].timestamp == a.timestamp then SetFlag(s[i], ch, success)
      else s[i])
  }

  /** Writing the same status twice leaves the table as writing it once. */
  lemma UpdateAlertStatusIdempotent(s: Store, a: Alert, ch: Channel, success: bool)
    ensures UpdateAlertStatus(UpdateAlertStatus(s, a, ch, success), a, ch, success) ==
      UpdateAlertStatus(s, a, ch, success)
  {
    var once := UpdateAlertStatus(s, a, ch, success);
    var twice := UpdateAlertStatus(once, a, ch, success);
    forall i | 0 <= i < |s|
      ensures twice[i] == once[i]
    {
      assert SameExceptFlag(twice[i], once[i], ch);
    }
  }

  /** Marks the row with key `id` as notified on `ch`: the row the alert was stored as. */
  function MarkDelivered(s: Store, id: nat, ch: Channel): (r: Store)
    ensures |r| == |s|
    ensures forall i :: 0 <= i < |s| ==> SameExceptFlag(r[i], s[i], ch)
    ensures forall i :: 0 <= i < |s| ==> Flag(r[i], ch) == (s[i].id == id || Flag(s[i], ch))
  {
    seq(|s|, i requires 0 <= i < |s| => if s[i].id == id then SetFlag(s[i], ch, true) else s[i])
  }

  /** In a well-formed table the mark lands on exactly one row: the one stored under `id`. */
  lemma MarkDeliveredOneRow(s: Store, id: nat, ch: Channel)
    requires Wellformed(s)
    requires 1 <= id <= |s|
    ensures Flag(MarkDelivered(s, id, ch)[id - 1], ch)
    ensures forall i :: 0 <= i < |s| && i != id - 1 ==> MarkDelivered(s, id, ch)[i] == s[i]
    ensures Wellformed(MarkDelivered(s, id, ch))
  {
    var r := MarkDelivered(s, id, ch);
    forall i | 0 <= i < |s| && i != id - 1
      ensures r[i] == s[i]
    {
      assert s[i].id != id;
    }
  }

  /** Marks commute: the order in which rows and channels are marked does not matter. */
  lemma MarkDeliveredCommutes(s: Store, id1: nat, ch1: Channel, id2: nat, ch2: Channel)
    ensures MarkDelivered(MarkDelivered(s, id1, ch1), id2, ch2) ==
      MarkDelivered(MarkDelivered(s, id2, ch2), id1, ch1)
  {
    var x := MarkDelivered(MarkDelivered(s, id1, ch1), id2, ch2);
    var y := MarkDelivered(MarkDelivered(s, id2, ch2), id1, ch1);
    forall i | 0 <= i < |s|
      ensures x[i] == y[i]
    {
      var a := MarkDelivered(s, id1, ch1);
      var b := MarkDelivered(s, id2, ch2);
      assert SameExceptFlag(a[i], s[i], ch1) && SameExceptFlag(b[i], s[i], ch2);
      assert SameExceptFlag(x[i], a[i], ch2) && SameExceptFlag(y[i], b[i], ch1);
    }
  }

  /** Where the alert's district and timestamp single out its own row, the update as
      written and the mark by key agree. */
  lemma UpdateMatchesMarkWhenUnique(s: Store, a: Alert, id: nat, ch: Channel)
    requires Wellformed(s)
    requires 1 <= id <= |s|
    requires s[id - 1].district == a.district && s[id - 1].timestamp == a.timestamp
    requires forall i :: 0 <= i < |s| && i != id - 1 ==>
      s[i].district != a.district || s[i].timestamp != a.timestamp
    ensures UpdateAlertStatus(s, a, ch, true) == MarkDelivered(s, id, ch)
  {
    var u := UpdateAlertStatus(s, a, ch, true);
    var m := MarkDelivered(s, id, ch);
    forall i | 0 <= i < |s|
      ensures u[i] == m[i]
    {
      assert SameExceptFlag(u[i], s[i], ch) && SameExceptFlag(m[i], s[i], ch);
    }
  }

  /** Two alerts for one district stamped in the same clock tick, one Red and one Orange:
      e-mailing the Red one marks the Orange row as e-mailed too, though it never was.
      The mark by key touches the Red row only. */
  lemma UpdateAlertStatusCollision()
    ensures var red := Alert(100, "Ernakulam", 9.9816, 76.2999, Red, 0.9, 1, [0.05, 0.05, 0.9]);
      var orange := Alert(100, "Ernakulam", 9.9816, 76.2999, Orange, 0.8, 2, [0.8, 0.1, 0.1]);
      var s := StoreAlert(StoreAlert([], red), orange);
      && UpdateAlertStatus(s, red, Email, true)[1].sentEmail
      && !MarkDelivered(s, 1, Email)[1].sentEmail
  {
  }

  // ---------------------------------------------------------------------------
  // Statistics

  /** The rows stamped strictly after `since`, in table order. */
  function Since(s: Store, since: int): Store
    decreases |s|
  {
    if |s| == 0 then []
    else Since(s[..|s| - 1], since) + (if s[|s| - 1].timestamp > since then [s[|s| - 1]] else [])
  }

  /** A row is listed exactly when it is in the table and stamped after `since`. */
  lemma {:induction false} SinceMembers(s: Store, since: int, r: AlertRow)
    ensures r in Since(s, since) <==> r in s && r.timestamp > since
    decreases |s|
  {
    if |s| > 0 {
      var init := s[..|s| - 1];
      SinceMembers(init, since, r);
      assert s == init + [s[|s| - 1]];
    }
  }

  /** The "recent alerts" query: the rows of the last 24 hours. */
  function RecentAlerts(s: Store, now: int): Store
  {
    Since(s, now - RecentWindow)
  }

  /** A row is a recent alert exactly when it is in the table and less than a day old. */
  lemma RecentAlertsSpec(s: Store, now: int, r: AlertRow)
    ensures r in RecentAlerts(s, now) <==> r in s && r.timestamp > now - 24 * 3600
  {
    SinceMembers(s, now - RecentWindow, r);
  }

  function LevelOf(r: AlertRow): Level
  {
    r.level
  }

  function DistrictOf(r: AlertRow): string
  {
    r.district
  }

  function KeysOf<K>(rows: Store, key: AlertRow -> K): seq<K>
  {
    seq(|rows|, i requires 0 <= i < |rows| => key(rows[i]))
  }

  /** The reference count: rows stamped after `since` whose key is `k`. */
  function CountWhere<K(==)>(s: Store, since: int, key: AlertRow -> K, k: K): nat
    decreases |s|
  {
    if |s| == 0 then 0
    else CountWhere(s[..|s| - 1], since, key, k) +
         (if s[|s| - 1].timestamp > since && key(s[|s| - 1]) == k then 1 else 0)
  }

  /** Counting the keys of the windowed rows is counting the rows of the table. */
  lemma {:induction false} CountsAgree<K>(s: Store, since: int, key: AlertRow -> K, k: K)
    ensures Occurrences(KeysOf(Since(s, since), key), k) == CountWhere(s, since, key, k)
    decreases |s|
  {
    if |s| > 0 {
      var init := s[..|s| - 1];
      var last := s[|s| - 1];
      CountsAgree(init, since, key, k);
      var ks := KeysOf(Since(init, since), key);
      if last.timestamp > since {
        assert KeysOf(Since(s, since), key) == ks + [key(last)];
        assert (ks + [key(last)])[..|ks|] == ks;
      } else {
        assert Since(s, since) == Since(init, since);
      }
    }
  }

  /** `alert_level, COUNT(*) ... GROUP BY alert_level` over the last 7 days. */
  function CountsByLevel(s: Store, now: int): seq<Entry<Level>>
  {
    TallyOf(KeysOf(Since(s, now - StatisticsWindow), LevelOf))
  }

  /** `district, COUNT(*) ... GROUP BY district` over the last 7 days. */
  function CountsByDistrict(s: Store, now: int): seq<Entry<string>>
  {
    TallyOf(KeysOf(Since(s, now - StatisticsWindow), DistrictOf))
  }

  /** Each group of the counts query carries the number of rows of the last 7 days in
      it, each group appears once, exactly the groups with a row appear, and the counts
      add up to the rows in the window. */
  lemma {:induction false} GroupCounts<K>(s: Store, now: int, key: AlertRow -> K)
    ensures var t := TallyOf(KeysOf(Since(s, now - StatisticsWindow), key));
      && (forall k :: Get(t, k) == CountWhere(s, now - StatisticsWindow, key, k))
      && DistinctKeys(t)
      && (forall k :: HasKey(t, k) <==> CountWhere(s, now - StatisticsWindow, key, k) >= 1)
      && Total(t) == |Since(s, now - StatisticsWindow)|
  {
    var ks := KeysOf(Since(s, now - StatisticsWindow), key);
    TallyCorrect(ks);
    forall k
      ensures Occurrences(ks, k) == CountWhere(s, now - StatisticsWindow, key, k)
    {
      CountsAgree(s, now - StatisticsWindow, key, k);
    }
  }

  /** The per-level counts of `get_alert_statistics`. */
  lemma CountsByLevelSpec(s: Store, now: int)
    ensures forall l :: Get(CountsByLevel(s, now), l) == CountWhere(s, now - StatisticsWindow, LevelOf, l)
    ensures DistinctKeys(CountsByLevel(s, now))
    ensures forall l :: HasKey(CountsByLevel(s, now), l) <==> CountWhere(s, now - StatisticsWindow, LevelOf, l) >= 1
    ensures Total(CountsByLevel(s, now)) == |Since(s, now - StatisticsWindow)|
  {
    GroupCounts(s, now, LevelOf);
  }

  /** The per-district counts of `get_alert_statistics`. */
  lemma CountsByDistrictSpec(s: Store, now: int)
    ensures forall d :: Get(CountsByDistrict(s, now), d) == CountWhere(s, now - StatisticsWindow, DistrictOf, d)
    ensures DistinctKeys(CountsByDistrict(s, now))
    ensures forall d :: HasKey(CountsByDistrict(s, now), d) <==> CountWhere(s, now - StatisticsWindow, DistrictOf, d) >= 1
    ensures Total(CountsByDistrict(s, now)) == |Since(s, now - StatisticsWindow)|
  {
    GroupCounts(s, now, DistrictOf);
  }
}
