/** Sending a batch of new alerts: an e-mail for Orange and Red, a webhook post for every
    level that has a usable URL, and an emergency response plan per alert. Whether the
    SMTP session completes and what the HTTP post answers are oracles; a send that fails
    or raises sets no flag and does not hold up the other channel or the other alerts. */
module Dispatch {
  import opened Levels
  import opened AlertStore

  /** An alert together with the key of the row it was stored as. */
  datatype Issued = Issued(alert: Alert, id: nat)

  /** What the webhook post comes back with: a status code, or an exception. */
  datatype Reply = Status(code: int) | Raised

  /** The channel oracles: whether the e-mail for an alert goes out without an exception,
      and the reply to posting an alert to a URL. */
  datatype Transport = Transport(smtp: Alert -> bool, post: (string, Alert) -> Reply)

  type Webhooks = map<Level, string>

  /** The shipped webhook table: every URL is still a placeholder. */
  const DefaultWebhooks: Webhooks := map[
    Red := "https://hooks.slack.com/services/YOUR/RED/WEBHOOK",
    Orange := "https://hooks.slack.com/services/YOUR/ORANGE/WEBHOOK",
    Yellow := "https://hooks.slack.com/services/YOUR/YELLOW/WEBHOOK"]

  /** `sub` occurs in `s` starting at index `i`. */
  predicate OccursAt(s: string, sub: string, i: nat)
  {
    i + |sub| <= |s| && s[i..i + |sub|] == sub
  }

  /** Python's `sub in s` on strings. */
  predicate Contains(s: string, sub: string)
  {
    exists i :: 0 <= i <= |s| && OccursAt(s, sub, i)
  }

  /** A webhook is posted to only when its level has a URL that is non-empty and does not
      contain the placeholder marker "YOUR". */
  predicate WebhookConfigured(hooks: Webhooks, l: Level)
  {
    l in hooks && hooks[l] != "" && !Contains(hooks[l], "YOUR")
  }

  /** With the shipped table no level has a usable webhook. */
  lemma DefaultWebhooksUnconfigured(l: Level)
    ensures !WebhookConfigured(DefaultWebhooks, l)
  {
    if l in DefaultWebhooks {
      assert OccursAt(DefaultWebhooks[l], "YOUR", 33);
    }
  }

  // ---------------------------------------------------------------------------
  // Emergency response

  /** What `generate_emergency_response` writes out for one alert. */
  datatype ResponsePlan = ResponsePlan(alert: Alert, recommendations: seq<string>,
                                       contacts: seq<(string, string)>, shelters: seq<string>)

  /** The recommended actions per level; a level without an entry gets none. */
  function Recommendations(l: Level): seq<string>
  {
    match l
    case Red => ["Immediate evacuation of low-lying areas", "Deploy emergency response teams",
                 "Activate flood shelters", "Issue public warnings via all channels",
                 "Coordinate with local authorities and NGOs", "Ensure medical facilities are prepared"]
    case Orange => ["Alert emergency response teams", "Prepare flood shelters",
                    "Issue weather warnings to public", "Monitor water levels closely",
                    "Prepare evacuation routes"]
    case Yellow => ["Monitor weather conditions", "Issue advisory to residents",
                    "Check drainage systems", "Prepare emergency equipment"]
    case Unlisted(_) => []
  }

  const EmergencyContacts: seq<(string, string)> := [
    ("District Collector", "+91-XXX-XXXX-XXX"), ("Fire Department", "101"), ("Police", "100"),
    ("Ambulance", "108"), ("Disaster Management", "+91-XXX-XXXX-XXX")]

  /** The plan for alert `a`: the alert itself, the actions for its level, the fixed
      contacts, and two shelters named after its district. */
  function EmergencyResponse(a: Alert): (p: ResponsePlan)
    ensures p.alert == a && p.contacts == EmergencyContacts
    ensures p.recommendations == Recommendations(a.level)
    ensures |p.shelters| == 2
    ensures forall k :: 0 <= k < |p.shelters| ==>
      |p.shelters[k]| >= |a.district| && p.shelters[k][|p.shelters[k]| - |a.district|..] == a.district
  {
    ResponsePlan(a, Recommendations(a.level), EmergencyContacts,
                 ["Shelter location 1 in " + a.district, "Shelter location 2 in " + a.district])
  }

  /** A more severe level is given strictly more actions, and a level outside the table
      none at all. */
  lemma RecommendationsBySeverity(a: Level, b: Level)
    ensures a.Unlisted? ==> Recommendations(a) == []
    ensures !a.Unlisted? ==> |Recommendations(a)| == 4 + Rank(a)
    ensures !a.Unlisted? && !b.Unlisted? && Rank(a) < Rank(b) ==>
      |Recommendations(a)| < |Recommendations(b)|
  {
    RecommendationCount(a);
    RecommendationCount(b);
  }

  /** A plan lists four actions plus one per step of severity above Yellow, and none for
      a level outside the table; so a more severe alert's plan is strictly longer. */
  lemma PlanBySeverity(a: Alert, b: Alert)
    ensures a.level.Unlisted? ==> EmergencyResponse(a).recommendations == []
    ensures !a.level.Unlisted? ==> |EmergencyResponse(a).recommendations| == 4 + Rank(a.level)
    ensures !a.level.Unlisted? && !b.level.Unlisted? && Rank(a.level) < Rank(b.level) ==>
      |EmergencyResponse(a).recommendations| < |EmergencyResponse(b).recommendations|
  {
    RecommendationsBySeverity(a.level, b.level);
  }

  lemma RecommendationCount(l: Level)
    ensures |Recommendations(l)| == match l
      case Red => 6 case Orange => 5 case Yellow => 4 case Unlisted(_) => 0
  {
    match l
    case Red =>
    case Orange =>
    case Yellow =>
    case Unlisted(_) =>
  }

  // ---------------------------------------------------------------------------
  // Delivery

  /** What happened on each channel for one alert. `webhookPosted` says the URL was
      usable and the post was made. */
  datatype Delivery = Delivery(alert: Alert, emailAttempted: bool, emailSent: bool,
                               webhookPosted: bool, webhookSent: bool, plan: ResponsePlan)

  function Sent(d: Delivery, ch: Channel): bool
  {
    match ch
    case Email => d.emailSent
    case Webhook => d.webhookSent
  }

  /** One alert through `process_alerts`: the e-mail is tried for Orange and Red only and
      counts when the session completes; the webhook is tried for every alert, posts only
      to a usable URL, and counts only on status 200. */
  function DeliveryOf(a: Alert, t: Transport, hooks: Webhooks): Delivery
  {
    var emailAttempted := HighSeverity(a.level);
    var posted := WebhookConfigured(hooks, a.level);
    Delivery(a, emailAttempted, emailAttempted && t.smtp(a),
             posted, posted && t.post(hooks[a.level], a) == Status(200),
             EmergencyResponse(a))
  }

  /** A delivery is e-mailed exactly for Orange and Red alerts the SMTP session accepts,
      and web-hooked exactly when the level has a usable URL and the post answers 200;
      one channel's outcome never depends on the other's. */
  lemma DeliveryOfSpec(a: Alert, t: Transport, hooks: Webhooks)
    ensures var d := DeliveryOf(a, t, hooks);
      && d.alert == a && d.plan == EmergencyResponse(a)
      && (d.emailAttempted <==> a.level == Red || a.level == Orange)
      && (d.emailSent <==> d.emailAttempted && t.smtp(a))
      && (d.webhookPosted <==> WebhookConfigured(hooks, a.level))
      && (d.webhookSent <==> d.webhookPosted && t.post(hooks[a.level], a) == Status(200))
      && (forall t': Transport :: t'.smtp == t.smtp ==> DeliveryOf(a, t', hooks).emailSent == d.emailSent)
  {
  }

  /** Records the delivery of the alert stored under `id`: one mark per channel that
      went out. This is the corrected recording, which marks the alert's own row by key;
      `RecordAsWritten` is the update as the source writes it. */
  function Record(s: Store, id: nat, d: Delivery): Store
  {
    var s1 := if d.emailSent then MarkDelivered(s, id, Email) else s;
    if d.webhookSent then MarkDelivered(s1, id, Webhook) else s1
  }

  /** `process_alerts`, recording by key: each alert is delivered in turn; its delivery
      is decided by that alert and the oracles alone, so no failure holds up another
      alert. */
  function ProcessAlerts(s: Store, xs: seq<Issued>, t: Transport, hooks: Webhooks): (r: (Store, seq<Delivery>))
    ensures |r.0| == |s|
    ensures |r.1| == |xs|
    ensures forall k :: 0 <= k < |xs| ==> r.1[k] == DeliveryOf(xs[k].alert, t, hooks)
    decreases |xs|
  {
    if |xs| == 0 then (s, [])
    else
      var d := DeliveryOf(xs[0].alert, t, hooks);
      var rest := ProcessAlerts(Record(s, xs[0].id, d), xs[1..], t, hooks);
      (rest.0, [d] + rest.1)
  }

  /** `x` and `y` agree on every column except the two notification flags. */
  predicate SameColumns(x: AlertRow, y: AlertRow)
  {
    && x.id == y.id && x.timestamp == y.timestamp && x.district == y.district
    && x.latitude == y.latitude && x.longitude == y.longitude && x.level == y.level
    && x.confidence == y.confidence && x.dayAhead == y.dayAhead && x.active == y.active
  }

  /** Some alert of the batch was stored under `id` and went out on `ch`. */
  predicate DeliveredTo(xs: seq<Issued>, t: Transport, hooks: Webhooks, id: nat, ch: Channel)
  {
    exists k :: 0 <= k < |xs| && WentOut(xs[k], t, hooks, id, ch)
  }

  /** `x` was stored under `id` and went out on `ch`. */
  predicate WentOut(x: Issued, t: Transport, hooks: Webhooks, id: nat, ch: Channel)
  {
    x.id == id && Sent(DeliveryOf(x.alert, t, hooks), ch)
  }

  /** Recording one delivery keeps every column but the flags, and sets a flag of a row
      exactly when it was set before or the row is the alert's and the channel went out. */
  lemma RecordRow(s: Store, id: nat, d: Delivery, i: nat)
    requires i < |s|
    ensures |Record(s, id, d)| == |s|
    ensures SameColumns(Record(s, id, d)[i], s[i])
    ensures Record(s, id, d)[i].sentEmail == (s[i].sentEmail || (s[i].id == id && d.emailSent))
    ensures Record(s, id, d)[i].sentWebhook == (s[i].sentWebhook || (s[i].id == id && d.webhookSent))
  {
    var s1 := if d.emailSent then MarkDelivered(s, id, Email) else s;
    assert SameExceptFlag(s1[i], s[i], Email) && Flag(s1[i], Email) == (Flag(s[i], Email) || (s[i].id == id && d.emailSent));
  }

  /** After the batch every row keeps all columns but the flags, and a flag of a row is
      set exactly when it was set before or an alert of the batch stored under that row's
      key went out on that channel. */
  lemma {:induction false} ProcessAlertsRow(s: Store, xs: seq<Issued>, t: Transport, hooks: Webhooks,
                                            i: nat, ch: Channel)
    requires i < |s|
    ensures |ProcessAlerts(s, xs, t, hooks).0| == |s|
    ensures SameColumns(ProcessAlerts(s, xs, t, hooks).0[i], s[i])
    ensures Flag(ProcessAlerts(s, xs, t, hooks).0[i], ch) <==>
      Flag(s[i], ch) || DeliveredTo(xs, t, hooks, s[i].id, ch)
    decreases |xs|
  {
    if |xs| > 0 {
      var d := DeliveryOf(xs[0].alert, t, hooks);
      var s1 := Record(s, xs[0].id, d);
      RecordRow(s, xs[0].id, d, i);
      ProcessAlertsRow(s1, xs[1..], t, hooks, i, ch);
      DeliveredToCons(xs, t, hooks, s[i].id, ch);
    }
  }

  /** When no other alert of the batch shares the key of the `k`-th, that key is marked
      on a channel exactly when the `k`-th alert went out on it. */
  lemma DeliveredToOwnKey(xs: seq<Issued>, t: Transport, hooks: Webhooks, k: nat, ch: Channel)
    requires k < |xs|
    requires forall j :: 0 <= j < |xs| && xs[j].id == xs[k].id ==> j == k
    ensures DeliveredTo(xs, t, hooks, xs[k].id, ch) <==> Sent(DeliveryOf(xs[k].alert, t, hooks), ch)
  {
    assert WentOut(xs[k], t, hooks, xs[k].id, ch) <==> Sent(DeliveryOf(xs[k].alert, t, hooks), ch);
  }

  lemma DeliveredToCons(xs: seq<Issued>, t: Transport, hooks: Webhooks, id: nat, ch: Channel)
    requires |xs| > 0
    ensures DeliveredTo(xs, t, hooks, id, ch) <==>
      WentOut(xs[0], t, hooks, id, ch) || DeliveredTo(xs[1..], t, hooks, id, ch)
  {
    if DeliveredTo(xs[1..], t, hooks, id, ch) {
      var k :| 0 <= k < |xs[1..]| && WentOut(xs[1..][k], t, hooks, id, ch);
      assert xs[k + 1] == xs[1..][k];
    }
    if DeliveredTo(xs, t, hooks, id, ch) {
      var k :| 0 <= k < |xs| && WentOut(xs[k], t, hooks, id, ch);
      if k > 0 {
        assert xs[1..][k - 1] == xs[k];
      }
    }
  }

  // ---------------------------------------------------------------------------
  // Delivery as written

  /** Records the delivery of `a` as `update_alert_status` does: each channel that went
      out sets its flag on every row stamped with the alert's district and timestamp. */
  function RecordAsWritten(s: Store, a: Alert, d: Delivery): Store
  {
    var s1 := if d.emailSent then UpdateAlertStatus(s, a, Email, true) else s;
    if d.webhookSent then UpdateAlertStatus(s1, a, Webhook, true) else s1
  }

  /** `process_alerts` with the status updates as written. */
  function ProcessAlertsAsWritten(s: Store, xs: seq<Issued>, t: Transport, hooks: Webhooks): (r: (Store, seq<Delivery>))
    ensures |r.0| == |s|
    ensures |r.1| == |xs|
    ensures forall k :: 0 <= k < |xs| ==> r.1[k] == DeliveryOf(xs[k].alert, t, hooks)
    decreases |xs|
  {
    if |xs| == 0 then (s, [])
    else
      var d := DeliveryOf(xs[0].alert, t, hooks);
      var rest := ProcessAlertsAsWritten(RecordAsWritten(s, xs[0].alert, d), xs[1..], t, hooks);
      (rest.0, [d] + rest.1)
  }

  /** Row `r` carries the district and the timestamp of alert `a`: the WHERE clause of the
      status update. */
  predicate Matches(r: AlertRow, a: Alert)
  {
    r.district == a.district && r.timestamp == a.timestamp
  }

  /** Some alert of the batch stamped `ts` for `district` went out on `ch`. */
  predicate DeliveredAt(xs: seq<Issued>, t: Transport, hooks: Webhooks, district: string, ts: int,
                        ch: Channel)
  {
    exists k :: 0 <= k < |xs| && WentOutAt(xs[k], t, hooks, district, ts, ch)
  }

  predicate WentOutAt(x: Issued, t: Transport, hooks: Webhooks, district: string, ts: int, ch: Channel)
  {
    x.alert.district == district && x.alert.timestamp == ts && Sent(DeliveryOf(x.alert, t, hooks), ch)
  }

  lemma DeliveredAtCons(xs: seq<Issued>, t: Transport, hooks: Webhooks, district: string, ts: int,
                        ch: Channel)
    requires |xs| > 0
    ensures DeliveredAt(xs, t, hooks, district, ts, ch) <==>
      WentOutAt(xs[0], t, hooks, district, ts, ch) || DeliveredAt(xs[1..], t, hooks, district, ts, ch)
  {
    if DeliveredAt(xs[1..], t, hooks, district, ts, ch) {
      var k :| 0 <= k < |xs[1..]| && WentOutAt(xs[1..][k], t, hooks, district, ts, ch);
      assert xs[k + 1] == xs[1..][k];
    }
    if DeliveredAt(xs, t, hooks, district, ts, ch) {
      var k :| 0 <= k < |xs| && WentOutAt(xs[k], t, hooks, district, ts, ch);
      if k > 0 {
        assert xs[1..][k - 1] == xs[k];
      }
    }
  }

  /** Recording one delivery as written keeps every column but the flags, and sets a flag
      of a row exactly when it was set before or the row matches the alert and the channel
      went out. */
  lemma RecordAsWrittenRow(s: Store, a: Alert, d: Delivery, i: nat)
    requires i < |s|
    ensures |RecordAsWritten(s, a, d)| == |s|
    ensures SameColumns(RecordAsWritten(s, a, d)[i], s[i])
    ensures RecordAsWritten(s, a, d)[i].sentEmail == (s[i].sentEmail || (Matches(s[i], a) && d.emailSent))
    ensures RecordAsWritten(s, a, d)[i].sentWebhook == (s[i].sentWebhook || (Matches(s[i], a) && d.webhookSent))
  {
    var s1 := if d.emailSent then UpdateAlertStatus(s, a, Email, true) else s;
    assert SameExceptFlag(s1[i], s[i], Email) && Flag(s1[i], Email) == (Flag(s[i], Email) || (Matches(s[i], a) && d.emailSent));
  }

  /** After the batch as written every row keeps all columns but the flags, and a flag of
      a row is set exactly when it was set before or an alert of the batch with the row's
      district and timestamp went out on that channel, whichever row that alert was
      stored as. */
  lemma {:induction false} ProcessAlertsAsWrittenRow(s: Store, xs: seq<Issued>, t: Transport,
                                                     hooks: Webhooks, i: nat, ch: Channel)
    requires i < |s|
    ensures SameColumns(ProcessAlertsAsWritten(s, xs, t, hooks).0[i], s[i])
    ensures Flag(ProcessAlertsAsWritten(s, xs, t, hooks).0[i], ch) <==>
      Flag(s[i], ch) || DeliveredAt(xs, t, hooks, s[i].district, s[i].timestamp, ch)
    decreases |xs|
  {
    if |xs| > 0 {
      var d := DeliveryOf(xs[0].alert, t, hooks);
      var s1 := RecordAsWritten(s, xs[0].alert, d);
      RecordAsWrittenRow(s, xs[0].alert, d, i);
      ProcessAlertsAsWrittenRow(s1, xs[1..], t, hooks, i, ch);
      DeliveredAtCons(xs, t, hooks, s[i].district, s[i].timestamp, ch);
    }
  }

  /** When every alert of the batch matches exactly the row stored under its key, the
      updates as written and the marks by key leave the same table. */
  lemma AsWrittenAgreesByKey(s: Store, xs: seq<Issued>, t: Transport, hooks: Webhooks)
    requires forall k, i :: 0 <= k < |xs| && 0 <= i < |s| ==>
      (Matches(s[i], xs[k].alert) <==> s[i].id == xs[k].id)
    ensures ProcessAlertsAsWritten(s, xs, t, hooks) == ProcessAlerts(s, xs, t, hooks)
  {
    var u := ProcessAlertsAsWritten(s, xs, t, hooks).0;
    var m := ProcessAlerts(s, xs, t, hooks).0;
    forall i | 0 <= i < |s|
      ensures u[i] == m[i]
    {
      AsWrittenRowAgrees(s, xs, t, hooks, i);
    }
    assert u == m;
    assert ProcessAlertsAsWritten(s, xs, t, hooks).1 == ProcessAlerts(s, xs, t, hooks).1;
  }

  lemma AsWrittenRowAgrees(s: Store, xs: seq<Issued>, t: Transport, hooks: Webhooks, i: nat)
    requires i < |s|
    requires forall k :: 0 <= k < |xs| ==> (Matches(s[i], xs[k].alert) <==> s[i].id == xs[k].id)
    ensures ProcessAlertsAsWritten(s, xs, t, hooks).0[i] == ProcessAlerts(s, xs, t, hooks).0[i]
  {
    var u := ProcessAlertsAsWritten(s, xs, t, hooks).0[i];
    var m := ProcessAlerts(s, xs, t, hooks).0[i];
    assert forall ch: Channel, k :: 0 <= k < |xs| ==>
      (WentOutAt(xs[k], t, hooks, s[i].district, s[i].timestamp, ch) <==> WentOut(xs[k], t, hooks, s[i].id, ch));
    ProcessAlertsAsWrittenRow(s, xs, t, hooks, i, Email);
    ProcessAlertsRow(s, xs, t, hooks, i, Email);
    ProcessAlertsAsWrittenRow(s, xs, t, hooks, i, Webhook);
    ProcessAlertsRow(s, xs, t, hooks, i, Webhook);
    assert u.sentEmail == m.sentEmail && u.sentWebhook == m.sentWebhook;
  }

  /** The batch preserves the key of every row. */
  lemma ProcessAlertsWellformed(s: Store, xs: seq<Issued>, t: Transport, hooks: Webhooks)
    requires Wellformed(s)
    ensures Wellformed(ProcessAlerts(s, xs, t, hooks).0)
  {
    forall i | 0 <= i < |s|
      ensures ProcessAlerts(s, xs, t, hooks).0[i].id == i + 1
    {
      ProcessAlertsRow(s, xs, t, hooks, i, Email);
    }
  }

  /** The e-mail flags after a batch do not depend on what the webhooks answer, and the
      webhook flags do not depend on whether the e-mails went out. */
  lemma ChannelsIndependent(s: Store, xs: seq<Issued>, t1: Transport, t2: Transport, hooks: Webhooks,
                            i: nat)
    requires i < |s|
    ensures t1.smtp == t2.smtp ==>
      ProcessAlerts(s, xs, t1, hooks).0[i].sentEmail == ProcessAlerts(s, xs, t2, hooks).0[i].sentEmail
    ensures t1.post == t2.post ==>
      ProcessAlerts(s, xs, t1, hooks).0[i].sentWebhook == ProcessAlerts(s, xs, t2, hooks).0[i].sentWebhook
  {
    ProcessAlertsRow(s, xs, t1, hooks, i, Email);
    ProcessAlertsRow(s, xs, t2, hooks, i, Email);
    ProcessAlertsRow(s, xs, t1, hooks, i, Webhook);
    ProcessAlertsRow(s, xs, t2, hooks, i, Webhook);
    if t1.smtp == t2.smtp {
      assert forall k :: 0 <= k < |xs| ==>
        DeliveryOf(xs[k].alert, t1, hooks).emailSent == DeliveryOf(xs[k].alert, t2, hooks).emailSent;
    }
    if t1.post == t2.post {
      assert forall k :: 0 <= k < |xs| ==>
        DeliveryOf(xs[k].alert, t1, hooks).webhookSent == DeliveryOf(xs[k].alert, t2, hooks).webhookSent;
    }
  }

  /** With the shipped webhook table nothing is ever posted and no webhook flag changes. */
  lemma DefaultWebhooksNeverPost(s: Store, xs: seq<Issued>, t: Transport, i: nat)
    requires i < |s|
    ensures forall k :: 0 <= k < |xs| ==> !ProcessAlerts(s, xs, t, DefaultWebhooks).1[k].webhookPosted
    ensures ProcessAlerts(s, xs, t, DefaultWebhooks).0[i].sentWebhook == s[i].sentWebhook
  {
    forall k | 0 <= k < |xs|
      ensures !ProcessAlerts(s, xs, t, DefaultWebhooks).1[k].webhookPosted
    {
      DefaultWebhooksUnconfigured(xs[k].alert.level);
    }
    ProcessAlertsRow(s, xs, t, DefaultWebhooks, i, Webhook);
    forall k | 0 <= k < |xs|
      ensures !DeliveryOf(xs[k].alert, t, DefaultWebhooks).webhookSent
    {
      DefaultWebhooksUnconfigured(xs[k].alert.level);
    }
  }
}
