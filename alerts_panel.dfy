/**
  The HR dashboard's alerts panel: the alert list, the three handlers that
  replace it (mark one alert read, dismiss one, mark all read), the unread
  count with its badge, and the style of each alert type.
*/
module AlertsPanel {
  import opened Common
  import TimeAgo

  /** An alert; `timestamp` is in milliseconds. */
  datatype Alert = Alert(id: int, kind: string, title: string, message: string, timestamp: int, isRead: bool, employeeId: string)

  predicate IsUnread(a: Alert) { !a.isRead }

  /** `alerts.filter(alert => !alert.isRead).length`. */
  function UnreadCount(alerts: seq<Alert>): (c: nat)
    ensures c <= |alerts|
    ensures c == 0 <==> forall i :: 0 <= i < |alerts| ==> alerts[i].isRead
  {
    var unread := Filter(alerts, IsUnread);
    if |unread| > 0 then
      assert unread[0] in unread;
      |unread|
    else
      assert forall i :: 0 <= i < |alerts| ==> alerts[i] !in unread;
      0
  }

  /** `markAsRead(id)`: the alerts with that id are read; nothing else changes. */
  function MarkAsRead(alerts: seq<Alert>, id: int): (r: seq<Alert>)
    ensures |r| == |alerts|
    ensures forall i :: 0 <= i < |r| ==>
      (r[i].isRead <==> alerts[i].isRead || alerts[i].id == id) && r[i].(isRead := alerts[i].isRead) == alerts[i]
  {
    if alerts == [] then []
    else
      var a := alerts[0];
      [if a.id == id then a.(isRead := true) else a] + MarkAsRead(alerts[1..], id)
  }

  /**
    Marking an alert read never raises the unread count, and lowers it
    when an unread alert carries that id.
  */
  lemma {:induction false} MarkAsReadLowersUnread(alerts: seq<Alert>, id: int)
    ensures UnreadCount(MarkAsRead(alerts, id)) <= UnreadCount(alerts)
    ensures (exists i :: 0 <= i < |alerts| && alerts[i].id == id && !alerts[i].isRead) ==>
      UnreadCount(MarkAsRead(alerts, id)) < UnreadCount(alerts)
  {
    if alerts != [] {
      var r := MarkAsRead(alerts, id);
      MarkAsReadLowersUnread(alerts[1..], id);
      assert r[1..] == MarkAsRead(alerts[1..], id);
      UnreadStep(r);
      UnreadStep(alerts);
      assert IsUnread(r[0]) ==> IsUnread(alerts[0]);
      if exists i :: 0 <= i < |alerts| && alerts[i].id == id && !alerts[i].isRead {
        var i :| 0 <= i < |alerts| && alerts[i].id == id && !alerts[i].isRead;
        if i == 0 {
          assert IsUnread(alerts[0]) && !IsUnread(r[0]);
        } else {
          assert alerts[1..][i - 1] == alerts[i];
        }
      }
    }
  }

  /** The unread count of a list is its head's contribution plus the count of the rest. */
  lemma UnreadStep(alerts: seq<Alert>)
    requires alerts != []
    ensures UnreadCount(alerts) == (if IsUnread(alerts[0]) then 1 else 0) + UnreadCount(alerts[1..])
  {
    FilterStep(alerts, IsUnread);
  }

  /** Marking the same alert read twice is marking it once. */
  lemma MarkAsReadIdempotent(alerts: seq<Alert>, id: int)
    ensures MarkAsRead(MarkAsRead(alerts, id), id) == MarkAsRead(alerts, id)
  {
    var once := MarkAsRead(alerts, id);
    var twice := MarkAsRead(once, id);
    forall i | 0 <= i < |once|
      ensures twice[i] == once[i]
    {
      assert twice[i].(isRead := once[i].isRead) == once[i];
    }
  }

  /** The predicate `dismissAlert` filters with. */
  function KeepOthers(id: int): Alert -> bool
  {
    (a: Alert) => a.id != id
  }

  /** `dismissAlert(id)`: the alerts without that id, in their order. */
  function Dismiss(alerts: seq<Alert>, id: int): (r: seq<Alert>)
    ensures forall a :: a in r <==> a in alerts && a.id != id
  {
    Filter(alerts, KeepOthers(id))
  }

  /**
    Dismissing removes exactly the alerts with that id: every other alert
    stays, as often as it was there, and the order is kept.
  */
  lemma DismissKeepsOthers(alerts: seq<Alert>, id: int, a: Alert)
    ensures IsSubseq(Dismiss(alerts, id), alerts)
    ensures multiset(Dismiss(alerts, id))[a] == if a.id == id then 0 else multiset(alerts)[a]
  {
    FilterIsSubseq(alerts, KeepOthers(id));
    FilterMultiset(alerts, KeepOthers(id), a);
  }

  /** `markAllAsRead`: every alert is read; nothing else changes. */
  function MarkAllAsRead(alerts: seq<Alert>): (r: seq<Alert>)
    ensures |r| == |alerts|
    ensures forall i :: 0 <= i < |r| ==> r[i].isRead && r[i].(isRead := alerts[i].isRead) == alerts[i]
  {
    if alerts == [] then [] else [alerts[0].(isRead := true)] + MarkAllAsRead(alerts[1..])
  }

  /** After marking all read nothing is unread, so the badge and the button disappear; doing it again changes nothing. */
  lemma MarkAllClearsUnread(alerts: seq<Alert>)
    ensures UnreadCount(MarkAllAsRead(alerts)) == 0
    ensures !BadgeShown(MarkAllAsRead(alerts))
    ensures MarkAllAsRead(MarkAllAsRead(alerts)) == MarkAllAsRead(alerts)
  {
    var once := MarkAllAsRead(alerts);
    var twice := MarkAllAsRead(once);
    forall i | 0 <= i < |once|
      ensures twice[i] == once[i]
    {
      assert twice[i].(isRead := once[i].isRead) == once[i];
    }
  }

  /** Marking all read is marking each alert read, one id after the other. */
  lemma {:induction false} MarkAllIsEveryMark(alerts: seq<Alert>, ids: seq<int>)
    requires forall i :: 0 <= i < |alerts| ==> alerts[i].id in ids
    ensures MarkEach(alerts, ids) == MarkAllAsRead(alerts)
    decreases |ids|
  {
    var r := MarkEach(alerts, ids);
    MarkEachMarks(alerts, ids);
    var all := MarkAllAsRead(alerts);
    forall i | 0 <= i < |r|
      ensures r[i] == all[i]
    {
      assert r[i].(isRead := alerts[i].isRead) == alerts[i];
      assert all[i].(isRead := alerts[i].isRead) == alerts[i];
    }
  }

  /** `markAsRead` applied for each id in turn. */
  function MarkEach(alerts: seq<Alert>, ids: seq<int>): seq<Alert>
    decreases |ids|
  {
    if ids == [] then alerts else MarkEach(MarkAsRead(alerts, ids[0]), ids[1..])
  }

  lemma {:induction false} MarkEachMarks(alerts: seq<Alert>, ids: seq<int>)
    ensures |MarkEach(alerts, ids)| == |alerts|
    ensures forall i :: 0 <= i < |alerts| ==>
      var r := MarkEach(alerts, ids);
      (r[i].isRead <==> alerts[i].isRead || alerts[i].id in ids) && r[i].(isRead := alerts[i].isRead) == alerts[i]
    decreases |ids|
  {
    if ids != [] {
      var m := MarkAsRead(alerts, ids[0]);
      MarkEachMarks(m, ids[1..]);
      var r := MarkEach(alerts, ids);
      forall i | 0 <= i < |alerts|
        ensures (r[i].isRead <==> alerts[i].isRead || alerts[i].id in ids) && r[i].(isRead := alerts[i].isRead) == alerts[i]
      {
        assert ids == [ids[0]] + ids[1..];
        assert m[i].(isRead := alerts[i].isRead) == alerts[i];
        assert r[i].(isRead := m[i].isRead) == m[i];
      }
    }
  }

  /** The unread badge and the "mark all read" button appear only with unread alerts. */
  predicate BadgeShown(alerts: seq<Alert>)
  {
    UnreadCount(alerts) > 0
  }

  /** The per-alert "mark read" button appears only on an unread alert. */
  predicate MarkReadButtonShown(a: Alert)
  {
    !a.isRead
  }

  /** The icon, text colour and background of an alert type. */
  datatype Style = Style(icon: string, color: string, background: string)

  const DefaultStyle := Style("Bell", "text-muted-foreground", "bg-muted/10")

  /** `getAlertIcon`, `getAlertColor` and `getAlertBgColor`; an unknown type gets the muted bell. */
  function AlertStyle(kind: string): (s: Style)
    ensures s == DefaultStyle <==> kind !in {"error", "warning", "info"}
    ensures kind == "error" ==> s.icon == "AlertCircle" && s.color == "text-destructive"
    ensures kind == "warning" ==> s.icon == "AlertTriangle" && s.color == "text-warning"
    ensures kind == "info" ==> s.icon == "Info" && s.color == "text-primary"
  {
    match kind
    case "error" => Style("AlertCircle", "text-destructive", "bg-destructive/10")
    case "warning" => Style("AlertTriangle", "text-warning", "bg-warning/10")
    case "info" => Style("Info", "text-primary", "bg-primary/10")
    case _ => DefaultStyle
  }

  /** The panel's four alerts at mount, at time `now`. */
  function InitialAlerts(now: int): (r: seq<Alert>)
    ensures |r| == 4
  {
    [ Alert(1, "warning", "Retards Fréquents", "Jean Martin a été en retard 3 fois cette semaine", now - 1800000, false, "EMP002"),
      Alert(2, "error", "Absence Non Justifiée", "Paul Durand absent depuis 2 jours sans notification", now - 3600000, false, "EMP015"),
      Alert(3, "info", "Nouveau Employé", "Sophie Laurent a été ajoutée au système", now - 7200000, true, "EMP003"),
      Alert(4, "warning", "Heures Supplémentaires", "Marie Dubois: 12h de travail aujourd'hui", now - 10800000, false, "EMP001") ]
  }

  /** Three of the four initial alerts are unread, and they are labelled 30 min, 1 h, 2 h and 3 h old. */
  lemma InitialPanel(now: int)
    ensures UnreadCount(InitialAlerts(now)) == 3
    ensures var a := InitialAlerts(now);
      TimeAgo.AgoOf(now - a[0].timestamp) == TimeAgo.Minutes(30)
      && TimeAgo.AgoOf(now - a[1].timestamp) == TimeAgo.Hours(1)
      && TimeAgo.AgoOf(now - a[2].timestamp) == TimeAgo.Hours(2)
      && TimeAgo.AgoOf(now - a[3].timestamp) == TimeAgo.Hours(3)
  {
    InitialUnread(InitialAlerts(now));
    InitialAges(now);
  }

  lemma InitialUnread(a: seq<Alert>)
    requires |a| == 4 && !a[0].isRead && !a[1].isRead && a[2].isRead && !a[3].isRead
    ensures UnreadCount(a) == 3
  {
    var s1, s2, s3 := a[1..], a[2..], a[3..];
    assert s1[1..] == s2 && s2[1..] == s3 && s3[1..] == [];
    FilterStep(s3, IsUnread);
    FilterStep(s2, IsUnread);
    FilterStep(s1, IsUnread);
    FilterStep(a, IsUnread);
    assert Filter(a, IsUnread) == [a[0], a[1], a[3]];
  }

  lemma InitialAges(now: int)
    ensures var a := InitialAlerts(now);
      TimeAgo.AgoOf(now - a[0].timestamp) == TimeAgo.Minutes(30)
      && TimeAgo.AgoOf(now - a[1].timestamp) == TimeAgo.Hours(1)
      && TimeAgo.AgoOf(now - a[2].timestamp) == TimeAgo.Hours(2)
      && TimeAgo.AgoOf(now - a[3].timestamp) == TimeAgo.Hours(3)
  {
  }

  /** The panel's state: the alert list, replaced by each handler. */
  class AlertsPanelState {
    var alerts: seq<Alert>

    constructor (now: int)
      ensures alerts == InitialAlerts(now)
    {
      alerts := InitialAlerts(now);
    }

    method MarkAsReadClick(id: int)
      modifies this
      ensures alerts == MarkAsRead(old(alerts), id)
    {
      alerts := MarkAsRead(alerts, id);
    }

    method DismissClick(id: int)
      modifies this
      ensures alerts == Dismiss(old(alerts), id)
    {
      alerts := Dismiss(alerts, id);
    }

    method MarkAllClick()
      modifies this
      ensures alerts == MarkAllAsRead(old(alerts))
    {
      alerts := MarkAllAsRead(alerts);
    }
  }
}
