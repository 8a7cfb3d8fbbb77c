/**
  The HR dashboard's recent clock-in/clock-out list: the icon, colour and
  text of each entry's action, and its "time ago" label.
*/
module HrRecentActivity {
  import TimeAgo

  /** An entry of the list; `timestamp` is in milliseconds. */
  datatype Entry = Entry(id: int, employeeName: string, employeeId: string, department: string, action: string, timestamp: int, isLate: bool)

  /** `getActionIcon`: clocked in, clocked out, or the neutral clock for any other action. */
  function ActionIcon(action: string): (icon: string)
    ensures icon == "LogIn" <==> action == "clockedIn"
    ensures icon == "LogOut" <==> action == "clockedOut"
    ensures icon == "Clock" <==> action !in {"clockedIn", "clockedOut"}
  {
    match action
    case "clockedIn" => "LogIn"
    case "clockedOut" => "LogOut"
    case _ => "Clock"
  }

  /** `getActionColor`: lateness wins over the action. */
  function ActionColor(action: string, isLate: bool): (color: string)
    ensures color == "text-warning" <==> isLate
    ensures !isLate && action == "clockedIn" ==> color == "text-success"
    ensures !isLate && action == "clockedOut" ==> color == "text-muted-foreground"
    ensures !isLate && action !in {"clockedIn", "clockedOut"} ==> color == "text-primary"
  {
    if isLate then "text-warning"
    else match action
      case "clockedIn" => "text-success"
      case "clockedOut" => "text-muted-foreground"
      case _ => "text-primary"
  }

  /** The words of one language that the action text uses. */
  datatype Words = Words(clockedIn: string, clockedOut: string, late: string)

  const French := Words("a pointé", "est sorti", "en retard")
  const English := Words("clocked in", "clocked out", "late")

  /**
    `getActionText`: "clocked in" only for 'clockedIn', "clocked out" for
    any other action, followed by " (late)" for a late entry.
  */
  function ActionText(action: string, isLate: bool, w: Words): (text: string)
  {
    var base := if action == "clockedIn" then w.clockedIn else w.clockedOut;
    if isLate then base + " (" + w.late + ")" else base
  }

  /** The late text is the on-time text followed by the lateness note. */
  lemma LateTextExtendsOnTime(action: string, w: Words)
    ensures var onTime := ActionText(action, false, w);
      ActionText(action, true, w) == onTime + " (" + w.late + ")"
      && onTime == (if action == "clockedIn" then w.clockedIn else w.clockedOut)
  {
  }

  /** In French and in English the on-time and late texts of an action differ, so lateness is always visible. */
  lemma LatenessVisible(action: string)
    ensures ActionText(action, true, French) != ActionText(action, false, French)
    ensures ActionText(action, true, English) != ActionText(action, false, English)
  {
    assert |ActionText(action, true, French)| > |ActionText(action, false, French)|;
    assert |ActionText(action, true, English)| > |ActionText(action, false, English)|;
  }

  /** The list shown, at time `now`. */
  function Entries(now: int): (r: seq<Entry>)
    ensures |r| == 5
  {
    [ Entry(1, "Fatima Zahrae Benjelloun", "EMP001", "Production", "clockedIn", now - 300000, false),
      Entry(2, "Zaid Mouhssine", "EMP002", "Service Informatique", "clockedIn", now - 900000, true),
      Entry(3, "Latifa Moutawakil", "EMP003", "Qualité", "clockedOut", now - 1800000, false),
      Entry(4, " Halima id Ouaksim", "EMP004", "Maintenance", "clockedIn", now - 2700000, false),
      Entry(5, "Fatima el Abadi", "EMP005", "Logistique", "clockedIn", now - 3600000, true) ]
  }

  /** The entries are labelled 5, 15, 30 and 45 minutes and one hour old. */
  lemma EntryLabels(now: int)
    ensures var e := Entries(now);
      TimeAgo.AgoOf(now - e[0].timestamp) == TimeAgo.Minutes(5)
      && TimeAgo.AgoOf(now - e[1].timestamp) == TimeAgo.Minutes(15)
      && TimeAgo.AgoOf(now - e[2].timestamp) == TimeAgo.Minutes(30)
      && TimeAgo.AgoOf(now - e[3].timestamp) == TimeAgo.Minutes(45)
      && TimeAgo.AgoOf(now - e[4].timestamp) == TimeAgo.Hours(1)
  {
  }
}
