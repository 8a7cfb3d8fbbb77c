/**
  The employee dashboard's recent-activity timeline: which activities are
  listed, the configuration of each activity type, the connector drawn
  between entries, the "how long ago" bucket of a timestamp and the icon
  of the recognition method.
*/
module ActivityTimeline {
  import opened Common

  /** An activity; `timestamp` is in milliseconds. */
  datatype Activity = Activity(id: int, kind: string, timestamp: int, location: string, via: string)

  /** The four configurations of `getActivityConfig`. */
  datatype ActivityConfig = ClockInConfig | ClockOutConfig | BreakConfig | ResumeConfig

  /** The configuration of a type; an unknown type is shown as a clock-in. */
  function ConfigFor(kind: string): (c: ActivityConfig)
    ensures c == ClockOutConfig <==> kind == "clock_out"
    ensures c == BreakConfig <==> kind == "break"
    ensures c == ResumeConfig <==> kind == "resume"
    ensures c == ClockInConfig <==> kind !in {"clock_out", "break", "resume"}
  {
    match kind
    case "clock_in" => ClockInConfig
    case "clock_out" => ClockOutConfig
    case "break" => BreakConfig
    case "resume" => ResumeConfig
    case _ => ClockInConfig
  }

  function ConfigIcon(c: ActivityConfig): string
  {
    match c
    case ClockInConfig => "LogIn"
    case ClockOutConfig => "LogOut"
    case BreakConfig => "Coffee"
    case ResumeConfig => "Play"
  }

  /** The four configurations have four different icons, so the icon tells the type. */
  lemma ConfigIconsDistinct(c: ActivityConfig, d: ActivityConfig)
    ensures ConfigIcon(c) == ConfigIcon(d) <==> c == d
  {
  }

  /** The mock activities of the component, relative to the current time. */
  function MockActivities(now: int): (r: seq<Activity>)
    ensures |r| == 5
  {
    [ Activity(1, "clock_in", now - 2 * MsPerHour, "Bureau Principal", "facial_recognition"),
      Activity(2, "break", now - MsPerHour, "Salle de Pause", "manual"),
      Activity(3, "resume", now - 30 * MsPerMinute, "Bureau Principal", "facial_recognition"),
      Activity(4, "clock_out", now - 24 * MsPerHour, "Bureau Principal", "facial_recognition"),
      Activity(5, "clock_in", now - 25 * MsPerHour, "Bureau Principal", "facial_recognition") ]
  }

  /** `displayActivities.slice(0, 5)`. */
  function Shown(display: seq<Activity>): (r: seq<Activity>)
    ensures |r| == if |display| < 5 then |display| else 5
    ensures forall i :: 0 <= i < |r| ==> r[i] == display[i]
  {
    if |display| < 5 then display else display[..5]
  }

  /** The entries listed for the given activities at time `now`. */
  function Listed(activities: seq<Activity>, now: int): seq<Activity>
  {
    Shown(NonEmptyOr(activities, MockActivities(now)))
  }

  /**
    The list holds the first five given activities, or the mock ones when
    none is given; it is therefore never empty, and the "no activity"
    panel is never shown.
  */
  lemma ListedActivities(activities: seq<Activity>, now: int)
    ensures |activities| > 0 ==> Listed(activities, now) == activities[..if |activities| < 5 then |activities| else 5]
    ensures |activities| == 0 ==> Listed(activities, now) == MockActivities(now)
    ensures |Listed(activities, now)| > 0
  {
    var r := Listed(activities, now);
    if |activities| > 0 {
      assert r == activities[..|r|];
    }
  }

  /** The connector under entry `index` of the shown list (`!isLast`). */
  predicate HasConnector(shown: seq<Activity>, index: nat)
  {
    index != |shown| - 1
  }

  /** Every shown entry but the last has a connector, and the last has none. */
  lemma ConnectorsBetweenEntries(shown: seq<Activity>)
    requires |shown| > 0
    ensures !HasConnector(shown, |shown| - 1)
    ensures forall i :: 0 <= i < |shown| - 1 ==> HasConnector(shown, i)
  {
  }

  const MsPerMinute := 60000
  const MsPerHour := 3600000

  /** The four ways `formatTime` writes a timestamp `diff` milliseconds in the past. */
  datatype TimeBucket = MinutesAgo(minutes: int) | TimeOfDay | YesterdayAt | DateAndTime

  /**
    The bucket of an activity `diff` milliseconds old: under an hour the
    whole minutes (`Math.floor`, so a future timestamp gives a negative
    count), under a day the time, under two days "yesterday" and the time,
    otherwise the date.
  */
  function Bucket(diff: int): (b: TimeBucket)
    ensures b.MinutesAgo? <==> diff < MsPerHour
    ensures b.MinutesAgo? ==> b.minutes < 60 && b.minutes * MsPerMinute <= diff < (b.minutes + 1) * MsPerMinute
    ensures b == TimeOfDay <==> MsPerHour <= diff < 24 * MsPerHour
    ensures b == YesterdayAt <==> 24 * MsPerHour <= diff < 48 * MsPerHour
    ensures b == DateAndTime <==> diff >= 48 * MsPerHour
  {
    if diff < MsPerHour then MinutesAgo(diff / MsPerMinute)
    else if diff < 24 * MsPerHour then TimeOfDay
    else if diff < 48 * MsPerHour then YesterdayAt
    else DateAndTime
  }

  function BucketRank(b: TimeBucket): nat
  {
    match b
    case MinutesAgo(_) => 0
    case TimeOfDay => 1
    case YesterdayAt => 2
    case DateAndTime => 3
  }

  /** An older activity never falls in a more recent bucket, nor shows fewer minutes. */
  lemma BucketMonotone(d1: int, d2: int)
    requires d1 <= d2
    ensures BucketRank(Bucket(d1)) <= BucketRank(Bucket(d2))
    ensures Bucket(d1).MinutesAgo? && Bucket(d2).MinutesAgo? ==> Bucket(d1).minutes <= Bucket(d2).minutes
  {
    if Bucket(d1).MinutesAgo? && Bucket(d2).MinutesAgo? {
      var m1, m2 := Bucket(d1).minutes, Bucket(d2).minutes;
      if m2 < m1 {
        MulMonotone(MsPerMinute, m2 + 1, m1);
      }
    }
  }

  /** The mock entries fall in the buckets their comments describe. */
  lemma MockBuckets(now: int)
    ensures var m := MockActivities(now);
      Bucket(now - m[0].timestamp) == TimeOfDay && Bucket(now - m[1].timestamp) == TimeOfDay
      && Bucket(now - m[2].timestamp) == MinutesAgo(30)
      && Bucket(now - m[3].timestamp) == YesterdayAt && Bucket(now - m[4].timestamp) == YesterdayAt
  {
  }

  /** `getMethodIcon`. */
  function MethodIcon(via: string): (icon: string)
    ensures icon == "Camera" <==> via == "facial_recognition"
    ensures icon == "Smartphone" <==> via != "facial_recognition"
  {
    if via == "facial_recognition" then "Camera" else "Smartphone"
  }
}
