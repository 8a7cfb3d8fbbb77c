/**
  The "time ago" label that the HR dashboard's alerts panel and recent
  activity list both write next to an entry: "now", whole minutes, or
  whole hours.
*/
module TimeAgo {
  import opened Common

  const MsPerMinute := 60000
  const MinutesPerHour := 60
  const MsPerHour := 3600000

  datatype Ago = JustNow | Minutes(m: nat) | Hours(h: nat)

  /**
    `getTimeAgo` for an entry `diff` milliseconds old: the minutes are
    `Math.floor(diff / 60000)`, under one minute is "now", under sixty
    the minutes, otherwise the whole hours of those minutes.
  */
  function AgoOf(diff: int): (a: Ago)
    ensures a == JustNow <==> diff < MsPerMinute
    ensures a.Minutes? <==> MsPerMinute <= diff < MsPerHour
    ensures a.Minutes? ==> 1 <= a.m < 60 && a.m * MsPerMinute <= diff < (a.m + 1) * MsPerMinute
    ensures a.Hours? <==> diff >= MsPerHour
    ensures a.Hours? ==> a.h >= 1 && a.h * MsPerHour <= diff < (a.h + 1) * MsPerHour
  {
    var minutes := diff / MsPerMinute;
    if minutes < 1 then JustNow
    else if minutes < MinutesPerHour then Minutes(minutes)
    else
      var hours := minutes / MinutesPerHour;
      HoursBracket(diff, minutes, hours);
      Hours(hours)
  }

  /** The hours of the whole minutes are the whole hours of the milliseconds. */
  lemma HoursBracket(diff: int, minutes: int, hours: int)
    requires minutes == diff / MsPerMinute && hours == minutes / MinutesPerHour
    ensures hours * MsPerHour <= diff < (hours + 1) * MsPerHour
  {
    assert minutes * MsPerMinute <= diff < (minutes + 1) * MsPerMinute;
    assert hours * MinutesPerHour <= minutes < (hours + 1) * MinutesPerHour;
    MulMonotone(MsPerMinute, hours * MinutesPerHour, minutes);
    MulMonotone(MsPerMinute, minutes + 1, (hours + 1) * MinutesPerHour);
  }

  /** The label's text, with the language's word for "now". */
  function AgoText(a: Ago, nowWord: string): string
  {
    match a
    case JustNow => nowWord
    case Minutes(m) => NatToString(m) + "min"
    case Hours(h) => NatToString(h) + "h"
  }

  /** The number at the head of a minutes or hours label reads back as that count. */
  lemma AgoTextReadsBack(a: Ago, nowWord: string)
    requires !a.JustNow?
    ensures var n := if a.Minutes? then a.m else a.h;
      DigitsValue(LeadingDigits(AgoText(a, nowWord))) == n
  {
    var n := if a.Minutes? then a.m else a.h;
    var suffix := if a.Minutes? then "min" else "h";
    assert AgoText(a, nowWord) == NatToString(n) + suffix;
    LeadingDigitsOf(NatToString(n), suffix);
    NatToStringRoundTrip(n);
  }

  /** An older entry never gets a more recent label. */
  lemma AgoMonotone(d1: int, d2: int)
    requires d1 <= d2
    ensures AgoOf(d1).Hours? ==> AgoOf(d2).Hours? && AgoOf(d1).h <= AgoOf(d2).h
    ensures AgoOf(d1).Minutes? ==> !AgoOf(d2).JustNow? && (AgoOf(d2).Minutes? ==> AgoOf(d1).m <= AgoOf(d2).m)
  {
  }
}
