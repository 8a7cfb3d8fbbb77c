/**
  The detailed attendance timeline of the personal history page: one card
  per record, with the duration and time formatters, the status
  configurations and the rules that decide which blocks a card shows.
*/
module AttendanceTimeline {
  import opened Common
  import opened AttendanceHistory

  /** The labels of the timeline's two languages that its logic uses. */
  datatype Labels = Labels(present: string, absent: string, late: string, holiday: string, hours: string, minutes: string)

  const FrenchLabels := Labels("Présent", "Absent", "En retard", "Congé", "h", "min")
  const EnglishLabels := Labels("Present", "Absent", "Late", "Holiday", "h", "m")

  /** `translations[currentLanguage] || translations.fr`. */
  function LabelsFor(language: string): (t: Labels)
    ensures t == EnglishLabels <==> language == "en"
    ensures t == FrenchLabels <==> language != "en"
  {
    if language == "en" then EnglishLabels else FrenchLabels
  }

  /** JavaScript's `%`, whose remainder takes the sign of the dividend. */
  function JsRem(a: int, d: int): (r: int)
    requires d > 0
    ensures a >= 0 ==> r == a % d && 0 <= r < d
    ensures a < 0 ==> -d < r <= 0
  {
    if a >= 0 then a % d else -((-a) % d)
  }

  /** `${i}` for an integer. */
  function IntText(i: int): (r: string)
    ensures i >= 0 ==> r == NatToString(i)
    ensures i < 0 ==> r == "-" + NatToString(-i)
  {
    if i >= 0 then NatToString(i) else "-" + NatToString(-i)
  }

  /**
    `formatDuration(minutes)`: zero is written "0h 0min" by its own branch;
    any other value as `Math.floor(minutes / 60)` hours and `minutes % 60`
    minutes.
  */
  function FormatDuration(minutes: int, t: Labels): (text: string)
  {
    if minutes == 0 then "0" + t.hours + " 0" + t.minutes
    else IntText(minutes / 60) + t.hours + " " + IntText(JsRem(minutes, 60)) + t.minutes
  }

  /**
    For a duration that is not negative, the text is the whole hours and
    the remaining minutes, which are below 60 and give back the duration;
    the falsy branch writes exactly what the general one would for zero.
  */
  lemma DurationSplits(minutes: nat, t: Labels)
    ensures var hours, mins := minutes / 60, JsRem(minutes, 60);
      0 <= mins < 60 && 60 * hours + mins == minutes
      && FormatDuration(minutes, t) == NatToString(hours) + t.hours + " " + NatToString(mins) + t.minutes
  {
  }

  /** A label that does not start with a digit. */
  predicate Unit(u: string) { u != [] && !IsDigit(u[0]) }

  /**
    Reading a formatted duration back: the leading digits are the hours,
    and the digits after the hours label and the space are the minutes, so
    the text determines the duration.
  */
  lemma DurationReadsBack(minutes: nat, t: Labels)
    requires Unit(t.hours) && Unit(t.minutes)
    ensures var text := FormatDuration(minutes, t);
      var h := LeadingDigits(text);
      |h| + |t.hours| + 1 <= |text|
      && 60 * DigitsValue(h) + DigitsValue(LeadingDigits(text[|h| + |t.hours| + 1..])) == minutes
  {
    DurationText(FormatDuration(minutes, t), minutes, t);
    TextReadsBack(FormatDuration(minutes, t), minutes / 60, minutes % 60, minutes, t.hours, t.minutes);
  }

  lemma DurationText(text: string, minutes: nat, t: Labels)
    requires text == FormatDuration(minutes, t)
    ensures text == NatToString(minutes / 60) + t.hours + " " + NatToString(minutes % 60) + t.minutes
    ensures 60 * (minutes / 60) + minutes % 60 == minutes
  {
    DurationSplits(minutes, t);
  }

  lemma TextReadsBack(text: string, hours: nat, mins: nat, minutes: nat, hu: string, mu: string)
    requires Unit(hu) && Unit(mu) && 60 * hours + mins == minutes
    requires text == NatToString(hours) + hu + " " + NatToString(mins) + mu
    ensures var h := LeadingDigits(text);
      |h| + |hu| + 1 <= |text|
      && 60 * DigitsValue(h) + DigitsValue(LeadingDigits(text[|h| + |hu| + 1..])) == minutes
  {
    NumbersReadBack(text, hours, mins, hu, mu);
  }

  /** Two numerals, each followed by its unit, read back as the two numbers. */
  lemma NumbersReadBack(text: string, hours: nat, mins: nat, hu: string, mu: string)
    requires Unit(hu) && Unit(mu)
    requires text == NatToString(hours) + hu + " " + NatToString(mins) + mu
    ensures var h := LeadingDigits(text);
      |h| + |hu| + 1 <= |text|
      && DigitsValue(h) == hours && DigitsValue(LeadingDigits(text[|h| + |hu| + 1..])) == mins
  {
    var hs, ms := NatToString(hours), NatToString(mins);
    TextShape(text, hs, hu, ms, mu);
    ReadBackFromParts(text, hs, hu, ms, mu);
    NatToStringRoundTrip(hours);
    NatToStringRoundTrip(mins);
  }

  lemma TextShape(text: string, hs: string, hu: string, ms: string, mu: string)
    requires AllDigits(hs) && AllDigits(ms) && Unit(hu) && Unit(mu)
    requires text == hs + hu + " " + ms + mu
    ensures LeadingDigits(text) == hs && |hs| + |hu| + 1 <= |text| && text[|hs| + |hu| + 1..] == ms + mu
    ensures LeadingDigits(ms + mu) == ms
  {
    assert text == hs + (hu + " " + (ms + mu));
    LeadingDigitsOf(hs, hu + " " + (ms + mu));
    TextAfterUnit(hs, hu, ms + mu);
    LeadingDigitsOf(ms, mu);
  }

  lemma ReadBackFromParts(text: string, hs: string, hu: string, ms: string, mu: string)
    requires AllDigits(hs) && AllDigits(ms)
    requires LeadingDigits(text) == hs && |hs| + |hu| + 1 <= |text| && text[|hs| + |hu| + 1..] == ms + mu
    requires LeadingDigits(ms + mu) == ms
    ensures var h := LeadingDigits(text);
      |h| + |hu| + 1 <= |text|
      && DigitsValue(h) == DigitsValue(hs) && DigitsValue(LeadingDigits(text[|h| + |hu| + 1..])) == DigitsValue(ms)
  {
    DigitsAfterUnit(text, hs, hu, ms, mu);
  }

  lemma DigitsAfterUnit(text: string, hs: string, hu: string, ms: string, mu: string)
    requires LeadingDigits(text) == hs && |hs| + |hu| + 1 <= |text| && text[|hs| + |hu| + 1..] == ms + mu
    requires LeadingDigits(ms + mu) == ms
    ensures LeadingDigits(text[|LeadingDigits(text)| + |hu| + 1..]) == ms
  {
  }

  lemma TextAfterUnit(d: string, u: string, rest: string)
    ensures |d| + |u| + 1 <= |d + (u + " " + rest)|
    ensures (d + (u + " " + rest))[|d| + |u| + 1..] == rest
  {
    assert d + (u + " " + rest) == (d + u + " ") + rest;
  }

  /** `formatTime(timeString)`: a missing or empty time is "--:--", any other its first five characters. */
  function FormatTime(time: Option<string>): (text: string)
    ensures time.None? || time.value == "" ==> text == "--:--"
    ensures time.Some? && time.value != "" ==>
      |text| == (if |time.value| < 5 then |time.value| else 5) && text == time.value[..|text|]
  {
    match time
    case None => "--:--"
    case Some(s) => if s == "" then "--:--" else if |s| < 5 then s else s[..5]
  }

  /** A clock time "HH:MM:SS" is shown as "HH:MM". */
  lemma FormatTimeDropsSeconds(hh: string, mm: string, ss: string)
    requires |hh| == 2 && |mm| == 2 && |ss| == 2
    ensures FormatTime(Some(hh + ":" + mm + ":" + ss)) == hh + ":" + mm
  {
    assert (hh + ":" + mm + ":" + ss)[..5] == hh + ":" + mm;
  }

  /** The label, text colour, background and icon of a status. */
  datatype StatusConfig = StatusConfig(caption: string, color: string, bgColor: string, icon: string)

  predicate KnownStatus(status: string)
  {
    status == "present" || status == "absent" || status == "late" || status == "holiday"
  }

  /** `getStatusConfig`: four fixed configurations; any other status is labelled with itself, muted. */
  function StatusConfigOf(status: string, t: Labels): (c: StatusConfig)
    ensures !KnownStatus(status) <==> c == StatusConfig(status, "text-muted-foreground", "bg-muted/10", "Circle")
    ensures status == "present" ==> c.caption == t.present && c.icon == "CheckCircle" && c.color == "text-success"
    ensures status == "absent" ==> c.caption == t.absent && c.icon == "XCircle" && c.color == "text-destructive"
    ensures status == "late" ==> c.caption == t.late && c.icon == "Clock" && c.color == "text-warning"
    ensures status == "holiday" ==> c.caption == t.holiday && c.icon == "Calendar" && c.color == "text-secondary"
  {
    match status
    case "present" => StatusConfig(t.present, "text-success", "bg-success/10", "CheckCircle")
    case "absent" => StatusConfig(t.absent, "text-destructive", "bg-destructive/10", "XCircle")
    case "late" => StatusConfig(t.late, "text-warning", "bg-warning/10", "Clock")
    case "holiday" => StatusConfig(t.holiday, "text-secondary", "bg-secondary/10", "Calendar")
    case _ => StatusConfig(status, "text-muted-foreground", "bg-muted/10", "Circle")
  }

  /** The four known statuses have four different icons, none of them the fallback's. */
  lemma StatusIconsDistinct(t: Labels, s1: string, s2: string)
    requires KnownStatus(s1) && KnownStatus(s2) && s1 != s2
    ensures StatusConfigOf(s1, t).icon != StatusConfigOf(s2, t).icon
    ensures StatusConfigOf(s1, t).icon != "Circle"
  {
  }

  /**
    What a `{value && <block/>}` slot renders: nothing, the block, or, when
    the value is the number 0, the text "0", which React writes out.
  */
  datatype Slot = Nothing | Block(text: string) | Zero

  /** The time details of a card: the two times and the optional break and overtime blocks. */
  datatype Details = Details(clockIn: string, clockOut: string, breakSlot: Slot, overtimeSlot: Slot)

  /** A card of the timeline. */
  datatype Card = Card(config: StatusConfig, totalSlot: Slot, details: Option<Details>)

  /** What the timeline renders. */
  datatype View = NoRecordsPanel | Cards(cards: seq<Card>)

  /** `{value && <block/>}` as written: a zero value leaks as "0". */
  function TruthySlot(value: int, t: Labels): (s: Slot)
    ensures s == Zero <==> value == 0
    ensures value != 0 ==> s == Block(FormatDuration(value, t))
  {
    if value == 0 then Zero else Block(FormatDuration(value, t))
  }

  /** `{value > 0 && <block/>}`: the overtime block, which never leaks. */
  function PositiveSlot(value: int, t: Labels): (s: Slot)
    ensures s.Block? <==> value > 0
    ensures s != Zero
  {
    if value > 0 then Block(FormatDuration(value, t)) else Nothing
  }

  /** The time details are omitted for an absent or holiday record. */
  predicate ShowsDetails(r: AttendanceRecord)
  {
    r.status != "absent" && r.status != "holiday"
  }

  /** One record's card, as written. */
  function CardOf(r: AttendanceRecord, t: Labels): (c: Card)
    ensures c.config == StatusConfigOf(r.status, t)
    ensures c.details.Some? <==> ShowsDetails(r)
    ensures c.details.Some? ==> (c.details.value.clockIn == FormatTime(r.clockIn)
      && c.details.value.clockOut == FormatTime(r.clockOut)
      && (c.details.value.breakSlot.Block? <==> r.breakTime != 0)
      && (c.details.value.overtimeSlot.Block? <==> r.overtime > 0))
  {
    Card(StatusConfigOf(r.status, t), TruthySlot(r.totalHours, t),
      if ShowsDetails(r) then
        Some(Details(FormatTime(r.clockIn), FormatTime(r.clockOut), TruthySlot(r.breakTime, t), PositiveSlot(r.overtime, t)))
      else None)
  }

  /** The component as written: the no-records panel for an empty list, otherwise one card per record. */
  function Render(records: seq<AttendanceRecord>, language: string): (v: View)
    ensures v == NoRecordsPanel <==> |records| == 0
    ensures v.Cards? ==> (|v.cards| == |records|
      && forall i :: 0 <= i < |records| ==> v.cards[i] == CardOf(records[i], LabelsFor(language)))
  {
    if |records| == 0 then NoRecordsPanel
    else Cards(seq(|records|, i requires 0 <= i < |records| => CardOf(records[i], LabelsFor(language))))
  }

  /** A zero total or break renders "0" as written: the page's absent day shows a stray "0" beside its status. */
  lemma AbsentDayShowsZero()
    ensures Render(MockRecords, "fr").cards[4].totalSlot == Zero
    ensures Render(MockRecords, "fr").cards[4].details == None
  {
  }

  /** `{value > 0 && <block/>}`, the guard the total and break slots evidently intend. */
  function GuardedSlot(value: int, t: Labels): (s: Slot)
    ensures s != Zero
    ensures s.Block? <==> value > 0
  {
    PositiveSlot(value, t)
  }

  /** A card with the total and break guarded as the overtime is. */
  function CardFixed(r: AttendanceRecord, t: Labels): (c: Card)
    ensures c.config == StatusConfigOf(r.status, t)
    ensures c.totalSlot != Zero && (c.totalSlot.Block? <==> r.totalHours > 0)
    ensures c.details.Some? <==> ShowsDetails(r)
    ensures c.details.Some? ==> c.details.value.breakSlot != Zero && c.details.value.overtimeSlot != Zero
  {
    Card(StatusConfigOf(r.status, t), GuardedSlot(r.totalHours, t),
      if ShowsDetails(r) then
        Some(Details(FormatTime(r.clockIn), FormatTime(r.clockOut), GuardedSlot(r.breakTime, t), PositiveSlot(r.overtime, t)))
      else None)
  }

  /** The component with the guarded cards: as written, except that no card renders a stray "0". */
  function RenderFixed(records: seq<AttendanceRecord>, language: string): (v: View)
    ensures v == NoRecordsPanel <==> |records| == 0
    ensures v.Cards? ==> (|v.cards| == |records|
      && forall i :: 0 <= i < |records| ==> v.cards[i] == CardFixed(records[i], LabelsFor(language)))
    ensures v.Cards? ==> forall i :: 0 <= i < |v.cards| ==>
      (v.cards[i].totalSlot != Zero && (v.cards[i].details.Some? ==> v.cards[i].details.value.breakSlot != Zero))
  {
    if |records| == 0 then NoRecordsPanel
    else Cards(seq(|records|, i requires 0 <= i < |records| => CardFixed(records[i], LabelsFor(language))))
  }

  /**
    The guarded card differs from the card as written only where a zero
    leaked: for positive durations both render the same blocks.
  */
  lemma FixedCardAgrees(r: AttendanceRecord, t: Labels)
    requires r.totalHours > 0 && r.breakTime > 0
    ensures CardFixed(r, t) == CardOf(r, t)
  {
  }
}
