/**
  The quick statistics of the employee dashboard: the weekly-hours
  progress against a 40-hour target, the monthly attendance rating and
  the schedule shown.
*/
module QuickStats {
  import opened Common

  /** `s.replace(c, '')` with a one-character string pattern: the first occurrence only is removed. */
  function RemoveFirst(s: string, c: char): (r: string)
    ensures c !in s ==> r == s
    ensures c in s ==> |r| == |s| - 1
  {
    if s == [] then []
    else if s[0] == c then s[1..]
    else [s[0]] + RemoveFirst(s[1..], c)
  }

  /** One unfolding of `RemoveFirst`. */
  lemma RemoveFirstStep(s: string, c: char)
    requires s != []
    ensures RemoveFirst(s, c) == if s[0] == c then s[1..] else [s[0]] + RemoveFirst(s[1..], c)
  {
  }

  /** A first character other than `c` stays in front. */
  lemma RemoveFirstKeepsHead(x: char, u: string, c: char)
    requires x != c
    ensures RemoveFirst([x] + u, c) == [x] + RemoveFirst(u, c)
  {
    assert ([x] + u)[1..] == u;
  }

  /** What is removed is the first occurrence: the text before it and the text after it are kept. */
  lemma {:induction false} RemoveFirstSplits(s: string, c: char)
    requires c in s
    ensures var k := FirstIndex(s, c);
      RemoveFirst(s, c) == s[..k] + s[k + 1..]
  {
    if s[0] != c {
      var t := s[1..];
      RemoveFirstSplits(t, c);
      var k := FirstIndex(t, c);
      assert FirstIndex(s, c) == k + 1;
      RemoveFirstStep(s, c);
      GapShift(s, k);
    }
  }

  /** Cutting out position `k` of the tail and putting the head back cuts out position `k + 1`. */
  lemma GapShift(s: string, k: nat)
    requires k + 1 < |s|
    ensures [s[0]] + (s[1..][..k] + s[1..][k + 1..]) == s[..k + 1] + s[k + 2..]
  {
    assert s[1..][..k] == s[1..k + 1] && s[1..][k + 1..] == s[k + 2..];
    assert [s[0]] + s[1..k + 1] == s[..k + 1];
  }

  /** `s.split(' ')[0]`: everything before the first space. */
  function FirstToken(s: string): (r: string)
    ensures |r| <= |s| && r == s[..|r|] && ' ' !in r
    ensures |r| < |s| ==> s[|r|] == ' '
  {
    if s == [] || s[0] == ' ' then [] else [s[0]] + FirstToken(s[1..])
  }

  /** The hours read from the weekly-hours text; `|| 0` turns NaN into 0. */
  function HoursWorked(weeklyHours: string): real
  {
    match ParseFloat(FirstToken(RemoveFirst(RemoveFirst(weeklyHours, 'h'), 'm')))
    case None => 0.0
    case Some(v) => v
  }

  const TargetHours: real := 40.0

  /** `Math.min(hoursWorked / 40 * 100, 100)`. */
  function WeeklyProgress(weeklyHours: string): (p: real)
    ensures p <= 100.0
    ensures HoursWorked(weeklyHours) <= TargetHours ==> p == HoursWorked(weeklyHours) / TargetHours * 100.0
    ensures HoursWorked(weeklyHours) >= TargetHours ==> p == 100.0
  {
    var w := HoursWorked(weeklyHours) / TargetHours * 100.0;
    if w < 100.0 then w else 100.0
  }

  lemma {:induction false} RemoveFirstAfterDigits(d: string, rest: string, c: char)
    requires AllDigits(d) && !IsDigit(c)
    ensures RemoveFirst(d + rest, c) == d + RemoveFirst(rest, c)
  {
    if d != [] {
      AllDigitsTail(d);
      RemoveFirstAfterDigits(d[1..], rest, c);
      ConsThenAppend(d, rest, RemoveFirst(rest, c));
      RemoveFirstKeepsHead(d[0], d[1..] + rest, c);
    } else {
      assert d + rest == rest;
    }
  }

  /** A non-empty `d` is its head followed by its tail, before anything appended. */
  lemma ConsThenAppend(d: string, u: string, v: string)
    requires d != []
    ensures d + u == [d[0]] + (d[1..] + u) && d + v == [d[0]] + (d[1..] + v)
  {
    assert d == [d[0]] + d[1..];
  }

  lemma {:induction false} FirstTokenAfterDigits(d: string, rest: string)
    requires AllDigits(d)
    ensures FirstToken(d + " " + rest) == d
  {
    if d != [] {
      var s := d + " " + rest;
      AllDigitsTail(d);
      assert s[0] == d[0];
      assert s[1..] == d[1..] + " " + rest;
      FirstTokenAfterDigits(d[1..], rest);
      assert [d[0]] + d[1..] == d;
    } else {
      assert d + " " + rest == " " + rest;
    }
  }

  /** Removing the first 'h' and then the first 'm' from "<digits>h <rest>" leaves "<digits> <rest less its first m>". */
  lemma RemovalsAfterDigits(d: string, rest: string)
    requires AllDigits(d)
    ensures RemoveFirst(RemoveFirst(d + "h " + rest, 'h'), 'm') == d + " " + RemoveFirst(rest, 'm')
  {
    var h := "h " + rest;
    assert d + "h " + rest == d + h;
    RemoveFirstAfterDigits(d, h, 'h');
    assert h[0] == 'h' && h[1..] == " " + rest;
    var sp := " " + rest;
    RemoveFirstAfterDigits(d, sp, 'm');
    assert sp[0] != 'm' && sp[1..] == rest;
    assert RemoveFirst(sp, 'm') == " " + RemoveFirst(rest, 'm');
    assert d + (" " + RemoveFirst(rest, 'm')) == d + " " + RemoveFirst(rest, 'm');
  }

  /** A text "<n>h <anything>", as the hours formatter writes it, is read as n hours. */
  lemma HoursOfFormatted(n: nat, rest: string)
    ensures HoursWorked(NatToString(n) + "h " + rest) == n as real
  {
    var d := NatToString(n);
    RemovalsAfterDigits(d, rest);
    FirstTokenAfterDigits(d, RemoveFirst(rest, 'm'));
    ParseFloatOfNumeral(n, []);
    assert d + [] == d;
  }

  /** A missing total, which the dashboard passes as '0', shows no progress. */
  lemma ZeroHoursNoProgress()
    ensures WeeklyProgress("0") == 0.0
  {
    HoursOfZero();
  }

  lemma HoursOfZero()
    ensures HoursWorked("0") == 0.0
  {
    assert NatToString(0) == "0";
    assert RemoveFirst("0", 'h') == "0";
    assert RemoveFirst("0", 'm') == "0";
    assert FirstToken("0") == "0";
    ParseFloatOfNumeral(0, []);
    assert NatToString(0) + [] == "0";
  }

  datatype AttendanceRating = Excellent | Good | NeedsImprovement

  /** `getAttendanceStatus`: 95 and above is excellent, 85 and above good. */
  function AttendanceStatus(percentage: int): (r: AttendanceRating)
    ensures r == Excellent <==> percentage >= 95
    ensures r == Good <==> 85 <= percentage < 95
    ensures r == NeedsImprovement <==> percentage < 85
  {
    if percentage >= 95 then Excellent
    else if percentage >= 85 then Good
    else NeedsImprovement
  }

  function Rank(r: AttendanceRating): nat
  {
    match r
    case NeedsImprovement => 0
    case Good => 1
    case Excellent => 2
  }

  /** A better attendance never gets a worse rating. */
  lemma AttendanceStatusMonotone(p: int, q: int)
    requires p <= q
    ensures Rank(AttendanceStatus(p)) <= Rank(AttendanceStatus(q))
  {
  }

  /** An upcoming shift; `daysAhead` is its date counted in days from now. */
  datatype ScheduleItem = ScheduleItem(id: int, daysAhead: nat, startTime: string, endTime: string, kind: string, location: string)

  /** The two shifts shown when none is given: tomorrow and the day after. */
  const MockSchedule := [
    ScheduleItem(1, 1, "09:00", "17:00", "regular", "Bureau Principal"),
    ScheduleItem(2, 2, "08:30", "16:30", "early", "Site Chantier A")
  ]

  /** `displaySchedule`: the given schedule when it has an entry, the mock one otherwise. */
  function DisplaySchedule(upcoming: seq<ScheduleItem>): (shown: seq<ScheduleItem>)
    ensures shown != []
    ensures upcoming != [] ==> shown == upcoming
    ensures upcoming == [] ==> shown == MockSchedule
  {
    if |upcoming| > 0 then upcoming else MockSchedule
  }
}
