/** The Classes page: its schedule parser (a day list and a time range read
    out of text such as "Mon & Wed 4-6 PM"), the hour labels, the search and
    status filter, the summary counts and the calendar grid's row layout. */
module ClassesPage {
  import opened Common
  import opened Text
  import opened Seqs

  // ---------------------------------------------------------------------------
  // Matching /(\d+)-(\d+)\s*(AM|PM)/
  // ---------------------------------------------------------------------------

  /** A match of the time pattern: where it starts and its three groups. */
  datatype TimeMatch = TimeMatch(at: nat, startDigits: string, endDigits: string, period: string)

  /** "AM" or "PM" at position q. */
  predicate PeriodAt(s: string, q: nat) {
    q + 2 <= |s| && (s[q] == 'A' || s[q] == 'P') && s[q + 1] == 'M'
  }

  /** The pattern read at position p with explicit group lengths: a digits,
      a hyphen, b digits, w blanks, then AM or PM. */
  ghost predicate PatternAt(s: string, p: nat, a: nat, b: nat, w: nat) {
    && a >= 1 && b >= 1 && p + a + 1 + b + w + 2 <= |s|
    && (forall k :: p <= k < p + a ==> IsDigit(s[k]))
    && s[p + a] == '-'
    && (forall k :: p + a + 1 <= k < p + a + 1 + b ==> IsDigit(s[k]))
    && (forall k :: p + a + 1 + b <= k < p + a + 1 + b + w ==> IsJsSpace(s[k]))
    && PeriodAt(s, p + a + 1 + b + w)
  }

  /** The match starting at p, if any. Each group is greedy; no shorter
      choice could succeed, because the next pattern element never accepts
      the character a shorter group would leave behind. */
  function MatchAt(s: string, p: nat): (r: Option<TimeMatch>)
    requires p <= |s|
    ensures r.Some? ==> r.value.at == p
    ensures r.Some? ==> |r.value.startDigits| > 0 && AllDigits(r.value.startDigits)
    ensures r.Some? ==> |r.value.endDigits| > 0 && AllDigits(r.value.endDigits)
    ensures r.Some? ==> r.value.period == "AM" || r.value.period == "PM"
  {
    RunIsMaximal(s, p, IsDigit);
    var a := Run(s, p, IsDigit);
    if a == 0 || p + a >= |s| || s[p + a] != '-' then None
    else
      RunIsMaximal(s, p + a + 1, IsDigit);
      var b := Run(s, p + a + 1, IsDigit);
      if b == 0 then None
      else
        var w := Run(s, p + a + 1 + b, IsJsSpace);
        var q := p + a + 1 + b + w;
        if PeriodAt(s, q) then Some(TimeMatch(p, s[p..p + a], s[p + a + 1..p + a + 1 + b], [s[q], s[q + 1]]))
        else None
  }

  lemma SpaceIsNotDigit(c: char)
    requires IsJsSpace(c)
    ensures !IsDigit(c)
  {
  }

  /** A match found at p is an occurrence of the pattern there. */
  lemma MatchAtIsPattern(s: string, p: nat)
    requires p <= |s| && MatchAt(s, p).Some?
    ensures exists a, b, w :: PatternAt(s, p, a, b, w)
  {
    var a := Run(s, p, IsDigit);
    RunIsMaximal(s, p, IsDigit);
    assert a >= 1 && p + a < |s| && s[p + a] == '-';
    var b := Run(s, p + a + 1, IsDigit);
    RunIsMaximal(s, p + a + 1, IsDigit);
    assert b >= 1;
    var w := Run(s, p + a + 1 + b, IsJsSpace);
    RunIsMaximal(s, p + a + 1 + b, IsJsSpace);
    assert PeriodAt(s, p + a + 1 + b + w);
    assert PatternAt(s, p, a, b, w);
  }

  /** An occurrence of the pattern at p is what MatchAt finds, with the
      same groups: the greedy reading is the only one. */
  lemma PatternIsMatchAt(s: string, p: nat, a: nat, b: nat, w: nat)
    requires PatternAt(s, p, a, b, w)
    ensures MatchAt(s, p) == Some(TimeMatch(p, s[p..p + a], s[p + a + 1..p + a + 1 + b],
                                            [s[p + a + 1 + b + w], s[p + a + 1 + b + w + 1]]))
  {
    RunIsExact(s, p, a, IsDigit);
    if w > 0 {
      SpaceIsNotDigit(s[p + a + 1 + b]);
    }
    RunIsExact(s, p + a + 1, b, IsDigit);
    RunIsExact(s, p + a + 1 + b, w, IsJsSpace);
  }

  lemma MatchAtIffPattern(s: string, p: nat)
    requires p <= |s|
    ensures MatchAt(s, p).Some? <==> exists a, b, w :: PatternAt(s, p, a, b, w)
  {
    if MatchAt(s, p).Some? {
      MatchAtIsPattern(s, p);
    }
    if exists a, b, w :: PatternAt(s, p, a, b, w) {
      var a, b, w :| PatternAt(s, p, a, b, w);
      PatternIsMatchAt(s, p, a, b, w);
    }
  }

  /** The match attempt at every position of the text, 0 through |s|. */
  function Attempts(s: string): (c: seq<Option<TimeMatch>>)
    ensures |c| == |s| + 1
    ensures forall p :: 0 <= p <= |s| ==> c[p] == MatchAt(s, p)
  {
    seq(|s| + 1, p requires 0 <= p <= |s| => MatchAt(s, p))
  }

  /** The first position at or after `from` with an entry, or |c| when
      there is none. */
  function FirstPresent(c: seq<Option<TimeMatch>>, from: nat): (i: nat)
    requires from <= |c|
    ensures from <= i <= |c|
    ensures i < |c| ==> c[i].Some?
    ensures forall p :: from <= p < i ==> c[p].None?
    decreases |c| - from
  {
    if from == |c| || c[from].Some? then from else FirstPresent(c, from + 1)
  }

  /** The leftmost match, as `String.prototype.match` without the global
      flag returns it. */
  function FirstMatch(s: string): (r: Option<TimeMatch>)
    ensures r.None? <==> forall p :: 0 <= p <= |s| ==> MatchAt(s, p).None?
    ensures r.Some? ==>
      && r.value.at <= |s| && MatchAt(s, r.value.at) == r
      && forall p :: 0 <= p < r.value.at ==> MatchAt(s, p).None?
  {
    var c := Attempts(s);
    var i := FirstPresent(c, 0);
    if i < |c| then c[i] else None
  }

  lemma PatternImpliesMatch(s: string, p: nat, a: nat, b: nat, w: nat)
    ensures PatternAt(s, p, a, b, w) ==> p <= |s| && MatchAt(s, p).Some?
  {
    if PatternAt(s, p, a, b, w) {
      PatternIsMatchAt(s, p, a, b, w);
    }
  }

  /** The parser finds a time range exactly when the pattern occurs
      somewhere, and then the one that starts leftmost. */
  lemma ScheduleMatchExists(s: string)
    ensures FirstMatch(s).None? <==> forall p: nat, a: nat, b: nat, w: nat :: !PatternAt(s, p, a, b, w)
    ensures FirstMatch(s).Some? ==>
      var m := FirstMatch(s).value;
      && (exists a, b, w :: PatternAt(s, m.at, a, b, w))
      && forall p: nat, a: nat, b: nat, w: nat :: p < m.at ==> !PatternAt(s, p, a, b, w)
  {
    forall p: nat, a: nat, b: nat, w: nat {
      PatternImpliesMatch(s, p, a, b, w);
    }
    if FirstMatch(s).Some? {
      var m := FirstMatch(s).value;
      MatchAtIsPattern(s, m.at);
    }
  }

  // ---------------------------------------------------------------------------
  // Hours
  // ---------------------------------------------------------------------------

  /** A time on the 12-hour clock read on the 24-hour clock: 12 AM is 0,
      12 PM is 12, other PM hours gain 12. */
  function ClockHour(n: nat, pm: bool): (h: nat)
    ensures 1 <= n <= 12 ==> (if pm then 12 <= h <= 23 else 0 <= h <= 11)
  {
    if pm then (if n == 12 then 12 else n + 12) else (if n == 12 then 0 else n)
  }

  /** The hour label of the calendar. */
  function FormatHour(hour: int): (shown: string)
    ensures |shown| >= 4 && shown[|shown| - 1] == 'M' && shown[|shown| - 3] == ' '
    ensures shown[|shown| - 2] == if hour < 12 then 'A' else 'P'
  {
    if hour == 0 then "12 AM"
    else if hour < 12 then IntToString(hour) + " AM"
    else if hour == 12 then "12 PM"
    else IntToString(hour - 12) + " PM"
  }

  /** Labels read back the 12-hour time an hour came from. */
  lemma FormatClockHour(n: nat, pm: bool)
    requires 1 <= n <= 12
    ensures FormatHour(ClockHour(n, pm)) == NatToString(n) + (if pm then " PM" else " AM")
  {
    var h := ClockHour(n, pm);
    if n == 12 {
      assert NatToString(12) == "12";
    } else if pm {
      assert h == n + 12 && 12 < h && h - 12 == n;
      assert FormatHour(h) == IntToString(n) + " PM";
    } else {
      assert h == n && 0 < h < 12;
      assert FormatHour(h) == IntToString(n) + " AM";
    }
  }

  lemma FormatHourExamples()
    ensures FormatHour(0) == "12 AM" && FormatHour(9) == "9 AM" && FormatHour(12) == "12 PM"
    ensures FormatHour(13) == "1 PM" && FormatHour(21) == "9 PM"
  {
    assert NatToString(9) == "9";
    assert NatToString(1) == "1";
  }

  // ---------------------------------------------------------------------------
  // parseSchedule
  // ---------------------------------------------------------------------------

  const DayNames: seq<string> := ["Mon", "Tue", "Wed", "Thu", "Fri", "Sat", "Sun"]

  datatype ScheduleSlot = ScheduleSlot(days: seq<nat>, startHour: int, endHour: int)

  predicate StrictlyAscending(xs: seq<nat>) {
    forall i, j :: 0 <= i < j < |xs| ==> xs[i] < xs[j]
  }

  /** `parseInt` of a matched digit group. */
  function ParseDigits(digits: string): (n: nat)
    requires |digits| > 0 && AllDigits(digits)
    ensures n == DecimalValue(digits) && ParseInt(digits) == Some(n)
  {
    ParseIntOfDigits(digits);
    ParseInt(digits).value
  }

  /** The loop over the day map, in its order Mon..Sun: push each day's
      index when the schedule mentions it. */
  method CollectDays(schedule: string) returns (days: seq<nat>)
    ensures StrictlyAscending(days)
    ensures forall i :: 0 <= i < |days| ==> days[i] < 7
    ensures forall d :: 0 <= d < 7 ==> (d in days <==> Contains(schedule, DayNames[d]))
  {
    days := [];
    for d := 0 to 7
      invariant forall i :: 0 <= i < |days| ==> days[i] < d
      invariant StrictlyAscending(days)
      invariant forall e :: 0 <= e < d ==> (e in days <==> Contains(schedule, DayNames[e]))
    {
      if Contains(schedule, DayNames[d]) {
        days := days + [d];
      }
    }
  }

  method ParseSchedule(schedule: string) returns (r: Option<ScheduleSlot>)
    ensures r.None? <==> FirstMatch(schedule).None?
    ensures r.Some? ==>
      var m := FirstMatch(schedule).value;
      var start := DecimalValue(m.startDigits);
      var end := DecimalValue(m.endDigits);
      var pm := m.period == "PM";
      && (pm && start > end ==> r.value.startHour == start && r.value.endHour == end + 12)
      && (!(pm && start > end) ==> r.value.startHour == ClockHour(start, pm) && r.value.endHour == ClockHour(end, pm))
    ensures r.Some? ==> StrictlyAscending(r.value.days)
    ensures r.Some? ==> forall i :: 0 <= i < |r.value.days| ==> r.value.days[i] < 7
    ensures r.Some? ==> forall d :: 0 <= d < 7 ==> (d in r.value.days <==> Contains(schedule, DayNames[d]))
  {
    var found := FirstMatch(schedule);
    if found.None? {
      return None;
    }
    var m := found.value;
    var startNum := ParseDigits(m.startDigits);
    var endNum := ParseDigits(m.endDigits);
    var isPm := m.period == "PM";

    var startHour: int, endHour: int;
    if isPm {
      if startNum > endNum {
        startHour := startNum;
        endHour := endNum + 12;
      } else {
        startHour := if startNum == 12 then 12 else startNum + 12;
        endHour := if endNum == 12 then 12 else endNum + 12;
      }
    } else {
      startHour := if startNum == 12 then 0 else startNum;
      endHour := if endNum == 12 then 0 else endNum;
    }

    var days := CollectDays(schedule);
    r := Some(ScheduleSlot(days, startHour, endHour));
  }

  // ---------------------------------------------------------------------------
  // The class list
  // ---------------------------------------------------------------------------

  datatype ClassRecord = ClassRecord(
    id: string, courseId: string, name: string, instructor: string, schedule: string,
    capacity: nat, enrolled: nat, status: string)

  /** The search matches name, course id or instructor ignoring ASCII case;
      an empty status filter matches every status. */
  predicate ClassMatches(c: ClassRecord, search: string, statusFilter: string) {
    var needle := ToLower(search);
    && (Contains(ToLower(c.name), needle) || Contains(ToLower(c.courseId), needle)
        || Contains(ToLower(c.instructor), needle))
    && (statusFilter == "" || c.status == statusFilter)
  }

  function ClassFilter(search: string, statusFilter: string): ClassRecord -> bool {
    c => ClassMatches(c, search, statusFilter)
  }

  /** The list shown keeps exactly the matching classes. */
  function FilterClasses(classes: seq<ClassRecord>, search: string, statusFilter: string): (r: seq<ClassRecord>)
    ensures |r| <= |classes|
    ensures forall c :: c in r <==> c in classes && ClassMatches(c, search, statusFilter)
  {
    FilterMembershipAll(classes, ClassFilter(search, statusFilter));
    Filter(classes, ClassFilter(search, statusFilter))
  }

  /** The filtered list keeps the classes in their original order. */
  lemma FilterClassesFacts(classes: seq<ClassRecord>, search: string, statusFilter: string) returns (idx: seq<nat>)
    ensures PicksOut(FilterClasses(classes, search, statusFilter), classes, idx)
  {
    idx := FilterIsSubsequence(classes, ClassFilter(search, statusFilter));
  }

  /** With no search text and no status filter every class is shown. */
  lemma EmptyFilterKeepsAll(classes: seq<ClassRecord>)
    ensures FilterClasses(classes, "", "") == classes
  {
    forall k | 0 <= k < |classes|
      ensures ClassFilter("", "")(classes[k])
    {
      assert ToLower("") == "";
      ContainsEmpty(ToLower(classes[k].name));
      assert ClassMatches(classes[k], "", "");
    }
    FilterKeepsAll(classes, ClassFilter("", ""));
  }

  predicate IsActiveClass(c: ClassRecord) { c.status == "Active" }

  function Enrolled(c: ClassRecord): int { c.enrolled }

  function ActiveClasses(classes: seq<ClassRecord>): (n: nat)
    ensures n <= |classes|
  {
    |Filter(classes, IsActiveClass)|
  }

  /** The enrolment total is never negative, and 0 for no classes. */
  function TotalEnrollments(classes: seq<ClassRecord>): (t: int)
    ensures t >= 0
    ensures classes == [] ==> t == 0
  {
    SumNonNegative(classes, Enrolled);
    Sum(classes, Enrolled)
  }

  /** The totals are additive over lists, and each class's enrolment is
      part of the total. */
  lemma AggregatesSplit(a: seq<ClassRecord>, b: seq<ClassRecord>)
    ensures ActiveClasses(a + b) == ActiveClasses(a) + ActiveClasses(b)
    ensures TotalEnrollments(a + b) == TotalEnrollments(a) + TotalEnrollments(b)
  {
    FilterAppend(a, b, IsActiveClass);
    SumAppend(a, b, Enrolled);
  }

  /** A one-class list counts that class if it is active, and its enrolment.
      With AggregatesSplit this fixes both totals for every list. */
  lemma Singleton(c: ClassRecord)
    ensures ActiveClasses([c]) == if IsActiveClass(c) then 1 else 0
    ensures TotalEnrollments([c]) == c.enrolled
  {
    assert [c][1..] == [] && [c][..0] == [];
    assert Filter([c], IsActiveClass) == (if IsActiveClass(c) then [c] else []) + Filter([], IsActiveClass);
    assert Sum([c], Enrolled) == Sum([], Enrolled) + Enrolled(c);
  }

  /** The page's sample classes. */
  const SampleClasses: seq<ClassRecord> := [
    ClassRecord("1", "CLS-2024-001", "Introduction to 3D Printing", "John Smith", "Mon & Wed 4-6 PM", 15, 12, "Active"),
    ClassRecord("2", "CLS-2024-002", "Advanced Laser Cutting", "Sarah Johnson", "Tue & Thu 3-5 PM", 12, 8, "Active"),
    ClassRecord("3", "CLS-2024-003", "Electronics Basics", "Mike Chen", "Wed 6-8 PM", 15, 15, "Active"),
    ClassRecord("4", "CLS-2024-004", "Robotics Workshop", "Emily Davis", "Fri 4-7 PM", 10, 5, "Upcoming"),
    ClassRecord("5", "CLS-2023-015", "Woodworking 101", "David Brown", "Sat 10-1 PM", 10, 10, "Completed"),
    ClassRecord("6", "CLS-2024-005", "CNC Machining", "Lisa White", "Thu 5-7 PM", 8, 6, "Active")
  ]

  /** Four of the six sample classes are active, with 56 enrolments in all. */
  lemma SampleSummary()
    ensures ActiveClasses(SampleClasses) == 4
    ensures TotalEnrollments(SampleClasses) == 56
  {
    var s := SampleClasses;
    var a, b, c, d, e, f := [s[0]], [s[1]], [s[2]], [s[3]], [s[4]], [s[5]];
    assert s == a + b + c + d + e + f;
    AggregatesSplit(a + b + c + d + e, f);
    AggregatesSplit(a + b + c + d, e);
    AggregatesSplit(a + b + c, d);
    AggregatesSplit(a + b, c);
    AggregatesSplit(a, b);
    Singleton(s[0]);
    Singleton(s[1]);
    Singleton(s[2]);
    Singleton(s[3]);
    Singleton(s[4]);
    Singleton(s[5]);
  }

  lemma EnrollmentBoundsTotal(classes: seq<ClassRecord>, i: nat)
    requires i < |classes|
    ensures classes[i].enrolled <= TotalEnrollments(classes)
  {
    SumBoundsTerms(classes, Enrolled, i);
  }

  // ---------------------------------------------------------------------------
  // The calendar grid
  // ---------------------------------------------------------------------------

  /** The time labels: 9 AM through 9 PM. */
  const Hours: seq<int> := seq(13, i requires 0 <= i < 13 => i + 9)

  /** An event block spans grid rows startHour - 7 up to endHour - 7. */
  function EventRows(slot: ScheduleSlot): (int, int) {
    (slot.startHour - 7, slot.endHour - 7)
  }

  /** The time label of hour index i sits on grid row i + 2. */
  function LabelRow(hourIdx: nat): nat { hourIdx + 2 }

  /** An event that starts on a labelled hour starts on the label's row,
      and the label shows that hour. */
  lemma EventsAlignWithLabels(slot: ScheduleSlot, hourIdx: nat)
    requires hourIdx < |Hours| && Hours[hourIdx] == slot.startHour
    ensures EventRows(slot).0 == LabelRow(hourIdx)
    ensures FormatHour(Hours[hourIdx]) == FormatHour(slot.startHour)
  {
  }

  lemma HoursRange()
    ensures |Hours| == 13 && Hours[0] == 9 && Hours[12] == 21
    ensures forall i :: 0 <= i < |Hours| ==> Hours[i] == i + 9
  {
  }
}
