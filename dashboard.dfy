/**
 * The project list of the dashboard page (frontend/src/app/dashboard/page.tsx): the
 * "updated ... ago" label, the title search box and the status badge.
 *
 * Times are milliseconds since the epoch. `Date.now()` is the parameter `nowMs`, and
 * `new Date(iso).getTime()` is `thenMs`, with `None` for a string that does not parse
 * (JavaScript's NaN).
 */
module Dashboard {

  import opened Wrappers
  import opened Text
  import opened Badges
  import Sorting

  type ProjectId = string

  /** One row of the project list, as the backend returns it. */
  datatype ProjectItem = ProjectItem(
    id: ProjectId,
    title: string,
    status: string,
    createdAt: string,
    updatedAt: string,
    latestVersion: int)

  // --- formatRelativeTime

  /** The units the label counts in. */
  datatype Unit = Seconds | Minutes | Hours | Days

  function UnitSeconds(u: Unit): (n: nat)
    ensures n >= 1
  {
    match u
    case Seconds => 1
    case Minutes => 60
    case Hours => 3600
    case Days => 86400
  }

  /**
   * Whole seconds elapsed from `thenMs` to `nowMs`: the floor of the difference in seconds,
   * raised to 0 for a time in the future. (For the divisor 1000, Dafny's division is the
   * floor that `Math.floor` applies to the quotient.)
   */
  function ElapsedSeconds(thenMs: int, nowMs: int): (s: nat)
    ensures nowMs < thenMs + 1000 ==> s == 0
    ensures thenMs <= nowMs ==> s * 1000 <= nowMs - thenMs < (s + 1) * 1000
  {
    var d := (nowMs - thenMs) / 1000;
    if d < 0 then 0 else d
  }

  /** The unit of the label for `s` elapsed seconds: the largest unit that fits in `s`. */
  function UnitFor(s: nat): (u: Unit)
    ensures u == Seconds || UnitSeconds(u) <= s
    ensures forall v :: UnitSeconds(v) <= s ==> UnitSeconds(v) <= UnitSeconds(u)
  {
    if s < 60 then Seconds else if s < 3600 then Minutes else if s < 86400 then Hours else Days
  }

  /** The text after the number: one day is singular, every other day count plural. */
  function Suffix(count: nat, u: Unit): string {
    match u
    case Seconds => "s ago"
    case Minutes => "m ago"
    case Hours => "h ago"
    case Days => if count == 1 then " day ago" else " days ago"
  }

  function Label(count: nat, u: Unit): string {
    NatToString(count) + Suffix(count, u)
  }

  /** `formatRelativeTime`: the elapsed time in its largest fitting unit, rounded down. */
  function FormatRelativeTime(thenMs: Option<int>, nowMs: int): (r: string)
    ensures thenMs.None? ==> r == "NaN days ago"
  {
    match thenMs
    case None => "NaN days ago"
    case Some(t) =>
      var s := ElapsedSeconds(t, nowMs);
      var u := UnitFor(s);
      Label(s / UnitSeconds(u), u)
  }

  predicate IsDigit(c: char) {
    '0' <= c <= '9'
  }

  /** Reads a label back: its leading number and the unit named after it. */
  function ParseLabel(t: string): (r: Option<(nat, Unit)>) {
    var k := RunEnd(t, 0, IsDigit);
    RunEndSpec(t, 0, IsDigit);
    if k == 0 then None
    else
      var rest := t[k..];
      var u :=
        if rest == "s ago" then Some(Seconds)
        else if rest == "m ago" then Some(Minutes)
        else if rest == "h ago" then Some(Hours)
        else if rest == " day ago" || rest == " days ago" then Some(Days)
        else None;
      if u.None? then None else Some((DecimalValue(t[..k]), u.value))
  }

  /** The digits of a number followed by text that starts with a non-digit: the run ends there. */
  lemma DigitRun(n: nat, rest: string)
    requires rest != [] && !IsDigit(rest[0])
    ensures RunEnd(NatToString(n) + rest, 0, IsDigit) == |NatToString(n)|
  {
    var d, t := NatToString(n), NatToString(n) + rest;
    RunEndSpec(t, 0, IsDigit);
    forall u | 0 <= u < |d| ensures IsDigit(t[u]) {
      assert t[u] == d[u];
    }
    assert t[|d|] == rest[0];
  }

  /** Every label reads back as the count and the unit it was made from. */
  lemma LabelRoundTrip(count: nat, u: Unit)
    ensures ParseLabel(Label(count, u)) == Some((count, u))
  {
    var d, rest := NatToString(count), Suffix(count, u);
    var t := d + rest;
    DigitRun(count, rest);
    assert t[..|d|] == d && t[|d|..] == rest;
    NatToStringRoundTrip(count);
  }

  /**
   * A label never overstates the elapsed time and understates it by less than one of its
   * units: it reads back as a count `c` of a unit `U` with `c * U <= s < (c + 1) * U`, `U`
   * the largest unit that fits in `s`.
   */
  lemma LabelIsFloor(thenMs: int, nowMs: int)
    ensures var s := ElapsedSeconds(thenMs, nowMs);
      var p := ParseLabel(FormatRelativeTime(Some(thenMs), nowMs));
      p.Some? && p.value.1 == UnitFor(s)
      && p.value.0 * UnitSeconds(p.value.1) <= s < (p.value.0 + 1) * UnitSeconds(p.value.1)
  {
    var s := ElapsedSeconds(thenMs, nowMs);
    var u := UnitFor(s);
    LabelRoundTrip(s / UnitSeconds(u), u);
    FloorDiv(s, UnitSeconds(u));
  }

  /** The quotient rounded down brackets the dividend. */
  lemma FloorDiv(s: nat, d: nat)
    requires d >= 1
    ensures (s / d) * d <= s < (s / d + 1) * d
  {
    assert s == d * (s / d) + s % d;
  }

  /** A time in the future reads as `0s ago`. */
  lemma FutureIsZeroSeconds(thenMs: int, nowMs: int)
    requires nowMs < thenMs
    ensures FormatRelativeTime(Some(thenMs), nowMs) == "0s ago"
  {
    assert NatToString(0) == "0";
  }

  /** The three bounded buckets: seconds, then whole minutes, then whole hours. */
  lemma Buckets(thenMs: int, nowMs: int)
    ensures var s := ElapsedSeconds(thenMs, nowMs);
      var r := FormatRelativeTime(Some(thenMs), nowMs);
      && (s < 60 ==> r == NatToString(s) + "s ago")
      && (60 <= s < 3600 ==> r == NatToString(s / 60) + "m ago")
      && (3600 <= s < 86400 ==> r == NatToString(s / 3600) + "h ago")
  {
    var s := ElapsedSeconds(thenMs, nowMs);
    var r := FormatRelativeTime(Some(thenMs), nowMs);
    if s < 60 {
      assert UnitFor(s) == Seconds && s / UnitSeconds(Seconds) == s;
      assert r == Label(s, Seconds);
    } else if s < 3600 {
      assert UnitFor(s) == Minutes;
      assert r == Label(s / 60, Minutes);
    } else if s < 86400 {
      assert UnitFor(s) == Hours;
      assert r == Label(s / 3600, Hours);
    }
  }

  /** From one day on the label counts whole days: `1 day ago`, else `N days ago`. */
  lemma DayLabels(thenMs: int, nowMs: int)
    requires ElapsedSeconds(thenMs, nowMs) >= 86400
    ensures var days := ElapsedSeconds(thenMs, nowMs) / 86400;
      var r := FormatRelativeTime(Some(thenMs), nowMs);
      days >= 1 && (days == 1 ==> r == "1 day ago") && (days != 1 ==> r == NatToString(days) + " days ago")
  {
    var days := ElapsedSeconds(thenMs, nowMs) / 86400;
    if days == 1 {
      assert NatToString(days) == "1";
    }
  }

  // --- the title search

  /** The project's title contains the query, ignoring case. */
  predicate TitleMatches(query: string, p: ProjectItem) {
    Contains(Lower(p.title), Lower(query))
  }

  /** `filteredProjects`: the projects whose title matches the search box, in list order. */
  function FilterProjects(projects: seq<ProjectItem>, query: string): (r: seq<ProjectItem>)
    ensures |r| <= |projects|
  {
    Sorting.Filter(projects, p => TitleMatches(query, p))
  }

  /** The filter keeps exactly the matching projects. */
  lemma FilterProjectsExactly(projects: seq<ProjectItem>, query: string, p: ProjectItem)
    ensures p in FilterProjects(projects, query) <==> p in projects && TitleMatches(query, p)
  {
    Sorting.FilterIn(projects, p => TitleMatches(query, p), p);
  }

  /** The filter keeps the list's order: filtering a concatenation filters each part. */
  lemma FilterProjectsAppend(a: seq<ProjectItem>, b: seq<ProjectItem>, query: string)
    ensures FilterProjects(a + b, query) == FilterProjects(a, query) + FilterProjects(b, query)
  {
    Sorting.FilterAppend(a, b, p => TitleMatches(query, p));
  }

  /** An empty search box shows every project. */
  lemma EmptyQueryKeepsAll(projects: seq<ProjectItem>)
    ensures FilterProjects(projects, "") == projects
  {
    forall k | 0 <= k < |projects| ensures TitleMatches("", projects[k]) {
      assert HasAt(Lower(projects[k].title), 0, Lower(""));
    }
    Sorting.FilterAll(projects, p => TitleMatches("", p));
  }

  // --- getStatusColor

  /** The badge classes for a hue: light and dark mode background and text. */
  function BadgeClasses(h: Hue): string {
    var n := HueName(h);
    "bg-" + n + ("-100 text-" + n + "-800 dark:bg-" + n + "-900 dark:text-" + n + "-300")
  }

  /** Badges of different hues are different class strings. */
  lemma BadgeClassesInjective(g: Hue, h: Hue)
    ensures BadgeClasses(g) == BadgeClasses(h) <==> g == h
  {
    if BadgeClasses(g) == BadgeClasses(h) {
      var m, n := HueName(g), HueName(h);
      NameAfterPrefix("bg-", m, n,
        "-100 text-" + m + "-800 dark:bg-" + m + "-900 dark:text-" + m + "-300",
        "-100 text-" + n + "-800 dark:bg-" + n + "-900 dark:text-" + n + "-300");
      HueNameInjective(g, h);
    }
  }

  predicate IsKnownStatus(status: string) {
    status == "active" || status == "deployed" || status == "draft"
  }

  /** `getStatusColor`: green, blue and yellow for the three known statuses, gray for the rest. */
  function StatusColor(status: string): (r: string)
    ensures r == BadgeClasses(Gray) <==> !IsKnownStatus(status)
    ensures status == "active" ==> r == BadgeClasses(Green)
    ensures status == "deployed" ==> r == BadgeClasses(Blue)
    ensures status == "draft" ==> r == BadgeClasses(Yellow)
  {
    var h :=
      if status == "active" then Green
      else if status == "deployed" then Blue
      else if status == "draft" then Yellow
      else Gray;
    BadgeClassesInjective(h, Gray);
    BadgeClasses(h)
  }

  /** The three known statuses get three different badges. */
  lemma KnownStatusesDiffer(a: string, b: string)
    requires IsKnownStatus(a) && IsKnownStatus(b) && a != b
    ensures StatusColor(a) != StatusColor(b)
  {
    if (a == "active" && b == "deployed") || (a == "deployed" && b == "active") {
      BadgeClassesInjective(Green, Blue);
    } else if (a == "active" && b == "draft") || (a == "draft" && b == "active") {
      BadgeClassesInjective(Green, Yellow);
    } else {
      BadgeClassesInjective(Blue, Yellow);
    }
  }
}
