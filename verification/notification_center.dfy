/** The bell menu (src/components/NotificationCenter.tsx): relative
    timestamps, the unread badge, and what a click on a notification does. */
module NotificationCenter {
  import opened Optional
  import opened Strings
  import opened Types
  import opened Actions
  import NotificationSlice

  const MinuteMs: int := 60000
  const HourMs: int := 3600000
  const DayMs: int := 86400000

  /** The coarsest unit of `formatTime` that fits the elapsed time. */
  datatype TimeLabel = JustNow | MinutesAgo(minutes: nat) | HoursAgo(hours: nat) | DaysAgo(days: nat)

  /** The if-chain of `formatTime` on `diffMs = now - date` (milliseconds,
      possibly negative for a date in the future), with `Math.floor`
      division: under a minute, including any negative difference, is
      "just now"; each other label gives the whole number of units
      elapsed. */
  function TimeBucket(diffMs: int): (t: TimeLabel)
    ensures t == JustNow <==> diffMs < MinuteMs
    ensures t.MinutesAgo? <==> MinuteMs <= diffMs < HourMs
    ensures t.HoursAgo? <==> HourMs <= diffMs < DayMs
    ensures t.DaysAgo? <==> DayMs <= diffMs
    ensures t.MinutesAgo? ==>
      1 <= t.minutes < 60 && t.minutes * MinuteMs <= diffMs < (t.minutes + 1) * MinuteMs
    ensures t.HoursAgo? ==>
      1 <= t.hours < 24 && t.hours * HourMs <= diffMs < (t.hours + 1) * HourMs
    ensures t.DaysAgo? ==>
      1 <= t.days && t.days * DayMs <= diffMs < (t.days + 1) * DayMs
  {
    var minutes := diffMs / MinuteMs;
    var hours := diffMs / HourMs;
    var days := diffMs / DayMs;
    if minutes < 1 then JustNow
    else if minutes < 60 then MinutesAgo(minutes)
    else if hours < 24 then HoursAgo(hours)
    else DaysAgo(days)
  }

  /** The text shown for a label. */
  function LabelText(t: TimeLabel): string
  {
    match t
    case JustNow => "Just now"
    case MinutesAgo(m) => DecimalString(m) + "m ago"
    case HoursAgo(h) => DecimalString(h) + "h ago"
    case DaysAgo(d) => DecimalString(d) + "d ago"
  }

  /** The text `formatTime` returns. */
  function FormatTime(diffMs: int): (text: string)
    ensures text == "Just now" <==> diffMs < MinuteMs
    ensures ReadLabel(text) == Some(TimeBucket(diffMs))
  {
    LabelTextReadsBack(TimeBucket(diffMs));
    LabelText(TimeBucket(diffMs))
  }

  /** Reads a label back from its text. */
  function ReadLabel(text: string): Option<TimeLabel>
  {
    if text == "Just now" then Some(JustNow)
    else if |text| < 6 || text[|text| - 4..] != " ago" then None
    else
      var digits := text[..|text| - 5];
      var unit := text[|text| - 5];
      if !(forall k :: 0 <= k < |digits| ==> IsDigit(digits[k])) then None
      else if unit == 'm' then Some(MinutesAgo(ParseDecimal(digits)))
      else if unit == 'h' then Some(HoursAgo(ParseDecimal(digits)))
      else if unit == 'd' then Some(DaysAgo(ParseDecimal(digits)))
      else None
  }

  /** The pieces `ReadLabel` takes apart in "<n><unit> ago". */
  lemma UnitLabelParts(n: nat, unit: char)
    ensures var text := DecimalString(n) + [unit] + " ago";
      && text != "Just now" && |text| >= 6 && text[|text| - 4..] == " ago"
      && text[..|text| - 5] == DecimalString(n) && text[|text| - 5] == unit
  {
    var text := DecimalString(n) + [unit] + " ago";
    assert IsDigit(text[0]);
  }

  lemma MinutesReadBack(m: nat)
    ensures ReadLabel(LabelText(MinutesAgo(m))) == Some(MinutesAgo(m))
  {
    UnitLabelParts(m, 'm');
    DecimalStringRoundTrip(m);
  }

  lemma HoursReadBack(h: nat)
    ensures ReadLabel(LabelText(HoursAgo(h))) == Some(HoursAgo(h))
  {
    UnitLabelParts(h, 'h');
    DecimalStringRoundTrip(h);
  }

  lemma DaysReadBack(d: nat)
    ensures ReadLabel(LabelText(DaysAgo(d))) == Some(DaysAgo(d))
  {
    UnitLabelParts(d, 'd');
    DecimalStringRoundTrip(d);
  }

  /** Every label's text reads back as that label: distinct buckets and
      distinct counts never share a text. */
  lemma LabelTextReadsBack(t: TimeLabel)
    ensures ReadLabel(LabelText(t)) == Some(t)
  {
    match t
    case JustNow =>
    case MinutesAgo(m) => MinutesReadBack(m);
    case HoursAgo(h) => HoursReadBack(h);
    case DaysAgo(d) => DaysReadBack(d);
  }

  /** The badge on the bell: nothing when there is nothing unread, the
      count itself up to nine, and "9+" above that. */
  function Badge(unreadCount: int): (badge: Option<string>)
    ensures badge.None? <==> unreadCount <= 0
    ensures badge == Some("9+") <==> unreadCount > 9
    ensures badge.Some? ==> |badge.value| <= 2
    ensures 0 < unreadCount <= 9 ==>
      |badge.value| == 1 && IsDigit(badge.value[0]) && ParseDecimal(badge.value) == unreadCount
  {
    if unreadCount <= 0 then None
    else if unreadCount > 9 then Some("9+")
    else
      DecimalStringRoundTrip(unreadCount);
      Some(DecimalString(unreadCount))
  }

  /** What `handleNotificationClick` does: the command it dispatches, where
      it navigates, and whether the menu stays open. */
  datatype ClickOutcome = ClickOutcome(command: Action, navigateTo: Option<string>, isOpen: bool)

  /** `handleNotificationClick`: the notification is always marked read;
      only a non-empty link is followed, and following it closes the menu. */
  function ClickNotification(n: Notification, isOpen: bool): (r: ClickOutcome)
    ensures r.command == MarkAsRead(n.id)
    ensures r.navigateTo.Some? <==> n.link.Some? && n.link.value != ""
    ensures r.navigateTo.Some? ==> r.navigateTo == n.link && !r.isOpen
    ensures r.navigateTo.None? ==> r.isOpen == isOpen
  {
    match n.link
    case Some(link) => if link != "" then ClickOutcome(MarkAsRead(n.id), Some(link), false) else ClickOutcome(MarkAsRead(n.id), None, isOpen)
    case None => ClickOutcome(MarkAsRead(n.id), None, isOpen)
  }

  /** In a feed with distinct ids, the command a click dispatches leaves the
      clicked notification read, whatever its state before. */
  lemma ClickedNotificationIsRead(ns: seq<Notification>, i: nat, isOpen: bool)
    requires i < |ns| && NotificationSlice.DistinctIds(ns)
    ensures var command := ClickNotification(ns[i], isOpen).command;
      NotificationSlice.MarkedAsRead(ns, command.notificationId)[i].read
  {
    var found := NotificationSlice.FindIndex(ns, ns[i].id);
    assert found.Some?;
    var j := found.value;
    assert NotificationSlice.NotificationId(ns[j]) == NotificationSlice.NotificationId(ns[i]);
    assert j == i;
  }
}
