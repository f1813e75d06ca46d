/** The activity page (`frontend/src/pages/ActivityPage.js`): how the age of a
    log entry is rendered, and the icon style chosen for its kind. */
module Activity {
  import opened Wrappers
  import opened Text
  import opened Api

  const MINUTE_MS := 60000
  const HOUR_MS := 3600000
  const DAY_MS := 86400000

  /** The relative-time bucket `formatTime` puts an age into. */
  datatype Age = JustNow | MinutesAgo(minutes: nat) | HoursAgo(hours: nat) | OnDate

  /** The bucket for `diff`, the milliseconds from the entry's timestamp to
      now (negative for a timestamp in the future). */
  function AgeOf(diff: int): (r: Age)
    ensures r == JustNow <==> diff < MINUTE_MS
    ensures r.MinutesAgo? <==> MINUTE_MS <= diff < HOUR_MS
    ensures r.HoursAgo? <==> HOUR_MS <= diff < DAY_MS
    ensures r == OnDate <==> DAY_MS <= diff
    ensures r.MinutesAgo? ==>
      1 <= r.minutes <= 59 && r.minutes * MINUTE_MS <= diff < (r.minutes + 1) * MINUTE_MS
    ensures r.HoursAgo? ==>
      1 <= r.hours <= 23 && r.hours * HOUR_MS <= diff < (r.hours + 1) * HOUR_MS
  {
    if diff < MINUTE_MS then JustNow
    else if diff < HOUR_MS then MinutesAgo(diff / MINUTE_MS)
    else if diff < DAY_MS then HoursAgo(diff / HOUR_MS)
    else OnDate
  }

  const JUST_NOW := "Just now"
  const MINUTES_SUFFIX := "m ago"
  const HOURS_SUFFIX := "h ago"

  /** `formatTime`; `date` stands for the `toLocaleDateString` text of the
      entry, which only entries a day old or more show. */
  function FormatTime(diff: int, date: string): string
  {
    match AgeOf(diff)
    case JustNow => JUST_NOW
    case MinutesAgo(m) => Decimal(m) + MINUTES_SUFFIX
    case HoursAgo(h) => Decimal(h) + HOURS_SUFFIX
    case OnDate => date
  }

  /** Only entries a day old or more show the locale date; younger ones do not depend on it. */
  lemma DateOnlyForOldEntries(diff: int, date: string, other: string)
    ensures DAY_MS <= diff ==> FormatTime(diff, date) == date
    ensures diff < DAY_MS ==> FormatTime(diff, date) == FormatTime(diff, other)
  {
  }

  /** Reads a relative-time text back into its bucket. */
  function ParseAge(text: string): Option<Age>
  {
    if text == JUST_NOW then Some(JustNow)
    else if |text| > 5 && (forall i :: 0 <= i < |text| - 5 ==> IsDigit(text[i])) then
      var n := ParseDecimal(text[..|text| - 5]);
      if text[|text| - 5..] == MINUTES_SUFFIX then Some(MinutesAgo(n))
      else if text[|text| - 5..] == HOURS_SUFFIX then Some(HoursAgo(n))
      else None
    else None
  }

  /** Every relative text names its bucket and number unambiguously: reading
      it back gives the bucket `formatTime` chose. */
  lemma FormatTimeRoundTrip(diff: int, date: string)
    requires diff < DAY_MS
    ensures ParseAge(FormatTime(diff, date)) == Some(AgeOf(diff))
  {
    var text := FormatTime(diff, date);
    match AgeOf(diff)
    case JustNow =>
    case MinutesAgo(m) =>
      SuffixedNumeral(m, MINUTES_SUFFIX);
    case HoursAgo(h) =>
      SuffixedNumeral(h, HOURS_SUFFIX);
  }

  lemma SuffixedNumeral(n: nat, suffix: string)
    requires |suffix| == 5 && suffix[0] != 'J' && suffix[1] == ' '
    ensures var text := Decimal(n) + suffix;
      text != JUST_NOW && |text| > 5 &&
      (forall i :: 0 <= i < |text| - 5 ==> IsDigit(text[i])) &&
      text[..|text| - 5] == Decimal(n) && text[|text| - 5..] == suffix &&
      ParseDecimal(text[..|text| - 5]) == n
  {
    var text := Decimal(n) + suffix;
    assert text[..|text| - 5] == Decimal(n);
    assert text[|text| - 5..] == suffix;
    ParseDecimalOfDecimal(n);
    assert IsDigit(text[0]);
  }

  /** Rank of a bucket in the order the page checks them. */
  function Rank(a: Age): nat
  {
    match a
    case JustNow => 0
    case MinutesAgo(_) => 1
    case HoursAgo(_) => 2
    case OnDate => 3
  }

  /** Older entries never land in an earlier bucket, nor show a smaller number in the same one. */
  lemma AgeMonotone(d1: int, d2: int)
    requires d1 <= d2
    ensures Rank(AgeOf(d1)) <= Rank(AgeOf(d2))
    ensures AgeOf(d1).MinutesAgo? && AgeOf(d2).MinutesAgo? ==> AgeOf(d1).minutes <= AgeOf(d2).minutes
    ensures AgeOf(d1).HoursAgo? && AgeOf(d2).HoursAgo? ==> AgeOf(d1).hours <= AgeOf(d2).hours
  {
    if AgeOf(d1).MinutesAgo? && AgeOf(d2).MinutesAgo? {
      var m1, m2 := AgeOf(d1).minutes, AgeOf(d2).minutes;
      assert m1 * MINUTE_MS <= d1 <= d2 < (m2 + 1) * MINUTE_MS;
    }
    if AgeOf(d1).HoursAgo? && AgeOf(d2).HoursAgo? {
      var h1, h2 := AgeOf(d1).hours, AgeOf(d2).hours;
      assert h1 * HOUR_MS <= d1 <= d2 < (h2 + 1) * HOUR_MS;
    }
  }

  // ------------------------------------------------------------ icon styles

  /** One entry of `ACTION_ICONS`: the icon, its colour and its background. */
  datatype ActionStyle = ActionStyle(icon: string, color: string, bg: string)

  const ACTION_ICONS: map<string, ActionStyle> := map[
    AUTOMATION_CREATED := ActionStyle("Sparkles", "text-[#0066FF]", "bg-blue-50"),
    AUTOMATION_TOGGLED := ActionStyle("Power", "text-amber-600", "bg-amber-50"),
    AUTOMATION_DELETED := ActionStyle("Trash2", "text-red-500", "bg-red-50"),
    ONBOARDING_COMPLETE := ActionStyle("CheckCircle2", "text-emerald-600", "bg-emerald-50"),
    AI_SUGGESTION := ActionStyle("Sparkles", "text-purple-600", "bg-purple-50")]

  const DEFAULT_ACTION_STYLE := ActionStyle("Activity", "text-slate-500", "bg-slate-50")

  /** `ACTION_ICONS[log.action] || { icon: Activity, ... }`. */
  function StyleFor(action: string): ActionStyle
  {
    if action in ACTION_ICONS then ACTION_ICONS[action] else DEFAULT_ACTION_STYLE
  }

  /** An entry gets the default style exactly when its kind is none of the
      five the server logs. */
  lemma StyleForSpec(action: string)
    ensures StyleFor(action) == DEFAULT_ACTION_STYLE <==>
      action != AUTOMATION_CREATED && action != AUTOMATION_TOGGLED && action != AUTOMATION_DELETED &&
      action != ONBOARDING_COMPLETE && action != AI_SUGGESTION
  {
  }
}
