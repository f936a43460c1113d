/** The plain browser client of the chat page: the relative-time labels under each message, and the
    submit handler, which ignores a blank input and otherwise shows the user's message, then the
    bot's reply or a fixed error text. The page is reduced to its list of message elements and the
    state of the input; the server's answer and the clock are parameters. */
module WebClient {
  import opened Wrappers
  import opened Text

  // ---------------------------------------------------------------------------------------------
  // `formatTime`

  /** `Math.floor((now - messageDate) / 1000)` for times in milliseconds; with a positive divisor,
      Dafny's division rounds down as `Math.floor` does, also for a negative difference. */
  function SecondsBetween(nowMs: int, dateMs: int): int
  {
    (nowMs - dateMs) / 1000
  }

  /** `formatTime(date)` read at time `nowMs`; `clock` stands for `toLocaleTimeString` of the
      message's date, which the model leaves abstract. Under a minute the label is "Just now", from
      a day on it is the clock string, and in between it is a count starting with a digit and
      ending in " ago". */
  function FormatTime(nowMs: int, dateMs: int, clock: string): (shown: string)
    ensures SecondsBetween(nowMs, dateMs) < 60 ==> shown == "Just now"
    ensures SecondsBetween(nowMs, dateMs) >= 86400 ==> shown == clock
    ensures 60 <= SecondsBetween(nowMs, dateMs) < 86400 ==>
      |shown| > 4 && IsDigit(shown[0]) && shown[|shown| - 4..] == " ago"
  {
    var diffInSeconds := SecondsBetween(nowMs, dateMs);
    if diffInSeconds < 60 then "Just now"
    else if diffInSeconds < 3600 then
      var minutes := diffInSeconds / 60;
      Decimal(minutes) + " " + (if minutes == 1 then "minute" else "minutes") + " ago"
    else if diffInSeconds < 86400 then
      var hours := diffInSeconds / 3600;
      Decimal(hours) + " " + (if hours == 1 then "hour" else "hours") + " ago"
    else clock
  }

  /** The four kinds of label, with their counts. */
  datatype TimeLabel = JustNow | MinutesAgo(minutes: nat) | HoursAgo(hours: nat) | ClockTime

  /** The bucket of a difference in seconds. */
  function Bucket(d: int): (l: TimeLabel)
    ensures l.JustNow? <==> d < 60
    ensures l.MinutesAgo? <==> 60 <= d < 3600
    ensures l.HoursAgo? <==> 3600 <= d < 86400
    ensures l.ClockTime? <==> d >= 86400
    ensures l.MinutesAgo? ==> 1 <= l.minutes <= 59 && l.minutes * 60 <= d < (l.minutes + 1) * 60
    ensures l.HoursAgo? ==> 1 <= l.hours <= 23 && l.hours * 3600 <= d < (l.hours + 1) * 3600
  {
    if d < 60 then JustNow
    else if d < 3600 then MinutesAgo(d / 60)
    else if d < 86400 then HoursAgo(d / 3600)
    else ClockTime
  }

  /** "N unit ago", singular exactly when N is 1. */
  function CountText(n: nat, unit: string): string
  {
    Decimal(n) + " " + (if n == 1 then unit else unit + "s") + " ago"
  }

  function Render(l: TimeLabel, clock: string): string
  {
    match l
    case JustNow => "Just now"
    case MinutesAgo(m) => CountText(m, "minute")
    case HoursAgo(h) => CountText(h, "hour")
    case ClockTime => clock
  }

  // ---------------------------------------------------------------------------------------------
  // Lemmas about `formatTime`

  /** The label is the rendering of the difference's bucket: the buckets are exhaustive and
      exclusive, a count of minutes lies in 1..59 and one of hours in 1..23, and the unit is
      singular exactly when the count is 1. */
  lemma FormatTimeIsBucketed(nowMs: int, dateMs: int, clock: string)
    ensures FormatTime(nowMs, dateMs, clock) == Render(Bucket(SecondsBetween(nowMs, dateMs)), clock)
  {
  }

  /** A message from the future is "Just now". */
  lemma FutureIsJustNow(nowMs: int, dateMs: int, clock: string)
    requires dateMs > nowMs
    ensures FormatTime(nowMs, dateMs, clock) == "Just now"
  {
  }

  /** The labels can be read back: two labels other than the clock string render to the same text
      only when they are the same bucket with the same count. */
  lemma RenderInjective(l1: TimeLabel, l2: TimeLabel, clock: string)
    requires !l1.ClockTime? && !l2.ClockTime?
    requires Render(l1, clock) == Render(l2, clock)
    ensures l1 == l2
  {
    var t := Render(l1, clock);
    FirstCharTellsCounted(l1, clock);
    FirstCharTellsCounted(l2, clock);
    if !l1.JustNow? {
      var n1, u1 := LabelParts(l1, clock);
      var n2, u2 := LabelParts(l2, clock);
      CountTextParts(n1, u1, t);
      CountTextParts(n2, u2, t);
      var k := LeadingDigits(t);
      assert Decimal(n1) == t[..k] == Decimal(n2);
      DecimalInjective(n1, n2);
      assert t[k + 1] == u1[0] == u2[0];
    }
  }

  /** The count and unit of a counted label. */
  lemma LabelParts(l: TimeLabel, clock: string) returns (n: nat, unit: string)
    requires l.MinutesAgo? || l.HoursAgo?
    ensures Render(l, clock) == CountText(n, unit)
    ensures l.MinutesAgo? ==> n == l.minutes && unit == "minute"
    ensures l.HoursAgo? ==> n == l.hours && unit == "hour"
    ensures unit != [] && unit[0] == if l.MinutesAgo? then 'm' else 'h'
  {
    if l.MinutesAgo? { n, unit := l.minutes, "minute"; } else { n, unit := l.hours, "hour"; }
  }

  /** A counted label starts with a digit, "Just now" with a letter. */
  lemma FirstCharTellsCounted(l: TimeLabel, clock: string)
    requires !l.ClockTime?
    ensures Render(l, clock) != [] && (IsDigit(Render(l, clock)[0]) <==> !l.JustNow?)
  {
    var t := Render(l, clock);
    if !l.JustNow? {
      var n, u := LabelParts(l, clock);
      CountTextParts(n, u, t);
      assert LeadingDigits(t) >= 1;
    } else {
      assert t[0] == 'J';
    }
  }

  /** The number of decimal digits a string starts with. */
  function LeadingDigits(s: string): (k: nat)
    ensures k <= |s|
  {
    if s != [] && IsDigit(s[0]) then 1 + LeadingDigits(s[1..]) else 0
  }

  /** A counted label starts with the count's digits, then a space, then the unit. */
  lemma CountTextParts(n: nat, unit: string, t: string)
    requires unit != [] && t == CountText(n, unit)
    ensures LeadingDigits(t) == |Decimal(n)| && t[..|Decimal(n)|] == Decimal(n)
    ensures |Decimal(n)| + 1 < |t| && t[|Decimal(n)|] == ' ' && t[|Decimal(n)| + 1] == unit[0]
  {
    var d := Decimal(n);
    var rest := UnitText(n, unit);
    UnitTextStart(n, unit);
    SplitAfter(d, " ", if n == 1 then unit else unit + "s", " ago");
    DigitsThenOther(d, rest);
    assert t == d + rest;
    assert t[..|d|] == d;
  }

  /** What follows the count in a counted label. */
  function UnitText(n: nat, unit: string): string
  {
    " " + (if n == 1 then unit else unit + "s") + " ago"
  }

  lemma UnitTextStart(n: nat, unit: string)
    requires unit != []
    ensures |UnitText(n, unit)| >= 2 && UnitText(n, unit)[0] == ' ' && UnitText(n, unit)[1] == unit[0]
  {
  }

  /** Concatenating the count's digits with the rest of a label. */
  lemma SplitAfter(d: string, a: string, b: string, c: string)
    ensures d + a + b + c == d + (a + b + c)
  {
  }

  /** Digits followed by a text that does not start with a digit: the digits are counted exactly. */
  lemma {:induction false} DigitsThenOther(d: string, rest: string)
    requires forall k :: 0 <= k < |d| ==> IsDigit(d[k])
    requires rest != [] && !IsDigit(rest[0])
    ensures LeadingDigits(d + rest) == |d|
    decreases |d|
  {
    if d != [] {
      assert (d + rest)[1..] == d[1..] + rest;
      DigitsThenOther(d[1..], rest);
    } else {
      assert d + rest == rest;
    }
  }

  // ---------------------------------------------------------------------------------------------
  // The submit handler

  datatype Sender = FromUser | FromBot

  /** A message element: who sent it, its text and the time its label is computed from. */
  datatype Element = Element(sender: Sender, text: string, timestamp: int)

  const ErrorReply := "Sorry, something went wrong. Please try again."

  /** The bot element the handler adds: the reply with the server's timestamp, or the error text
      at the time the failure is caught. `answer` is `None` when `sendMessage` threw. */
  function BotElement(answer: Option<(string, int)>, failedAt: int): Element
  {
    if answer.Some? then Element(FromBot, answer.value.0, answer.value.1) else Element(FromBot, ErrorReply, failedAt)
  }

  class ChatPage {
    var window: seq<Element>
    var input: string
    var inputDisabled: bool
    var typing: bool

    constructor ()
      ensures window == [] && input == [] && !inputDisabled && !typing
    {
      window := [];
      input := [];
      inputDisabled := false;
      typing := false;
    }

    /** The `submit` listener: `now` is the time of the submit, `answer` what `sendMessage(message)`
        returned, `failedAt` the time a failure is caught. */
    method Submit(answer: Option<(string, int)>, now: int, failedAt: int)
      modifies this
      ensures Trim(old(input)) == [] ==>
        window == old(window) && input == old(input) && inputDisabled == old(inputDisabled) && typing == old(typing)
      ensures Trim(old(input)) != [] ==>
        && window == old(window) + [Element(FromUser, Trim(old(input)), now), BotElement(answer, failedAt)]
        && input == [] && !inputDisabled && !typing
    {
      var message := Trim(input);
      if message == [] {
        return;
      }
      inputDisabled := true;
      window := window + [Element(FromUser, message, now)];
      input := [];
      typing := true;
      if answer.Some? {
        typing := false;
        window := window + [Element(FromBot, answer.value.0, answer.value.1)];
      } else {
        typing := false;
        window := window + [Element(FromBot, ErrorReply, failedAt)];
      }
      inputDisabled := false;
    }
  }
}
