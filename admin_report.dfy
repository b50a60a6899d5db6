/** The formatting helpers of the administration report: durations, the
    browser of an access, the user-agent cell, the blank date cells, the
    online dots and the numbering of the session and history tables. */
module AdminReport {
  import opened Wrappers
  import opened Text

  /** An argument that may be left out (`undefined`), be `null`, or be given. */
  datatype Arg = Undefined | Null | Given(s: string)

  /** What a call produces: a text, or the `TypeError` of reading a member of `null`. */
  datatype Outcome = Returns(text: string) | ThrowsTypeError

  /** JavaScript truthiness of a text argument. */
  predicate Truthy(a: Arg) {
    a.Given? && a.s != ""
  }

  // ---------------------------------------------------------------------
  // Durations

  /** `formatDuration(seconds)`: seconds below a minute, minutes and seconds
      below an hour, otherwise hours and minutes. */
  function FormatDuration(seconds: int): (r: string)
    ensures |r| >= 2 && r[|r| - 1] == (if seconds < 3600 then 's' else 'm')
  {
    if seconds < 60 then IntToString(seconds) + "s"
    else if seconds < 3600 then IntToString(seconds / 60) + "m " + IntToString(seconds % 60) + "s"
    else IntToString(seconds / 3600) + "h " + IntToString((seconds % 3600) / 60) + "m"
  }

  /** Under a minute (negative counts included) the seconds are printed as they are. */
  lemma FormatDurationSeconds(seconds: int)
    requires seconds < 60
    ensures FormatDuration(seconds) == IntToString(seconds) + "s"
  {
  }

  /** Under an hour: whole minutes and the remaining seconds. */
  lemma FormatDurationMinutes(seconds: int)
    requires 60 <= seconds < 3600
    ensures exists m: nat, r: nat :: (1 <= m < 60 && r < 60 && m * 60 + r == seconds
      && FormatDuration(seconds) == NatToString(m) + "m " + NatToString(r) + "s")
  {
    var m, r := seconds / 60, seconds % 60;
    assert FormatDuration(seconds) == NatToString(m) + "m " + NatToString(r) + "s";
  }

  /** From an hour on: whole hours and the minutes of the last hour; the
      seconds are dropped. */
  lemma FormatDurationHours(seconds: int)
    requires seconds >= 3600
    ensures exists h: nat, m: nat :: (h >= 1 && m < 60
      && h * 3600 + m * 60 <= seconds < h * 3600 + (m + 1) * 60
      && FormatDuration(seconds) == NatToString(h) + "h " + NatToString(m) + "m")
  {
    var h, m := seconds / 3600, (seconds % 3600) / 60;
    assert h * 3600 + m * 60 <= seconds < h * 3600 + (m + 1) * 60;
    assert FormatDuration(seconds) == NatToString(h) + "h " + NatToString(m) + "m";
  }

  /** From an hour on, durations within the same minute print alike. */
  lemma HoursIgnoreSeconds(seconds: int)
    requires seconds >= 3600
    ensures FormatDuration(seconds) == FormatDuration(seconds - seconds % 60)
  {
    var t := seconds - seconds % 60;
    assert t / 3600 == seconds / 3600;
    assert (t % 3600) / 60 == (seconds % 3600) / 60;
  }

  // ---------------------------------------------------------------------
  // Browsers

  const EDGE_ICON: string := "\U{1F535}"
  const CHROME_ICON: string := "\U{1F310}"
  const FIREFOX_ICON: string := "\U{1F98A}"
  const SAFARI_ICON: string := "\U{1F34E}"
  const OPERA_ICON: string := "\U{1F3AD}"
  const OTHER_ICON: string := "\U{1F5A5}\U{FE0F}"

  /** The text a defaulted text parameter holds: `undefined` becomes `''`;
      `null` is kept, and reading `includes` of it throws. */
  function Defaulted(a: Arg): Option<string> {
    match a
    case Undefined => Some("")
    case Null => None
    case Given(s) => Some(s)
  }

  /** `browserIcon(browser)`: the first of Edge, Chrome, Firefox, Safari and
      Opera that the name mentions picks the icon. */
  function BrowserIcon(browser: Arg): (r: Outcome)
    ensures r.ThrowsTypeError? <==> browser.Null?
    ensures r.Returns? ==> r.text in [EDGE_ICON, CHROME_ICON, FIREFOX_ICON, SAFARI_ICON, OPERA_ICON, OTHER_ICON]
  {
    match Defaulted(browser)
    case None => ThrowsTypeError
    case Some(b) =>
      Returns(
        if Contains(b, "Edge") then EDGE_ICON
        else if Contains(b, "Chrome") then CHROME_ICON
        else if Contains(b, "Firefox") then FIREFOX_ICON
        else if Contains(b, "Safari") then SAFARI_ICON
        else if Contains(b, "Opera") then OPERA_ICON
        else OTHER_ICON)
  }

  /** `parseUA(ua)`: the browser named by a user-agent string. */
  function ParseUA(ua: Arg): (r: Outcome)
    ensures r.ThrowsTypeError? <==> ua.Null?
    ensures r.Returns? ==>
      r.text in [EDGE_ICON + " Edge", CHROME_ICON + " Chrome", FIREFOX_ICON + " Firefox", SAFARI_ICON + " Safari", OTHER_ICON + " Outro"]
  {
    match Defaulted(ua)
    case None => ThrowsTypeError
    case Some(u) =>
      Returns(
        if Contains(u, "Edg/") || Contains(u, "Edge/") then EDGE_ICON + " Edge"
        else if Contains(u, "Chrome") then CHROME_ICON + " Chrome"
        else if Contains(u, "Firefox") then FIREFOX_ICON + " Firefox"
        else if Contains(u, "Safari") then SAFARI_ICON + " Safari"
        else OTHER_ICON + " Outro")
  }

  /** Edge is recognised by `Edg/` or `Edge/` even though its user agent also
      names Chrome and Safari; Chrome wins over Safari; then Firefox, then
      Safari; anything else is `Outro`. A missing user agent is empty, a
      `null` one throws. */
  lemma ParseUASpec(u: string)
    ensures Contains(u, "Edg/") || Contains(u, "Edge/") ==> ParseUA(Given(u)) == Returns(EDGE_ICON + " Edge")
    ensures !Contains(u, "Edg/") && !Contains(u, "Edge/") && Contains(u, "Chrome") ==>
      ParseUA(Given(u)) == Returns(CHROME_ICON + " Chrome")
    ensures !Contains(u, "Edg/") && !Contains(u, "Edge/") && !Contains(u, "Chrome") && Contains(u, "Firefox") ==>
      ParseUA(Given(u)) == Returns(FIREFOX_ICON + " Firefox")
    ensures (!Contains(u, "Edg/") && !Contains(u, "Edge/") && !Contains(u, "Chrome") && !Contains(u, "Firefox")
      && Contains(u, "Safari")) ==> ParseUA(Given(u)) == Returns(SAFARI_ICON + " Safari")
    ensures ParseUA(Given(u)) == Returns(OTHER_ICON + " Outro") <==>
      !Contains(u, "Edg/") && !Contains(u, "Edge/") && !Contains(u, "Chrome") && !Contains(u, "Firefox") && !Contains(u, "Safari")
    ensures ParseUA(Undefined) == ParseUA(Given(""))
    ensures ParseUA(Null) == ThrowsTypeError
  {
    var other := OTHER_ICON + " Outro";
    assert other[0] == '\U{1F5A5}';
    var name := ParseUA(Given(u)).text;
    if Contains(u, "Edg/") || Contains(u, "Edge/") {
      assert name[0] == '\U{1F535}';
    } else if Contains(u, "Chrome") {
      assert name[0] == '\U{1F310}';
    } else if Contains(u, "Firefox") {
      assert name[0] == '\U{1F98A}';
    } else if Contains(u, "Safari") {
      assert name[0] == '\U{1F34E}';
    } else {
      assert name == other;
    }
    EmptyContainsNothing("Edg/");
    EmptyContainsNothing("Edge/");
    EmptyContainsNothing("Chrome");
    EmptyContainsNothing("Firefox");
    EmptyContainsNothing("Safari");
  }

  /** A string with a non-empty needle is not found in the empty string. */
  lemma EmptyContainsNothing(t: string)
    requires |t| > 0
    ensures !Contains("", t)
  {
  }

  /** `browserIcon` checks Edge, Chrome, Firefox, Safari and Opera in that
      order, so an Edge name keeps its icon even when it also mentions Chrome;
      a name that mentions none of the five gets the generic icon, and so does
      a missing one. */
  lemma BrowserIconSpec(b: string)
    ensures Contains(b, "Edge") ==> BrowserIcon(Given(b)) == Returns(EDGE_ICON)
    ensures !Contains(b, "Edge") && Contains(b, "Chrome") ==> BrowserIcon(Given(b)) == Returns(CHROME_ICON)
    ensures !Contains(b, "Edge") && !Contains(b, "Chrome") && Contains(b, "Firefox") ==>
      BrowserIcon(Given(b)) == Returns(FIREFOX_ICON)
    ensures !Contains(b, "Edge") && !Contains(b, "Chrome") && !Contains(b, "Firefox") && Contains(b, "Safari") ==>
      BrowserIcon(Given(b)) == Returns(SAFARI_ICON)
    ensures (!Contains(b, "Edge") && !Contains(b, "Chrome") && !Contains(b, "Firefox") && !Contains(b, "Safari")
      && Contains(b, "Opera")) ==> BrowserIcon(Given(b)) == Returns(OPERA_ICON)
    ensures BrowserIcon(Given(b)) == Returns(OTHER_ICON) <==>
      !Contains(b, "Edge") && !Contains(b, "Chrome") && !Contains(b, "Firefox")
      && !Contains(b, "Safari") && !Contains(b, "Opera")
    ensures BrowserIcon(Undefined) == Returns(OTHER_ICON)
    ensures BrowserIcon(Null) == ThrowsTypeError
  {
    EmptyContainsNothing("Edge");
    EmptyContainsNothing("Chrome");
    EmptyContainsNothing("Firefox");
    EmptyContainsNothing("Safari");
    EmptyContainsNothing("Opera");
  }

  /** A needle with a character the text lacks does not occur in it. */
  lemma MissingCharNotContained(s: string, t: string, c: char)
    requires c in t && c !in s
    ensures !Contains(s, t)
  {
    var k :| 0 <= k < |t| && t[k] == c;
    forall i | 0 <= i <= |s|
      ensures !(t <= s[i..])
    {
      if i + k < |s| {
        assert s[i..][k] == s[i + k];
      }
    }
  }

  /** The icon `browserIcon` gives each name `parseUA` produces. */
  lemma EdgeNameIcon()
    ensures BrowserIcon(Given(EDGE_ICON + " Edge")) == Returns(EDGE_ICON)
  {
    ContainsAt(EDGE_ICON + " Edge", "Edge", 2);
  }

  lemma ChromeNameIcon()
    ensures BrowserIcon(Given(CHROME_ICON + " Chrome")) == Returns(CHROME_ICON)
  {
    var name := CHROME_ICON + " Chrome";
    MissingCharNotContained(name, "Edge", 'E');
    ContainsAt(name, "Chrome", 2);
  }

  lemma FirefoxNameIcon()
    ensures BrowserIcon(Given(FIREFOX_ICON + " Firefox")) == Returns(FIREFOX_ICON)
  {
    var name := FIREFOX_ICON + " Firefox";
    MissingCharNotContained(name, "Edge", 'E');
    MissingCharNotContained(name, "Chrome", 'C');
    ContainsAt(name, "Firefox", 2);
  }

  lemma SafariNameIcon()
    ensures BrowserIcon(Given(SAFARI_ICON + " Safari")) == Returns(SAFARI_ICON)
  {
    var name := SAFARI_ICON + " Safari";
    MissingCharNotContained(name, "Edge", 'E');
    MissingCharNotContained(name, "Chrome", 'C');
    MissingCharNotContained(name, "Firefox", 'F');
    ContainsAt(name, "Safari", 2);
  }

  lemma OtherNameIcon()
    ensures BrowserIcon(Given(OTHER_ICON + " Outro")) == Returns(OTHER_ICON)
  {
    var name := OTHER_ICON + " Outro";
    MissingCharNotContained(name, "Edge", 'E');
    MissingCharNotContained(name, "Chrome", 'C');
    MissingCharNotContained(name, "Firefox", 'F');
    MissingCharNotContained(name, "Safari", 'S');
    MissingCharNotContained(name, "Opera", 'p');
  }

  /** A browser name stored from `parseUA` begins with the icon that
      `browserIcon` picks for it again, followed by a space. */
  lemma ParsedNameKeepsIcon(ua: Arg)
    ensures ParseUA(ua).Returns? ==>
      BrowserIcon(Given(ParseUA(ua).text)).Returns?
      && BrowserIcon(Given(ParseUA(ua).text)).text + " " <= ParseUA(ua).text
  {
    if ParseUA(ua).Returns? {
      var name := ParseUA(ua).text;
      if name == EDGE_ICON + " Edge" {
        EdgeNameIcon();
      } else if name == CHROME_ICON + " Chrome" {
        ChromeNameIcon();
      } else if name == FIREFOX_ICON + " Firefox" {
        FirefoxNameIcon();
      } else if name == SAFARI_ICON + " Safari" {
        SafariNameIcon();
      } else {
        OtherNameIcon();
      }
    }
  }

  /** The browser cell of a history row: icon, space, name (or `-`). */
  function BrowserCell(browser: Arg): Outcome {
    match BrowserIcon(browser)
    case ThrowsTypeError => ThrowsTypeError
    case Returns(icon) => Returns(icon + " " + (if Truthy(browser) then browser.s else "-"))
  }

  /** A missing browser shows the generic icon and `-`; a `null` one throws. */
  lemma BrowserCellSpec(b: string)
    ensures BrowserCell(Undefined) == Returns(OTHER_ICON + " -")
    ensures BrowserCell(Given("")) == Returns(OTHER_ICON + " -")
    ensures BrowserCell(Null) == ThrowsTypeError
    ensures b != "" ==> BrowserCell(Given(b)).Returns? && BrowserCell(Given(b)).text == BrowserIcon(Given(b)).text + " " + b
  {
    BrowserIconSpec("");
  }

  // ---------------------------------------------------------------------
  // User-agent cell

  const UA_LIMIT: nat := 60

  /** The user-agent cell: its first 60 characters, with `…` when it was
      longer; `-` when there is none. */
  function UaCell(ua: Arg): (r: string)
    ensures |r| <= UA_LIMIT + 1
  {
    if !Truthy(ua) then "-"
    else
      var u := ua.s;
      (if |u| <= UA_LIMIT then u else u[..UA_LIMIT]) + (if |u| > UA_LIMIT then "\U{2026}" else "")
  }

  /** A short user agent is shown whole; a long one is cut to its first 60
      characters and marked with the ellipsis, so the cell never exceeds 61
      characters; a missing one shows `-`. */
  lemma UaCellSpec(ua: Arg)
    ensures !Truthy(ua) ==> UaCell(ua) == "-"
    ensures Truthy(ua) && |ua.s| <= 60 ==> UaCell(ua) == ua.s
    ensures Truthy(ua) && |ua.s| > 60 ==>
      |UaCell(ua)| == 61 && UaCell(ua)[..60] == ua.s[..60] && UaCell(ua)[60] == '\U{2026}'
    ensures |UaCell(ua)| <= 61
  {
  }

  // ---------------------------------------------------------------------
  // Date cells

  /** `formatTime(dateStr)`; `localTime` stands for the host's time formatting. */
  function FormatTime(dateStr: Arg, localTime: string -> string): string {
    if !Truthy(dateStr) then "-" else localTime(dateStr.s)
  }

  /** `formatDateTime(dateStr)`; `localDate` and `localTime` stand for the
      host's formatting. */
  function FormatDateTime(dateStr: Arg, localDate: string -> string, localTime: string -> string): (r: string)
    ensures r == "-" <==> !Truthy(dateStr)
  {
    if !Truthy(dateStr) then "-"
    else
      var d := localDate(dateStr.s);
      var shown := d + " " + localTime(dateStr.s);
      assert shown[|d|] == ' ';
      shown
  }

  /** A missing or empty date shows `-`; a present one shows the formatted
      date, which is `-` only if the host formats it so. */
  lemma DateCellsSpec(dateStr: Arg, localDate: string -> string, localTime: string -> string)
    ensures !Truthy(dateStr) ==> FormatTime(dateStr, localTime) == "-" && FormatDateTime(dateStr, localDate, localTime) == "-"
    ensures Truthy(dateStr) ==> FormatTime(dateStr, localTime) == localTime(dateStr.s)
    ensures Truthy(dateStr) ==> FormatDateTime(dateStr, localDate, localTime) != "-"
  {
  }

  // ---------------------------------------------------------------------
  // Dots and numbering

  /** The number of online dots: `Array.from({ length: Math.min(activeUsers, 20) })`,
      where a negative length counts as 0. */
  function DotCount(activeUsers: int): (n: nat)
    ensures n <= 20
  {
    var length := if activeUsers < 20 then activeUsers else 20;
    if length < 0 then 0 else length
  }

  /** One dot per active user, at most 20, none for a non-positive count. */
  lemma DotCountSpec(activeUsers: int)
    ensures DotCount(activeUsers) <= 20
    ensures 0 <= activeUsers <= 20 ==> DotCount(activeUsers) == activeUsers
    ensures activeUsers >= 20 ==> DotCount(activeUsers) == 20
    ensures activeUsers <= 0 ==> DotCount(activeUsers) == 0
  {
  }

  /** The numbers of the session table: row `i` is `i + 1`. */
  function SessionNumbers(n: nat): (r: seq<int>)
    ensures |r| == n
  {
    seq(n, i requires 0 <= i < n => i + 1)
  }

  /** The numbers of the history table: row `i` is `length - i`. */
  function HistoryNumbers(n: nat): (r: seq<int>)
    ensures |r| == n
  {
    seq(n, i requires 0 <= i < n => n - i)
  }

  /** History rows count down from the number of rows to 1: the session
      numbering read backwards, so both use the same labels. */
  lemma {:induction false} HistoryNumbersSpec(n: nat)
    ensures forall i :: 0 <= i < n ==> HistoryNumbers(n)[i] == SessionNumbers(n)[n - 1 - i]
    ensures forall i, j :: 0 <= i < j < n ==> HistoryNumbers(n)[i] > HistoryNumbers(n)[j]
    ensures n > 0 ==> HistoryNumbers(n)[0] == n && HistoryNumbers(n)[n - 1] == 1
    ensures multiset(HistoryNumbers(n)) == multiset(SessionNumbers(n))
  {
    if n > 0 {
      HistoryNumbersSpec(n - 1);
      assert HistoryNumbers(n) == [n] + HistoryNumbers(n - 1);
      assert SessionNumbers(n) == SessionNumbers(n - 1) + [n];
    }
  }
}
