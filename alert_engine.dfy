/** `generate_alert`: every alert becomes a text report under `app/error_reports`,
    named after the alert type (spaces turned into underscores) and the current time,
    holding three lines: the time stamp, the alert type and the description.

    The clock is a parameter and the file write is the returned `(path, content)` pair. */
module AlertEngine {
  import opened Text

  const ErrorReportDir := "app/error_reports"

  /** A reading of the local clock. */
  datatype DateTime = DateTime(year: int, month: int, day: int, hour: int, minute: int, second: int)

  /** What `datetime.now()` can return, with a four-digit year. */
  predicate ValidDateTime(t: DateTime) {
    && 1000 <= t.year <= 9999 && 1 <= t.month <= 12 && 1 <= t.day <= 31
    && 0 <= t.hour < 24 && 0 <= t.minute < 60 && 0 <= t.second < 60
  }

  function Pow10(w: nat): (p: nat)
    ensures p > 0
  {
    if w == 0 then 1 else 10 * Pow10(w - 1)
  }

  /** The last `w` decimal digits of `n`, zero-padded: a `%Y`, `%m`, ... field. */
  function Digits(n: nat, w: nat): (r: string)
    ensures |r| == w && forall k :: 0 <= k < w ==> IsDigit(r[k])
  {
    if w == 0 then [] else Digits(n / 10, w - 1) + [DigitChar(n % 10)]
  }

  /** The number a string of decimal digits denotes. */
  function DecimalValue(s: string): int
  {
    if s == [] then 0 else 10 * DecimalValue(s[..|s| - 1]) + (s[|s| - 1] as int - '0' as int)
  }

  /** A field of `w` digits reads back as the number it was made from. */
  lemma {:induction false} DigitsRoundTrip(n: nat, w: nat)
    requires n < Pow10(w)
    ensures DecimalValue(Digits(n, w)) == n
  {
    if w > 0 {
      DigitsRoundTrip(n / 10, w - 1);
      var r := Digits(n, w);
      assert r[..|r| - 1] == Digits(n / 10, w - 1);
    }
  }

  /** `now.strftime("%Y-%m-%d_%H-%M-%S")`. */
  function FormatTimestamp(t: DateTime): string
    requires ValidDateTime(t)
  {
    Digits(t.year, 4) + "-" + Digits(t.month, 2) + "-" + Digits(t.day, 2) + "_"
    + Digits(t.hour, 2) + "-" + Digits(t.minute, 2) + "-" + Digits(t.second, 2)
  }

  /** The time stamp is nineteen characters of digits, `-` and `_` in the fixed layout
      `YYYY-mm-dd_HH-MM-SS`; in particular it holds no space and no line feed. */
  lemma TimestampShape(t: DateTime)
    requires ValidDateTime(t)
    ensures var ts := FormatTimestamp(t);
      && |ts| == 19
      && ts[4] == '-' && ts[7] == '-' && ts[10] == '_' && ts[13] == '-' && ts[16] == '-'
      && (forall k :: 0 <= k < 19 && k !in {4, 7, 10, 13, 16} ==> IsDigit(ts[k]))
      && ' ' !in ts && '\n' !in ts
  {
    var ts := FormatTimestamp(t);
    forall k | 0 <= k < 19 ensures ts[k] == '-' || ts[k] == '_' || IsDigit(ts[k]) {
    }
  }

  /** The report's file name: `f"{alert_type.replace(' ', '_')}_{timestamp}.txt"`. */
  function ReportFileName(alertType: string, timestamp: string): string
  {
    ReplaceChar(alertType, ' ', "_") + "_" + timestamp + ".txt"
  }

  /** The file name is the alert type with each space turned into `_` and every other
      character kept, then `_`, the time stamp and `.txt`; with a time stamp free of
      spaces, the whole name is free of spaces. */
  lemma FileNameSpec(alertType: string, timestamp: string)
    ensures var name := ReportFileName(alertType, timestamp);
      && |name| == |alertType| + |timestamp| + 5
      && (forall k :: 0 <= k < |alertType| ==> name[k] == if alertType[k] == ' ' then '_' else alertType[k])
      && name[|alertType|..] == "_" + timestamp + ".txt"
      && (' ' !in timestamp ==> ' ' !in name)
  {
    var name := ReportFileName(alertType, timestamp);
    var replaced := ReplaceChar(alertType, ' ', "_");
    ReplaceCharByOne(alertType, ' ', '_');
    assert name == replaced + ("_" + timestamp + ".txt");
    if ' ' !in timestamp {
      forall k | 0 <= k < |name| ensures name[k] != ' ' {
        if k >= |alertType| + 1 && k < |alertType| + 1 + |timestamp| {
          assert name[k] == timestamp[k - |alertType| - 1];
        }
      }
    }
  }

  /** `os.path.join(directory, name)` on POSIX: a name starting with `/` replaces the
      directory; otherwise a separator is put between them unless one is already there. */
  function JoinPath(directory: string, name: string): (path: string)
    ensures |name| <= |path| && path[|path| - |name|..] == name
  {
    if |name| > 0 && name[0] == '/' then name
    else if directory == [] || directory[|directory| - 1] == '/' then directory + name
    else directory + "/" + name
  }

  /** The three lines written to the report, one `write` each. */
  function ReportBody(timestamp: string, alertType: string, description: string): string
  {
    "Timestamp: " + timestamp + "\n" + ("Alert Type: " + alertType + "\n" + ("Description: " + description + "\n"))
  }

  /** A written report. */
  datatype Report = Report(path: string, content: string)

  /** `generate_alert(alert_type, description)` at clock reading `now`. */
  function GenerateAlert(alertType: string, description: string, now: DateTime): Report
    requires ValidDateTime(now)
  {
    var timestamp := FormatTimestamp(now);
    var filename := ReportFileName(alertType, timestamp);
    Report(JoinPath(ErrorReportDir, filename), ReportBody(timestamp, alertType, description))
  }

  /** The report holds exactly three lines, in order: the time stamp, the alert type as
      given (spaces kept) and the description, provided neither of the latter two holds
      a line feed of its own. */
  lemma ReportHasThreeLines(alertType: string, description: string, now: DateTime)
    requires ValidDateTime(now)
    requires '\n' !in alertType && '\n' !in description
    ensures Lines(GenerateAlert(alertType, description, now).content) ==
      [ "Timestamp: " + FormatTimestamp(now),
        "Alert Type: " + alertType,
        "Description: " + description ]
  {
    TimestampShape(now);
    BodyLines(FormatTimestamp(now), alertType, description);
  }

  lemma BodyLines(ts: string, alertType: string, description: string)
    requires '\n' !in ts && '\n' !in alertType && '\n' !in description
    ensures Lines(ReportBody(ts, alertType, description)) ==
      [ "Timestamp: " + ts, "Alert Type: " + alertType, "Description: " + description ]
  {
    var l1, l2, l3 := "Timestamp: " + ts, "Alert Type: " + alertType, "Description: " + description;
    assert '\n' !in l1 && '\n' !in l2 && '\n' !in l3;
    ThreeLines(l1, l2, l3);
  }

  /** A description with a line feed of its own makes the report longer than three
      lines: a description `d1 + "\n" + d2`, neither part holding a line feed, yields
      four, the last being `d2` alone without the `Description: ` label. */
  lemma MultiLineDescription(alertType: string, d1: string, d2: string, now: DateTime)
    requires ValidDateTime(now) && '\n' !in alertType && '\n' !in d1 && '\n' !in d2
    ensures Lines(GenerateAlert(alertType, d1 + "\n" + d2, now).content) ==
      [ "Timestamp: " + FormatTimestamp(now),
        "Alert Type: " + alertType,
        "Description: " + d1,
        d2 ]
  {
    TimestampShape(now);
    BodyLinesSplitDescription(FormatTimestamp(now), alertType, d1, d2);
  }

  lemma BodyLinesSplitDescription(ts: string, alertType: string, d1: string, d2: string)
    requires '\n' !in ts && '\n' !in alertType && '\n' !in d1 && '\n' !in d2
    ensures Lines(ReportBody(ts, alertType, d1 + "\n" + d2)) ==
      [ "Timestamp: " + ts, "Alert Type: " + alertType, "Description: " + d1, d2 ]
  {
    var l1, l2, l3 := "Timestamp: " + ts, "Alert Type: " + alertType, "Description: " + d1;
    assert '\n' !in l1 && '\n' !in l2 && '\n' !in l3;
    Regroup("Description: ", d1, d2);
    assert ReportBody(ts, alertType, d1 + "\n" + d2) == l1 + "\n" + (l2 + "\n" + (l3 + "\n" + (d2 + "\n")));
    FourLines(l1, l2, l3, d2);
  }

  lemma Regroup(p: string, d1: string, d2: string)
    ensures p + (d1 + "\n" + d2) + "\n" == p + d1 + "\n" + (d2 + "\n")
  {
  }

  /** The same time stamp appears in the file name, just before `.txt`, and on the first
      line of the report. */
  lemma SameTimestampInNameAndBody(alertType: string, description: string, now: DateTime)
    requires ValidDateTime(now)
    ensures var r := GenerateAlert(alertType, description, now);
      && |r.path| >= 23 && |r.content| >= 30
      && r.path[|r.path| - 23..|r.path| - 4] == FormatTimestamp(now)
      && r.path[|r.path| - 4..] == ".txt"
      && r.content[11..30] == FormatTimestamp(now)
  {
    var ts := FormatTimestamp(now);
    TimestampShape(now);
    PathEndsWithTimestamp(alertType, ts);
    BodyStartsWithTimestamp(ts, alertType, description);
  }

  lemma PathEndsWithTimestamp(alertType: string, ts: string)
    ensures var path := JoinPath(ErrorReportDir, ReportFileName(alertType, ts));
      && |path| >= |ts| + 4
      && path[|path| - |ts| - 4..|path| - 4] == ts
      && path[|path| - 4..] == ".txt"
  {
    var name := ReportFileName(alertType, ts);
    NameEndsWithTimestamp(alertType, ts);
    SuffixCarries(JoinPath(ErrorReportDir, name), name, ts);
  }

  lemma NameEndsWithTimestamp(alertType: string, ts: string)
    ensures var name := ReportFileName(alertType, ts);
      && |name| >= |ts| + 4
      && name[|name| - |ts| - 4..|name| - 4] == ts
      && name[|name| - 4..] == ".txt"
  {
    var prefix := ReplaceChar(alertType, ' ', "_") + "_";
    assert ReportFileName(alertType, ts) == prefix + ts + ".txt";
  }

  /** What a name ends with, a path ending with that name ends with too. */
  lemma SuffixCarries(path: string, name: string, ts: string)
    requires |name| <= |path| && path[|path| - |name|..] == name
    requires |name| >= |ts| + 4 && name[|name| - |ts| - 4..|name| - 4] == ts && name[|name| - 4..] == ".txt"
    ensures |path| >= |ts| + 4
    ensures path[|path| - |ts| - 4..|path| - 4] == ts && path[|path| - 4..] == ".txt"
  {
    assert path[|path| - |ts| - 4..|path| - 4] == name[|name| - |ts| - 4..|name| - 4];
    assert path[|path| - 4..] == name[|name| - 4..];
  }

  lemma BodyStartsWithTimestamp(ts: string, alertType: string, description: string)
    ensures var body := ReportBody(ts, alertType, description);
      |body| >= 11 + |ts| && body[11..11 + |ts|] == ts
  {
    var body := ReportBody(ts, alertType, description);
    assert body == "Timestamp: " + ts + ("\n" + ("Alert Type: " + alertType + "\n" + ("Description: " + description + "\n")));
  }

  /** An alert type not starting with `/` puts the report in the report directory; one
      starting with `/` would make the file name an absolute path. */
  lemma ReportInReportDir(alertType: string, description: string, now: DateTime)
    requires ValidDateTime(now)
    requires alertType == [] || alertType[0] != '/'
    ensures GenerateAlert(alertType, description, now).path
      == ErrorReportDir + "/" + ReportFileName(alertType, FormatTimestamp(now))
  {
    var ts := FormatTimestamp(now);
    FileNameSpec(alertType, ts);
  }

  /** Two alerts of the same type raised within the same second get the same path, so
      the later report replaces the earlier one. */
  lemma SameSecondSamePath(alertType: string, d1: string, d2: string, now: DateTime)
    requires ValidDateTime(now)
    ensures GenerateAlert(alertType, d1, now).path == GenerateAlert(alertType, d2, now).path
  {
  }
}
