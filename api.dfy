/** The two HTTP handlers of the service. `POST /weather` strips the submitted city,
    rejects it with a 400 answer and one alert when it looks like an injection attempt,
    like personal data, or not like a city name (checked in that order), and otherwise
    logs it once and submits the aggregation task. `GET /task/{task_id}` reports the
    task's state and, once the task is finished, its result.

    The two regular expressions of the handler are written out as predicates with the
    meaning Python's `re.search` gives them. */
module Api {
  import opened Text
  import opened Sinks

  datatype Option<T> = None | Some(value: T)

  // ---------------------------------------------------------------------------
  // `(drop\s+table|;--|<script>|delete\s+from|insert\s+into)` with `re.IGNORECASE`

  /** Character `c` matches the lower-case pattern character `p` when case is ignored:
      its ASCII capital, and the extra equivalents Python's `re` applies to `i`
      (U+0130, U+0131) and `s` (U+017F). */
  predicate FoldsTo(c: char, p: char) {
    || c == p
    || ('a' <= p <= 'z' && c as int == p as int - 32)
    || (p == 'i' && (c == '\U{130}' || c == '\U{131}'))
    || (p == 's' && c == '\U{17F}')
  }

  /** `word` matches `s` at position `i`, ignoring case. */
  predicate MatchesAt(s: string, i: int, word: string) {
    0 <= i && i + |word| <= |s| && forall k :: 0 <= k < |word| ==> FoldsTo(s[i + k], word[k])
  }

  predicate SpacesBetween(s: string, lo: int, hi: int) {
    0 <= lo <= hi <= |s| && forall k :: lo <= k < hi ==> IsSpace(s[k])
  }

  /** `first\s+second` matches `s` at position `i`, ignoring case. */
  predicate SpacedPairAt(s: string, i: int, first: string, second: string) {
    && MatchesAt(s, i, first)
    && exists j :: i + |first| < j <= |s| && SpacesBetween(s, i + |first|, j) && MatchesAt(s, j, second)
  }

  /** One of the five alternatives of the injection pattern matches at position `i`. */
  predicate InjectionAt(s: string, i: int) {
    || SpacedPairAt(s, i, "drop", "table")
    || MatchesAt(s, i, ";--")
    || MatchesAt(s, i, "<script>")
    || SpacedPairAt(s, i, "delete", "from")
    || SpacedPairAt(s, i, "insert", "into")
  }

  predicate HasInjection(s: string) {
    exists i :: 0 <= i < |s| && InjectionAt(s, i)
  }

  // ---------------------------------------------------------------------------
  // `\b\d{10}\b|@|\d{3}-\d{3}-\d{4}`

  /** `\b` at position `k`: a word character on exactly one side (the string's ends count
      as non-word). */
  predicate WordBoundary(s: string, k: int)
    requires 0 <= k <= |s|
  {
    (k > 0 && IsWordChar(s[k - 1])) != (k < |s| && IsWordChar(s[k]))
  }

  /** `\d{n}` matches at position `i`. */
  predicate DigitsAt(s: string, i: int, n: nat) {
    0 <= i && i + n <= |s| && forall k :: i <= k < i + n ==> IsDigit(s[k])
  }

  predicate TenDigitsAt(s: string, i: int) {
    DigitsAt(s, i, 10) && WordBoundary(s, i) && WordBoundary(s, i + 10)
  }

  predicate PhoneAt(s: string, i: int) {
    && DigitsAt(s, i, 3) && i + 12 <= |s| && s[i + 3] == '-'
    && DigitsAt(s, i + 4, 3) && s[i + 7] == '-' && DigitsAt(s, i + 8, 4)
  }

  predicate PersonalDataAt(s: string, i: int)
    requires 0 <= i < |s|
  {
    TenDigitsAt(s, i) || s[i] == '@' || PhoneAt(s, i)
  }

  predicate HasPersonalData(s: string) {
    exists i :: 0 <= i < |s| && PersonalDataAt(s, i)
  }

  // ---------------------------------------------------------------------------
  // `not city or not city.replace(" ", "").isalpha()`

  /** `str.isalpha()`: non-empty and letters only. */
  predicate IsAlpha(t: string) {
    |t| > 0 && forall k :: 0 <= k < |t| ==> IsLetter(t[k])
  }

  /** The city passes the format check. */
  predicate FormatOk(city: string) {
    city != [] && IsAlpha(ReplaceChar(city, ' ', []))
  }

  /** A city passes the format check exactly when it holds a letter and every
      character is a letter or a space (other whitespace fails). */
  lemma FormatOkChars(city: string)
    ensures FormatOk(city) <==>
      && (exists k :: 0 <= k < |city| && IsLetter(city[k]))
      && (forall k :: 0 <= k < |city| ==> city[k] == ' ' || IsLetter(city[k]))
  {
    var t := ReplaceChar(city, ' ', []);
    DeleteChar(city, ' ');
    if FormatOk(city) {
      assert t[0] in t;
      forall k | 0 <= k < |city| ensures city[k] == ' ' || IsLetter(city[k]) {
        if city[k] != ' ' {
          assert city[k] in t;
        }
      }
    }
    if exists k :: 0 <= k < |city| && IsLetter(city[k]) {
      var k :| 0 <= k < |city| && IsLetter(city[k]);
      assert city[k] in t;
    }
    if forall k :: 0 <= k < |city| ==> city[k] == ' ' || IsLetter(city[k]) {
      forall m | 0 <= m < |t| ensures IsLetter(t[m]) {
        assert t[m] in t;
        var j :| 0 <= j < |city| && city[j] == t[m];
      }
    }
  }

  /** A well-formed city name contains no `@`, no digit and no hyphen, so the
      personal-data check never fires on it: that check only decides which message a
      rejected city gets. */
  lemma FormatOkExcludesPersonalData(city: string)
    requires FormatOk(city)
    ensures !HasPersonalData(city)
  {
    FormatOkChars(city);
    forall i | 0 <= i < |city| ensures !PersonalDataAt(city, i) {
      assert !IsDigit(city[i]);
    }
  }

  /** In a well-formed city name only the three spaced keyword pairs can match: `;--`
      and `<script>` hold characters that are neither letters nor spaces. */
  lemma FormatOkInjectionIsKeywordPair(city: string, i: int)
    requires FormatOk(city) && 0 <= i < |city| && InjectionAt(city, i)
    ensures !MatchesAt(city, i, ";--") && !MatchesAt(city, i, "<script>")
  {
    FormatOkChars(city);
    assert city[i] == ' ' || IsLetter(city[i]);
    assert MatchesAt(city, i, ";--") ==> FoldsTo(city[i + 0], ";--"[0]);
    assert MatchesAt(city, i, "<script>") ==> FoldsTo(city[i + 0], "<script>"[0]);
  }

  // ---------------------------------------------------------------------------
  // POST /weather

  const FraudAlert := "Attempted Fraud"
  const PersonalDataAlert := "Potential Personal Data"
  const InvalidInputAlert := "Invalid Input"
  const SuspiciousDetail := "Suspicious input detected"
  const PersonalDataDetail := "Input may contain personal data"
  const InvalidCityDetail := "Invalid city name"

  /** What the handler decides about a submitted city: reject it with an alert and a
      400 detail, or accept the stripped city. */
  datatype Decision =
    | Reject(alertType: string, alertDescription: string, detail: string)
    | Accept(city: string)

  /** The three ordered checks, applied to the stripped city. An accepted city is
      the stripped input: non-empty, letters and spaces only, free of surrounding
      whitespace and of every injection keyword in any letter case. */
  function Decide(request: string): (d: Decision)
    ensures d.Accept? ==>
      && d.city == Strip(request)
      && |d.city| > 0
      && !IsSpace(d.city[0]) && !IsSpace(d.city[|d.city| - 1])
      && (forall k :: 0 <= k < |d.city| ==> d.city[k] == ' ' || IsLetter(d.city[k]))
      && !HasInjection(d.city) && !HasPersonalData(d.city)
  {
    var city := Strip(request);
    if HasInjection(city) then
      Reject(FraudAlert, "Suspicious string detected: " + city, SuspiciousDetail)
    else if HasPersonalData(city) then
      Reject(PersonalDataAlert, "City field contains sensitive content: " + city, PersonalDataDetail)
    else if !FormatOk(city) then
      Reject(InvalidInputAlert, "Invalid city name: " + city, InvalidCityDetail)
    else
      FormatOkChars(city);
      Accept(city)
  }

  /** The injection check comes first: a stripped city matching any keyword is
      rejected as attempted fraud whatever the later checks would say, and only such a
      city gets that answer. */
  lemma InjectionRejectedFirst(request: string)
    ensures HasInjection(Strip(request)) <==>
      Decide(request) == Reject(FraudAlert, "Suspicious string detected: " + Strip(request), SuspiciousDetail)
  {
  }

  /** The personal-data answer is given exactly to stripped cities that pass the
      injection check and contain `@`, a delimited run of ten digits or a phone number. */
  lemma PersonalDataRejectedSecond(request: string)
    ensures !HasInjection(Strip(request)) && HasPersonalData(Strip(request)) <==>
      Decide(request) == Reject(PersonalDataAlert, "City field contains sensitive content: " + Strip(request), PersonalDataDetail)
  {
  }

  /** The invalid-name answer is given exactly to stripped cities that pass the first
      two checks and are empty or hold a character that is neither letter nor space. */
  lemma InvalidNameRejectedThird(request: string)
    ensures !HasInjection(Strip(request)) && !HasPersonalData(Strip(request)) && !FormatOk(Strip(request)) <==>
      Decide(request) == Reject(InvalidInputAlert, "Invalid city name: " + Strip(request), InvalidCityDetail)
  {
  }

  /** A city is accepted exactly when it is free of injection keywords and well formed:
      the personal-data check never turns an acceptance into a rejection. */
  lemma AcceptIff(request: string)
    ensures Decide(request).Accept? <==> !HasInjection(Strip(request)) && FormatOk(Strip(request))
  {
    if FormatOk(Strip(request)) {
      FormatOkExcludesPersonalData(Strip(request));
    }
  }

  /** The HTTP answer. */
  datatype Response =
    | HttpError(status: int, detail: string)
    | Submitted(message: string, taskId: string)

  /** The answer together with the effects of the call, in order: alerts written, log
      events sent and cities submitted to the task queue. */
  datatype Handled = Handled(response: Response, alerts: seq<Alert>, log: seq<LogEvent>, submitted: seq<string>)

  /** `get_weather`: `taskId` is the identifier the queue assigns to the submitted task. */
  function GetWeather(request: string, taskId: string): Handled
  {
    match Decide(request)
    case Reject(alertType, description, detail) =>
      Handled(HttpError(400, detail), [Alert(alertType, description)], [], [])
    case Accept(city) =>
      Handled(Submitted("Weather task submitted", taskId), [],
              [LogEvent(city, "api", "received", DefaultLevel, NoDescription)], [city])
  }

  /** Every request has exactly one effect besides its answer: a rejection writes one
      alert and submits nothing, an acceptance writes no alert, logs one "received"
      event from "api" and submits the stripped city under the returned task id. */
  lemma GetWeatherEffects(request: string, taskId: string)
    ensures var h := GetWeather(request, taskId);
      && |h.alerts| + |h.submitted| == 1
      && (h.response.HttpError? ==>
            h.response.status == 400 && h.log == [] && h.submitted == []
            && h.alerts[0].alertType in {FraudAlert, PersonalDataAlert, InvalidInputAlert})
      && (h.response.Submitted? ==>
            && h.response.taskId == taskId
            && h.submitted == [Strip(request)]
            && h.log == [LogEvent(Strip(request), "api", "received", DefaultLevel, NoDescription)]
            && FormatOk(Strip(request)) && !HasInjection(Strip(request)))
  {
    AcceptIff(request);
  }

  // ---------------------------------------------------------------------------
  // GET /task/{task_id}

  /** The states a task goes through in the result backend. */
  datatype TaskState = Pending | Received | Started | Retry | Success | Failure | Revoked

  function StateName(s: TaskState): string
  {
    match s
    case Pending => "PENDING"
    case Received => "RECEIVED"
    case Started => "STARTED"
    case Retry => "RETRY"
    case Success => "SUCCESS"
    case Failure => "FAILURE"
    case Revoked => "REVOKED"
  }

  /** `AsyncResult.ready()`: the task has finished one way or another. */
  predicate Ready(s: TaskState) {
    s == Success || s == Failure || s == Revoked
  }

  /** What the result backend holds for a task: its state and its return value (or
      the exception it raised). */
  datatype TaskRecord<R> = TaskRecord(state: TaskState, value: R)

  datatype StatusResponse<R> = StatusResponse(taskId: string, status: string, result: Option<R>)

  /** `get_task_status`: the backend knows nothing of an id it never stored, and an
      unknown id reads as a pending task. */
  function GetTaskStatus<R>(backend: map<string, TaskRecord<R>>, taskId: string): (r: StatusResponse<R>)
    ensures r.taskId == taskId
    ensures taskId in backend ==> r.status == StateName(backend[taskId].state)
    ensures r.result.Some? <==> taskId in backend && Ready(backend[taskId].state)
    ensures r.result.Some? ==> r.result.value == backend[taskId].value
    ensures taskId !in backend ==> r == StatusResponse(taskId, "PENDING", None)
  {
    var state := if taskId in backend then backend[taskId].state else Pending;
    StatusResponse(taskId, StateName(state), if Ready(state) then Some(backend[taskId].value) else None)
  }

  /** The reported status names the state: distinct states have distinct names. */
  lemma StateNameInjective(s: TaskState, t: TaskState)
    ensures StateName(s) == StateName(t) ==> s == t
  {
  }
}
