/**
 * Durations of the secret cache: `parseDuration` turns "<digits><unit>" into
 * milliseconds, `formatDuration` renders milliseconds in the largest whole unit,
 * and `formatRelativeTime` says how far a moment lies from now.
 */
module Duration {
  import opened Wrappers
  import opened Strings

  /** `InvalidDurationError`: a message and the rejected input. */
  datatype DurationError = InvalidDurationError(message: string, input: string)

  const FORMAT_MESSAGE: string :=
    "Invalid duration format. Expected: <number><unit> where unit is s/m/h/d/w (e.g., \"1h\", \"7d\", \"30m\")"

  function UnknownUnitMessage(unit: string): string {
    "Unknown duration unit: " + unit
  }

  /** The `multipliers` record of `parseDuration`, keyed by the unit text. */
  const MULTIPLIERS: map<string, nat> := map[
    "s" := 1000,
    "m" := 60 * 1000,
    "h" := 60 * 60 * 1000,
    "d" := 24 * 60 * 60 * 1000,
    "w" := 7 * 24 * 60 * 60 * 1000]

  /** The alternatives of the unit group `(s|m|h|d|w)`. */
  predicate IsUnit(c: char) {
    c == 's' || c == 'm' || c == 'h' || c == 'd' || c == 'w'
  }

  /** The pattern `^(\d+)(s|m|h|d|w)$` without the multiline flag: the whole input is
      one or more ASCII digits and then exactly one unit letter. Because no unit
      letter is a digit, the split between the two groups is the last character. */
  predicate Matches(input: string) {
    |input| >= 2 && AllDigits(input[..|input| - 1]) && IsUnit(input[|input| - 1])
  }

  /** Milliseconds per unit letter. */
  function UnitMillis(u: char): (m: nat)
    requires IsUnit(u)
    ensures m > 0 && m % 1000 == 0
    ensures [u] in MULTIPLIERS && MULTIPLIERS[[u]] == m
  {
    match u
    case 's' => 1000
    case 'm' => 60000
    case 'h' => 3600000
    case 'd' => 86400000
    case 'w' => 604800000
  }

  /** The second half of `parseDuration`, after the pattern matched: the digits'
      value times the unit's multiplier, or "Unknown duration unit" when the table
      has no (truthy) multiplier for the unit text. */
  function Evaluate(input: string, value: nat, unit: string): (r: Result<nat, DurationError>)
    ensures r.Failure? <==> unit !in MULTIPLIERS
    ensures r.Failure? ==> r.error == InvalidDurationError(UnknownUnitMessage(unit), input)
    ensures r.Success? ==> r.value == value * MULTIPLIERS[unit] && r.value % 1000 == 0
  {
    if unit !in MULTIPLIERS || MULTIPLIERS[unit] == 0 then
      Failure(InvalidDurationError(UnknownUnitMessage(unit), input))
    else
      MulMultiple(value, MULTIPLIERS[unit] / 1000);
      Success(value * MULTIPLIERS[unit])
  }

  lemma MulMultiple(v: nat, k: nat)
    ensures (v * (k * 1000)) % 1000 == 0
  {
    assert v * (k * 1000) == (v * k) * 1000;
  }

  /** `parseDuration`: the pattern, then Evaluate on its two groups. Every failure is the
      format error: the pattern has already confined the unit to the table's keys,
      so the "Unknown duration unit" failure of Evaluate is never reached. */
  function ParseDuration(input: string): (r: Result<nat, DurationError>)
    ensures r.Success? <==> Matches(input)
    ensures r.Failure? ==> r.error == InvalidDurationError(FORMAT_MESSAGE, input)
    ensures r.Success? ==> r.value % 1000 == 0
    ensures r.Success? ==> r.value == DigitsValue(input[..|input| - 1]) * UnitMillis(input[|input| - 1])
  {
    if !Matches(input) then Failure(InvalidDurationError(FORMAT_MESSAGE, input))
    else
      var unit := input[|input| - 1..];
      assert unit == [input[|input| - 1]];
      Evaluate(input, DigitsValue(input[..|input| - 1]), unit)
  }

  /** Every digit string followed by a unit letter parses, to its value times the unit. */
  lemma ParseDigitsUnit(digits: string, u: char)
    requires |digits| >= 1 && AllDigits(digits) && IsUnit(u)
    ensures ParseDuration(digits + [u]) == Success(DigitsValue(digits) * UnitMillis(u))
  {
    var input := digits + [u];
    assert input[..|input| - 1] == digits;
    assert input[|input| - 1] == u;
    assert Matches(input);
  }

  /** The count and the unit `formatDuration` picks: whole seconds, minutes, hours, days and
      weeks by repeated floor division; the largest non-zero count wins, seconds otherwise.
      So the unit is the largest one that `ms` reaches, seconds below a minute. */
  function LargestUnit(ms: nat): (r: (nat, char))
    ensures IsUnit(r.1)
    ensures r.1 == 'w' <==> ms >= 604800000
    ensures r.1 == 'd' <==> 86400000 <= ms < 604800000
    ensures r.1 == 'h' <==> 3600000 <= ms < 86400000
    ensures r.1 == 'm' <==> 60000 <= ms < 3600000
    ensures r.1 == 's' <==> ms < 60000
  {
    FloorChain(ms);
    var seconds := ms / 1000;
    var minutes := seconds / 60;
    var hours := minutes / 60;
    var days := hours / 24;
    var weeks := days / 7;
    if weeks > 0 then (weeks, 'w')
    else if days > 0 then (days, 'd')
    else if hours > 0 then (hours, 'h')
    else if minutes > 0 then (minutes, 'm')
    else (seconds, 's')
  }

  /** `formatDuration`: the chosen count followed by its unit letter. */
  function FormatDuration(ms: nat): (s: string)
    ensures Matches(s)
    ensures ms < 1000 ==> s == "0s"
  {
    var r := LargestUnit(ms);
    Rendered(r.0, r.1)
  }

  /** `${count}${unit}`. */
  function Rendered(count: nat, u: char): (s: string)
    requires IsUnit(u)
    ensures Matches(s) && s[|s| - 1] == u && s[..|s| - 1] == NatToString(count)
  {
    NatToString(count) + [u]
  }

  /** The unit after `u` in the order s, m, h, d, w. */
  function NextUnit(u: char): char
    requires IsUnit(u) && u != 'w'
  {
    match u
    case 's' => 'm'
    case 'm' => 'h'
    case 'h' => 'd'
    case 'd' => 'w'
  }

  /** The repeated floor divisions of `formatDuration` are divisions by the unit size. */
  lemma FloorChain(ms: nat)
    ensures ms / 1000 / 60 == ms / 60000
    ensures ms / 1000 / 60 / 60 == ms / 3600000
    ensures ms / 1000 / 60 / 60 / 24 == ms / 86400000
    ensures ms / 1000 / 60 / 60 / 24 / 7 == ms / 604800000
  {
    var m := ms / 1000 / 60;
    assert m == ms / 60000;
    var h := m / 60;
    assert h == ms / 3600000;
    var d := h / 24;
    assert d == ms / 86400000;
    assert d / 7 == ms / 604800000;
  }

  /** A rendered count parses back to that many units. */
  lemma ParseRendered(count: nat, u: char)
    requires IsUnit(u)
    ensures ParseDuration(Rendered(count, u)) == Success(count * UnitMillis(u))
  {
    NatToStringValue(count);
  }

  /** Formatting and then parsing again rounds down to the unit `formatDuration`
      chose, that unit is the largest one `ms` reaches, and its count is positive
      from one second on. */
  lemma FormatThenParse(ms: nat)
    ensures var s := FormatDuration(ms);
      var u := s[|s| - 1];
      var r := ParseDuration(s);
      && r.Success?
      && r.value <= ms < r.value + UnitMillis(u)
      && (u != 'w' ==> ms < UnitMillis(NextUnit(u)))
      && (ms >= 1000 <==> r.value > 0)
  {
    var c := LargestUnit(ms).0;
    var u := LargestUnit(ms).1;
    LargestUnitBracket(ms);
    assert FormatDuration(ms) == Rendered(c, u);
    ParseRendered(c, u);
  }

  /** The count of the chosen unit is `ms` rounded down to that unit, the next unit up is
      out of reach, and the count is positive from one second on. */
  lemma LargestUnitBracket(ms: nat)
    ensures var c := LargestUnit(ms).0;
      var u := LargestUnit(ms).1;
      && c * UnitMillis(u) <= ms < c * UnitMillis(u) + UnitMillis(u)
      && (u != 'w' ==> ms < UnitMillis(NextUnit(u)))
      && (ms >= 1000 <==> c * UnitMillis(u) > 0)
  {
    FloorChain(ms);
    var u := LargestUnit(ms).1;
    DivBracket(ms, UnitMillis(u));
    assert LargestUnit(ms).0 == ms / UnitMillis(u);
  }

  /** Floor division brackets the dividend between two multiples of the divisor. */
  lemma DivBracket(n: nat, m: nat)
    requires m > 0
    ensures (n / m) * m <= n < (n / m) * m + m
    ensures n >= m <==> (n / m) * m > 0
  {
    if n >= m {
      assert n / m >= 1;
      assert (n / m) * m >= m;
    }
  }

  /** The canonical count range of each unit: where `formatDuration` of the parsed
      value gives the same unit back. */
  predicate Canonical(n: nat, u: char) {
    match u
    case 's' => n < 60
    case 'm' => 1 <= n < 60
    case 'h' => 1 <= n < 24
    case 'd' => 1 <= n < 7
    case 'w' => n >= 1
    case _ => false
  }

  /** Round trip: a canonical duration text survives parsing and formatting unchanged. */
  lemma ParseThenFormat(n: nat, u: char)
    requires Canonical(n, u)
    ensures var r := ParseDuration(NatToString(n) + [u]);
      r.Success? && FormatDuration(r.value) == NatToString(n) + [u]
  {
    ParseDigitsUnit(NatToString(n), u);
    NatToStringValue(n);
    FloorChain(n * UnitMillis(u));
    match u
    case 's' =>
      assert n * 1000 / 1000 == n;
    case 'm' =>
      assert n * 60000 / 60000 == n;
    case 'h' =>
      assert n * 3600000 / 3600000 == n;
    case 'd' =>
      assert n * 86400000 / 86400000 == n;
    case 'w' =>
      assert n * 604800000 / 604800000 == n;
  }

  /** `formatRelativeTime` with the clock reading `now` as a parameter: the distance
      to `date` in milliseconds, "... ago" for a moment strictly in the past and
      "in ..." otherwise, the present included. */
  function FormatRelativeTime(date: int, now: int): (r: string)
    ensures EndsWith(r, " ago") <==> date < now
    ensures StartsWith(r, "in ") <==> date >= now
    ensures date < now ==> r[..|r| - 4] == FormatDuration(now - date)
    ensures date >= now ==> r[3..] == FormatDuration(date - now)
  {
    var diffMs := date - now;
    var absDiffMs: nat := if diffMs < 0 then -diffMs else diffMs;
    var isPast := diffMs < 0;
    var duration := FormatDuration(absDiffMs);
    PastAndFuture(duration);
    if isPast then duration + " ago" else "in " + duration
  }

  /** A formatted duration starts with a digit and ends with a unit letter, so the
      two phrasings can never be mistaken for each other. */
  lemma PastAndFuture(duration: string)
    requires Matches(duration)
    ensures var past := duration + " ago";
      EndsWith(past, " ago") && !StartsWith(past, "in ") && past[..|past| - 4] == duration
    ensures var future := "in " + duration;
      StartsWith(future, "in ") && !EndsWith(future, " ago") && future[3..] == duration
  {
    var past := duration + " ago";
    var future := "in " + duration;
    assert IsDigit(duration[..|duration| - 1][0]);
    assert past[0] == duration[0];
    assert future[|future| - 1] == duration[|duration| - 1];
    assert past[|past| - 4..] == " ago";
    assert future[..3] == "in ";
  }
}
