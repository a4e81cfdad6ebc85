/**
 * `core/utils.py`: ISO parsing with a date-only fallback, the `YYYY-MM` bucket
 * of a moment, and the search for a year-month mentioned in a question.
 *
 * The `Parser` arguments stand for `fromisoformat` and `strptime`, which keep
 * the text's own wall-clock fields; `parse_iso` does not convert to UTC.
 */
module Utils {
  import opened Common

  /**
   * `parse_iso`: a falsy value gives None; otherwise the ISO parser (which reads
   * a trailing `Z` as `+00:00`) and, when it fails, the `%Y-%m-%d` parser (read
   * as UTC). A value that is not text makes both raise, so it gives None.
   */
  function ParseIso(fromIso: Parser, ymd: Parser, v: Value): (r: Option<Timestamp>)
    ensures !Truthy(v) || !v.Str? ==> r == None
    ensures v.Str? && v.s != "" && fromIso(v.s).Some? ==> r == fromIso(v.s)
    ensures v.Str? && v.s != "" && fromIso(v.s).None? ==> r == ymd(v.s)
  {
    if !Truthy(v) || !v.Str? then None
    else if fromIso(v.s).Some? then fromIso(v.s)
    else ymd(v.s)
  }

  /** `ym_from_dt`: None without a moment, else its seven-character `YYYY-MM` bucket. */
  function YmFromDt(dt: Option<Timestamp>): (r: Option<string>)
    ensures r.None? <==> dt.None?
    ensures r.Some? ==>
      |r.value| == 7 && r.value[4] == '-'
      && (forall i :: 0 <= i < 7 && i != 4 ==> IsDigit(r.value[i]))
      && YmDigits(r.value) == (dt.value.year, dt.value.month)
  {
    if dt.None? then None
    else
      YmOfShape(dt.value);
      Some(YmOf(dt.value))
  }

  /** The year and month a well-formed bucket reads as. */
  function YmDigits(ym: string): (int, int)
    requires |ym| == 7 && forall i :: 0 <= i < 7 && i != 4 ==> IsDigit(ym[i])
  {
    assert forall i :: 0 <= i < 4 ==> IsDigit(ym[..4][i]);
    assert forall i :: 0 <= i < 2 ==> IsDigit(ym[5..][i]) by {
      forall i | 0 <= i < 2 ensures IsDigit(ym[5..][i]) {
        assert ym[5..][i] == ym[5 + i];
      }
    }
    (DecVal(ym[..4]), DecVal(ym[5..]))
  }

  // ---------------------------------------------------------------------------
  // detect_ym
  // ---------------------------------------------------------------------------

  /** `(20\d{2})-(\d{2})` matches at index `i`. */
  predicate NumericYmAt(s: string, i: nat)
  {
    i + 7 <= |s| && s[i] == '2' && s[i + 1] == '0' && IsDigit(s[i + 2]) && IsDigit(s[i + 3])
    && s[i + 4] == '-' && IsDigit(s[i + 5]) && IsDigit(s[i + 6])
  }

  /** The leftmost index at or after `i` where the numeric pattern matches. */
  function FindNumericYm(s: string, i: nat): (r: Option<nat>)
    ensures r.Some? ==> i <= r.value && NumericYmAt(s, r.value)
    ensures r.Some? ==> forall j :: i <= j < r.value ==> !NumericYmAt(s, j)
    ensures r.None? ==> forall j :: i <= j ==> !NumericYmAt(s, j)
    decreases |s| - i
  {
    if i + 7 > |s| then None
    else if NumericYmAt(s, i) then Some(i)
    else FindNumericYm(s, i + 1)
  }

  /** Month abbreviations and their numbers; `sept` is covered by `sep` and its trailing letters. */
  const MonthNumber: map<string, string> :=
    map["jan" := "01", "feb" := "02", "mar" := "03", "apr" := "04", "may" := "05", "jun" := "06",
        "jul" := "07", "aug" := "08", "sep" := "09", "oct" := "10", "nov" := "11", "dec" := "12"]

  /** The end of the run of ASCII letters starting at `j` (`[a-z]*` under `re.I`). */
  function SkipLetters(s: string, j: nat): (r: nat)
    requires j <= |s|
    ensures j <= r <= |s| && (r == |s| || !IsAsciiLetter(s[r]))
    decreases |s| - j
  {
    if j < |s| && IsAsciiLetter(s[j]) then SkipLetters(s, j + 1) else j
  }

  /** The end of the run of whitespace starting at `j` (`\s*`). */
  function SkipSpaces(s: string, j: nat): (r: nat)
    requires j <= |s|
    ensures j <= r <= |s| && (r == |s| || !IsSpace(s[r]))
    decreases |s| - j
  {
    if j < |s| && IsSpace(s[j]) then SkipSpaces(s, j + 1) else j
  }

  /**
   * Where the year of a month-form match starting at `i` begins. The letter and
   * whitespace runs are greedy and cannot give anything back: a shorter letter
   * run leaves a letter where whitespace is needed, a shorter whitespace run
   * leaves whitespace where `2` is needed.
   */
  function MonthYearStart(s: string, i: nat): nat
    requires i + 3 <= |s|
  {
    SkipSpaces(s, SkipLetters(s, i + 3))
  }

  /** `(jan|...|dec)[a-z]*\s+(20\d{2})`, case-insensitively, matches at index `i`. */
  predicate MonthYmAt(s: string, i: nat)
  {
    i + 3 <= |s| && Lower(s[i..i + 3]) in MonthNumber
    && var k := MonthYearStart(s, i);
    SkipLetters(s, i + 3) < k && k + 4 <= |s|
    && s[k] == '2' && s[k + 1] == '0' && IsDigit(s[k + 2]) && IsDigit(s[k + 3])
  }

  /** The leftmost index at or after `i` where the month pattern matches. */
  function FindMonthYm(s: string, i: nat): (r: Option<nat>)
    ensures r.Some? ==> i <= r.value && MonthYmAt(s, r.value)
    ensures r.Some? ==> forall j :: i <= j < r.value ==> !MonthYmAt(s, j)
    ensures r.None? ==> forall j :: i <= j ==> !MonthYmAt(s, j)
    decreases |s| - i
  {
    if i + 3 > |s| then None
    else if MonthYmAt(s, i) then Some(i)
    else FindMonthYm(s, i + 1)
  }

  /**
   * `detect_ym`: the first numeric `20dd-dd` verbatim (no month-range check);
   * failing that, the first month-name form as `YYYY-MM`; else None.
   */
  function DetectYm(s: string): (r: Option<string>)
  {
    match FindNumericYm(s, 0)
    case Some(j) => Some(s[j..j + 4] + "-" + s[j + 5..j + 7])
    case None =>
      match FindMonthYm(s, 0)
      case Some(i) =>
        var k := MonthYearStart(s, i);
        Some(s[k..k + 4] + "-" + MonthNumber[Lower(s[i..i + 3])])
      case None => None
  }

  /**
   * A numeric form anywhere wins, whatever precedes it: the result is the
   * leftmost `20dd-dd` match, copied verbatim.
   */
  lemma DetectYmNumericWins(s: string, j: nat)
    requires NumericYmAt(s, j)
    ensures var f := FindNumericYm(s, 0);
      f.Some? && f.value <= j && DetectYm(s) == Some(s[f.value..f.value + 7])
  {
    var f := FindNumericYm(s, 0).value;
    assert s[f..f + 7] == s[f..f + 4] + "-" + s[f + 5..f + 7];
  }

  /** Without a numeric form, the leftmost month-name form decides, with its year and the month's number. */
  lemma DetectYmMonthForm(s: string, i: nat)
    requires forall j :: 0 <= j ==> !NumericYmAt(s, j)
    requires MonthYmAt(s, i)
    ensures var f := FindMonthYm(s, 0);
      f.Some? && f.value <= i
      && var k := MonthYearStart(s, f.value);
      DetectYm(s) == Some(s[k..k + 4] + "-" + MonthNumber[Lower(s[f.value..f.value + 3])])
  {
  }

  /** No match of either pattern gives None, and None only arises that way. */
  lemma DetectYmNone(s: string)
    ensures DetectYm(s) == None <==> (forall j :: 0 <= j ==> !NumericYmAt(s, j) && !MonthYmAt(s, j))
  {
    if DetectYm(s) != None {
      if FindNumericYm(s, 0).None? {
        assert MonthYmAt(s, FindMonthYm(s, 0).value);
      }
    }
  }

  /** The numeric form is not checked against the calendar: `2024-13` is returned as it is. */
  lemma DetectYmNoMonthCheck()
    ensures DetectYm("2024-13") == Some("2024-13")
  {
    assert NumericYmAt("2024-13", 0);
    assert "2024-13"[0..4] + "-" + "2024-13"[5..7] == "2024-13";
  }
}
