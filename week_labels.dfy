/** Week labels of the legacy single-page app (app.js): `getCurrentWeek`
    names the week of the month as `Semaine{n}{Month}{year}`, and
    `getPreviousWeek` parses such a label with the regular expression
    `Semaine(\d+)([A-Za-z]+)(\d+)` and steps the week number back by one.

    The clock is a parameter: the day of the month, the month index, the
    year and the weekday of the first of the month. The branch taken when
    the week number falls below 1 reads the clock again to name the previous
    month; its result is the parameter `rollover`. */
module WeekLabels {
  import opened Text
  import opened Types

  const MonthNames: seq<string> := ["Janvier", "Février", "Mars", "Avril", "Mai", "Juin", "Juillet",
                                     "Août", "Septembre", "Octobre", "Novembre", "Décembre"]

  /** `Math.ceil((day + firstWeekday) / 7)`: the week of the month, counting
      the partial first week. */
  function WeekNumber(day: nat, firstWeekday: nat): (n: nat)
    requires 1 <= day <= 31 && firstWeekday <= 6
    ensures 1 <= n <= 6
    ensures 7 * (n - 1) < day + firstWeekday <= 7 * n
  {
    (day + firstWeekday + 6) / 7
  }

  function Label(n: nat, month: string, year: nat): string {
    "Semaine" + NatToString(n) + month + NatToString(year)
  }

  /** `getCurrentWeek`, for the given clock reading. */
  function CurrentWeek(day: nat, month: nat, year: nat, firstWeekday: nat): string
    requires 1 <= day <= 31 && month < 12 && firstWeekday <= 6
  {
    Label(WeekNumber(day, firstWeekday), MonthNames[month], year)
  }

  // ---------------------------------------------------------------------
  // The regular expression `Semaine(\d+)(L+)(\d+)`, leftmost match, for a
  // letter class L.

  /** `[A-Za-z]`, as written, or the same class with the Latin-1 letters
      that the month names use. */
  datatype LetterClass = AsciiLetters | Latin1Letters

  predicate IsLetter(cls: LetterClass, c: char) {
    || ('A' <= c <= 'Z') || ('a' <= c <= 'z')
    || (cls == Latin1Letters && 'À' <= c <= 'ÿ' && c != '×' && c != '÷')
  }

  predicate AllLetters(cls: LetterClass, s: string) {
    forall i :: 0 <= i < |s| ==> IsLetter(cls, s[i])
  }

  /** End of the longest run of digits starting at `i`. */
  function DigitsEnd(s: string, i: nat): (j: nat)
    requires i <= |s|
    ensures i <= j <= |s|
    ensures forall k :: i <= k < j ==> IsDigit(s[k])
    ensures j == |s| || !IsDigit(s[j])
    decreases |s| - i
  {
    if i < |s| && IsDigit(s[i]) then DigitsEnd(s, i + 1) else i
  }

  /** End of the longest run of letters of `cls` starting at `i`. */
  function LettersEnd(cls: LetterClass, s: string, i: nat): (j: nat)
    requires i <= |s|
    ensures i <= j <= |s|
    ensures forall k :: i <= k < j ==> IsLetter(cls, s[k])
    ensures j == |s| || !IsLetter(cls, s[j])
    decreases |s| - i
  {
    if i < |s| && IsLetter(cls, s[i]) then LettersEnd(cls, s, i + 1) else i
  }

  datatype WeekMatch = WeekMatch(week: string, month: string, year: string)

  /** The groups of a match: digits, letters of the class, digits. */
  predicate WellFormed(cls: LetterClass, m: WeekMatch) {
    && |m.week| >= 1 && AllDigits(m.week)
    && |m.month| >= 1
    && |m.year| >= 1 && AllDigits(m.year)
  }

  /** The match starting at `p`, if there is one. A greedy run is the only
      candidate for each group: a shorter run would be followed by a
      character of the same kind, which the next group cannot start with. */
  function MatchAt(cls: LetterClass, s: string, p: nat): (r: Option<WeekMatch>)
    requires p <= |s|
    ensures r.Some? ==> WellFormed(cls, r.value)
  {
    if !StartsWith(s[p..], "Semaine") then None
    else
      var a := p + 7;
      var b := DigitsEnd(s, a);
      var c := LettersEnd(cls, s, b);
      var d := DigitsEnd(s, c);
      if a < b && b < c && c < d then
        assert forall k :: 0 <= k < d - c ==> s[c..d][k] == s[c + k];
        assert forall k :: 0 <= k < b - a ==> s[a..b][k] == s[a + k];
        Some(WeekMatch(s[a..b], s[b..c], s[c..d]))
      else None
  }

  /** `String.prototype.match`: the leftmost match at or after `p`. */
  function Search(cls: LetterClass, s: string, p: nat): (r: Option<WeekMatch>)
    requires p <= |s|
    ensures r.Some? ==> WellFormed(cls, r.value)
    decreases |s| - p
  {
    if MatchAt(cls, s, p).Some? then MatchAt(cls, s, p)
    else if p == |s| then None
    else Search(cls, s, p + 1)
  }

  function PreviousWeekWith(cls: LetterClass, currentWeek: string, rollover: string): string {
    match Search(cls, currentWeek, 0)
    case None => currentWeek
    case Some(m) =>
      var n := DigitsValue(m.week) - 1;
      if n < 1 then rollover else Label(n, m.month, DigitsValue(m.year))
  }

  /** `getPreviousWeek` as written: the letter group is `[A-Za-z]+`. */
  function PreviousWeekAsWritten(currentWeek: string, rollover: string): string {
    PreviousWeekWith(AsciiLetters, currentWeek, rollover)
  }

  /** `getPreviousWeek` with a letter group that spans every month name. */
  function PreviousWeek(currentWeek: string, rollover: string): string {
    PreviousWeekWith(Latin1Letters, currentWeek, rollover)
  }

  // ---------------------------------------------------------------------
  // Facts about the matcher.

  lemma {:induction false} DigitsEndAt(s: string, i: nat, j: nat)
    requires i <= j <= |s|
    requires forall k :: i <= k < j ==> IsDigit(s[k])
    requires j == |s| || !IsDigit(s[j])
    ensures DigitsEnd(s, i) == j
    decreases j - i
  {
    if i < j {
      DigitsEndAt(s, i + 1, j);
    }
  }

  lemma {:induction false} LettersEndAt(cls: LetterClass, s: string, i: nat, j: nat)
    requires i <= j <= |s|
    requires forall k :: i <= k < j ==> IsLetter(cls, s[k])
    requires j == |s| || !IsLetter(cls, s[j])
    ensures LettersEnd(cls, s, i) == j
    decreases j - i
  {
    if i < j {
      LettersEndAt(cls, s, i + 1, j);
    }
  }

  /** No match can start where the label's 'S' is not. */
  lemma {:induction false} SearchNone(cls: LetterClass, s: string, p: nat)
    requires p <= |s|
    requires forall q :: p <= q <= |s| ==> MatchAt(cls, s, q).None?
    ensures Search(cls, s, p).None?
    decreases |s| - p
  {
    if p < |s| {
      SearchNone(cls, s, p + 1);
    }
  }

  /** The parts of a current-week label. */
  lemma LabelParts(n: nat, month: string, year: nat)
    requires 1 <= n <= 9
    ensures var s := Label(n, month, year);
      && |s| == 8 + |month| + |NatToString(year)|
      && s[..7] == "Semaine" && s[7] == DigitChar(n)
      && s[8..8 + |month|] == month
      && s[8 + |month|..] == NatToString(year)
  {
    assert NatToString(n) == [DigitChar(n)];
  }

  lemma MonthNameSpec(month: nat)
    requires month < 12
    ensures |MonthNames[month]| >= 3 && AllLetters(Latin1Letters, MonthNames[month])
    ensures forall i :: 0 <= i < |MonthNames[month]| ==> !IsDigit(MonthNames[month][i])
  {
  }

  // ---------------------------------------------------------------------
  // What getPreviousWeek does to the labels getCurrentWeek makes.

  /** From the second week of a month on, the previous week is the same
      label with the week number one lower (corrected letter class). */
  lemma PreviousOfCurrentWeek(day: nat, month: nat, year: nat, firstWeekday: nat, rollover: string)
    requires 1 <= day <= 31 && month < 12 && firstWeekday <= 6
    requires WeekNumber(day, firstWeekday) >= 2
    ensures PreviousWeek(CurrentWeek(day, month, year, firstWeekday), rollover)
         == Label(WeekNumber(day, firstWeekday) - 1, MonthNames[month], year)
  {
    MonthNameSpec(month);
    PreviousOfLabel(Latin1Letters, WeekNumber(day, firstWeekday), MonthNames[month], year, rollover);
  }

  /** The previous week of a label of week 2 to 6 whose month name is made of
      letters of the class. */
  lemma PreviousOfLabel(cls: LetterClass, n: nat, name: string, year: nat, rollover: string)
    requires 2 <= n <= 6 && |name| >= 1 && AllLetters(cls, name)
    requires forall i :: 0 <= i < |name| ==> !IsDigit(name[i])
    ensures PreviousWeekWith(cls, Label(n, name, year), rollover) == Label(n - 1, name, year)
  {
    MatchCurrentWeek(cls, n, name, year);
    assert NatToString(n) == [DigitChar(n)];
    assert DigitsValue([DigitChar(n)]) == n by {
      assert [DigitChar(n)][..0] == [];
    }
    DigitsValueOfNatToString(year);
  }

  /** The label of week 1 of a month whose name is made of letters of the
      class takes the rollover branch. */
  lemma FirstWeekOfLabel(cls: LetterClass, name: string, year: nat, rollover: string)
    requires |name| >= 1 && AllLetters(cls, name)
    requires forall i :: 0 <= i < |name| ==> !IsDigit(name[i])
    ensures PreviousWeekWith(cls, Label(1, name, year), rollover) == rollover
  {
    MatchCurrentWeek(cls, 1, name, year);
    assert NatToString(1) == [DigitChar(1)];
    assert DigitsValue([DigitChar(1)]) == 1 by {
      assert [DigitChar(1)][..0] == [];
    }
  }

  /** In the first week of a month the rollover branch is taken (corrected
      letter class). */
  lemma PreviousOfFirstWeek(day: nat, month: nat, year: nat, firstWeekday: nat, rollover: string)
    requires 1 <= day <= 31 && month < 12 && firstWeekday <= 6
    requires WeekNumber(day, firstWeekday) == 1
    ensures PreviousWeek(CurrentWeek(day, month, year, firstWeekday), rollover) == rollover
  {
    MonthNameSpec(month);
    FirstWeekOfLabel(Latin1Letters, MonthNames[month], year, rollover);
  }

  /** The months whose names are plain ASCII letters: all but Février, Août
      and Décembre. */
  predicate AsciiMonth(month: nat) {
    month < 12 && month != 1 && month != 7 && month != 11
  }

  lemma AsciiMonthName(month: nat)
    requires AsciiMonth(month)
    ensures |MonthNames[month]| >= 3 && AllLetters(AsciiLetters, MonthNames[month])
    ensures forall i :: 0 <= i < |MonthNames[month]| ==> !IsDigit(MonthNames[month][i])
  {
  }

  /** `getPreviousWeek` as written, on every label `getCurrentWeek` makes:
      the labels of Février, Août and Décembre come back unchanged; for the
      other months week 1 takes the rollover branch and a later week steps
      back by one. */
  lemma AsWrittenPreviousWeek(day: nat, month: nat, year: nat, firstWeekday: nat, rollover: string)
    requires 1 <= day <= 31 && month < 12 && firstWeekday <= 6
    ensures var current := CurrentWeek(day, month, year, firstWeekday);
      var n := WeekNumber(day, firstWeekday);
      PreviousWeekAsWritten(current, rollover) ==
        if !AsciiMonth(month) then current
        else if n == 1 then rollover
        else Label(n - 1, MonthNames[month], year)
  {
    var n := WeekNumber(day, firstWeekday);
    if !AsciiMonth(month) {
      AsWrittenKeepsAccentedMonths(day, month, year, firstWeekday, rollover);
    } else {
      AsciiMonthName(month);
      if n == 1 {
        FirstWeekOfLabel(AsciiLetters, MonthNames[month], year, rollover);
      } else {
        PreviousOfLabel(AsciiLetters, n, MonthNames[month], year, rollover);
      }
    }
  }

  /** For the months with ASCII names the pattern as written and the
      corrected one give the same previous week. */
  lemma AsWrittenAgreesOnAsciiMonths(day: nat, month: nat, year: nat, firstWeekday: nat, rollover: string)
    requires 1 <= day <= 31 && AsciiMonth(month) && firstWeekday <= 6
    ensures var current := CurrentWeek(day, month, year, firstWeekday);
      PreviousWeekAsWritten(current, rollover) == PreviousWeek(current, rollover)
  {
    AsWrittenPreviousWeek(day, month, year, firstWeekday, rollover);
    if WeekNumber(day, firstWeekday) == 1 {
      PreviousOfFirstWeek(day, month, year, firstWeekday, rollover);
    } else {
      PreviousOfCurrentWeek(day, month, year, firstWeekday, rollover);
    }
  }

  /** A current-week label whose month name lies in the letter class is
      matched at its start, with its three parts as groups. */
  lemma MatchCurrentWeek(cls: LetterClass, n: nat, month: string, year: nat)
    requires 1 <= n <= 6 && |month| >= 1 && AllLetters(cls, month)
    requires forall i :: 0 <= i < |month| ==> !IsDigit(month[i])
    ensures Search(cls, Label(n, month, year), 0)
         == Some(WeekMatch(NatToString(n), month, NatToString(year)))
  {
    assert NatToString(n) == [DigitChar(n)];
    MatchParts(cls, Label(n, month, year), DigitChar(n), month, NatToString(year));
  }

  /** `Semaine`, one digit, a month name and a run of digits match at the
      start, with the three parts as groups. */
  lemma MatchParts(cls: LetterClass, s: string, digit: char, month: string, y: string)
    requires IsDigit(digit)
    requires |month| >= 1 && AllLetters(cls, month)
    requires forall i :: 0 <= i < |month| ==> !IsDigit(month[i])
    requires |y| >= 1 && AllDigits(y)
    requires s == "Semaine" + [digit] + month + y
    ensures MatchAt(cls, s, 0) == Some(WeekMatch([digit], month, y))
  {
    var c := 8 + |month|;
    assert s[..7] == "Semaine";
    assert StartsWith(s[0..], "Semaine") by { assert s[0..][..7] == s[..7]; }
    assert s[7] == digit && s[8] == month[0];
    DigitsEndAt(s, 7, 8);
    forall k | 8 <= k < c ensures IsLetter(cls, s[k]) {
      assert s[k] == month[k - 8];
    }
    assert s[c] == y[0];
    LettersEndAt(cls, s, 8, c);
    forall k | c <= k < |s| ensures IsDigit(s[k]) {
      assert s[k] == y[k - c];
    }
    DigitsEndAt(s, c, |s|);
    assert s[7..8] == [digit];
    assert s[8..c] == month;
    assert s[c..|s|] == y;
  }

  /** A label has its only "Semaine" at the start when the month name has
      no 'S'. */
  lemma OnlyLeadingMatch(cls: LetterClass, n: nat, month: string, year: nat)
    requires 1 <= n <= 9
    requires forall i :: 0 <= i < |month| ==> month[i] != 'S'
    ensures var s := Label(n, month, year);
      forall q :: 1 <= q <= |s| ==> MatchAt(cls, s, q).None?
  {
    var s := Label(n, month, year);
    var y := NatToString(year);
    LabelParts(n, month, year);
    var c := 8 + |month|;
    forall q | 1 <= q <= |s| ensures MatchAt(cls, s, q).None? {
      if q < |s| {
        assert s[q] != 'S' by {
          if q < 7 {
            assert s[q] == s[..7][q];
          } else if 8 <= q < c {
            assert s[q] == s[8..c][q - 8];
          } else if c <= q {
            assert s[q] == s[c..][q - c];
          }
        }
        assert !StartsWith(s[q..], "Semaine") by {
          if |s[q..]| >= 7 { assert s[q..][..7][0] == s[q]; }
        }
      }
    }
  }

  /** Février, Août and Décembre stop the `[A-Za-z]+` group at their accented
      letter, where no digit follows: the labels of those months never match,
      and getPreviousWeek as written returns them unchanged. */
  lemma AsWrittenKeepsAccentedMonths(day: nat, month: nat, year: nat, firstWeekday: nat, rollover: string)
    requires 1 <= day <= 31 && firstWeekday <= 6
    requires month == 1 || month == 7 || month == 11
    ensures PreviousWeekAsWritten(CurrentWeek(day, month, year, firstWeekday), rollover)
         == CurrentWeek(day, month, year, firstWeekday)
  {
    var name := MonthNames[month];
    // The length of the ASCII prefix of the month name.
    var e := if month == 7 then 2 else 1;
    assert !IsLetter(AsciiLetters, name[e]) && !IsDigit(name[e]);
    assert forall k :: 0 <= k < e ==> IsLetter(AsciiLetters, name[k]);
    assert forall k :: 0 <= k < |name| ==> name[k] != 'S';
    NoAsciiMatch(WeekNumber(day, firstWeekday), name, year, e);
  }

  /** A label whose month name has a character that is neither an ASCII
      letter nor a digit after `e` ASCII letters, and no 'S', does not match
      `[A-Za-z]+`. */
  lemma NoAsciiMatch(n: nat, name: string, year: nat, e: nat)
    requires 1 <= n <= 9
    requires 1 <= e < |name|
    requires forall k :: 0 <= k < e ==> IsLetter(AsciiLetters, name[k])
    requires !IsLetter(AsciiLetters, name[e]) && !IsDigit(name[e])
    requires forall k :: 0 <= k < |name| ==> name[k] != 'S'
    ensures Search(AsciiLetters, Label(n, name, year), 0).None?
  {
    var s := Label(n, name, year);
    LabelParts(n, name, year);
    var c := 8 + |name|;
    assert s[8 + e] == name[e] by {
      assert s[8 + e] == s[8..c][e];
    }
    forall k | 8 <= k < 8 + e ensures IsLetter(AsciiLetters, s[k]) {
      assert s[k] == s[8..c][k - 8];
    }
    assert s[8] == s[8..c][0];
    DigitsEndAt(s, 7, 8);
    LettersEndAt(AsciiLetters, s, 8, 8 + e);
    DigitsEndAt(s, 8 + e, 8 + e);
    assert MatchAt(AsciiLetters, s, 0).None? by {
      assert s[0..][..7] == s[..7];
    }
    OnlyLeadingMatch(AsciiLetters, n, name, year);
    SearchNone(AsciiLetters, s, 0);
  }

  /** The fixed previous week of a label from the second week on is a
      different label. */
  lemma PreviousWeekDiffers(day: nat, month: nat, year: nat, firstWeekday: nat, rollover: string)
    requires 1 <= day <= 31 && month < 12 && firstWeekday <= 6
    requires WeekNumber(day, firstWeekday) >= 2
    ensures PreviousWeek(CurrentWeek(day, month, year, firstWeekday), rollover)
         != CurrentWeek(day, month, year, firstWeekday)
  {
    var n := WeekNumber(day, firstWeekday);
    PreviousOfCurrentWeek(day, month, year, firstWeekday, rollover);
    LabelParts(n, MonthNames[month], year);
    LabelParts(n - 1, MonthNames[month], year);
  }
}
