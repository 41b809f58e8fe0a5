/**
 * The booking validator `Show.valid_time`: the hour is read from the
 * "date time" text of the submitted start time and must lie within the
 * artist's availability window, both ends included.
 */
module Booking {
  import opened Wrappers
  import opened Seqs
  import opened Records

  /** The exception `valid_time` raises instead of answering. */
  datatype BookingError =
    | MalformedStartTime   // IndexError (no space) or ValueError (the hour text is not an integer)
    | UnknownArtist        // `Artist.query.get` found no row: AttributeError on None
    | MissingAvailability  // a NULL window end compared with an int: TypeError

  /** The characters up to, not including, the first space. */
  function UpToSpace(s: string): (r: string)
    ensures r <= s && ' ' !in r
    ensures |r| < |s| ==> s[|r|] == ' '
  {
    if |s| == 0 || s[0] == ' ' then [] else [s[0]] + UpToSpace(s[1..])
  }

  /** The characters after the first space, or None when there is no space. */
  function AfterFirstSpace(s: string): (r: Option<string>)
    ensures r.None? <==> ' ' !in s
    ensures r.Some? ==> |r.value| < |s| && s[|s| - |r.value| - 1] == ' ' && s[|s| - |r.value|..] == r.value
    ensures r.Some? ==> ' ' !in s[..|s| - |r.value| - 1]
  {
    if |s| == 0 then None
    else if s[0] == ' ' then Some(s[1..])
    else
      match AfterFirstSpace(s[1..])
      case None => None
      case Some(rest) =>
        assert s[1..][..|s| - 1 - |rest| - 1] == s[1..|s| - |rest| - 1];
        Some(rest)
  }

  /** Python's `s.split(' ')[1]`: the second space-separated field; None is the IndexError. */
  function SecondField(s: string): (r: Option<string>)
    ensures r.None? <==> ' ' !in s
  {
    match AfterFirstSpace(s)
    case None => None
    case Some(rest) => Some(UpToSpace(rest))
  }

  /**
   * The ASCII whitespace Python's `int()` strips: the space and the
   * characters 9 to 13. The separators 28 to 31, which `str.isspace`
   * accepts, are not stripped.
   */
  predicate IsWhitespace(c: char) {
    c == ' ' || 9 <= c as int <= 13
  }

  predicate IsDigit(c: char) { '0' <= c <= '9' }

  predicate AllDigits(s: string) {
    forall i :: 0 <= i < |s| ==> IsDigit(s[i])
  }

  function StripLeft(s: string): (r: string)
    ensures |r| <= |s| && r == s[|s| - |r|..]
    ensures |r| > 0 ==> !IsWhitespace(r[0])
    ensures forall i :: 0 <= i < |s| - |r| ==> IsWhitespace(s[i])
  {
    if |s| > 0 && IsWhitespace(s[0]) then StripLeft(s[1..]) else s
  }

  function StripRight(s: string): (r: string)
    ensures r <= s
    ensures |r| > 0 ==> !IsWhitespace(r[|r| - 1])
    ensures forall i :: |r| <= i < |s| ==> IsWhitespace(s[i])
  {
    if |s| > 0 && IsWhitespace(s[|s| - 1]) then StripRight(s[..|s| - 1]) else s
  }

  /** The value of a string of decimal digits. */
  function DigitsValue(s: string): (n: nat)
    requires AllDigits(s)
  {
    if |s| == 0 then 0 else DigitsValue(s[..|s| - 1]) * 10 + (s[|s| - 1] as int - '0' as int)
  }

  /** An optional sign followed by at least one decimal digit. */
  predicate IsIntLiteral(u: string) {
    || (|u| > 0 && AllDigits(u))
    || (|u| > 1 && (u[0] == '+' || u[0] == '-') && AllDigits(u[1..]))
  }

  /** `int()` of a text with no surrounding whitespace: an optional sign, then at least one digit. */
  function ParseLiteral(u: string): (r: Option<int>)
    ensures r.Some? <==> IsIntLiteral(u)
    ensures |u| > 0 && AllDigits(u) ==> r == Some(DigitsValue(u))
    ensures |u| > 1 && (u[0] == '+' || u[0] == '-') && AllDigits(u[1..]) ==>
      r == Some(if u[0] == '-' then -(DigitsValue(u[1..]) as int) else DigitsValue(u[1..]) as int)
  {
    if |u| > 0 && (u[0] == '+' || u[0] == '-') then
      var digits := u[1..];
      if |digits| > 0 && AllDigits(digits) then
        var magnitude: int := DigitsValue(digits);
        Some(if u[0] == '-' then -magnitude else magnitude)
      else None
    else if |u| > 0 && AllDigits(u) then Some(DigitsValue(u))
    else None
  }

  /** Python's `int(s)` for ASCII text: surrounding whitespace, an optional sign, then at least one digit. */
  function ParseInt(s: string): (r: Option<int>)
    ensures r.Some? <==> IsIntLiteral(StripRight(StripLeft(s)))
    ensures r.Some? && AllDigits(StripRight(StripLeft(s))) ==> r.value == DigitsValue(StripRight(StripLeft(s)))
    ensures r.Some? && r.value < 0 ==> StripRight(StripLeft(s))[0] == '-'
    ensures var u := StripRight(StripLeft(s));
      |u| > 1 && (u[0] == '+' || u[0] == '-') && AllDigits(u[1..]) ==>
        r == Some(if u[0] == '-' then -(DigitsValue(u[1..]) as int) else DigitsValue(u[1..]) as int)
  {
    var u := StripRight(StripLeft(s));
    ParseLiteral(u)
  }

  /** A separator character (28 to 31) in front of the text makes `int()` fail: it is not whitespace to `int()`. */
  lemma ParseIntRejectsSeparator(u: string)
    requires |u| > 0 && 28 <= u[0] as int <= 31
    ensures ParseInt(u).None?
  {
    var v := StripRight(StripLeft(u));
    assert v == StripRight(u) by { assert StripLeft(u) == u; }
    assert |v| > 0 && v[0] == u[0];
    assert !IsIntLiteral(v) by { assert !IsDigit(v[0]); }
  }

  /** `int()` skips whitespace in front of the number. */
  lemma ParseIntSkipsLeadingWhitespace(c: char, s: string)
    requires IsWhitespace(c)
    ensures ParseInt([c] + s) == ParseInt(s)
  {
    assert ([c] + s)[1..] == s;
    assert StripLeft([c] + s) == StripLeft(s);
  }

  /** A text that starts and ends with a non-whitespace character is not changed by stripping. */
  lemma StripKeeps(u: string)
    requires |u| > 0 && !IsWhitespace(u[0]) && !IsWhitespace(u[|u| - 1])
    ensures StripRight(StripLeft(u)) == u
  {
    assert StripLeft(u) == u;
  }

  /**
   * A sign in front of the digits, with nothing around them, gives the
   * number that sign: `int("-5")` is -5, `int("+9")` is 9.
   */
  lemma ParseIntSigned(u: string)
    requires |u| > 1 && (u[0] == '+' || u[0] == '-') && AllDigits(u[1..])
    ensures ParseInt(u) == Some(if u[0] == '-' then -(DigitsValue(u[1..]) as int) else DigitsValue(u[1..]) as int)
  {
    assert u[|u| - 1] == u[1..][|u| - 2];
    StripKeeps(u);
  }

  /** `int(start_time.split(' ')[1][:2])`: the hour of a "date time" text, or None where Python raises. */
  function StartHour(startTime: string): (r: Option<int>)
    ensures r.Some? ==> -9 <= r.value <= 99
  {
    match SecondField(startTime)
    case None => None
    case Some(field) =>
      var text := Take(field, 2);
      var r := ParseInt(text);
      ParseIntOfTwoChars(text);
      r
  }

  /** The integer of at most two characters lies between -9 and 99. */
  lemma ParseIntOfTwoChars(s: string)
    requires |s| <= 2
    ensures ParseInt(s).Some? ==> -9 <= ParseInt(s).value <= 99
  {
    var u := StripRight(StripLeft(s));
    if |u| > 0 && (u[0] == '+' || u[0] == '-') {
      var digits := u[1..];
      if |digits| > 0 && AllDigits(digits) {
        assert |digits| == 1;
        assert digits[..0] == [];
        assert DigitsValue(digits) == digits[0] as int - '0' as int;
      }
    } else if |u| > 0 && AllDigits(u) {
      DigitsBelow(u);
    }
  }

  lemma DigitsBelow(s: string)
    requires AllDigits(s) && |s| <= 2
    ensures DigitsValue(s) <= 99
  {
    if |s| > 0 {
      var init := s[..|s| - 1];
      if |init| > 0 {
        assert init[..0] == [];
      }
    }
  }

  /** Two ASCII digits read as a number. */
  function TwoDigitValue(d1: char, d2: char): int {
    (d1 as int - '0' as int) * 10 + (d2 as int - '0' as int)
  }

  /**
   * For a well-formed start time "DATE HH...", with no space inside DATE and
   * none in what follows the hour up to the next space, the hour is HH.
   */
  lemma StartHourOfWellFormed(date: string, d1: char, d2: char, rest: string)
    requires ' ' !in date
    requires IsDigit(d1) && IsDigit(d2)
    ensures StartHour(date + " " + [d1, d2] + rest) == Some(TwoDigitValue(d1, d2))
  {
    var s := date + " " + [d1, d2] + rest;
    assert s == date + " " + ([d1, d2] + rest);
    AfterFirstSpaceOf(date, [d1, d2] + rest);
    TwoCharsOfField([d1, d2] + rest);
    ParseTwoDigits(d1, d2);
  }

  /** The first two characters of the field that starts with them. */
  lemma TwoCharsOfField(s: string)
    requires |s| >= 2 && s[0] != ' ' && s[1] != ' '
    ensures Take(UpToSpace(s), 2) == s[..2]
  {
    assert UpToSpace(s) == [s[0]] + UpToSpace(s[1..]);
    assert UpToSpace(s[1..]) == [s[1]] + UpToSpace(s[2..]);
  }

  lemma ParseTwoDigits(d1: char, d2: char)
    requires IsDigit(d1) && IsDigit(d2)
    ensures ParseInt([d1, d2]) == Some(TwoDigitValue(d1, d2))
  {
    var text := [d1, d2];
    assert !IsWhitespace(d1) && !IsWhitespace(d2);
    assert StripLeft(text) == text;
    assert StripRight(text) == text;
    assert AllDigits(text);
    assert DigitsValue(text) == TwoDigitValue(d1, d2) by {
      assert text[..|text| - 1] == [d1];
      assert [d1][..0] == [];
      assert DigitsValue([]) == 0;
      assert DigitsValue([d1]) == d1 as int - '0' as int;
      assert DigitsValue(text) == DigitsValue([d1]) * 10 + (d2 as int - '0' as int);
    }
  }

  lemma {:induction false} AfterFirstSpaceOf(date: string, rest: string)
    requires ' ' !in date
    ensures AfterFirstSpace(date + " " + rest) == Some(rest)
  {
    if |date| > 0 {
      assert (date + " " + rest)[1..] == date[1..] + " " + rest;
      AfterFirstSpaceOf(date[1..], rest);
    } else {
      assert date + " " + rest == [' '] + rest;
    }
  }

  /**
   * `valid_time`, with the artist `Artist.query.get(artist_id)` returned.
   * Python evaluates `available_from <= hour <= available_till` left to right
   * and stops at the first False, so a NULL `available_till` raises only when
   * the lower bound holds.
   */
  function ValidTime(artist: Option<Artist>, startTime: string): (r: Result<bool, BookingError>)
    ensures r == Success(true) <==>
      && StartHour(startTime).Some? && artist.Some?
      && artist.value.availableFrom.Some? && artist.value.availableTill.Some?
      && artist.value.availableFrom.value <= StartHour(startTime).value <= artist.value.availableTill.value
    ensures r == Failure(MalformedStartTime) <==> StartHour(startTime).None?
    ensures r == Failure(UnknownArtist) <==> StartHour(startTime).Some? && artist.None?
    ensures r == Failure(MissingAvailability) <==>
      && StartHour(startTime).Some? && artist.Some?
      && (|| artist.value.availableFrom.None?
          || (artist.value.availableFrom.value <= StartHour(startTime).value && artist.value.availableTill.None?))
  {
    match StartHour(startTime)
    case None => Failure(MalformedStartTime)
    case Some(hour) =>
      match artist
      case None => Failure(UnknownArtist)
      case Some(a) =>
        match a.availableFrom
        case None => Failure(MissingAvailability)
        case Some(from) =>
          if !(from <= hour) then Success(false)
          else
            match a.availableTill
            case None => Failure(MissingAvailability)
            case Some(till) => Success(hour <= till)
  }

  /** An inverted window (from after till) never accepts: there is no wrap-around midnight. */
  lemma InvertedWindowNeverAccepts(a: Artist, startTime: string)
    requires a.availableFrom.Some? && a.availableTill.Some?
    requires a.availableFrom.value > a.availableTill.value
    ensures ValidTime(Some(a), startTime) != Success(true)
  {
  }

  /** With both ends set, the only error left is a malformed start time; otherwise the answer is the inclusive range test. */
  lemma WindowSetAnswers(a: Artist, startTime: string)
    requires a.availableFrom.Some? && a.availableTill.Some?
    requires StartHour(startTime).Some?
    ensures ValidTime(Some(a), startTime) ==
      Success(a.availableFrom.value <= StartHour(startTime).value <= a.availableTill.value)
  {
  }

  /** The column defaults 0 and 23 accept every hour of the day. */
  lemma DefaultWindowAcceptsEveryHour(id: Id, name: string, cityId: Id, date: string, d1: char, d2: char, rest: string)
    requires ' ' !in date
    requires IsDigit(d1) && IsDigit(d2) && 0 <= TwoDigitValue(d1, d2) <= 23
    ensures ValidTime(Some(NewArtist(id, name, cityId)), date + " " + [d1, d2] + rest) == Success(true)
  {
    StartHourOfWellFormed(date, d1, d2, rest);
  }

  /** A window from 9 to 17 accepts a well-formed start time exactly when its hour HH is between 9 and 17. */
  lemma NineToFiveWindow(a: Artist, date: string, d1: char, d2: char, rest: string)
    requires a.availableFrom == Some(9) && a.availableTill == Some(17)
    requires ' ' !in date
    requires IsDigit(d1) && IsDigit(d2)
    ensures ValidTime(Some(a), date + " " + [d1, d2] + rest) == Success(9 <= TwoDigitValue(d1, d2) <= 17)
  {
    StartHourOfWellFormed(date, d1, d2, rest);
  }
}
