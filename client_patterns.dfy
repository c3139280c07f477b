/** The regular expressions of the browser form's `validate` that the
    schema does not share, hand-coded as predicates over ASCII strings. */
module ClientPatterns {
  import opened Ascii

  // ---------------------------------------------------------------------
  // Email

  /** `\S+` */
  predicate NonSpaceRun(t: string) { |t| > 0 && NoSpace(t) }

  /** `/^\S+@\S+\.\S+$/` */
  predicate ClientEmailPattern(s: string) {
    exists i, j | 0 <= i < j < |s| ::
      s[i] == '@' && s[j] == '.' && NonSpaceRun(s[..i]) && NonSpaceRun(s[i + 1..j]) && NonSpaceRun(s[j + 1..])
  }

  /** The plain reading of the form's email pattern: no whitespace, some `@`
      after the first character, and some later `.` that neither follows
      the `@` directly nor ends the string. Further `@`s are allowed. */
  predicate AtThenDot(s: string) {
    NoSpace(s) && exists i, j | 0 < i && i + 1 < j < |s| - 1 :: s[i] == '@' && s[j] == '.'
  }

  lemma ClientEmailIff(s: string)
    ensures ClientEmailPattern(s) <==> AtThenDot(s)
  {
    if ClientEmailPattern(s) { ClientEmailReads(s); }
    if AtThenDot(s) { ClientEmailMatches(s); }
  }

  lemma ClientEmailReads(s: string)
    requires ClientEmailPattern(s)
    ensures AtThenDot(s)
  {
    var i, j :| 0 <= i < j < |s| && s[i] == '@' && s[j] == '.'
      && NonSpaceRun(s[..i]) && NonSpaceRun(s[i + 1..j]) && NonSpaceRun(s[j + 1..]);
    var a, b, c := s[..i], s[i + 1..j], s[j + 1..];
    forall k | 0 <= k < |s| ensures !IsSpace(s[k]) {
      if k < i { assert s[k] == a[k]; }
      else if i < k < j { assert s[k] == b[k - i - 1]; }
      else if j < k { assert s[k] == c[k - j - 1]; }
    }
  }

  lemma ClientEmailMatches(s: string)
    requires AtThenDot(s)
    ensures ClientEmailPattern(s)
  {
    var i, j :| 0 < i && i + 1 < j < |s| - 1 && s[i] == '@' && s[j] == '.';
    var a, b, c := s[..i], s[i + 1..j], s[j + 1..];
    assert forall k | 0 <= k < |a| :: a[k] == s[k];
    assert forall k | 0 <= k < |b| :: b[k] == s[k + i + 1];
    assert forall k | 0 <= k < |c| :: c[k] == s[k + j + 1];
    assert NonSpaceRun(a) && NonSpaceRun(b) && NonSpaceRun(c);
  }

  // ---------------------------------------------------------------------
  // Pincode and description

  /** `/^\d{5,6}$/` */
  predicate PincodePattern(s: string) { (|s| == 5 || |s| == 6) && AllDigits(s) }

  /** `[a-zA-Z0-9\s.,!?()'-]` */
  predicate DescriptionChar(c: char) {
    IsLetter(c) || IsDigit(c) || IsSpace(c)
    || c == '.' || c == ',' || c == '!' || c == '?' || c == '(' || c == ')' || c == '\'' || c == '-'
  }

  /** `/^[a-zA-Z0-9\s.,!?()'-]{3,}$/` */
  predicate DescriptionPattern(s: string) {
    |s| >= 3 && forall k :: 0 <= k < |s| ==> DescriptionChar(s[k])
  }

  // ---------------------------------------------------------------------
  // GST number

  predicate UpperOrDigit(c: char) { IsUpper(c) || IsDigit(c) }

  /** `/^\d{2}[A-Z]{5}\d{4}[A-Z]{1}[A-Z\d]{1}[Z]{1}[A-Z\d]{1}$/` */
  predicate GstPattern(s: string) {
    |s| == 15
    && IsDigit(s[0]) && IsDigit(s[1])
    && (forall k | 2 <= k < 7 :: IsUpper(s[k]))
    && (forall k | 7 <= k < 11 :: IsDigit(s[k]))
    && IsUpper(s[11]) && UpperOrDigit(s[12]) && s[13] == 'Z' && UpperOrDigit(s[14])
  }

  /** What the form's message says of an accepted GST number: it is 15
      characters, each an upper-case letter or a digit, with a `Z` in the
      fourteenth place. */
  lemma GstAlphanumeric(s: string)
    requires GstPattern(s)
    ensures |s| == 15 && s[13] == 'Z'
    ensures forall k :: 0 <= k < |s| ==> UpperOrDigit(s[k])
  {
    forall k | 0 <= k < |s| ensures UpperOrDigit(s[k]) {
      if k < 2 {} else if k < 7 {} else if k < 11 {} else {}
    }
  }

  lemma GstExamples()
    ensures GstPattern("22AAAAA0000A1Z5")
    ensures !GstPattern("22AAAAA0000A1Y5")
    ensures !GstPattern("22aaaaa0000a1z5")
  {
    assert "22aaaaa0000a1z5"[2] == 'a';
  }

  // ---------------------------------------------------------------------
  // Opening hours

  /** `0?[1-9]|1[0-2]` */
  predicate HourText(h: string) {
    (|h| == 1 && '1' <= h[0] <= '9')
    || (|h| == 2 && ((h[0] == '0' && '1' <= h[1] <= '9') || (h[0] == '1' && '0' <= h[1] <= '2')))
  }

  /** `[0-5][0-9]` */
  predicate MinuteText(m: string) { |m| == 2 && '0' <= m[0] <= '5' && IsDigit(m[1]) }

  /** `(AM|PM)` under the `i` flag */
  predicate Meridiem(t: string) {
    |t| == 2 && (t[0] == 'a' || t[0] == 'A' || t[0] == 'p' || t[0] == 'P') && (t[1] == 'm' || t[1] == 'M')
  }

  /** `/^(0?[1-9]|1[0-2]):[0-5][0-9]\s?(AM|PM)$/i` */
  predicate HoursPattern(s: string) {
    exists h | 1 <= h <= 2 && h + 3 <= |s| ::
      HourText(s[..h]) && s[h] == ':' && MinuteText(s[h + 1..h + 3])
      && (Meridiem(s[h + 3..]) || (h + 3 < |s| && IsSpace(s[h + 3]) && Meridiem(s[h + 4..])))
  }

  /** The hour is one or two digits denoting 1 to 12. */
  lemma HourTextIff(h: string)
    ensures HourText(h) <==> 1 <= |h| <= 2 && AllDigits(h) && 1 <= DigitsValue(h) <= 12
  {
    if |h| == 2 && AllDigits(h) {
      assert DigitsValue(h[..1]) == h[0] as int - '0' as int;
    }
    if |h| == 1 && AllDigits(h) {
      assert h[..0] == [];
    }
  }

  /** The minutes are two digits denoting 0 to 59. */
  lemma MinuteTextIff(m: string)
    ensures MinuteText(m) <==> |m| == 2 && AllDigits(m) && DigitsValue(m) <= 59
  {
    if |m| == 2 && AllDigits(m) {
      assert DigitsValue(m[..1]) == m[0] as int - '0' as int;
    }
  }

  lemma HoursAccepted()
    ensures HoursPattern("09:30 am")
    ensures HoursPattern("12:00PM")
  {
    var a := "09:30 am";
    assert HourText(a[..2]) && MinuteText(a[3..5]) && IsSpace(a[5]) && Meridiem(a[6..]);
    var b := "12:00PM";
    assert HourText(b[..2]) && MinuteText(b[3..5]) && Meridiem(b[5..]);
  }

  lemma HoursRejected()
    ensures !HoursPattern("13:00 PM")
    ensures !HoursPattern("9:60 AM")
  {
    var c := "13:00 PM";
    assert !HourText(c[..2]) && c[1] != ':';
    var d := "9:60 AM";
    assert !MinuteText(d[2..4]) && d[2] != ':';
  }

  // ---------------------------------------------------------------------
  // Coordinates

  /** `[-+]?`: the text after an optional sign. */
  function Unsigned(t: string): (u: string)
    ensures u == t || (|t| > 0 && (t[0] == '-' || t[0] == '+') && u == t[1..])
  {
    if |t| > 0 && (t[0] == '-' || t[0] == '+') then t[1..] else t
  }

  /** `(\.\d+)?` */
  predicate Fraction(t: string) { t == [] || (|t| >= 2 && t[0] == '.' && AllDigits(t[1..])) }

  /** `(\.0+)?` */
  predicate ZeroFraction(t: string) {
    t == [] || (|t| >= 2 && t[0] == '.' && forall k | 1 <= k < |t| :: t[k] == '0')
  }

  /** `[1-8]?\d` */
  predicate LatitudeInt(t: string) {
    (|t| == 1 && IsDigit(t[0])) || (|t| == 2 && '1' <= t[0] <= '8' && IsDigit(t[1]))
  }

  /** `([1-8]?\d(\.\d+)?|90(\.0+)?)` */
  predicate Latitude(t: string) {
    (exists k | 1 <= k <= 2 && k <= |t| :: LatitudeInt(t[..k]) && Fraction(t[k..]))
    || (|t| >= 2 && t[..2] == "90" && ZeroFraction(t[2..]))
  }

  /** `(1[0-7]\d)|([1-9]?\d)` */
  predicate LongitudeInt(t: string) {
    (|t| == 3 && t[0] == '1' && '0' <= t[1] <= '7' && IsDigit(t[2]))
    || (|t| == 2 && '1' <= t[0] <= '9' && IsDigit(t[1]))
    || (|t| == 1 && IsDigit(t[0]))
  }

  /** `(180(\.0+)?|((1[0-7]\d)|([1-9]?\d))(\.\d+)?)` */
  predicate Longitude(t: string) {
    (|t| >= 3 && t[..3] == "180" && ZeroFraction(t[3..]))
    || exists k | 1 <= k <= 3 && k <= |t| :: LongitudeInt(t[..k]) && Fraction(t[k..])
  }

  /** `/^[-+]?(latitude),\s*[-+]?(longitude)$/`. The latitude holds no
      comma, so the comma is the first one; `\s*` takes every blank before
      the longitude, which starts with a sign or a digit. */
  predicate CoordinatesPattern(s: string) {
    exists i | 0 <= i < |s| ::
      s[i] == ',' && Latitude(Unsigned(s[..i])) && Longitude(Unsigned(TrimStart(s[i + 1..])))
  }

  /** An accepted latitude has a whole part of at most 90, and exactly 90
      only with a zero fraction. */
  lemma LatitudeRange(t: string)
    requires Latitude(t)
    ensures exists k | 1 <= k <= |t| ::
      (AllDigits(t[..k]) && Fraction(t[k..])
       && (DigitsValue(t[..k]) < 90 || (DigitsValue(t[..k]) == 90 && ZeroFraction(t[k..]))))
  {
    if exists k | 1 <= k <= 2 && k <= |t| :: LatitudeInt(t[..k]) && Fraction(t[k..]) {
      var k :| 1 <= k <= 2 && k <= |t| && LatitudeInt(t[..k]) && Fraction(t[k..]);
      var w := t[..k];
      if k == 2 {
        assert DigitsValue(w[..1]) == w[0] as int - '0' as int;
      }
      assert DigitsValue(w) < 90;
    } else {
      var w := t[..2];
      assert w == "90";
      assert DigitsValue(w[..1]) == 9;
      assert DigitsValue(w) == 90;
      assert ZeroFraction(t[2..]);
    }
  }

  /** An accepted longitude has a whole part of at most 180, and exactly
      180 only with a zero fraction. */
  lemma LongitudeRange(t: string)
    requires Longitude(t)
    ensures exists k | 1 <= k <= |t| ::
      (AllDigits(t[..k]) && Fraction(t[k..])
       && (DigitsValue(t[..k]) < 180 || (DigitsValue(t[..k]) == 180 && ZeroFraction(t[k..]))))
  {
    if exists k | 1 <= k <= 3 && k <= |t| :: LongitudeInt(t[..k]) && Fraction(t[k..]) {
      var k :| 1 <= k <= 3 && k <= |t| && LongitudeInt(t[..k]) && Fraction(t[k..]);
      LongitudeIntBelow(t[..k]);
    } else {
      assert t[..3] == "180";
      OneEighty();
      assert ZeroFraction(t[3..]);
    }
  }

  lemma LongitudeIntBelow(w: string)
    requires LongitudeInt(w)
    ensures AllDigits(w) && DigitsValue(w) < 180
  {
    if |w| == 3 {
      var v := w[..2];
      assert DigitsValue(v[..1]) == 1;
      assert DigitsValue(v) <= 17;
      assert w[..2] == v;
    } else if |w| == 2 {
      assert DigitsValue(w[..1]) == w[0] as int - '0' as int;
    }
  }

  lemma OneEighty()
    ensures AllDigits("180") && DigitsValue("180") == 180
  {
    var w := "180";
    var v := w[..2];
    assert v == "18";
    assert DigitsValue(v[..1]) == 1;
    assert DigitsValue(v) == 18;
  }

  lemma CoordinatesExample()
    ensures CoordinatesPattern("9.93, 76.26")
  {
    var s := "9.93, 76.26";
    var lat, rest := s[..4], s[4 + 1..];
    assert lat == "9.93" && rest == " 76.26";
    LatitudeExample();
    LongitudeExample();
    assert TrimStart(rest) == TrimStart(rest[1..]) && rest[1..] == "76.26";
    assert s[4] == ',' && Latitude(Unsigned(lat)) && Longitude(Unsigned(TrimStart(rest)));
  }

  lemma LatitudeExample()
    ensures Latitude(Unsigned("9.93"))
  {
    var t := "9.93";
    assert Unsigned(t) == t;
    assert t[..1] == "9" && t[1..] == ".93";
    assert LatitudeInt(t[..1]);
    assert ".93"[1..] == "93";
  }

  lemma LongitudeExample()
    ensures Longitude(Unsigned(TrimStart("76.26")))
  {
    var t := "76.26";
    assert TrimStart(t) == t;
    assert Unsigned(t) == t;
    assert t[..2] == "76" && t[2..] == ".26";
    assert LongitudeInt(t[..2]);
    assert ".26"[1..] == "26";
  }
}
