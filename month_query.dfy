/** The `month` query parameter of the summary endpoints: the `YYYY-MM`
    validator of the request DTO, and the `split('-').map(Number)` that the
    summary service applies to an accepted value. */
module MonthQuery {
  import opened Common

  /** The message of a rejected `month`. */
  const MonthFormatMessage := "month must be in the format YYYY-MM (e.g., 2025-09)"

  /** `\d` of a JavaScript regular expression without the `u` flag. */
  predicate IsDigit(c: char) {
    '0' <= c <= '9'
  }

  predicate AllDigits(s: string) {
    forall k :: 0 <= k < |s| ==> IsDigit(s[k])
  }

  /** The pattern `^\d{4}-(0[1-9]|1[0-2])$`, anchored at both ends: seven
      characters, all of them digits but the `-` in the middle. */
  predicate IsMonth(s: string)
    ensures IsMonth(s) ==> |s| == 7 && s[4] == '-' && forall k :: 0 <= k < 7 && k != 4 ==> IsDigit(s[k])
  {
    && |s| == 7
    && AllDigits(s[..4])
    && s[4] == '-'
    && ((s[5] == '0' && '1' <= s[6] <= '9') || (s[5] == '1' && '0' <= s[6] <= '2'))
  }

  /** The validation step run before the handler: the value passes through
      unchanged, or the request is rejected with the format message. */
  function ValidateMonth(s: string): (r: Result<string, string>)
    ensures r.Success? <==> IsMonth(s)
    ensures r.Success? ==> r.value == s && |s| == 7
    ensures r.Failure? ==> r.error == MonthFormatMessage
  {
    if IsMonth(s) then Success(s) else Failure(MonthFormatMessage)
  }

  // ---- Number() of a digit string, and the zero-padded printing back ----

  /** `Number(s)` of a string of decimal digits (leading zeros allowed). */
  function DigitsValue(s: string): nat
    requires AllDigits(s)
  {
    if s == [] then 0 else 10 * DigitsValue(s[..|s| - 1]) + (s[|s| - 1] as int - '0' as int)
  }

  function Pow10(n: nat): (r: nat)
    ensures r >= 1
  {
    if n == 0 then 1 else 10 * Pow10(n - 1)
  }

  /** The last `width` decimal digits of `n`, zero-padded. */
  function Digits(n: nat, width: nat): (s: string)
    ensures |s| == width && AllDigits(s)
  {
    if width == 0 then [] else Digits(n / 10, width - 1) + [('0' as int + n % 10) as char]
  }

  lemma {:induction false} DigitsValueBound(s: string)
    requires AllDigits(s)
    ensures DigitsValue(s) < Pow10(|s|)
    decreases |s|
  {
    if s != [] {
      DigitsValueBound(s[..|s| - 1]);
    }
  }

  /** Printing a number that fits in `width` digits and reading it back
      gives the number. */
  lemma {:induction false} DigitsRoundTrip(n: nat, width: nat)
    requires n < Pow10(width)
    ensures DigitsValue(Digits(n, width)) == n
    decreases width
  {
    if width > 0 {
      var s := Digits(n, width);
      assert s[..|s| - 1] == Digits(n / 10, width - 1);
      DigitsRoundTrip(n / 10, width - 1);
    }
  }

  /** Reading a digit string and printing it back at its own width gives
      the string, leading zeros included. */
  lemma {:induction false} ValueRoundTrip(s: string)
    requires AllDigits(s)
    ensures Digits(DigitsValue(s), |s|) == s
    decreases |s|
  {
    if s != [] {
      var init := s[..|s| - 1];
      var v := DigitsValue(s);
      var d := s[|s| - 1] as int - '0' as int;
      assert v / 10 == DigitsValue(init) && v % 10 == d;
      ValueRoundTrip(init);
      assert s == init + [s[|s| - 1]];
    }
  }

  // ---- the month as the summary service reads it ----

  /** An accepted `month` splits at its only `-` into the year digits and
      the month digits. */
  lemma SplitOfMonth(s: string)
    requires IsMonth(s)
    ensures Split(s, '-') == [s[..4], s[5..]]
  {
    assert IndexOf(s, '-') == 4 by {
      forall k | 0 <= k < 4 ensures s[k] != '-' {
        assert IsDigit(s[..4][k]);
      }
    }
    var tail := s[5..];
    assert IndexOf(tail, '-') == |tail| by {
      assert tail[0] != '-' && tail[1] != '-';
      assert IndexOf(tail[1..], '-') == 1 by {
        assert tail[1..][0] != '-';
        assert tail[1..][1..] == [];
      }
    }
  }

  /** `const [year, month] = month.split('-').map(Number)` on an accepted
      value. */
  function ParseMonth(s: string): (ym: (nat, nat))
    requires IsMonth(s)
    ensures ym.0 <= 9999 && 1 <= ym.1 <= 12
  {
    SplitOfMonth(s);
    var parts := Split(s, '-');
    assert AllDigits(parts[1]) by {
      assert parts[1] == s[5..];
    }
    var year := DigitsValue(parts[0]);
    var month := DigitsValue(parts[1]);
    DigitsValueBound(parts[0]);
    assert month == 10 * DigitsValue(parts[1][..1]) + (s[6] as int - '0' as int) by {
      assert parts[1][..1][..0] == [];
    }
    assert DigitsValue(parts[1][..1]) == s[5] as int - '0' as int by {
      assert parts[1][..1] == [s[5]];
      assert [s[5]][..0] == [];
    }
    (year, month)
  }

  /** The canonical `YYYY-MM` spelling of a year and a month. */
  function FormatMonth(year: nat, month: nat): (s: string)
    ensures |s| == 7
  {
    Digits(year, 4) + "-" + Digits(month, 2)
  }

  /** Every year in 0..9999 (0000 included) with every month 1..12 is
      accepted, and reads back as the same year and month. */
  lemma FormatThenParse(year: nat, month: nat)
    requires year <= 9999 && 1 <= month <= 12
    ensures IsMonth(FormatMonth(year, month))
    ensures ParseMonth(FormatMonth(year, month)) == (year, month)
  {
    var s := FormatMonth(year, month);
    assert s[..4] == Digits(year, 4) && s[5..] == Digits(month, 2);
    assert Digits(month, 2) == Digits(month / 10, 1) + [('0' as int + month % 10) as char];
    assert Digits(month / 10, 1) == [('0' as int + (month / 10) % 10) as char];
    assert IsMonth(s);
    SplitOfMonth(s);
    DigitsRoundTrip(year, 4);
    DigitsRoundTrip(month, 2);
  }

  /** Every accepted string is the canonical spelling of what it parses to,
      so acceptance means exactly "some year 0..9999 and month 1..12". */
  lemma ParseThenFormat(s: string)
    requires IsMonth(s)
    ensures FormatMonth(ParseMonth(s).0, ParseMonth(s).1) == s
  {
    SplitOfMonth(s);
    assert AllDigits(s[5..]);
    ValueRoundTrip(s[..4]);
    ValueRoundTrip(s[5..]);
    assert s == s[..4] + "-" + s[5..];
  }

  /** Acceptance means exactly "the canonical spelling of a year 0..9999
      and a month 1..12". */
  lemma AcceptedIsCanonical(s: string)
    ensures IsMonth(s) <==> exists year: nat, month: nat :: year <= 9999 && 1 <= month <= 12 && s == FormatMonth(year, month)
  {
    if IsMonth(s) {
      ParseThenFormat(s);
      var ym := ParseMonth(s);
      assert ym.0 <= 9999 && 1 <= ym.1 <= 12 && s == FormatMonth(ym.0, ym.1);
    }
    forall year: nat, month: nat | year <= 9999 && 1 <= month <= 12 && s == FormatMonth(year, month)
      ensures IsMonth(s)
    {
      FormatThenParse(year, month);
    }
  }

  /** The canonical spelling of May 2024, one digit at a time. */
  lemma FormatMayOf2024()
    ensures FormatMonth(2024, 5) == "2024-05"
  {
    assert Digits(2, 1) == [] + ['2'];
    assert Digits(20, 2) == "2" + ['0'];
    assert Digits(202, 3) == "20" + ['2'];
    assert Digits(2024, 4) == "202" + ['4'];
    assert Digits(0, 1) == [] + ['0'];
    assert Digits(5, 2) == "0" + ['5'];
  }

  /** An accepted value, and what the summary service reads from it. */
  lemma MonthAcceptedExample()
    ensures IsMonth("2024-05") && ParseMonth("2024-05") == (2024, 5)
  {
    FormatThenParse(2024, 5);
    FormatMayOf2024();
  }

  /** The first and the last month of a year, in the first and a later
      year, are accepted. */
  lemma MonthBoundaryExamples()
    ensures IsMonth("0000-01") && IsMonth("2025-12")
  {
    var a := "0000-01";
    assert a[..4] == "0000";
    assert a[4] == '-' && a[5] == '0' && a[6] == '1';
    var b := "2025-12";
    assert b[..4] == "2025";
    assert b[4] == '-' && b[5] == '1' && b[6] == '2';
  }

  /** Month 00 and month 13 are out of range. */
  lemma MonthOutOfRangeExamples()
    ensures !IsMonth("2024-00") && !IsMonth("2024-13")
  {
    var a := "2024-00";
    assert a[5] == '0' && a[6] == '0';
    var b := "2024-13";
    assert b[5] == '1' && b[6] == '3';
  }

  /** A one-digit month, a two-digit year and anything around the value
      are rejected by the length alone. */
  lemma MonthMalformedExamples()
    ensures !IsMonth("2024-5") && !IsMonth(" 2024-05") && !IsMonth("2024-05 ") && !IsMonth("24-05")
  {
    assert |"2024-5"| == 6 && |" 2024-05"| == 8 && |"2024-05 "| == 8 && |"24-05"| == 5;
  }

  /** The accepted and rejected examples of the validator. */
  lemma MonthExamples()
    ensures IsMonth("2024-05") && ParseMonth("2024-05") == (2024, 5)
    ensures IsMonth("0000-01") && IsMonth("2025-12")
    ensures !IsMonth("2024-00") && !IsMonth("2024-13") && !IsMonth("2024-5")
    ensures !IsMonth(" 2024-05") && !IsMonth("2024-05 ") && !IsMonth("24-05")
  {
    MonthAcceptedExample();
    MonthBoundaryExamples();
    MonthOutOfRangeExamples();
    MonthMalformedExamples();
  }
}
