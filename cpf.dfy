/**
 * The Brazilian CPF check-digit test of UpdatePatientDtoValidator.BeAValidCpf:
 * eleven characters, not all the same, whose tenth and eleventh digits are
 * the modulo-11 check digits of the digits before them.
 */
module CpfCheck {
  import opened Common

  /**
   * What BeAValidCpf does with a string: it answers, or `int.Parse` raises a
   * FormatException on a character that is not an ASCII digit.
   */
  datatype CpfOutcome = Answer(valid: bool) | FormatError

  /** A UTF-16 code unit that is an ASCII decimal digit. */
  predicate IsDigitUnit(u: int)
  {
    '0' as int <= u <= '9' as int
  }

  /**
   * `int.Parse(cpf[i].ToString())` on one code unit of the string: the value
   * of an ASCII digit, nothing (a FormatException) for any other unit,
   * including half of a surrogate pair.
   */
  function ParseUnit(u: int): (r: Option<int>)
    ensures r.Some? <==> IsDigitUnit(u)
    ensures r.Some? ==> 0 <= r.value <= 9 && DigitChar(r.value) as int == u
  {
    if IsDigitUnit(u) then Some(u - '0' as int) else None
  }

  function DigitValue(c: char): int
  {
    c as int - '0' as int
  }

  function DigitValues(s: string): (ds: seq<int>)
    requires AllAsciiDigits(s)
    ensures |ds| == |s|
    ensures forall i :: 0 <= i < |s| ==> ds[i] == DigitValue(s[i]) && 0 <= ds[i] <= 9
  {
    seq(|s|, i requires 0 <= i < |s| => DigitValue(s[i]))
  }

  /** The weighted sum of the digits, the first weighted `top`, each next one less. */
  function WeightedSum(ds: seq<int>, top: int): int
  {
    if |ds| == 0 then 0 else WeightedSum(ds[..|ds| - 1], top) + ds[|ds| - 1] * (top - (|ds| - 1))
  }

  /**
   * The check digit of a weighted sum: 0 when the remainder modulo 11 is
   * below 2, otherwise 11 minus the remainder. Sums are never negative, so
   * C#'s truncating `%` and Dafny's agree.
   */
  function CheckDigit(sum: int): (d: int)
    ensures 0 <= d <= 9
    ensures sum % 11 < 2 ==> d == 0
    ensures sum % 11 >= 2 ==> d + sum % 11 == 11
  {
    var r := sum % 11;
    if r < 2 then 0 else 11 - r
  }

  predicate AllSame<T(==)>(s: seq<T>)
  {
    forall i :: 0 <= i < |s| ==> s[i] == s[0]
  }

  /** The first check digit, computed from the first nine digits. */
  function FirstCheck(s: string): (d: int)
    requires |s| >= 9 && AllAsciiDigits(s[..9])
    ensures 0 <= d <= 9
  {
    CheckDigit(WeightedSum(DigitValues(s[..9]), 10))
  }

  /** The second check digit, computed from the first ten digits. */
  function SecondCheck(s: string): (d: int)
    requires |s| >= 10 && AllAsciiDigits(s[..10])
    ensures 0 <= d <= 9
  {
    CheckDigit(WeightedSum(DigitValues(s[..10]), 11))
  }

  /**
   * The outcome of BeAValidCpf, step by step: length in code units, all-same,
   * then the parse-and-compare of the first check digit (a non-digit among
   * the first ten characters raises), then that of the second (the eleventh
   * character is parsed only when the first check digit matched). Eleven code
   * units holding a surrogate pair always raise: the pair's two halves differ,
   * so they are not all the same, and its high half is among the first ten
   * units, all of which are parsed before any comparison can answer.
   */
  function CpfSpec(cpf: Text): CpfOutcome
  {
    if IsNullOrEmpty(cpf) || Utf16Length(cpf.value) != 11 then Answer(false)
    else if !AllBmp(cpf.value) then FormatError
    else
      var s := cpf.value;
      BmpLength(s);
      if AllSame(s) then Answer(false)
      else if !AllAsciiDigits(s[..10]) then FormatError
      else if DigitValue(s[9]) != FirstCheck(s) then Answer(false)
      else if !IsAsciiDigit(s[10]) then FormatError
      else Answer(DigitValue(s[10]) == SecondCheck(s))
  }

  /** The two check digits of an eleven-digit string match its last two digits. */
  predicate ChecksumHolds(s: string)
  {
    |s| == 11 && AllAsciiDigits(s)
    && DigitValue(s[9]) == FirstCheck(s) && DigitValue(s[10]) == SecondCheck(s)
  }

  /**
   * BeAValidCpf itself, on the code units the string holds: the all-same
   * test, then the two accumulating sums.
   */
  method BeAValidCpf(cpf: Text) returns (r: CpfOutcome)
    ensures r == CpfSpec(cpf)
    ensures IsNullOrEmpty(cpf) || Utf16Length(cpf.value) != 11 ==> r == Answer(false)
    ensures r == Answer(true) ==> ChecksumHolds(cpf.value) && !AllSame(cpf.value)
  {
    if IsNullOrEmpty(cpf) || Utf16Length(cpf.value) != 11 {
      return Answer(false);
    }
    var s := cpf.value;
    var units := Utf16(s);
    if AllBmp(s) {
      BmpCpfUnits(s);
    } else {
      SupplementaryCpfUnits(s);
    }
    var allDigitsSame := AllDigitsSame(units);
    if allDigitsSame {
      return Answer(false);
    }

    var sum := ParseWeightedSum(units, 9, 10);
    if sum.None? {
      return FormatError;
    }
    var remainder := sum.value % 11;
    var verificationDigit1 := if remainder < 2 then 0 else 11 - remainder;

    var d9 := ParseUnit(units[9]);
    if d9.None? {
      return FormatError;
    }
    if d9.value != verificationDigit1 {
      return Answer(false);
    }

    sum := ParseWeightedSum(units, 10, 11);
    remainder := sum.value % 11;
    var verificationDigit2 := if remainder < 2 then 0 else 11 - remainder;

    var d10 := ParseUnit(units[10]);
    if d10.None? {
      return FormatError;
    }
    return Answer(d10.value == verificationDigit2);
  }

  /** The values of a run of digit code units. */
  function UnitValues(units: seq<int>): (ds: seq<int>)
    ensures |ds| == |units|
    ensures forall i :: 0 <= i < |units| ==> ds[i] == units[i] - '0' as int
  {
    seq(|units|, i requires 0 <= i < |units| => units[i] - '0' as int)
  }

  /**
   * Eleven code units of a string in the Basic Multilingual Plane are its
   * eleven characters, so the unit-by-unit tests are the character tests.
   */
  lemma BmpCpfUnits(s: string)
    requires AllBmp(s) && Utf16Length(s) == 11
    ensures |s| == 11
    ensures AllSame(Utf16(s)) <==> AllSame(s)
    ensures forall k :: 0 <= k < 11 ==> Utf16(s)[k] == s[k] as int
    ensures AllAsciiDigits(s[..9]) <==> forall k :: 0 <= k < 9 ==> IsDigitUnit(Utf16(s)[k])
    ensures AllAsciiDigits(s[..10]) <==> forall k :: 0 <= k < 10 ==> IsDigitUnit(Utf16(s)[k])
    ensures AllAsciiDigits(s[..9]) ==> UnitValues(Utf16(s)[..9]) == DigitValues(s[..9])
    ensures AllAsciiDigits(s[..10]) ==> UnitValues(Utf16(s)[..10]) == DigitValues(s[..10])
  {
    BmpUnits(s);
    var units := Utf16(s);
    assert AllSame(units) ==> AllSame(s) by {
      if AllSame(units) {
        forall i | 0 <= i < |s| ensures s[i] == s[0] {
          assert units[i] == units[0];
        }
      }
    }
    BmpPrefix(s, 9);
    BmpPrefix(s, 10);
  }

  /** The first `n` characters of a string in the Basic Multilingual Plane, as code units. */
  lemma BmpPrefix(s: string, n: nat)
    requires AllBmp(s) && n <= |s|
    ensures |Utf16(s)| == |s|
    ensures AllAsciiDigits(s[..n]) <==> forall k :: 0 <= k < n ==> IsDigitUnit(Utf16(s)[k])
    ensures AllAsciiDigits(s[..n]) ==> UnitValues(Utf16(s)[..n]) == DigitValues(s[..n])
  {
    BmpUnits(s);
    var units := Utf16(s);
    assert forall k :: 0 <= k < n ==> s[..n][k] == s[k];
    if AllAsciiDigits(s[..n]) {
      assert UnitValues(units[..n]) == DigitValues(s[..n]);
    }
  }

  /**
   * Eleven code units holding a surrogate pair are not all the same, and one
   * of the first ten is not a digit.
   */
  lemma SupplementaryCpfUnits(s: string)
    requires !AllBmp(s) && Utf16Length(s) == 11
    ensures !AllSame(Utf16(s))
    ensures exists k :: 0 <= k < 10 && !IsDigitUnit(Utf16(s)[k])
  {
    SurrogatePairIn(s);
  }

  /** The loop that compares every code unit with the first, leaving at the first difference. */
  method AllDigitsSame(units: seq<int>) returns (same: bool)
    requires |units| > 0
    ensures same == AllSame(units)
  {
    same := true;
    var i := 1;
    while i < |units|
      invariant 1 <= i <= |units|
      invariant same ==> forall k :: 0 <= k < i ==> units[k] == units[0]
      invariant !same ==> !AllSame(units)
    {
      if units[i] != units[0] {
        same := false;
        break;
      }
      i := i + 1;
    }
  }

  /**
   * The loop `sum += int.Parse(cpf[i].ToString()) * (top - i)` over the first
   * `n` code units; nothing when `int.Parse` raises on one of them.
   */
  method ParseWeightedSum(units: seq<int>, n: nat, top: int) returns (sum: Option<int>)
    requires n <= |units|
    ensures sum.Some? <==> forall k :: 0 <= k < n ==> IsDigitUnit(units[k])
    ensures sum.Some? ==> sum.value == WeightedSum(UnitValues(units[..n]), top)
  {
    var acc := 0;
    var i := 0;
    while i < n
      invariant 0 <= i <= n
      invariant forall k :: 0 <= k < i ==> IsDigitUnit(units[k])
      invariant acc == WeightedSum(UnitValues(units[..i]), top)
    {
      var d := ParseUnit(units[i]);
      if d.None? {
        return None;
      }
      assert units[..i + 1][..i] == units[..i];
      assert UnitValues(units[..i + 1])[..i] == UnitValues(units[..i]);
      acc := acc + d.value * (top - i);
      i := i + 1;
    }
    return Some(acc);
  }

  /** For an eleven-digit string the answer is: not all one digit, and both check digits match. */
  lemma DigitStringVerdict(s: string)
    requires |s| == 11 && AllAsciiDigits(s)
    ensures CpfSpec(Some(s)) == Answer(!AllSame(s) && ChecksumHolds(s))
  {
    assert AllBmp(s);
    BmpLength(s);
    assert AllAsciiDigits(s[..10]) by {
      assert forall k :: 0 <= k < 10 ==> s[..10][k] == s[k];
    }
  }

  /** The first check digit of a nine-digit prefix. */
  function FirstCheckOf(p: string): (a: int)
    requires |p| == 9 && AllAsciiDigits(p)
    ensures 0 <= a <= 9
  {
    CheckDigit(WeightedSum(DigitValues(p), 10))
  }

  /** The second check digit of a nine-digit prefix followed by its first check digit. */
  function SecondCheckOf(p: string): (b: int)
    requires |p| == 9 && AllAsciiDigits(p)
    ensures 0 <= b <= 9
  {
    CheckDigit(WeightedSum(DigitValues(p) + [FirstCheckOf(p)], 11))
  }

  /**
   * Every nine-digit prefix that is not one repeated digit has exactly one
   * accepted two-digit completion: the pair of its check digits.
   */
  lemma {:induction false} ExactlyOneCompletion(p: string, a: int, b: int)
    requires |p| == 9 && AllAsciiDigits(p) && !AllSame(p)
    requires 0 <= a <= 9 && 0 <= b <= 9
    ensures CpfSpec(Some(p + [DigitChar(a), DigitChar(b)])) == Answer(true)
            <==> a == FirstCheckOf(p) && b == SecondCheckOf(p)
  {
    var s := p + [DigitChar(a), DigitChar(b)];
    assert s[..9] == p;
    assert s[..10] == p + [DigitChar(a)];
    assert AllAsciiDigits(s) by {
      forall k | 0 <= k < 11 ensures IsAsciiDigit(s[k]) {
        if k < 9 { assert s[k] == p[k]; }
      }
    }
    assert !AllSame(s) by {
      var k :| 0 <= k < 9 && p[k] != p[0];
      assert s[k] == p[k] && s[0] == p[0];
    }
    assert DigitValues(s[..10]) == DigitValues(p) + [a];
    DigitStringVerdict(s);
  }

  /** Each of the ten strings of one repeated digit passes both check-digit tests, yet is rejected. */
  lemma {:induction false} RepeatedDigitPassesChecksum(d: int)
    requires 0 <= d <= 9
    ensures ChecksumHolds(seq(11, _ => DigitChar(d)))
    ensures CpfSpec(Some(seq(11, _ => DigitChar(d)))) == Answer(false)
  {
    var s := seq(11, _ => DigitChar(d));
    assert AllAsciiDigits(s);
    assert DigitValues(s[..9]) == seq(9, _ => d);
    assert DigitValues(s[..10]) == seq(10, _ => d);
    ConstantWeightedSum(9, 10, d);
    ConstantWeightedSum(10, 11, d);
    assert WeightedSum(seq(9, _ => d), 10) == 54 * d;
    assert WeightedSum(seq(10, _ => d), 11) == 65 * d;
    assert (54 * d) % 11 == (11 - d) % 11 && (65 * d) % 11 == (11 - d) % 11 by {
      if d == 0 {} else if d == 1 {} else if d == 2 {} else if d == 3 {} else if d == 4 {}
      else if d == 5 {} else if d == 6 {} else if d == 7 {} else if d == 8 {} else {}
    }
    assert AllSame(s);
  }

  /** The weighted sum of n copies of d, first weight `top`. */
  lemma {:induction false} ConstantWeightedSum(n: nat, top: int, d: int)
    ensures 2 * WeightedSum(seq(n, _ => d), top) == d * n * (2 * top - n + 1)
  {
    if n > 0 {
      assert seq(n, _ => d)[..n - 1] == seq(n - 1, _ => d);
      ConstantWeightedSum(n - 1, top, d);
      assert d * n * (2 * top - n + 1) == d * (n - 1) * (2 * top - (n - 1) + 1) + 2 * d * (top - (n - 1));
    }
  }

  /** The textbook valid CPF 111.444.777-35 is accepted. */
  lemma KnownValidCpf()
    ensures CpfSpec(Some("11144477735")) == Answer(true)
  {
    var s := "11144477735";
    assert AllAsciiDigits(s);
    assert s[3] != s[0];
    var ds := [1, 1, 1, 4, 4, 4, 7, 7, 7, 3];
    assert DigitValues(s[..9]) == ds[..9];
    assert DigitValues(s[..10]) == ds;
    SumsOfDigits(ds, 162, 204);
    assert FirstCheck(s) == CheckDigit(162) == 3;
    assert SecondCheck(s) == CheckDigit(204) == 5;
    DigitStringVerdict(s);
  }

  /** 123.456.789-00 passes the first check digit (0) but fails the second (it should be 9). */
  lemma SecondCheckDigitRejects()
    ensures FirstCheck("12345678900") == 0 && SecondCheck("12345678900") == 9
    ensures CpfSpec(Some("12345678900")) == Answer(false)
  {
    var s := "12345678900";
    assert AllAsciiDigits(s);
    assert s[1] != s[0];
    var ds := [1, 2, 3, 4, 5, 6, 7, 8, 9, 0];
    assert DigitValues(s[..9]) == ds[..9];
    assert DigitValues(s[..10]) == ds;
    SumsOfDigits(ds, 210, 255);
    assert FirstCheck(s) == CheckDigit(210) == 0;
    assert SecondCheck(s) == CheckDigit(255) == 9;
    DigitStringVerdict(s);
  }

  /** Evaluates both weighted sums of ten concrete digits, one prefix at a time. */
  lemma SumsOfDigits(ds: seq<int>, first: int, second: int)
    requires |ds| == 10
    requires first == ds[0] * 10 + ds[1] * 9 + ds[2] * 8 + ds[3] * 7 + ds[4] * 6
                       + ds[5] * 5 + ds[6] * 4 + ds[7] * 3 + ds[8] * 2
    requires second == ds[0] * 11 + ds[1] * 10 + ds[2] * 9 + ds[3] * 8 + ds[4] * 7
                       + ds[5] * 6 + ds[6] * 5 + ds[7] * 4 + ds[8] * 3 + ds[9] * 2
    ensures WeightedSum(ds[..9], 10) == first && WeightedSum(ds, 11) == second
  {
    assert ds[..1][..0] == ds[..0];
    assert WeightedSum(ds[..1], 10) == ds[0] * 10;
    assert ds[..2][..1] == ds[..1];
    assert WeightedSum(ds[..2], 10) == ds[0] * 10 + ds[1] * 9;
    assert ds[..3][..2] == ds[..2];
    assert WeightedSum(ds[..3], 10) == ds[0] * 10 + ds[1] * 9 + ds[2] * 8;
    assert ds[..4][..3] == ds[..3];
    assert WeightedSum(ds[..4], 10) == ds[0] * 10 + ds[1] * 9 + ds[2] * 8 + ds[3] * 7;
    assert ds[..5][..4] == ds[..4];
    assert WeightedSum(ds[..5], 10) == ds[0] * 10 + ds[1] * 9 + ds[2] * 8 + ds[3] * 7 + ds[4] * 6;
    assert ds[..6][..5] == ds[..5];
    assert WeightedSum(ds[..6], 10) == ds[0] * 10 + ds[1] * 9 + ds[2] * 8 + ds[3] * 7 + ds[4] * 6 + ds[5] * 5;
    assert ds[..7][..6] == ds[..6];
    assert WeightedSum(ds[..7], 10) == ds[0] * 10 + ds[1] * 9 + ds[2] * 8 + ds[3] * 7 + ds[4] * 6 + ds[5] * 5 + ds[6] * 4;
    assert ds[..8][..7] == ds[..7];
    assert WeightedSum(ds[..8], 10) == ds[0] * 10 + ds[1] * 9 + ds[2] * 8 + ds[3] * 7 + ds[4] * 6 + ds[5] * 5 + ds[6] * 4 + ds[7] * 3;
    assert ds[..9][..8] == ds[..8];
    assert WeightedSum(ds[..9], 10) == ds[0] * 10 + ds[1] * 9 + ds[2] * 8 + ds[3] * 7 + ds[4] * 6 + ds[5] * 5 + ds[6] * 4 + ds[7] * 3 + ds[8] * 2;
    assert ds[..1][..0] == ds[..0];
    assert WeightedSum(ds[..1], 11) == ds[0] * 11;
    assert ds[..2][..1] == ds[..1];
    assert WeightedSum(ds[..2], 11) == ds[0] * 11 + ds[1] * 10;
    assert ds[..3][..2] == ds[..2];
    assert WeightedSum(ds[..3], 11) == ds[0] * 11 + ds[1] * 10 + ds[2] * 9;
    assert ds[..4][..3] == ds[..3];
    assert WeightedSum(ds[..4], 11) == ds[0] * 11 + ds[1] * 10 + ds[2] * 9 + ds[3] * 8;
    assert ds[..5][..4] == ds[..4];
    assert WeightedSum(ds[..5], 11) == ds[0] * 11 + ds[1] * 10 + ds[2] * 9 + ds[3] * 8 + ds[4] * 7;
    assert ds[..6][..5] == ds[..5];
    assert WeightedSum(ds[..6], 11) == ds[0] * 11 + ds[1] * 10 + ds[2] * 9 + ds[3] * 8 + ds[4] * 7 + ds[5] * 6;
    assert ds[..7][..6] == ds[..6];
    assert WeightedSum(ds[..7], 11) == ds[0] * 11 + ds[1] * 10 + ds[2] * 9 + ds[3] * 8 + ds[4] * 7 + ds[5] * 6 + ds[6] * 5;
    assert ds[..8][..7] == ds[..7];
    assert WeightedSum(ds[..8], 11) == ds[0] * 11 + ds[1] * 10 + ds[2] * 9 + ds[3] * 8 + ds[4] * 7 + ds[5] * 6 + ds[6] * 5 + ds[7] * 4;
    assert ds[..9][..8] == ds[..8];
    assert WeightedSum(ds[..9], 11) == ds[0] * 11 + ds[1] * 10 + ds[2] * 9 + ds[3] * 8 + ds[4] * 7 + ds[5] * 6 + ds[6] * 5 + ds[7] * 4 + ds[8] * 3;
    assert ds[..10][..9] == ds[..9];
    assert WeightedSum(ds[..10], 11) == ds[0] * 11 + ds[1] * 10 + ds[2] * 9 + ds[3] * 8 + ds[4] * 7 + ds[5] * 6 + ds[6] * 5 + ds[7] * 4 + ds[8] * 3 + ds[9] * 2;
    assert ds[..10] == ds;
  }

  /**
   * The CPF test the validator evidently intends: false, never an exception,
   * for anything that is not eleven ASCII digits. Wherever BeAValidCpf
   * answers at all, the two agree.
   */
  function IsValidCpf(cpf: Text): (ok: bool)
    ensures CpfSpec(cpf) != FormatError ==> CpfSpec(cpf) == Answer(ok)
    ensures ok ==> cpf.Some? && |cpf.value| == 11 && AllAsciiDigits(cpf.value) && !AllSame(cpf.value)
  {
    if cpf.Some? && |cpf.value| == 11 && AllAsciiDigits(cpf.value) then
      DigitStringVerdict(cpf.value);
      !AllSame(cpf.value) && ChecksumHolds(cpf.value)
    else if cpf.Some? then
      BmpLength(cpf.value);
      false
    else
      false
  }

  /**
   * An eleven-character string with a letter among its first nine characters
   * makes BeAValidCpf raise instead of answering; the intended test says no.
   */
  lemma NonDigitCpfRaises()
    ensures Utf16Length("invalid_cpf") == 11
    ensures CpfSpec(Some("invalid_cpf")) == FormatError
    ensures !IsValidCpf(Some("invalid_cpf"))
  {
    var s := "invalid_cpf";
    assert AllBmp(s);
    BmpLength(s);
    assert s[1] != s[0];
    assert !IsAsciiDigit(s[..10][0]);
  }

  /**
   * Nine characters of the Basic Multilingual Plane followed by one outside
   * it are eleven code units long, and BeAValidCpf raises on them.
   */
  lemma {:induction false} SupplementaryLastRaises(prefix: string, c: char)
    requires |prefix| == 9 && AllBmp(prefix) && !IsBmp(c)
    ensures Utf16Length(prefix + [c]) == 11
    ensures CpfSpec(Some(prefix + [c])) == FormatError
    ensures !IsValidCpf(Some(prefix + [c]))
  {
    BmpLength(prefix);
    Utf16Concat(prefix, [c]);
    assert Utf16([c]) == CharUnits(c) + Utf16([]);
    assert (prefix + [c])[9] == c;
  }

  /** "123456789" followed by U+1F600 is one such string. */
  lemma SupplementaryCpfRaises()
    ensures Utf16Length("123456789\U{1F600}") == 11
    ensures CpfSpec(Some("123456789\U{1F600}")) == FormatError
    ensures !IsValidCpf(Some("123456789\U{1F600}"))
  {
    assert "123456789\U{1F600}" == "123456789" + ['\U{1F600}'];
    assert AllBmp("123456789");
    SupplementaryLastRaises("123456789", '\U{1F600}');
  }
}
