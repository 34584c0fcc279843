/**
 * The validator of the patient update request: the age test, one rule chain
 * per field, and the whole validator as written (where the CPF check may
 * raise) next to the corrected one (where it answers false instead).
 */
module PatientValidation {
  import opened Common
  import opened Calendar
  import opened CpfCheck
  import opened Rules
  import opened Dtos

  const MaxAge: int := 120

  /**
   * Completed years of age on `today` of someone born at `dob`: the difference
   * of the years, less one while this year's birthday is still to come.
   */
  function CompletedYears(dob: DateTime, today: DateTime): int
  {
    var b := DateOf(dob);
    var t := DateOf(today);
    t.year - b.year - (if EarlierInYear(t.month, t.day, b.month, b.day) then 1 else 0)
  }

  predicate AgeAccepted(dob: DateTime, today: DateTime)
  {
    0 <= CompletedYears(dob, today) <= MaxAge
  }

  /**
   * `BeAValidAge`: takes the difference of the years, then moves `today` back
   * by that many years and decrements when the birth date is still later.
   */
  method BeAValidAge(dateOfBirth: DateTime, today: DateTime) returns (ok: bool)
    ensures ok <==> AgeAccepted(dateOfBirth, today)
  {
    var age := Year(today) - Year(dateOfBirth);
    BirthdayNotYetReached(dateOfBirth, today);
    if DatePart(dateOfBirth) > AddYears(today, -age) {
      age := age - 1;
    }
    ok := age >= 0 && age <= MaxAge;
  }

  /**
   * Comparing the birth date with `today` moved back to the birth year is the
   * same as asking whether today's month and day come before the birthday;
   * a 29 February birthday is compared with 28 February in other years.
   */
  lemma BirthdayNotYetReached(dob: DateTime, today: DateTime)
    ensures Year(today) + -(Year(today) - Year(dob)) >= 1
    ensures DatePart(dob) > AddYears(today, -(Year(today) - Year(dob)))
        <==> EarlierInYear(DateOf(today).month, DateOf(today).day, DateOf(dob).month, DateOf(dob).day)
  {
    var b := DateOf(dob);
    var t := DateOf(today);
    AddYearsToYear(today, b.year);
    DatePartIsDayStart(dob);
    ScaledOrder(DatePart(dob), AddYears(today, -(Year(today) - Year(dob))),
                DayNumber(b), DayNumber(Clamped(b.year, t.month, t.day)), today % TicksPerDay);
    ClampedBefore(b, t.month, t.day);
  }

  /**
   * An instant at midnight of day `x` is later than one at time `r` of day `y`
   * exactly when `x` is the later day.
   */
  lemma ScaledOrder(midnight: nat, instant: nat, x: nat, y: nat, r: nat)
    requires r < TicksPerDay
    requires midnight == x * TicksPerDay && instant == y * TicksPerDay + r
    ensures midnight > instant <==> x > y
  {
    if x > y {
      assert x * TicksPerDay == y * TicksPerDay + (x - y) * TicksPerDay;
      assert (x - y) * TicksPerDay >= TicksPerDay;
    } else {
      assert y * TicksPerDay == x * TicksPerDay + (y - x) * TicksPerDay;
    }
  }

  /** The first- and last-name chain: `NotEmpty().MinimumLength(2).MaximumLength(100)`. */
  function NameFailures(t: Text, property: string, caption: string): (r: seq<Failure>)
    ensures r == [] <==> t.Some? && NotEmptyText(t) && 2 <= Utf16Length(t.value) <= 100
  {
    Rule(NotEmptyText(t), property, caption + " is required")
    + Rule(MinimumLength(t, 2), property, caption + " must be at least 2 characters")
    + Rule(MaximumLength(t, 100), property, caption + " cannot exceed 100 characters")
  }

  /**
   * A name made of one character outside the Basic Multilingual Plane is two
   * code units long and so passes `MinimumLength(2)`; a single other character
   * does not.
   */
  lemma SupplementaryCharacterCountsTwice(property: string, caption: string)
    ensures NameFailures(Some("\U{1F600}"), property, caption) == []
    ensures NameFailures(Some("A"), property, caption) != []
  {
    assert Utf16("\U{1F600}") == CharUnits('\U{1F600}');
    assert !IsWhiteSpace("\U{1F600}"[0]);
    assert Utf16("A") == CharUnits('A');
  }

  /** The four CPF validators other than the check digits. */
  function CpfFormatFailures(t: Text): (r: seq<Failure>)
  {
    Rule(NotEmptyText(t), "Cpf", "CPF is required")
    + Rule(ExactLength(t, 11), "Cpf", "CPF must be 11 digits")
    + Rule(MatchesDigits(t), "Cpf", "CPF must contain only digits")
  }

  /**
   * The CPF chain as written: the check-digit predicate is evaluated even when
   * the format rules have failed, and its exception escapes the validator.
   */
  function CpfFailuresAsWritten(t: Text): (r: Result<seq<Failure>, Fault>)
    ensures r.Err? <==> CpfSpec(t) == FormatError
    ensures r.Ok? ==> (r.value == [] <==> CpfSpec(t) == Answer(true))
  {
    match CpfSpec(t)
    case FormatError => Err(FormatException)
    case Answer(valid) =>
      CpfAcceptedIsWellFormed(t);
      Ok(CpfFormatFailures(t) + Rule(valid, "Cpf", "CPF is invalid"))
  }

  /**
   * The CPF chain with the intended check: an accepted CPF is exactly one that
   * passes the check digits, which already implies the three format rules.
   */
  function CpfFailures(t: Text): (r: seq<Failure>)
    ensures r == [] <==> IsValidCpf(t)
    ensures CpfSpec(t) != FormatError ==> CpfFailuresAsWritten(t) == Ok(r)
  {
    CpfAcceptedIsWellFormed(t);
    CpfFormatFailures(t) + Rule(IsValidCpf(t), "Cpf", "CPF is invalid")
  }

  /** A CPF that passes the check digits is non-blank, eleven long and all digits. */
  lemma CpfAcceptedIsWellFormed(t: Text)
    ensures IsValidCpf(t) ==> CpfFormatFailures(t) == []
  {
    if IsValidCpf(t) {
      assert IsAsciiDigit(t.value[0]);
      assert !IsWhiteSpace(t.value[0]);
    }
  }

  /** `NotEmpty().LessThan(now).Must(BeAValidAge)`. */
  function DateOfBirthFailures(dob: DateTime, now: DateTime, today: DateTime): (r: seq<Failure>)
    ensures r == [] <==> 0 < dob < now && AgeAccepted(dob, today)
  {
    Rule(NotEmptyDate(dob), "DateOfBirth", "Date of birth is required")
    + Rule(dob < now, "DateOfBirth", "Date of birth cannot be in the future")
    + Rule(AgeAccepted(dob, today), "DateOfBirth", "Patient must be between 0 and 120 years old")
  }

  /** `NotEmpty().EmailAddress().MaximumLength(100)`. */
  function EmailFailures(t: Text, isEmail: string -> bool): (r: seq<Failure>)
    ensures r == [] <==> t.Some? && NotEmptyText(t) && isEmail(t.value) && Utf16Length(t.value) <= 100
  {
    Rule(NotEmptyText(t), "Email", "Email is required")
    + Rule(EmailAddress(t, isEmail), "Email", "Email is not in a valid format")
    + Rule(MaximumLength(t, 100), "Email", "Email cannot exceed 100 characters")
  }

  /** `NotEmpty().MaximumLength(20).Matches(@"^\d+$")`. */
  function PhoneFailures(t: Text): (r: seq<Failure>)
    ensures r == [] <==> t.Some? && NotEmptyText(t) && Utf16Length(t.value) <= 20 && DigitsLine(t.value)
  {
    Rule(NotEmptyText(t), "PhoneNumber", "Phone number is required")
    + Rule(MaximumLength(t, 20), "PhoneNumber", "Phone number cannot exceed 20 characters")
    + Rule(MatchesDigits(t), "PhoneNumber", "Phone number must contain only digits")
  }

  /** The failures of every field other than the CPF, in declaration order around it. */
  function FailuresBeforeCpf(p: PatientFields): (r: seq<Failure>)
    ensures r == [] <==>
      && p.firstName.Some? && NotEmptyText(p.firstName) && 2 <= Utf16Length(p.firstName.value) <= 100
      && p.lastName.Some? && NotEmptyText(p.lastName) && 2 <= Utf16Length(p.lastName.value) <= 100
  {
    NameFailures(p.firstName, "FirstName", "First name")
    + NameFailures(p.lastName, "LastName", "Last name")
  }

  function FailuresAfterCpf(p: PatientFields, now: DateTime, today: DateTime, isEmail: string -> bool): (r: seq<Failure>)
    ensures r == [] <==>
      && 0 < p.dateOfBirth < now && AgeAccepted(p.dateOfBirth, today)
      && p.gender.Some? && NotEmptyText(p.gender) && Utf16Length(p.gender.value) <= 20
      && p.email.Some? && NotEmptyText(p.email) && isEmail(p.email.value) && Utf16Length(p.email.value) <= 100
      && p.phoneNumber.Some? && NotEmptyText(p.phoneNumber) && Utf16Length(p.phoneNumber.value) <= 20
      && DigitsLine(p.phoneNumber.value)
      && p.address.Some? && NotEmptyText(p.address) && Utf16Length(p.address.value) <= 200
      && (p.medicalHistory.None? || Utf16Length(p.medicalHistory.value) <= 2000)
  {
    DateOfBirthFailures(p.dateOfBirth, now, today)
    + GenderFailures(p.gender)
    + ContactFailures(p, isEmail)
    + MedicalHistoryFailures(p.medicalHistory)
  }

  /** `NotEmpty().MaximumLength(20)`. */
  function GenderFailures(t: Text): (r: seq<Failure>)
    ensures r == [] <==> t.Some? && NotEmptyText(t) && Utf16Length(t.value) <= 20
  {
    RequiredText(t, "Gender", "Gender is required", 20, "Gender cannot exceed 20 characters")
  }

  /** `MaximumLength(2000)`, which lets a null history through. */
  function MedicalHistoryFailures(t: Text): (r: seq<Failure>)
    ensures r == [] <==> t.None? || Utf16Length(t.value) <= 2000
  {
    Rule(MaximumLength(t, 2000), "MedicalHistory", "Medical history cannot exceed 2000 characters")
  }

  /** The e-mail, phone and address chains, in declaration order. */
  function ContactFailures(p: PatientFields, isEmail: string -> bool): (r: seq<Failure>)
    ensures r == [] <==>
      && p.email.Some? && NotEmptyText(p.email) && isEmail(p.email.value) && Utf16Length(p.email.value) <= 100
      && p.phoneNumber.Some? && NotEmptyText(p.phoneNumber) && Utf16Length(p.phoneNumber.value) <= 20
      && DigitsLine(p.phoneNumber.value)
      && p.address.Some? && NotEmptyText(p.address) && Utf16Length(p.address.value) <= 200
  {
    EmailFailures(p.email, isEmail)
    + PhoneFailures(p.phoneNumber)
    + RequiredText(p.address, "Address", "Address is required", 200, "Address cannot exceed 200 characters")
  }

  /** What the validator means to accept, field by field. */
  predicate PatientValid(p: PatientFields, now: DateTime, today: DateTime, isEmail: string -> bool)
  {
    && p.firstName.Some? && NotEmptyText(p.firstName) && 2 <= Utf16Length(p.firstName.value) <= 100
    && p.lastName.Some? && NotEmptyText(p.lastName) && 2 <= Utf16Length(p.lastName.value) <= 100
    && IsValidCpf(p.cpf)
    && 0 < p.dateOfBirth < now && AgeAccepted(p.dateOfBirth, today)
    && p.gender.Some? && NotEmptyText(p.gender) && Utf16Length(p.gender.value) <= 20
    && p.email.Some? && NotEmptyText(p.email) && isEmail(p.email.value) && Utf16Length(p.email.value) <= 100
    && p.phoneNumber.Some? && NotEmptyText(p.phoneNumber) && Utf16Length(p.phoneNumber.value) <= 20
    && DigitsLine(p.phoneNumber.value)
    && p.address.Some? && NotEmptyText(p.address) && Utf16Length(p.address.value) <= 200
    && (p.medicalHistory.None? || Utf16Length(p.medicalHistory.value) <= 2000)
  }

  /**
   * `UpdatePatientDtoValidator` as written: either the list of failures, or
   * the FormatException raised by the CPF check digits. Wherever it does not
   * raise, it reports exactly what the corrected validator reports.
   */
  function ValidateAsWritten(p: PatientFields, now: DateTime, today: DateTime, isEmail: string -> bool): (r: Result<seq<Failure>, Fault>)
    ensures r.Err? <==> CpfSpec(p.cpf) == FormatError
    ensures r.Ok? ==> r.value == Validate(p, now, today, isEmail)
  {
    match CpfFailuresAsWritten(p.cpf)
    case Err(e) => Err(e)
    case Ok(cpf) =>
      assert cpf == CpfFailures(p.cpf);
      Ok(FailuresBeforeCpf(p) + cpf + FailuresAfterCpf(p, now, today, isEmail))
  }

  /** The validator with the intended CPF check: no failure exactly for a valid request. */
  function Validate(p: PatientFields, now: DateTime, today: DateTime, isEmail: string -> bool): (r: seq<Failure>)
    ensures r == [] <==> PatientValid(p, now, today, isEmail)
  {
    FailuresBeforeCpf(p) + CpfFailures(p.cpf) + FailuresAfterCpf(p, now, today, isEmail)
  }

  /**
   * A request whose CPF is "invalid_cpf" makes the validator as written raise,
   * whatever its other fields; the corrected one reports the CPF failures.
   */
  lemma InvalidCpfRequestRaises(p: PatientFields, now: DateTime, today: DateTime, isEmail: string -> bool)
    requires p.cpf == Some("invalid_cpf")
    ensures ValidateAsWritten(p, now, today, isEmail) == Err(FormatException)
  {
    NonDigitCpfRaises();
  }

  /** The corrected validator reports that CPF as two failures instead. */
  lemma InvalidCpfReported(p: PatientFields, now: DateTime, today: DateTime, isEmail: string -> bool)
    requires p.cpf == Some("invalid_cpf")
    ensures Failure("Cpf", "CPF must contain only digits") in Validate(p, now, today, isEmail)
    ensures Failure("Cpf", "CPF is invalid") in Validate(p, now, today, isEmail)
  {
    InvalidCpfFailures();
    var before := FailuresBeforeCpf(p);
    var after := FailuresAfterCpf(p, now, today, isEmail);
    InMiddle(before, CpfFailures(p.cpf), after, Failure("Cpf", "CPF must contain only digits"));
    InMiddle(before, CpfFailures(p.cpf), after, Failure("Cpf", "CPF is invalid"));
  }

  lemma InMiddle<T>(a: seq<T>, b: seq<T>, c: seq<T>, x: T)
    requires x in b
    ensures x in a + b + c
  {
    var i :| 0 <= i < |b| && b[i] == x;
    assert (a + b + c)[|a| + i] == x;
  }

  lemma InvalidCpfFailures()
    ensures CpfFailures(Some("invalid_cpf"))
         == [Failure("Cpf", "CPF must contain only digits"), Failure("Cpf", "CPF is invalid")]
  {
    var s := "invalid_cpf";
    NonDigitCpfRaises();
    assert !IsAsciiDigit(s[0]);
    assert !DigitsLine(s) by {
      assert s[|s| - 1] != '\n';
    }
    assert !IsWhiteSpace(s[0]);
    OnlyDigitsRuleFails(Some(s));
  }

  /** A non-blank CPF of the right length that is not all digits fails the pattern and the check digits only. */
  lemma OnlyDigitsRuleFails(t: Text)
    requires NotEmptyText(t) && ExactLength(t, 11) && !MatchesDigits(t) && !IsValidCpf(t)
    ensures CpfFailures(t) == [Failure("Cpf", "CPF must contain only digits"), Failure("Cpf", "CPF is invalid")]
  {
  }

  /** A person turns 121 on their birthday and is rejected from then on. */
  lemma AgeBoundary(dob: DateTime, today: DateTime)
    requires DateOf(today).month == DateOf(dob).month && DateOf(today).day == DateOf(dob).day
    ensures AgeAccepted(dob, today) <==> DateOf(dob).year <= DateOf(today).year <= DateOf(dob).year + MaxAge
  {
  }
}
