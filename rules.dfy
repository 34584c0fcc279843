/**
 * The FluentValidation building blocks the request validators use. A rule
 * chain runs every validator in it (the default cascade mode, Continue) and
 * reports one failure per validator that does not hold. The length, regular
 * expression and e-mail validators let a null value through; NotEmpty does not.
 */
module Rules {
  import opened Common

  /** A validation failure: the property name and the message of the failing validator. */
  datatype Failure = Failure(property: string, message: string)

  /** An exception escaping from a validator instead of a list of failures. */
  datatype Fault = FormatException

  /** One validator of a chain: nothing when it holds, its own failure otherwise. */
  function Rule(holds: bool, property: string, message: string): (r: seq<Failure>)
    ensures r == [] <==> holds
    ensures !holds ==> r == [Failure(property, message)]
  {
    if holds then [] else [Failure(property, message)]
  }

  /** `NotEmpty()` on a string: not null, not empty and not only white space. */
  predicate NotEmptyText(t: Text)
  {
    !IsNullOrWhiteSpace(t)
  }

  /** `NotEmpty()` on a `Guid`: not `Guid.Empty`. */
  predicate NotEmptyGuid(g: Guid)
  {
    g != EmptyGuid
  }

  /** `NotEmpty()` on a `DateTime`: not `default(DateTime)`. */
  predicate NotEmptyDate(d: DateTime)
  {
    d != DefaultDateTime
  }

  /** `NotEmpty()` on an `int`: not 0. */
  predicate NotEmptyInt(n: int)
  {
    n != 0
  }

  /** `MinimumLength(n)`, counted in UTF-16 code units: null passes. */
  predicate MinimumLength(t: Text, n: nat)
  {
    t.None? || Utf16Length(t.value) >= n
  }

  /** `MaximumLength(n)`, counted in UTF-16 code units: null passes. */
  predicate MaximumLength(t: Text, n: nat)
  {
    t.None? || Utf16Length(t.value) <= n
  }

  /** `Length(n)`: exactly `n` UTF-16 code units; null passes. */
  predicate ExactLength(t: Text, n: nat)
  {
    t.None? || Utf16Length(t.value) == n
  }

  /**
   * The .NET pattern `^\d+$` without options: one or more digits, and `$` also
   * matches just before a final line feed.
   */
  predicate DigitsLine(s: string)
  {
    (|s| >= 1 && AllAsciiDigits(s))
    || (|s| >= 2 && s[|s| - 1] == '\n' && AllAsciiDigits(s[..|s| - 1]))
  }

  /** `Matches(@"^\d+$")`: null passes. */
  predicate MatchesDigits(t: Text)
  {
    t.None? || DigitsLine(t.value)
  }

  /** `EmailAddress()` with the library's address test `isEmail`: null passes. */
  predicate EmailAddress(t: Text, isEmail: string -> bool)
  {
    t.None? || isEmail(t.value)
  }

  /**
   * The most common chain, `NotEmpty().MaximumLength(max)`: it reports nothing
   * exactly when the value is present, not blank and at most `max` long.
   */
  function RequiredText(t: Text, property: string, required: string, max: nat, tooLong: string): (r: seq<Failure>)
    ensures r == [] <==> t.Some? && NotEmptyText(t) && Utf16Length(t.value) <= max
    ensures |r| <= 2
    ensures forall f :: f in r ==> f.property == property
  {
    Rule(NotEmptyText(t), property, required) + Rule(MaximumLength(t, max), property, tooLong)
  }

  /** A non-blank string is never null and has at least one character. */
  lemma NotEmptyTextHasLength(t: Text)
    requires NotEmptyText(t)
    ensures t.Some? && |t.value| >= 1
  {
    if t.Some? && |t.value| == 0 {
      assert IsNullOrWhiteSpace(t);
    }
  }
}
