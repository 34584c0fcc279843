/**
 * Shared vocabulary of the model: optional values, results with an error
 * side, identifiers, instants and the nullable strings of the .NET runtime.
 */
module Common {

  /** A value that may be absent (a C# `null` reference or a `T?`). */
  datatype Option<+T> = None | Some(value: T)

  /** The outcome of an operation that may raise an exception instead of returning. */
  datatype Result<+T, +E> = Ok(value: T) | Err(error: E)

  /** A `System.Guid` is a 128-bit value; `Guid.Empty` is the all-zero one. */
  const GuidBound: nat := 0x1_0000_0000_0000_0000_0000_0000_0000_0000
  type Guid = x: nat | x < GuidBound
  const EmptyGuid: Guid := 0

  /**
   * A `System.DateTime` is a count of 100-nanosecond ticks since
   * 0001-01-01 00:00; `default(DateTime)` is tick 0.
   */
  type DateTime = nat
  const DefaultDateTime: DateTime := 0
  const TicksPerDay: nat := 864_000_000_000

  /** A C# `string`, which may be `null`. */
  type Text = Option<string>

  /** `char.IsWhiteSpace`: the Unicode space separators and the control characters 9-13, 0x85. */
  predicate IsWhiteSpace(c: char)
  {
    var n := c as int;
    (9 <= n <= 13) || n == 0x20 || n == 0x85 || n == 0xA0 || n == 0x1680
    || (0x2000 <= n <= 0x200A) || n == 0x2028 || n == 0x2029 || n == 0x202F
    || n == 0x205F || n == 0x3000
  }

  /**
   * A Dafny `char` is a Unicode scalar value; a .NET `string` stores UTF-16
   * code units, and its `Length` and indexer count those. A character of
   * the Basic Multilingual Plane is one code unit, any other one is a
   * surrogate pair.
   */
  predicate IsBmp(c: char)
  {
    c as int < 0x1_0000
  }

  predicate AllBmp(s: string)
  {
    forall i :: 0 <= i < |s| ==> IsBmp(s[i])
  }

  predicate IsHighSurrogate(u: int)
  {
    0xD800 <= u < 0xDC00
  }

  predicate IsLowSurrogate(u: int)
  {
    0xDC00 <= u < 0xE000
  }

  /** The UTF-16 encoding of one character. */
  function CharUnits(c: char): (u: seq<int>)
    ensures IsBmp(c) ==> u == [c as int]
    ensures !IsBmp(c) ==> |u| == 2 && IsHighSurrogate(u[0]) && IsLowSurrogate(u[1])
  {
    if IsBmp(c) then [c as int]
    else
      var v := c as int - 0x1_0000;
      [0xD800 + v / 0x400, 0xDC00 + v % 0x400]
  }

  /** The code units a .NET `string` holds for `s`. */
  function Utf16(s: string): seq<int>
  {
    if |s| == 0 then [] else CharUnits(s[0]) + Utf16(s[1..])
  }

  /** `string.Length`: the number of UTF-16 code units. */
  function Utf16Length(s: string): nat
  {
    |Utf16(s)|
  }

  /** A string has at least as many code units as characters and at most twice as many. */
  lemma {:induction false} Utf16LengthBounds(s: string)
    ensures |s| <= Utf16Length(s) <= 2 * |s|
  {
    if |s| > 0 {
      Utf16LengthBounds(s[1..]);
    }
  }

  /** It has exactly as many when it stays in the Basic Multilingual Plane, and only then. */
  lemma {:induction false} BmpLength(s: string)
    ensures Utf16Length(s) == |s| <==> AllBmp(s)
  {
    if |s| > 0 {
      Utf16LengthBounds(s[1..]);
      BmpLength(s[1..]);
      if AllBmp(s[1..]) && IsBmp(s[0]) {
        assert AllBmp(s) by {
          forall i | 0 < i < |s| ensures IsBmp(s[i]) { assert s[i] == s[1..][i - 1]; }
        }
      }
      if AllBmp(s) {
        assert AllBmp(s[1..]) by {
          forall i | 0 <= i < |s| - 1 ensures IsBmp(s[1..][i]) { assert s[1..][i] == s[i + 1]; }
        }
      }
    }
  }

  /** Within the Basic Multilingual Plane the code units are the characters themselves. */
  lemma {:induction false} BmpUnits(s: string)
    requires AllBmp(s)
    ensures |Utf16(s)| == |s|
    ensures forall i :: 0 <= i < |s| ==> Utf16(s)[i] == s[i] as int
  {
    if |s| > 0 {
      assert AllBmp(s[1..]) by {
        forall i | 0 <= i < |s| - 1 ensures IsBmp(s[1..][i]) { assert s[1..][i] == s[i + 1]; }
      }
      BmpUnits(s[1..]);
      assert Utf16(s) == [s[0] as int] + Utf16(s[1..]);
    }
  }

  /** A character outside the Basic Multilingual Plane leaves a high surrogate followed by a low one. */
  lemma {:induction false} SurrogatePairIn(s: string)
    requires !AllBmp(s)
    ensures exists k :: 0 <= k && k + 1 < |Utf16(s)| && IsHighSurrogate(Utf16(s)[k]) && IsLowSurrogate(Utf16(s)[k + 1])
  {
    var head := CharUnits(s[0]);
    assert Utf16(s) == head + Utf16(s[1..]);
    if IsBmp(s[0]) {
      assert !AllBmp(s[1..]) by {
        var j :| 0 <= j < |s| && !IsBmp(s[j]);
        assert s[1..][j - 1] == s[j];
      }
      SurrogatePairIn(s[1..]);
      var k :| 0 <= k && k + 1 < |Utf16(s[1..])| && IsHighSurrogate(Utf16(s[1..])[k]) && IsLowSurrogate(Utf16(s[1..])[k + 1]);
      assert Utf16(s)[k + 1] == Utf16(s[1..])[k] && Utf16(s)[k + 2] == Utf16(s[1..])[k + 1];
    } else {
      assert Utf16(s)[0] == head[0] && Utf16(s)[1] == head[1];
    }
  }

  /** Encoding distributes over concatenation, so lengths add up. */
  lemma {:induction false} Utf16Concat(a: string, b: string)
    ensures Utf16(a + b) == Utf16(a) + Utf16(b)
    ensures Utf16Length(a + b) == Utf16Length(a) + Utf16Length(b)
  {
    if |a| > 0 {
      assert (a + b)[0] == a[0] && (a + b)[1..] == a[1..] + b;
      Utf16Concat(a[1..], b);
    } else {
      assert a + b == b;
    }
  }

  /** `string.IsNullOrEmpty`. */
  predicate IsNullOrEmpty(t: Text)
  {
    t.None? || |t.value| == 0
  }

  /** `string.IsNullOrWhiteSpace`: null, empty, or made only of white space. */
  predicate IsNullOrWhiteSpace(t: Text)
  {
    t.None? || forall i :: 0 <= i < |t.value| ==> IsWhiteSpace(t.value[i])
  }

  /** An ASCII decimal digit, the only characters `int.Parse` turns into a number. */
  predicate IsAsciiDigit(c: char)
  {
    '0' <= c <= '9'
  }

  predicate AllAsciiDigits(s: string)
  {
    forall i :: 0 <= i < |s| ==> IsAsciiDigit(s[i])
  }

  /** The digit character for 0..9. */
  function DigitChar(d: int): (c: char)
    requires 0 <= d <= 9
    ensures IsAsciiDigit(c) && c as int - '0' as int == d
  {
    ('0' as int + d) as char
  }

  /** `string.ToLower`, restricted to the ASCII letters. */
  function LowerChar(c: char): (r: char)
    ensures 'A' <= c <= 'Z' ==> 'a' <= r <= 'z' && r as int == c as int + 32
    ensures !('A' <= c <= 'Z') ==> r == c
  {
    if 'A' <= c <= 'Z' then (c as int + 32) as char else c
  }

  function Lower(s: string): (r: string)
    ensures |r| == |s|
    ensures forall i :: 0 <= i < |s| ==> r[i] == LowerChar(s[i])
  {
    seq(|s|, i requires 0 <= i < |s| => LowerChar(s[i]))
  }

  /** `s.Contains(t)`: `t` occurs in `s` as a contiguous substring. */
  predicate ContainsSubstring(s: string, t: string)
  {
    exists i :: 0 <= i <= |s| && OccursAt(s, t, i)
  }

  predicate OccursAt(s: string, t: string, i: nat)
  {
    i + |t| <= |s| && s[i..i + |t|] == t
  }

  function Min(a: int, b: int): int { if a <= b then a else b }
  function Max(a: int, b: int): int { if a <= b then b else a }
}
