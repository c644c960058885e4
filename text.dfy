/**
 * The string and integer primitives of the .NET runtime that the bot relies on:
 * `String.Split(char)`, `Int32.ToString()`, `Int32.Parse(string)` and unchecked
 * 32-bit arithmetic.
 */
module Text {
  import opened Wrappers

  /** `s.Split(sep)`: the pieces between separators, empty pieces included. */
  function Split(s: string, sep: char): (parts: seq<string>)
    ensures |parts| >= 1
    ensures forall i :: 0 <= i < |parts| ==> sep !in parts[i]
  {
    if s == [] then [""]
    else
      var rest := Split(s[1..], sep);
      if s[0] == sep then [""] + rest
      else [[s[0]] + rest[0]] + rest[1..]
  }

  /** `String.Join(sep, parts)`. */
  function Join(parts: seq<string>, sep: char): string
  {
    if parts == [] then ""
    else if |parts| == 1 then parts[0]
    else parts[0] + [sep] + Join(parts[1..], sep)
  }

  /** Splitting and joining again gives back the original string. */
  lemma {:induction false} JoinSplit(s: string, sep: char)
    ensures Join(Split(s, sep), sep) == s
  {
    if s != [] {
      JoinSplit(s[1..], sep);
      var rest := Split(s[1..], sep);
      if s[0] == sep {
        assert Join([""] + rest, sep) == "" + [sep] + Join(rest, sep);
      } else {
        var parts := [[s[0]] + rest[0]] + rest[1..];
        if |rest| == 1 {
          assert Join(parts, sep) == [s[0]] + rest[0];
        } else {
          assert rest == [rest[0]] + rest[1..];
          assert Join(rest, sep) == rest[0] + [sep] + Join(rest[1..], sep);
          assert Join(parts, sep) == [s[0]] + rest[0] + [sep] + Join(rest[1..], sep);
        }
      }
    }
  }

  /** A piece free of the separator, followed by more text, stays one piece. */
  lemma {:induction false} SplitPrefix(a: string, t: string, sep: char)
    requires sep !in a
    ensures Split(a + t, sep) == [a + Split(t, sep)[0]] + Split(t, sep)[1..]
  {
    if a != [] {
      assert (a + t)[1..] == a[1..] + t;
      assert (a + t)[0] == a[0] && a[0] != sep;
      SplitPrefix(a[1..], t, sep);
      var rest := Split(a[1..] + t, sep);
      assert Split(a + t, sep) == [[a[0]] + rest[0]] + rest[1..];
      assert [a[0]] + (a[1..] + Split(t, sep)[0]) == a + Split(t, sep)[0];
    } else {
      assert a + t == t;
      assert a + Split(t, sep)[0] == Split(t, sep)[0];
    }
  }

  /** Joining separator-free pieces and splitting again gives back the pieces. */
  lemma {:induction false} SplitJoin(parts: seq<string>, sep: char)
    requires |parts| >= 1
    requires forall i :: 0 <= i < |parts| ==> sep !in parts[i]
    ensures Split(Join(parts, sep), sep) == parts
  {
    if |parts| == 1 {
      SplitPrefix(parts[0], "", sep);
      assert parts[0] + "" == parts[0];
    } else {
      SplitJoin(parts[1..], sep);
      var tail := [sep] + Join(parts[1..], sep);
      assert Join(parts, sep) == parts[0] + tail;
      SplitPrefix(parts[0], tail, sep);
      assert tail[1..] == Join(parts[1..], sep);
      assert Split(tail, sep) == [""] + parts[1..];
      assert parts[0] + "" == parts[0];
    }
  }

  /** Joining one more piece appends the separator and that piece. */
  lemma JoinPair(a: string, b: string, sep: char)
    ensures Join([a, b], sep) == a + [sep] + b
  {
    assert [a, b][1..] == [b];
  }

  lemma {:induction false} JoinSnoc(parts: seq<string>, last: string, sep: char)
    requires |parts| >= 1
    ensures Join(parts + [last], sep) == Join(parts, sep) + [sep] + last
  {
    if |parts| == 1 {
      assert (parts + [last])[1..] == [last];
    } else {
      assert (parts + [last])[1..] == parts[1..] + [last];
      JoinSnoc(parts[1..], last, sep);
    }
  }

  predicate IsDigit(c: char) {
    '0' <= c <= '9'
  }

  predicate IsDigits(s: string) {
    |s| >= 1 && forall i :: 0 <= i < |s| ==> IsDigit(s[i])
  }

  function DigitChar(d: nat): char
    requires d < 10
  {
    "0123456789"[d]
  }

  /** The decimal value of a digit string, read left to right. */
  function DigitsValue(s: string): nat
    requires forall i :: 0 <= i < |s| ==> IsDigit(s[i])
  {
    if s == [] then 0
    else
      assert IsDigit(s[|s| - 1]);
      DigitsValue(s[..|s| - 1]) * 10 + (s[|s| - 1] as int - '0' as int)
  }

  /** The shortest decimal digits of `n`. */
  function NatText(n: nat): (s: string)
    ensures IsDigits(s)
  {
    if n < 10 then [DigitChar(n)]
    else NatText(n / 10) + [DigitChar(n % 10)]
  }

  /** `n.ToString()` in the invariant culture: a minus sign, then the digits. */
  function IntText(n: int): (s: string)
    ensures |s| >= 1
    ensures forall i :: 0 <= i < |s| ==> IsDigit(s[i]) || (i == 0 && s[i] == '-')
  {
    if n < 0 then "-" + NatText(-n) else NatText(n)
  }

  const MinInt32: int := -0x8000_0000
  const MaxInt32: int := 0x7FFF_FFFF

  predicate InInt32(n: int) {
    MinInt32 <= n <= MaxInt32
  }

  /**
   * `Int32.Parse(s)`: an optional `+` or `-` sign, then one or more decimal digits,
   * whose value must fit in 32 bits; `None` is the FormatException or OverflowException.
   */
  function ParseInt32(s: string): (r: Option<int>)
    ensures r.Some? ==> InInt32(r.value)
    ensures r.Some? ==> IsDigits(s) || (|s| >= 2 && (s[0] == '-' || s[0] == '+') && IsDigits(s[1..]))
  {
    var signed := |s| >= 1 && (s[0] == '-' || s[0] == '+');
    var digits := if signed then s[1..] else s;
    if !IsDigits(digits) then None
    else
      var v: int := if signed && s[0] == '-' then -(DigitsValue(digits) as int) else DigitsValue(digits);
      if InInt32(v) then Some(v) else None
  }

  lemma {:induction false} DigitsValueOfNatText(n: nat)
    ensures DigitsValue(NatText(n)) == n
  {
    if n >= 10 {
      DigitsValueOfNatText(n / 10);
      var s := NatText(n / 10) + [DigitChar(n % 10)];
      assert s[..|s| - 1] == NatText(n / 10);
    }
  }

  /** Parsing the text of a 32-bit integer gives that integer back. */
  lemma ParseIntText(n: int)
    requires InInt32(n)
    ensures ParseInt32(IntText(n)) == Some(n)
  {
    var s := IntText(n);
    if n < 0 {
      var digits := NatText(-n);
      DigitsValueOfNatText(-n);
      assert s == "-" + digits;
      assert s[0] == '-' && s[1..] == digits;
      assert ParseInt32(s) == Some(-(DigitsValue(digits) as int));
    } else {
      var digits := NatText(n);
      DigitsValueOfNatText(n);
      assert s == digits;
      assert s[0] != '-' && s[0] != '+' by {
        assert IsDigit(s[0]);
      }
      assert ParseInt32(s) == Some(DigitsValue(digits) as int);
    }
  }

  /** Two's-complement wrap-around of unchecked `int` arithmetic. */
  function Wrap32(n: int): (r: int)
    ensures InInt32(r)
    ensures (r - n) % 0x1_0000_0000 == 0
    ensures InInt32(n) ==> r == n
  {
    (n - MinInt32) % 0x1_0000_0000 + MinInt32
  }
}
