/**
 String helpers the application gets from JavaScript's runtime:
 `String.prototype.split` on a one-character separator, `Array.prototype.join`,
 and the decimal rendering of a non-negative integer in a template literal.
 */
module Strings {

  /** `parts.join(sep)`. */
  function Join(parts: seq<string>, sep: string): string
  {
    if |parts| == 0 then ""
    else if |parts| == 1 then parts[0]
    else parts[0] + sep + Join(parts[1..], sep)
  }

  /** Joining one more piece adds the separator and that piece at the end. */
  lemma {:induction false} JoinAppend(parts: seq<string>, x: string, sep: string)
    requires |parts| > 0
    ensures Join(parts + [x], sep) == Join(parts, sep) + sep + x
    decreases |parts|
  {
    if |parts| == 1 {
      assert parts + [x] == [parts[0], x];
    } else {
      assert (parts + [x])[1..] == parts[1..] + [x];
      JoinAppend(parts[1..], x, sep);
    }
  }

  /**
   `s.split(sep)` for a one-character separator: the maximal separator-free
   pieces between separators, always at least one (the empty string splits
   into one empty piece).
   */
  function Split(s: string, sep: char): (parts: seq<string>)
    ensures |parts| >= 1
    ensures forall i :: 0 <= i < |parts| ==> sep !in parts[i]
    ensures Join(parts, [sep]) == s
    ensures parts[0] <= s
    ensures |parts[0]| == |s| || s[|parts[0]|] == sep
    ensures sep !in s <==> parts == [s]
    decreases |s|
  {
    if |s| == 0 then [""]
    else
      var rest := Split(s[1..], sep);
      if s[0] == sep then
        assert s == [sep] + s[1..];
        [""] + rest
      else
        var head := [s[0]] + rest[0];
        assert sep !in head && head <= s;
        assert sep !in s <==> sep !in s[1..];
        assert Join([head] + rest[1..], [sep]) == [s[0]] + Join(rest, [sep]) by {
          if |rest| > 1 {
            assert ([head] + rest[1..])[1..] == rest[1..];
          }
        }
        assert s == [s[0]] + s[1..];
        [head] + rest[1..]
  }

  /** Splitting after a separator-free prefix: that prefix is the first piece. */
  lemma {:induction false} SplitAfterPrefix(x: string, sep: char, rest: string)
    requires sep !in x
    ensures Split(x + [sep] + rest, sep) == [x] + Split(rest, sep)
    decreases |x|
  {
    var s := x + [sep] + rest;
    if |x| == 0 {
      assert s[0] == sep && s[1..] == rest;
    } else {
      assert s[0] == x[0] && s[0] != sep;
      assert s[1..] == x[1..] + [sep] + rest;
      SplitAfterPrefix(x[1..], sep, rest);
      var tail := Split(s[1..], sep);
      assert tail == [x[1..]] + Split(rest, sep);
      assert [x[0]] + x[1..] == x;
      assert Split(s, sep) == [[s[0]] + tail[0]] + tail[1..];
    }
  }

  /** Splitting a join of separator-free pieces gives the pieces back. */
  lemma {:induction false} SplitJoin(parts: seq<string>, sep: char)
    requires |parts| >= 1
    requires forall i :: 0 <= i < |parts| ==> sep !in parts[i]
    ensures Split(Join(parts, [sep]), sep) == parts
    decreases |parts|
  {
    if |parts| == 1 {
      assert Join(parts, [sep]) == parts[0];
    } else {
      SplitJoin(parts[1..], sep);
      assert Join(parts, [sep]) == parts[0] + [sep] + Join(parts[1..], [sep]);
      SplitAfterPrefix(parts[0], sep, Join(parts[1..], [sep]));
      assert [parts[0]] + parts[1..] == parts;
    }
  }

  predicate IsDigit(c: char) {
    '0' <= c <= '9'
  }

  predicate AllDigits(s: string) {
    forall i :: 0 <= i < |s| ==> IsDigit(s[i])
  }

  function DigitChar(d: nat): (c: char)
    requires d < 10
    ensures IsDigit(c)
  {
    ['0', '1', '2', '3', '4', '5', '6', '7', '8', '9'][d]
  }

  function DigitValue(c: char): (d: nat)
    requires IsDigit(c)
    ensures d < 10
  {
    (c as int - '0' as int) as nat
  }

  /** The number a string of decimal digits denotes. */
  function DecimalValue(s: string): nat
    requires AllDigits(s)
  {
    if |s| == 0 then 0
    else DecimalValue(s[..|s| - 1]) * 10 + DigitValue(s[|s| - 1])
  }

  /**
   The decimal rendering of `n` as a template literal produces it: digits
   only, no leading zero, and reading the digits back gives `n`.
   */
  function NatToDecimal(n: nat): (s: string)
    ensures |s| >= 1
    ensures AllDigits(s)
    ensures |s| == 1 || s[0] != '0'
    ensures DecimalValue(s) == n
    decreases n
  {
    if n < 10 then
      var d := [DigitChar(n)];
      assert d[..0] == [];
      assert DigitValue(DigitChar(n)) == n;
      d
    else
      var prefix := NatToDecimal(n / 10);
      var s := prefix + [DigitChar(n % 10)];
      assert s[..|s| - 1] == prefix;
      assert DigitValue(DigitChar(n % 10)) == n % 10;
      s
  }
}
