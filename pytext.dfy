/** The few pieces of Python's string, list and integer semantics that the
    loaders rely on: indexing, slicing, `str.split` with a one-character
    separator, and `int()` on decimal text. */
module PyText {

  /** The Python exceptions a loader can raise while parsing. */
  datatype Fault = IndexError | ValueError

  /** The outcome of a Python expression: a value, or the exception it raises. */
  datatype Result<+T, +E> = Ok(value: T) | Err(error: E) {
    predicate IsFailure() { Err? }

    function PropagateFailure<U>(): Result<U, E>
      requires Err?
    {
      Err(error)
    }

    function Extract(): T
      requires Ok?
    {
      value
    }
  }

  function Min(a: int, b: int): int { if a <= b then a else b }

  /** `xs[i]` for a non-negative index. */
  function Index<T>(xs: seq<T>, i: nat): Result<T, Fault>
  {
    if i < |xs| then Ok(xs[i]) else Err(IndexError)
  }

  /** `xs[1:-1]`: everything but the first and the last element. */
  function Interior<T>(xs: seq<T>): seq<T>
  {
    if |xs| < 2 then [] else xs[1..|xs| - 1]
  }

  /** `s[i:j]` for non-negative bounds: both are clamped to the length. */
  function Slice(s: string, i: nat, j: nat): string
  {
    var lo := Min(i, |s|);
    var hi := Min(j, |s|);
    if lo < hi then s[lo..hi] else []
  }

  lemma InteriorShape<T>(xs: seq<T>)
    ensures |Interior(xs)| == if |xs| < 2 then 0 else |xs| - 2
    ensures forall k :: 0 <= k < |Interior(xs)| ==> Interior(xs)[k] == xs[k + 1]
  {
  }

  /** Stripping a quoted field gives back exactly what was between the quotes. */
  lemma InteriorOfQuoted(open: char, t: string, close: char)
    ensures Interior([open] + t + [close]) == t
  {
    assert ([open] + t + [close])[1..|t| + 1] == t;
  }

  /** Number of occurrences of `c` in `s`. */
  function Count(s: string, c: char): nat
  {
    if s == [] then 0 else (if s[0] == c then 1 else 0) + Count(s[1..], c)
  }

  /** `s.split(sep)` for a one-character separator: the text between
      consecutive separators, one more segment than there are separators,
      and no segment contains the separator. */
  function Split(s: string, sep: char): (r: seq<string>)
    ensures |r| == Count(s, sep) + 1
    ensures forall k :: 0 <= k < |r| ==> sep !in r[k]
  {
    if s == [] then [[]]
    else
      var rest := Split(s[1..], sep);
      if s[0] == sep then [[]] + rest
      else [[s[0]] + rest[0]] + rest[1..]
  }

  /** `sep.join(parts)`, the inverse of `Split`. */
  function Join(parts: seq<string>, sep: char): string
    requires |parts| >= 1
  {
    if |parts| == 1 then parts[0] else parts[0] + [sep] + Join(parts[1..], sep)
  }

  /** Joining the segments of a split restores the text. */
  lemma {:induction false} JoinSplit(s: string, sep: char)
    ensures Join(Split(s, sep), sep) == s
  {
    if s != [] {
      var rest := Split(s[1..], sep);
      JoinSplit(s[1..], sep);
      if s[0] == sep {
        assert ([[]] + rest)[1..] == rest;
      } else if |rest| == 1 {
        assert [s[0]] + s[1..] == s;
      } else {
        var parts := [[s[0]] + rest[0]] + rest[1..];
        assert parts[1..] == rest[1..];
        assert [s[0]] + s[1..] == s;
      }
    }
  }

  /** Text free of the separator glued to the front of `rest` merges into
      the first segment of `rest`. */
  lemma {:induction false} SplitPrefix(w: string, rest: string, sep: char)
    requires sep !in w
    ensures Split(w + rest, sep) == [w + Split(rest, sep)[0]] + Split(rest, sep)[1..]
  {
    if w == [] {
      var r := Split(rest, sep);
      assert w + rest == rest;
      assert w + r[0] == r[0];
      assert [r[0]] + r[1..] == r;
    } else {
      assert (w + rest)[1..] == w[1..] + rest;
      SplitPrefix(w[1..], rest, sep);
      assert [w[0]] + (w[1..] + Split(rest, sep)[0]) == w + Split(rest, sep)[0];
    }
  }

  /** A separator-free segment followed by the separator splits off as the
      first segment. */
  lemma SplitAfterSegment(w: string, rest: string, sep: char)
    requires sep !in w
    ensures Split(w + [sep] + rest, sep) == [w] + Split(rest, sep)
  {
    assert w + [sep] + rest == w + ([sep] + rest);
    SplitPrefix(w, [sep] + rest, sep);
    assert ([sep] + rest)[1..] == rest;
    assert w + [] == w;
  }

  /** Splitting separator-free parts joined by the separator gives the parts back. */
  lemma {:induction false} SplitJoin(parts: seq<string>, sep: char)
    requires |parts| >= 1
    requires forall k :: 0 <= k < |parts| ==> sep !in parts[k]
    ensures Split(Join(parts, sep), sep) == parts
  {
    if |parts| == 1 {
      SplitPrefix(parts[0], [], sep);
      assert parts[0] + [] == parts[0];
    } else {
      SplitJoin(parts[1..], sep);
      SplitAfterSegment(parts[0], Join(parts[1..], sep), sep);
      assert [parts[0]] + parts[1..] == parts;
    }
  }

  predicate IsDigit(c: char) { '0' <= c <= '9' }

  predicate AllDigits(s: string) { forall i :: 0 <= i < |s| ==> IsDigit(s[i]) }

  function DigitValue(c: char): nat
    requires IsDigit(c)
  {
    (c as int) - ('0' as int)
  }

  function Digit(d: nat): (c: char)
    requires d < 10
  {
    ('0' as int + d) as char
  }

  /** The value of a string of decimal digits, most significant first. */
  function DigitsValue(s: string): nat
    requires AllDigits(s)
  {
    if s == [] then 0 else 10 * DigitsValue(s[..|s| - 1]) + DigitValue(s[|s| - 1])
  }

  /** Python's `int(s)` on decimal text: an optional minus sign followed by
      one or more ASCII digits; anything else raises ValueError. */
  function Int(s: string): Result<int, Fault>
  {
    if |s| >= 1 && AllDigits(s) then Ok(DigitsValue(s))
    else if |s| >= 2 && s[0] == '-' && AllDigits(s[1..]) then Ok(-(DigitsValue(s[1..]) as int))
    else Err(ValueError)
  }

  /** Python's `str(n)` for a natural number. */
  function NatText(n: nat): (s: string)
    ensures |s| >= 1 && AllDigits(s)
  {
    if n < 10 then [Digit(n)] else NatText(n / 10) + [Digit(n % 10)]
  }

  /** Python's `str(n)`. */
  function IntText(n: int): string
  {
    if n < 0 then "-" + NatText(-n) else NatText(n)
  }

  /** `n` written with exactly `width` digits, zero-padded on the left. */
  function Padded(n: nat, width: nat): (s: string)
    ensures |s| == width && AllDigits(s)
  {
    if width == 0 then [] else Padded(n / 10, width - 1) + [Digit(n % 10)]
  }

  function Pow10(k: nat): nat
  {
    if k == 0 then 1 else 10 * Pow10(k - 1)
  }

  lemma {:induction false} DigitsValueOfNatText(n: nat)
    ensures DigitsValue(NatText(n)) == n
  {
    var s := NatText(n);
    if n >= 10 {
      DigitsValueOfNatText(n / 10);
      assert s[..|s| - 1] == NatText(n / 10);
    }
  }

  /** `int(str(n)) == n`: the decimal text of every integer parses back to it. */
  lemma IntOfIntText(n: int)
    ensures Int(IntText(n)) == Ok(n)
  {
    if n < 0 {
      DigitsValueOfNatText(-n);
      assert ("-" + NatText(-n))[1..] == NatText(-n);
    } else {
      DigitsValueOfNatText(n);
    }
  }

  lemma {:induction false} DigitsValueOfPadded(n: nat, width: nat)
    requires n < Pow10(width)
    ensures DigitsValue(Padded(n, width)) == n
  {
    if width > 0 {
      var s := Padded(n, width);
      DigitsValueOfPadded(n / 10, width - 1);
      assert s[..|s| - 1] == Padded(n / 10, width - 1);
    }
  }

  /** A zero-padded field of at least one digit parses to the padded number:
      `int` accepts leading zeros. */
  lemma IntOfPadded(n: nat, width: nat)
    requires 1 <= width && n < Pow10(width)
    ensures Int(Padded(n, width)) == Ok(n)
  {
    DigitsValueOfPadded(n, width);
  }
}
