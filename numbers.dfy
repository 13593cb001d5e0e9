/** The C++ standard-library number conversions the dice roller relies on,
    on a string without leading white space: std::stoul and std::stol (base
    10), the conversion of a long to an int that an assignment performs, and
    the decimal text that operator<< writes for an integer. */
module Numbers {

  /** The ranges of an LP64 platform: 64-bit unsigned long and long, 32-bit
      int, both signed types in two's complement. */
  const ULongModulus: int := 0x1_0000_0000_0000_0000
  const ULongMax: int := ULongModulus - 1
  const LongMin: int := -0x8000_0000_0000_0000
  const LongMax: int := 0x7FFF_FFFF_FFFF_FFFF
  const IntModulus: int := 0x1_0000_0000
  const IntMin: int := -0x8000_0000
  const IntMax: int := 0x7FFF_FFFF

  /** What a call of std::stoul or std::stol yields: the value read and the
      number of characters it used (the `idx` out-argument), or the exception
      it throws. */
  datatype Conversion = Converted(value: int, length: nat) | InvalidArgument | OutOfRange

  predicate IsDigit(c: char) {
    '0' <= c <= '9'
  }

  predicate AllDigits(d: string) {
    forall i :: 0 <= i < |d| ==> IsDigit(d[i])
  }

  function DigitValue(c: char): (v: nat)
    requires IsDigit(c)
    ensures v < 10
  {
    (c as int) - ('0' as int)
  }

  function DigitChar(v: nat): (c: char)
    requires v < 10
    ensures IsDigit(c) && DigitValue(c) == v
  {
    (v + '0' as int) as char
  }

  /** The length of the run of decimal digits of `t` that starts at `from`. */
  function DigitRun(t: string, from: nat): (n: nat)
    requires from <= |t|
    ensures from + n <= |t|
    decreases |t| - from
  {
    if from < |t| && IsDigit(t[from]) then 1 + DigitRun(t, from + 1) else 0
  }

  /** Every character of the run is a digit, and the run ends at the end of
      `t` or at a character that is not one. */
  lemma {:induction false} DigitRunDigits(t: string, from: nat)
    requires from <= |t|
    ensures forall i :: from <= i < from + DigitRun(t, from) ==> IsDigit(t[i])
    ensures from + DigitRun(t, from) == |t| || !IsDigit(t[from + DigitRun(t, from)])
    decreases |t| - from
  {
    if from < |t| && IsDigit(t[from]) {
      DigitRunDigits(t, from + 1);
    }
  }

  /** The value of a string of decimal digits, most significant digit first. */
  function DecimalValue(d: string): nat
    requires AllDigits(d)
  {
    if d == [] then 0 else 10 * DecimalValue(d[..|d| - 1]) + DigitValue(d[|d| - 1])
  }

  /** The value of the digits `t[from..until]`, read in place. */
  function DigitsValue(t: string, from: nat, until: nat): nat
    requires from <= until <= |t|
    requires forall i :: from <= i < until ==> IsDigit(t[i])
    decreases until
  {
    if until == from then 0 else 10 * DigitsValue(t, from, until - 1) + DigitValue(t[until - 1])
  }

  /** The value of the run of decimal digits of `t` that starts at `from`
      (0 when there is none). */
  function RunValue(t: string, from: nat): nat
    requires from <= |t|
  {
    DigitRunDigits(t, from);
    DigitsValue(t, from, from + DigitRun(t, from))
  }

  /** The number of characters taken by the optional sign that strtoul and
      strtol accept at position `at`. */
  function SignLength(t: string, at: nat): (n: nat)
    requires at <= |t|
    ensures n <= 1 && at + n <= |t|
    ensures n == 1 <==> at < |t| && (t[at] == '+' || t[at] == '-')
  {
    if at < |t| && (t[at] == '+' || t[at] == '-') then 1 else 0
  }

  predicate Negative(t: string, at: nat) {
    at < |t| && t[at] == '-'
  }

  /** std::stoul(t.substr(at), &idx): an optional sign and a run of digits.
      No digit throws std::invalid_argument, a magnitude above ULONG_MAX
      throws std::out_of_range, and a minus sign negates modulo 2^64. The
      length is counted from `at`. */
  function Stoul(t: string, at: nat): (r: Conversion)
    requires at <= |t|
    ensures r.InvalidArgument? <==> DigitRun(t, at + SignLength(t, at)) == 0
    ensures r.Converted? ==>
              && 0 <= r.value <= ULongMax
              && r.length == SignLength(t, at) + DigitRun(t, at + SignLength(t, at))
  {
    var sign := SignLength(t, at);
    var n := DigitRun(t, at + sign);
    if n == 0 then InvalidArgument
    else
      DigitRunDigits(t, at + sign);
      var m := DigitsValue(t, at + sign, at + sign + n);
      if m > ULongMax then OutOfRange
      else if Negative(t, at) then Converted((ULongModulus - m) % ULongModulus, sign + n)
      else Converted(m, sign + n)
  }

  /** std::stol(t.substr(at), &idx): an optional sign and a run of digits,
      as a signed long; a value outside [LONG_MIN, LONG_MAX] throws
      std::out_of_range. */
  function Stol(t: string, at: nat): (r: Conversion)
    requires at <= |t|
    ensures r.InvalidArgument? <==> DigitRun(t, at + SignLength(t, at)) == 0
    ensures r.Converted? ==>
              && LongMin <= r.value <= LongMax
              && r.length == SignLength(t, at) + DigitRun(t, at + SignLength(t, at))
  {
    var sign := SignLength(t, at);
    var n := DigitRun(t, at + sign);
    if n == 0 then InvalidArgument
    else
      DigitRunDigits(t, at + sign);
      var m := DigitsValue(t, at + sign, at + sign + n);
      var v := if Negative(t, at) then -(m as int) else m as int;
      if v < LongMin || LongMax < v then OutOfRange else Converted(v, sign + n)
  }

  /** When std::stoul throws std::out_of_range, and the value it yields
      otherwise: that of the digits, or its negation modulo 2^64 after a
      minus sign. */
  lemma StoulValue(t: string, at: nat)
    requires at <= |t|
    ensures var from := at + SignLength(t, at);
            Stoul(t, at).OutOfRange? <==> DigitRun(t, from) > 0 && RunValue(t, from) > ULongMax
    ensures var from := at + SignLength(t, at);
            Stoul(t, at).Converted? ==>
              && (!Negative(t, at) ==> Stoul(t, at).value == RunValue(t, from))
              && (Negative(t, at) ==> (Stoul(t, at).value + RunValue(t, from)) % ULongModulus == 0)
  {
    var from := at + SignLength(t, at);
    if DigitRun(t, from) > 0 && RunValue(t, from) <= ULongMax {
      NegationWraps(RunValue(t, from));
    }
  }

  /** When std::stol throws std::out_of_range, and the value it yields
      otherwise: that of the digits, with their sign. */
  lemma StolValue(t: string, at: nat)
    requires at <= |t|
    ensures var from := at + SignLength(t, at);
            Stol(t, at).OutOfRange? <==>
              DigitRun(t, from) > 0 && RunValue(t, from) > (if Negative(t, at) then -LongMin else LongMax)
    ensures var from := at + SignLength(t, at);
            Stol(t, at).Converted? ==>
              Stol(t, at).value == if Negative(t, at) then -(RunValue(t, from) as int) else RunValue(t, from)
  {
  }

  /** The value a 32-bit int receives when a wider integer is assigned to it
      (two's complement wrap-around). */
  function ToInt(v: int): (r: int)
    ensures IntMin <= r <= IntMax
    ensures (v - r) % IntModulus == 0
    ensures IntMin <= v <= IntMax ==> r == v
  {
    (v - IntMin) % IntModulus + IntMin
  }

  /** The decimal digits operator<< writes for a non-negative integer. */
  function NatText(n: nat): (d: string)
    ensures |d| > 0 && AllDigits(d)
    ensures DecimalValue(d) == n
    ensures d[0] == '0' ==> n == 0
  {
    if n < 10 then [DigitChar(n)]
    else
      var prefix := NatText(n / 10);
      var d := prefix + [DigitChar(n % 10)];
      assert d[..|d| - 1] == prefix;
      d
  }

  /** The text operator<< writes for an integer: a minus sign for a negative one. */
  function IntText(v: int): (t: string)
    ensures |t| > 0
    ensures forall i :: 0 <= i < |t| ==> IsDigit(t[i]) || (i == 0 && t[i] == '-')
    ensures t[0] == '-' <==> v < 0
  {
    if v < 0 then "-" + NatText(-v) else NatText(v)
  }

  /** Text written in three parts is the same however the parts are grouped;
      stated once so that each use is a single step for the solver. */
  lemma Associative(a: string, b: string, c: string)
    ensures a + b + c == a + (b + c)
  {
  }

  /** Text written in three parts starts with the first, ends with the last
      and has the second in between. */
  lemma Framed(head: string, middle: string, tail: string)
    ensures |head| + |tail| <= |head + middle + tail|
    ensures (head + middle + tail)[..|head|] == head
    ensures (head + middle + tail)[|head + middle + tail| - |tail|..] == tail
    ensures (head + middle + tail)[|head|..|head + middle + tail| - |tail|] == middle
  {
  }

  /** A run of digits that ends at `stop` has length `stop - from`. */
  lemma {:induction false} DigitRunTo(t: string, from: nat, stop: nat)
    requires from <= stop <= |t|
    requires forall i :: from <= i < stop ==> IsDigit(t[i])
    requires stop == |t| || !IsDigit(t[stop])
    ensures DigitRun(t, from) == stop - from
    decreases stop - from
  {
    if from < stop {
      DigitRunTo(t, from + 1, stop);
    }
  }

  /** Digits read in place have the value of the same digits on their own. */
  lemma {:induction false} DigitsValueOf(t: string, d: string, from: nat)
    requires AllDigits(d) && from + |d| <= |t| && t[from..from + |d|] == d
    ensures forall i :: from <= i < from + |d| ==> IsDigit(t[i])
    ensures DigitsValue(t, from, from + |d|) == DecimalValue(d)
    decreases |d|
  {
    forall i | from <= i < from + |d|
      ensures IsDigit(t[i])
    {
      assert t[i] == d[i - from];
    }
    if d != [] {
      var e := d[..|d| - 1];
      assert t[from..from + |e|] == e;
      assert t[from + |d| - 1] == d[|d| - 1];
      DigitsValueOf(t, e, from);
    }
  }

  /** Reading back what operator<< wrote: std::stol applied to the text of a
      long, followed by anything that is not a digit, yields that long and
      uses exactly its text. */
  lemma StolReadsIntText(v: int, rest: string)
    requires LongMin <= v <= LongMax
    requires rest == [] || !IsDigit(rest[0])
    ensures Stol(IntText(v) + rest, 0) == Converted(v, |IntText(v)|)
  {
    if v < 0 {
      StolReadsNegative(NatText(-v), rest);
    } else {
      StolReadsDigits(NatText(v), rest);
    }
  }

  /** A minus sign before the digits of a long negates them. */
  lemma StolReadsNegative(d: string, rest: string)
    requires |d| > 0 && AllDigits(d) && DecimalValue(d) <= -LongMin
    requires rest == [] || !IsDigit(rest[0])
    ensures Stol("-" + d + rest, 0) == Converted(-(DecimalValue(d) as int), 1 + |d|)
  {
    var t := "-" + d + rest;
    assert SignLength(t, 0) == 1 && Negative(t, 0);
    assert t[1..1 + |d|] == d;
    DigitsValueOf(t, d, 1);
    assert rest != [] ==> t[1 + |d|] == rest[0];
    DigitRunTo(t, 1, 1 + |d|);
    ReadRun(t, 1, |d|, DecimalValue(d));
  }

  /** A plus sign before the digits of a long is read and changes nothing. */
  lemma StolReadsPositive(d: string, rest: string)
    requires |d| > 0 && AllDigits(d) && DecimalValue(d) <= LongMax
    requires rest == [] || !IsDigit(rest[0])
    ensures Stol("+" + d + rest, 0) == Converted(DecimalValue(d), 1 + |d|)
  {
    var t := "+" + d + rest;
    assert SignLength(t, 0) == 1 && !Negative(t, 0);
    assert t[1..1 + |d|] == d;
    DigitsValueOf(t, d, 1);
    assert rest != [] ==> t[1 + |d|] == rest[0];
    DigitRunTo(t, 1, 1 + |d|);
    ReadRun(t, 1, |d|, DecimalValue(d));
  }

  lemma StolReadsDigits(d: string, rest: string)
    requires |d| > 0 && AllDigits(d) && DecimalValue(d) <= LongMax
    requires rest == [] || !IsDigit(rest[0])
    ensures Stol(d + rest, 0) == Converted(DecimalValue(d), |d|)
  {
    var t := d + rest;
    assert SignLength(t, 0) == 0 && !Negative(t, 0) by {
      assert t[0] == d[0] && IsDigit(d[0]);
    }
    assert t[0..|d|] == d;
    DigitsValueOf(t, d, 0);
    assert rest != [] ==> t[|d|] == rest[0];
    DigitRunTo(t, 0, |d|);
    ReadRun(t, 0, |d|, DecimalValue(d));
  }

  /** std::stoul accepts a minus sign and negates modulo 2^64: the value
      it yields and the magnitude written add up to a multiple of 2^64. */
  lemma StoulReadsNegative(d: string, rest: string)
    requires |d| > 0 && AllDigits(d) && DecimalValue(d) <= ULongMax
    requires rest == [] || !IsDigit(rest[0])
    ensures Stoul("-" + d + rest, 0).Converted?
    ensures Stoul("-" + d + rest, 0).length == 1 + |d|
    ensures (Stoul("-" + d + rest, 0).value + DecimalValue(d)) % ULongModulus == 0
  {
    var t := "-" + d + rest;
    assert SignLength(t, 0) == 1 && Negative(t, 0);
    assert t[1..1 + |d|] == d;
    DigitsValueOf(t, d, 1);
    assert rest != [] ==> t[1 + |d|] == rest[0];
    DigitRunTo(t, 1, 1 + |d|);
    assert RunValue(t, 1) == DecimalValue(d);
    StoulValue(t, 0);
  }

  /** Negating modulo 2^64 gives a value that adds up with the magnitude to
      a multiple of 2^64. */
  lemma NegationWraps(m: int)
    requires 0 <= m <= ULongMax
    ensures ((ULongModulus - m) % ULongModulus + m) % ULongModulus == 0
  {
    if m > 0 {
      assert (ULongModulus - m) % ULongModulus == ULongModulus - m;
    }
  }

  /** The unsigned long that adds up with a positive magnitude to a
      multiple of 2^64 is 2^64 minus that magnitude. */
  lemma NegatedValue(v: int, x: int)
    requires 0 <= v <= ULongMax && 0 < x <= ULongMax && (v + x) % ULongModulus == 0
    ensures v == ULongModulus - x
  {
  }

  /** std::stoul accepts a plus sign, which changes nothing. */
  lemma StoulReadsPositive(d: string, rest: string)
    requires |d| > 0 && AllDigits(d) && DecimalValue(d) <= ULongMax
    requires rest == [] || !IsDigit(rest[0])
    ensures Stoul("+" + d + rest, 0) == Converted(DecimalValue(d), 1 + |d|)
  {
    var t := "+" + d + rest;
    assert SignLength(t, 0) == 1 && !Negative(t, 0);
    assert t[1..1 + |d|] == d;
    DigitsValueOf(t, d, 1);
    assert rest != [] ==> t[1 + |d|] == rest[0];
    DigitRunTo(t, 1, 1 + |d|);
    ReadRun(t, 1, |d|, DecimalValue(d));
  }

  /** The same for std::stoul and a number it can hold. */
  lemma StoulReadsNatText(n: nat, rest: string)
    requires n <= ULongMax
    requires rest == [] || !IsDigit(rest[0])
    ensures Stoul(NatText(n) + rest, 0) == Converted(n, |NatText(n)|)
  {
    var d := NatText(n);
    var t := d + rest;
    assert SignLength(t, 0) == 0 && !Negative(t, 0) by {
      assert t[0] == d[0] && IsDigit(d[0]);
    }
    assert t[0..|d|] == d;
    DigitsValueOf(t, d, 0);
    assert rest != [] ==> t[|d|] == rest[0];
    DigitRunTo(t, 0, |d|);
    ReadRun(t, 0, |d|, n);
  }

  /** std::stoul throws std::out_of_range on the text of a number above
      ULONG_MAX. */
  lemma StoulTooLarge(n: nat, rest: string)
    requires n > ULongMax
    requires rest == [] || !IsDigit(rest[0])
    ensures Stoul(NatText(n) + rest, 0) == OutOfRange
  {
    var d := NatText(n);
    var t := d + rest;
    assert SignLength(t, 0) == 0 by {
      assert t[0] == d[0] && IsDigit(d[0]);
    }
    assert t[0..|d|] == d;
    DigitsValueOf(t, d, 0);
    assert rest != [] ==> t[|d|] == rest[0];
    DigitRunTo(t, 0, |d|);
    assert RunValue(t, 0) == n;
    StoulValue(t, 0);
  }

  /** A sign of length `sign` and a run of `n` digits of value `m` at the
      start of `t`, as std::stoul and std::stol read them. */
  lemma ReadRun(t: string, sign: nat, n: nat, m: nat)
    requires sign == SignLength(t, 0) && 0 < n == DigitRun(t, sign)
    requires forall i :: sign <= i < sign + n ==> IsDigit(t[i])
    requires DigitsValue(t, sign, sign + n) == m
    ensures m <= ULongMax && !Negative(t, 0) ==> Stoul(t, 0) == Converted(m, sign + n)
    ensures m <= ULongMax && Negative(t, 0) ==> Stoul(t, 0) == Converted((ULongModulus - m) % ULongModulus, sign + n)
    ensures m <= LongMax && !Negative(t, 0) ==> Stol(t, 0) == Converted(m, sign + n)
    ensures m <= -LongMin && Negative(t, 0) ==> Stol(t, 0) == Converted(-(m as int), sign + n)
  {
  }

  /** What std::stoul reads from position `k + at` depends only on the
      characters from `k` on; the same holds for std::stol. */
  lemma StoulSuffix(t: string, k: nat, at: nat)
    requires k + at <= |t|
    ensures Stoul(t, k + at) == Stoul(t[k..], at)
  {
    NumberSuffix(t, k, at);
  }

  lemma StolSuffix(t: string, k: nat, at: nat)
    requires k + at <= |t|
    ensures Stol(t, k + at) == Stol(t[k..], at)
  {
    NumberSuffix(t, k, at);
  }

  /** The sign, the digits and their value agree between `t` at `k + at`
      and `t[k..]` at `at`. */
  lemma NumberSuffix(t: string, k: nat, at: nat)
    requires k + at <= |t|
    ensures SignLength(t, k + at) == SignLength(t[k..], at)
    ensures Negative(t, k + at) <==> Negative(t[k..], at)
    ensures var sign := SignLength(t[k..], at);
            && DigitRun(t, k + at + sign) == DigitRun(t[k..], at + sign)
            && var n := DigitRun(t[k..], at + sign);
               && (forall i :: k + at + sign <= i < k + at + sign + n ==> IsDigit(t[i]))
               && DigitsValue(t, k + at + sign, k + at + sign + n) ==
                  DigitsValue(t[k..], at + sign, at + sign + n)
  {
    var u := t[k..];
    if k + at < |t| {
      assert u[at] == t[k + at];
    }
    var sign := SignLength(u, at);
    DigitRunSuffix(t, k, at + sign);
    DigitRunDigits(u, at + sign);
    DigitsValueSuffix(t, k, at + sign, at + sign + DigitRun(u, at + sign));
  }

  lemma {:induction false} DigitRunSuffix(t: string, k: nat, from: nat)
    requires k + from <= |t|
    ensures DigitRun(t, k + from) == DigitRun(t[k..], from)
    decreases |t| - k - from
  {
    if k + from < |t| {
      assert t[k..][from] == t[k + from];
      DigitRunSuffix(t, k, from + 1);
    }
  }

  lemma {:induction false} DigitsValueSuffix(t: string, k: nat, from: nat, until: nat)
    requires k + until <= |t| && from <= until
    requires forall i :: from <= i < until ==> IsDigit(t[k..][i])
    ensures forall i :: k + from <= i < k + until ==> IsDigit(t[i])
    ensures DigitsValue(t, k + from, k + until) == DigitsValue(t[k..], from, until)
    decreases until
  {
    forall i | k + from <= i < k + until
      ensures IsDigit(t[i])
    {
      assert t[i] == t[k..][i - k];
    }
    if from < until {
      assert t[k..][until - 1] == t[k + until - 1];
      DigitsValueSuffix(t, k, from, until - 1);
    }
  }

  /** Two integers that differ by a multiple of 2^32 become the same int. */
  lemma ToIntCongruent(a: int, b: int, k: int)
    requires a == b + k * IntModulus
    ensures ToInt(a) == ToInt(b)
  {
    var x := b - IntMin;
    assert a - IntMin == x + k * IntModulus;
    ModuloShift(x, k);
  }

  lemma {:induction false} ModuloShift(x: int, k: int)
    ensures (x + k * IntModulus) % IntModulus == x % IntModulus
    decreases if k < 0 then -k else k
  {
    if k > 0 {
      ModuloShift(x, k - 1);
      assert x + k * IntModulus == (x + (k - 1) * IntModulus) + IntModulus;
    } else if k < 0 {
      ModuloShift(x, k + 1);
      assert x + (k + 1) * IntModulus == (x + k * IntModulus) + IntModulus;
    }
  }

  /** Adding to a wrapped int and wrapping again is wrapping the exact sum. */
  lemma WrapThenAdd(v: int, w: int)
    ensures ToInt(ToInt(v) + w) == ToInt(v + w)
  {
    var k := (v - ToInt(v)) / IntModulus;
    assert v - ToInt(v) == k * IntModulus;
    ToIntCongruent(v + w, ToInt(v) + w, k);
  }
}
