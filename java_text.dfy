/**
 * The three pieces of Java's standard library that the help printer relies on for
 * turning values into text: `%d` of an `int`, `%s` of a `boolean`, and
 * `Arrays.toString` of a `String[]`.  Each comes with the decoder that undoes it.
 */
module JavaText {
  import opened Wrappers
  import opened Text

  /** A value of Java's 32-bit `int` (annotation elements `index` and `size`). */
  type Int32 = x: int | -0x8000_0000 <= x < 0x8000_0000

  predicate IsDigit(c: char)
  {
    '0' <= c <= '9'
  }

  predicate AllDigits(s: string)
  {
    forall i :: 0 <= i < |s| ==> IsDigit(s[i])
  }

  function DigitChar(d: nat): (c: char)
    requires d < 10
    ensures IsDigit(c)
  {
    ('0' as int + d) as char
  }

  function DigitValue(c: char): (d: nat)
    requires IsDigit(c)
    ensures d < 10 && DigitChar(d) == c
  {
    c as int - '0' as int
  }

  /** The decimal digits of n, most significant first, with no leading zero. */
  function NatDigits(n: nat): (r: string)
    ensures |r| > 0 && AllDigits(r)
    ensures r[0] == '0' ==> n == 0
  {
    if n < 10 then [DigitChar(n)] else NatDigits(n / 10) + [DigitChar(n % 10)]
  }

  /** `%d` applied to an int: a minus sign for negative values, then the digits of the magnitude. */
  function DecimalString(n: int): (r: string)
    ensures |r| > 0
    ensures (r[0] == '-') <==> n < 0
    ensures n >= 0 ==> AllDigits(r)
    ensures n < 0 ==> AllDigits(r[1..]) && |r| > 1 && r[1] != '0'
  {
    if n < 0 then "-" + NatDigits(-n) else NatDigits(n)
  }

  /** The number a string of decimal digits denotes. */
  function DigitsValue(ds: string): nat
    requires AllDigits(ds)
  {
    if |ds| == 0 then 0 else 10 * DigitsValue(ds[..|ds| - 1]) + DigitValue(ds[|ds| - 1])
  }

  lemma {:induction false} NatDigitsValue(n: nat)
    ensures DigitsValue(NatDigits(n)) == n
  {
    if n >= 10 {
      var ds := NatDigits(n);
      assert ds[..|ds| - 1] == NatDigits(n / 10);
      NatDigitsValue(n / 10);
    }
  }

  /** How many decimal digits s starts with. */
  function DigitRun(s: string): (k: nat)
    ensures k <= |s| && AllDigits(s[..k])
    ensures k < |s| ==> !IsDigit(s[k])
  {
    if |s| > 0 && IsDigit(s[0]) then
      var k := 1 + DigitRun(s[1..]);
      assert s[..k] == [s[0]] + s[1..][..k - 1];
      k
    else 0
  }

  lemma {:induction false} DigitRunConcat(ds: string, t: string)
    requires AllDigits(ds)
    requires t == [] || !IsDigit(t[0])
    ensures DigitRun(ds + t) == |ds|
  {
    if |ds| > 0 {
      assert (ds + t)[1..] == ds[1..] + t;
      DigitRunConcat(ds[1..], t);
    } else {
      assert ds + t == t;
    }
  }

  /** Reads an optionally signed decimal number from the front of s. */
  function ParseInt(s: string): (r: Option<Parsed<int>>)
    ensures r.Some? ==> |r.value.rest| < |s|
  {
    var negative := |s| > 0 && s[0] == '-';
    var u := if negative then s[1..] else s;
    var k := DigitRun(u);
    if k == 0 then None
    else
      var v: int := DigitsValue(u[..k]);
      Some(Parsed(if negative then -v else v, u[k..]))
  }

  /** `%d` is undone by ParseInt whenever the next character is not a digit. */
  lemma DecimalRoundTrip(n: int, t: string)
    requires t == [] || !IsDigit(t[0])
    ensures ParseInt(DecimalString(n) + t) == Some(Parsed(n, t))
  {
    var m: nat := if n < 0 then -n else n;
    var ds := NatDigits(m);
    DigitRunConcat(ds, t);
    NatDigitsValue(m);
    assert (ds + t)[..|ds|] == ds;
    assert (ds + t)[|ds|..] == t;
    if n < 0 {
      assert DecimalString(n) + t == "-" + (ds + t);
      assert ("-" + (ds + t))[1..] == ds + t;
    }
  }

  /** `%s` applied to a boolean (Boolean.toString). */
  function BoolString(b: bool): (r: string)
    ensures r == "true" || r == "false"
  {
    if b then "true" else "false"
  }

  /** The elements of xs separated by ", ". */
  function Join(xs: seq<string>): string
  {
    if |xs| == 0 then ""
    else if |xs| == 1 then xs[0]
    else xs[0] + (", " + Join(xs[1..]))
  }

  /** Arrays.toString of a String array: "[a, b, c]". */
  function ListString(xs: seq<string>): (r: string)
    ensures |r| >= 2 && r[0] == '[' && r[|r| - 1] == ']'
  {
    "[" + Join(xs) + "]"
  }

  /** Splits a comma-separated list; the one character after each comma (the space) is dropped. */
  function SplitList(s: string): seq<string>
    decreases |s|
  {
    var b := Break(s, ',');
    if |b.rest| == 0 then [b.value]
    else
      var after := b.rest[1..];
      [b.value] + SplitList(if |after| > 0 then after[1..] else after)
  }

  /** No element of xs contains c. */
  predicate NoneContain(xs: seq<string>, c: char)
  {
    forall i :: 0 <= i < |xs| ==> c !in xs[i]
  }

  /** A non-empty list of comma-free strings is recovered from its joined form. */
  lemma {:induction false} SplitJoin(xs: seq<string>)
    requires |xs| > 0 && NoneContain(xs, ',')
    ensures SplitList(Join(xs)) == xs
  {
    if |xs| == 1 {
      BreakConcat(xs[0], "", ',');
      assert xs[0] + "" == xs[0];
    } else {
      var tail := Join(xs[1..]);
      assert Join(xs) == xs[0] + (", " + tail);
      BreakConcat(xs[0], ", " + tail, ',');
      assert (", " + tail)[1..][1..] == tail;
      SplitJoin(xs[1..]);
      assert [xs[0]] + xs[1..] == xs;
    }
  }

  /** Joining keeps out every character that is not part of the separator. */
  lemma {:induction false} JoinAvoids(xs: seq<string>, c: char)
    requires NoneContain(xs, c) && c != ',' && c != ' '
    ensures c !in Join(xs)
  {
    if |xs| > 1 {
      JoinAvoids(xs[1..], c);
    }
  }

  /** Arrays.toString cannot tell an element holding ", " from two elements. */
  lemma ListStringCommaAmbiguous()
    ensures ListString(["a, b"]) == ListString(["a", "b"]) == "[a, b]"
  {
  }
}
