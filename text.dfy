/** Strings built by the sources: decimal notation (Python `str`, JS `String`),
    thousands separators (Python `{:,.0f}`, JS `toLocaleString`), fixed decimals
    (JS `toFixed`), zero padding (`{:03d}`), joining and `str.replace`.
    Each formatter has a reader beside it and a lemma that reading the text
    back gives the number that was formatted. */
module Text {
  import opened Numeric

  predicate IsDigit(c: char) {
    '0' <= c <= '9'
  }

  predicate AllDigits(s: string) {
    forall i :: 0 <= i < |s| ==> IsDigit(s[i])
  }

  function DigitChar(d: nat): (c: char)
    requires d < 10
    ensures IsDigit(c)
  {
    (48 + d) as char
  }

  function DigitValue(c: char): nat
    requires IsDigit(c)
  {
    (c as int - 48) as nat
  }

  /** Decimal notation of a natural number, without leading zeros. */
  function NatToDecimal(n: nat): (s: string)
    ensures |s| >= 1 && AllDigits(s)
  {
    if n < 10 then [DigitChar(n)] else NatToDecimal(n / 10) + [DigitChar(n % 10)]
  }

  /** Reads a string of digits as a number; leading zeros are allowed. */
  function DecimalToNat(s: string): nat
    requires AllDigits(s)
  {
    if |s| == 0 then 0 else DecimalToNat(s[..|s| - 1]) * 10 + DigitValue(s[|s| - 1])
  }

  /** Python `str(i)` of an integer. */
  function IntToDecimal(i: int): (s: string)
    ensures |s| >= 1
    ensures i >= 0 ==> AllDigits(s)
    ensures i < 0 ==> s[0] == '-' && AllDigits(s[1..])
  {
    if i < 0 then "-" + NatToDecimal(-i) else NatToDecimal(i)
  }

  function Repeat(c: char, k: nat): (r: string)
    ensures |r| == k && forall i :: 0 <= i < k ==> r[i] == c
  {
    seq(k, _ => c)
  }

  /** `s` padded on the left with `c` up to `width` characters (`{:03d}`). */
  function PadLeft(s: string, width: nat, c: char): (r: string)
    ensures |r| == if |s| >= width then |s| else width
    ensures r == Repeat(c, |r| - |s|) + s
  {
    if |s| >= width then s else Repeat(c, width - |s|) + s
  }

  /** `s` with every occurrence of `c` deleted. */
  function Remove(s: string, c: char): (r: string)
    ensures forall i :: 0 <= i < |r| ==> r[i] != c
  {
    if |s| == 0 then "" else (if s[0] == c then "" else [s[0]]) + Remove(s[1..], c)
  }

  /** Digits grouped by three with commas: 1234567 gives "1,234,567". */
  function GroupThousands(n: nat): string
  {
    GroupDigits(NatToDecimal(n))
  }

  /** A string of digits with a comma before every block of three counted from the right. */
  function GroupDigits(s: string): string
  {
    if |s| <= 3 then s else GroupDigits(s[..|s| - 3]) + "," + s[|s| - 3..]
  }

  /** The integer a fixed-decimal rendering shows: |x| scaled by 10^d and rounded,
      ties away from zero. It is within half a unit of the last place of |x|. */
  function FixedMagnitude(x: real, d: nat): (n: nat)
    ensures n as real - 0.5 <= Scaled(x, d) < n as real + 0.5
  {
    RoundHalfUp(Scaled(x, d))
  }

  /** |x| multiplied by 10^d. */
  function Scaled(x: real, d: nat): (y: real)
    ensures y >= 0.0
  {
    if d == 0 then Abs(x) else 10.0 * Scaled(x, d - 1)
  }

  /** ECMAScript `x.toFixed(d)`: a minus sign when x < 0, then |x| rounded to
      d decimals with ties away from zero. */
  function Fixed(x: real, d: nat): string
  {
    (if x < 0.0 then "-" else "") + PointDigits(FixedMagnitude(x, d), d)
  }

  /** The digits of `n`, padded with zeros to at least d + 1 digits, with a
      decimal point placed before the last `d` of them (none when d = 0). */
  function PointDigits(n: nat, d: nat): string
  {
    if d == 0 then WholeDigits(n, 0) else WholeDigits(n, d) + "." + FractionDigits(n, d)
  }

  function PaddedDigits(n: nat, d: nat): (m: string)
    ensures |m| >= d + 1
  {
    PadLeft(NatToDecimal(n), d + 1, '0')
  }

  /** What stands before the point: all but the last `d` padded digits. */
  function WholeDigits(n: nat, d: nat): (w: string)
    ensures |w| >= 1
  {
    var m := PaddedDigits(n, d);
    m[..|m| - d]
  }

  /** What stands after the point: the last `d` padded digits. */
  function FractionDigits(n: nat, d: nat): (f: string)
    ensures |f| == d
  {
    var m := PaddedDigits(n, d);
    m[|m| - d..]
  }

  function TrimTrailingZeros(s: string): (r: string)
    ensures |r| <= |s| && r == s[..|r|]
    ensures |r| == 0 || r[|r| - 1] != '0'
  {
    if |s| == 0 || s[|s| - 1] != '0' then s else TrimTrailingZeros(s[..|s| - 1])
  }

  /** Default en-US `Number.prototype.toLocaleString()`: thousands separators and
      at most three fraction digits, rounded half away from zero. */
  function LocaleString(x: real): string
  {
    (if x < 0.0 then "-" else "") + LocaleDigits(FixedMagnitude(x, 3))
  }

  /** A count of thousandths shown with the whole part grouped by thousands and
      the fraction without trailing zeros. */
  function LocaleDigits(n: nat): string
  {
    var m := PadLeft(NatToDecimal(n), 4, '0');
    var frac := TrimTrailingZeros(m[|m| - 3..]);
    GroupDigits(m[..|m| - 3]) + (if frac == "" then "" else "." + frac)
  }

  /** `sep.join(parts)` in Python, `parts.join(sep)` in JS. */
  function Join(parts: seq<string>, sep: string): string
  {
    if |parts| == 0 then ""
    else if |parts| == 1 then parts[0]
    else Join(parts[..|parts| - 1], sep) + sep + parts[|parts| - 1]
  }

  predicate StartsWith(s: string, prefix: string) {
    |prefix| <= |s| && s[..|prefix|] == prefix
  }

  predicate EndsWith(s: string, suffix: string) {
    |suffix| <= |s| && s[|s| - |suffix|..] == suffix
  }

  /** Python `sub in s`, JS `s.includes(sub)`. */
  predicate Contains(s: string, sub: string) {
    exists i :: 0 <= i <= |s| - |sub| && OccursAt(s, sub, i)
  }

  predicate OccursAt(s: string, sub: string, i: int) {
    0 <= i <= |s| - |sub| && s[i..i + |sub|] == sub
  }

  /** Python `s.replace(pat, rep)`: every non-overlapping occurrence, scanning left to right. */
  function ReplaceAll(s: string, pat: string, rep: string): string
    requires |pat| > 0
  {
    if |s| < |pat| then s
    else if s[..|pat|] == pat then rep + ReplaceAll(s[|pat|..], pat, rep)
    else [s[0]] + ReplaceAll(s[1..], pat, rep)
  }

  // ---------------------------------------------------------------------------
  // Reading numbers back

  lemma {:induction false} DecimalRoundTrip(n: nat)
    ensures DecimalToNat(NatToDecimal(n)) == n
  {
    if n >= 10 {
      var a := NatToDecimal(n / 10);
      var s := a + [DigitChar(n % 10)];
      assert s[..|s| - 1] == a;
      DecimalRoundTrip(n / 10);
    }
  }

  lemma {:induction false} DecimalToNatAppend(a: string, b: string)
    requires AllDigits(a) && AllDigits(b)
    ensures DecimalToNat(a + b) == DecimalToNat(a) * Pow10(|b|) + DecimalToNat(b)
    decreases |b|
  {
    if |b| == 0 {
      assert a + b == a;
    } else {
      var b' := b[..|b| - 1];
      var d := DigitValue(b[|b| - 1]);
      assert (a + b)[..|a + b| - 1] == a + b';
      assert (a + b)[|a + b| - 1] == b[|b| - 1];
      DecimalToNatAppend(a, b');
      assert DecimalToNat(a + b) == DecimalToNat(a + b') * 10 + d;
      assert DecimalToNat(b) == DecimalToNat(b') * 10 + d;
      assert Pow10(|b|) == 10 * Pow10(|b'|);
      ShiftDigit(DecimalToNat(a), Pow10(|b'|), DecimalToNat(b'), d);
    }
  }

  lemma ShiftDigit(x: int, p: int, y: int, d: int)
    ensures (x * p + y) * 10 + d == x * (10 * p) + (y * 10 + d)
  {
  }

  lemma {:induction false} DecimalOfZeros(k: nat)
    ensures AllDigits(Repeat('0', k)) && DecimalToNat(Repeat('0', k)) == 0
  {
    if k > 0 {
      assert Repeat('0', k)[..k - 1] == Repeat('0', k - 1);
      DecimalOfZeros(k - 1);
    }
  }

  /** Left zero padding does not change the number a string of digits denotes. */
  lemma PadLeftValue(s: string, width: nat)
    requires AllDigits(s)
    ensures AllDigits(PadLeft(s, width, '0'))
    ensures DecimalToNat(PadLeft(s, width, '0')) == DecimalToNat(s)
  {
    var r := PadLeft(s, width, '0');
    var z := Repeat('0', |r| - |s|);
    DecimalOfZeros(|z|);
    DecimalToNatAppend(z, s);
  }

  lemma {:induction false} RemoveAppend(a: string, b: string, c: char)
    ensures Remove(a + b, c) == Remove(a, c) + Remove(b, c)
  {
    if |a| > 0 {
      assert (a + b)[1..] == a[1..] + b;
      RemoveAppend(a[1..], b, c);
    } else {
      assert a + b == b;
    }
  }

  lemma {:induction false} RemoveAbsent(s: string, c: char)
    requires forall i :: 0 <= i < |s| ==> s[i] != c
    ensures Remove(s, c) == s
  {
    if |s| > 0 {
      RemoveAbsent(s[1..], c);
    }
  }

  lemma {:induction false} GroupDigitsRemove(s: string)
    requires AllDigits(s)
    ensures Remove(GroupDigits(s), ',') == s
  {
    if |s| <= 3 {
      RemoveAbsent(s, ',');
    } else {
      var hi, lo := s[..|s| - 3], s[|s| - 3..];
      GroupDigitsRemove(hi);
      RemoveAppend(GroupDigits(hi) + ",", lo, ',');
      RemoveAppend(GroupDigits(hi), ",", ',');
      RemoveAbsent(lo, ',');
      assert hi + lo == s;
    }
  }

  /** Deleting the separators from a grouped number gives back its digits. */
  lemma GroupThousandsRoundTrip(n: nat)
    ensures Remove(GroupThousands(n), ',') == NatToDecimal(n)
    ensures DecimalToNat(Remove(GroupThousands(n), ',')) == n
  {
    GroupDigitsRemove(NatToDecimal(n));
    DecimalRoundTrip(n);
  }

  /** Deleting the point between two runs of digits concatenates them. */
  lemma RemovePoint(a: string, b: string)
    requires AllDigits(a) && AllDigits(b)
    ensures Remove(a + "." + b, '.') == a + b
  {
    RemoveAbsent(a, '.');
    RemoveAbsent(b, '.');
    RemoveAppend(a + ".", b, '.');
    RemoveAppend(a, ".", '.');
  }

  /** Cutting a run of digits leaves two runs of digits that rejoin to it. */
  lemma SplitDigits(m: string, d: nat)
    requires AllDigits(m) && d <= |m|
    ensures AllDigits(m[..|m| - d]) && AllDigits(m[|m| - d..])
    ensures m[..|m| - d] + m[|m| - d..] == m
  {
    var a, b := m[..|m| - d], m[|m| - d..];
    forall i | 0 <= i < |a|
      ensures IsDigit(a[i])
    {
      assert a[i] == m[i];
    }
    forall i | 0 <= i < |b|
      ensures IsDigit(b[i])
    {
      assert b[i] == m[|m| - d + i];
    }
    assert a + b == m;
  }

  /** The padded digits are digits and read back as `n`. */
  lemma PaddedDigitsValue(n: nat, d: nat)
    ensures AllDigits(PaddedDigits(n, d)) && DecimalToNat(PaddedDigits(n, d)) == n
  {
    PadLeftValue(NatToDecimal(n), d + 1);
    DecimalRoundTrip(n);
  }

  /** Both sides of the point are digits, and together they read back as `n`. */
  lemma PointDigitsParts(n: nat, d: nat)
    ensures AllDigits(WholeDigits(n, d)) && AllDigits(FractionDigits(n, d))
    ensures DecimalToNat(WholeDigits(n, d) + FractionDigits(n, d)) == n
  {
    PaddedDigitsValue(n, d);
    SplitDigits(PaddedDigits(n, d), d);
  }

  /** Deleting the point from `PointDigits(n, d)` leaves digits that read back as `n`. */
  lemma PointDigitsRoundTrip(n: nat, d: nat)
    ensures d == 0 ==> PointDigits(n, d) == NatToDecimal(n)
    ensures AllDigits(Remove(PointDigits(n, d), '.'))
    ensures DecimalToNat(Remove(PointDigits(n, d), '.')) == n
  {
    var a, b := WholeDigits(n, d), FractionDigits(n, d);
    PointDigitsParts(n, d);
    if d == 0 {
      assert a + b == a;
      RemoveAbsent(a, '.');
      assert PadLeft(NatToDecimal(n), 1, '0') == NatToDecimal(n);
    } else {
      RemovePoint(a, b);
    }
  }

  /** `toFixed` shows a minus sign exactly for negative numbers, and the digits
      around the decimal point read back as the rounded scaled magnitude. */
  lemma FixedRoundTrip(x: real, d: nat)
    ensures var s := Fixed(x, d);
      && |s| >= 1
      && (x < 0.0 <==> s[0] == '-')
      && var u := if x < 0.0 then s[1..] else s;
        AllDigits(Remove(u, '.')) && DecimalToNat(Remove(u, '.')) == FixedMagnitude(x, d)
  {
    var n := FixedMagnitude(x, d);
    var u := PointDigits(n, d);
    PointDigitsRoundTrip(n, d);
    assert |u| >= 1 && u[0] != '-' by {
      if d == 0 {
        assert IsDigit(u[0]);
      } else {
        assert IsDigit(u[..|u| - d - 1][0]);
      }
    }
    if x < 0.0 {
      assert Fixed(x, d)[1..] == u;
    } else {
      assert Fixed(x, d) == u;
    }
  }

  lemma {:induction false} ScaledIsPow10(x: real, d: nat)
    ensures Scaled(x, d) == Abs(x) * Pow10(d) as real
  {
    if d > 0 {
      ScaledIsPow10(x, d - 1);
    }
  }

  /** `t` shows x to `d` decimals: a minus sign exactly when x < 0, then digits
      around a point that read back as |x| scaled by 10^d, to within half a unit. */
  predicate Renders(t: string, x: real, d: nat) {
    && |t| >= 1
    && (x < 0.0 <==> t[0] == '-')
    && var u := if x < 0.0 then t[1..] else t;
       && AllDigits(Remove(u, '.'))
       && var n := DecimalToNat(Remove(u, '.')) as real;
          n - 0.5 <= Abs(x) * Pow10(d) as real < n + 0.5
  }

  /** `x.toFixed(d)` renders x to d decimals. */
  lemma FixedRenders(x: real, d: nat)
    ensures Renders(Fixed(x, d), x, d)
  {
    FixedRoundTrip(x, d);
    ScaledIsPow10(x, d);
  }

  lemma NatToDecimalTimesTen(m: nat)
    requires m >= 1
    ensures NatToDecimal(m * 10) == NatToDecimal(m) + "0"
  {
    assert (m * 10) / 10 == m && (m * 10) % 10 == 0;
  }

  lemma ScaledOfInteger(i: int, m: nat)
    requires m == if i < 0 then -i else i
    ensures Scaled(i as real, 3) == (m * 1000) as real
  {
    assert Scaled(i as real, 0) == m as real;
    assert Scaled(i as real, 1) == (m * 10) as real;
    assert Scaled(i as real, 2) == (m * 100) as real;
  }

  lemma DecimalOfThousands(m: nat)
    requires m >= 1
    ensures NatToDecimal(m * 1000) == NatToDecimal(m) + "000"
  {
    NatToDecimalTimesTen(m);
    NatToDecimalTimesTen(m * 10);
    NatToDecimalTimesTen(m * 100);
    assert m * 10 * 10 == m * 100 && m * 100 * 10 == m * 1000;
  }

  /** A count of thousandths whose digits end in three zeros shows only its
      whole part. */
  lemma LocaleDigitsOfWholeDigits(n: nat, a: string)
    requires NatToDecimal(n) == a + "000" && |a| >= 1
    ensures LocaleDigits(n) == GroupDigits(a)
  {
    var t := NatToDecimal(n);
    assert PadLeft(t, 4, '0') == t;
    assert t[..|t| - 3] == a;
    assert t[|t| - 3..] == "000";
    assert TrimTrailingZeros("000") == "";
  }

  lemma LocaleDigitsOfThousands(m: nat)
    ensures LocaleDigits(m * 1000) == GroupThousands(m)
  {
    if m == 0 {
      assert LocaleDigits(0) == "0";
    } else {
      DecimalOfThousands(m);
      LocaleDigitsOfWholeDigits(m * 1000, NatToDecimal(m));
    }
  }

  /** On a whole number `toLocaleString` is just the sign and the grouped digits. */
  lemma LocaleStringOfInteger(i: int)
    ensures LocaleString(i as real) == (if i < 0 then "-" else "") + GroupThousands(if i < 0 then -i else i)
  {
    var m: nat := if i < 0 then -i else i;
    ScaledOfInteger(i, m);
    assert FixedMagnitude(i as real, 3) == m * 1000;
    LocaleDigitsOfThousands(m);
  }

  // ---------------------------------------------------------------------------
  // Joining and searching

  lemma {:induction false} JoinStartsWith(parts: seq<string>, sep: string)
    requires |parts| > 0
    ensures StartsWith(Join(parts, sep), parts[0])
  {
    if |parts| > 1 {
      var init := parts[..|parts| - 1];
      JoinStartsWith(init, sep);
      var j := Join(init, sep);
      assert init[0] == parts[0];
      assert |parts[0]| <= |j| && j[..|parts[0]|] == parts[0];
      assert (j + sep + parts[|parts| - 1])[..|parts[0]|] == j[..|parts[0]|];
    }
  }

  lemma JoinEndsWith(parts: seq<string>, sep: string)
    requires |parts| > 0
    ensures EndsWith(Join(parts, sep), parts[|parts| - 1])
  {
  }

  lemma ContainsInfix(a: string, sub: string, b: string)
    ensures Contains(a + sub + b, sub)
  {
    var s := a + sub + b;
    assert s[|a|..|a| + |sub|] == sub;
    assert OccursAt(s, sub, |a|);
  }

  lemma ContainsExtend(s: string, sub: string, a: string, b: string)
    requires Contains(s, sub)
    ensures Contains(a + s + b, sub)
  {
    var i :| 0 <= i <= |s| - |sub| && OccursAt(s, sub, i);
    var t := a + s + b;
    assert t[|a| + i..|a| + i + |sub|] == s[i..i + |sub|];
    assert OccursAt(t, sub, |a| + i);
  }

  lemma ContainsAppend(s: string, sub: string, t: string)
    requires Contains(s, sub)
    ensures Contains(s + t, sub) && Contains(t + s, sub)
  {
    ContainsExtend(s, sub, "", t);
    assert "" + s + t == s + t;
    ContainsExtend(s, sub, t, "");
    assert t + s + "" == t + s;
  }

  lemma ContainsEnd(a: string, sub: string)
    ensures Contains(a + sub, sub)
  {
    ContainsInfix(a, sub, "");
    assert a + sub + "" == a + sub;
  }

  lemma StartsWithAppend(a: string, b: string)
    ensures StartsWith(a + b, a)
  {
    assert (a + b)[..|a|] == a;
  }

  lemma StartsWithExtend(s: string, prefix: string, t: string)
    requires StartsWith(s, prefix)
    ensures StartsWith(s + t, prefix)
  {
    assert (s + t)[..|prefix|] == s[..|prefix|];
  }

  /** Every part occurs in the joined text. */
  lemma {:induction false} JoinContains(parts: seq<string>, sep: string, k: nat)
    requires k < |parts|
    ensures Contains(Join(parts, sep), parts[k])
  {
    if |parts| == 1 {
      ContainsInfix("", parts[0], "");
      assert "" + parts[0] + "" == Join(parts, sep);
    } else {
      var init := parts[..|parts| - 1];
      var j := Join(init, sep);
      assert Join(parts, sep) == j + sep + parts[|parts| - 1];
      if k == |parts| - 1 {
        ContainsInfix(j + sep, parts[k], "");
        assert j + sep + parts[k] + "" == Join(parts, sep);
      } else {
        assert init[k] == parts[k];
        JoinContains(init, sep, k);
        ContainsExtend(j, parts[k], "", sep + parts[|parts| - 1]);
        assert "" + j + (sep + parts[|parts| - 1]) == Join(parts, sep);
      }
    }
  }

  /** A string in which the pattern's first character never occurs is left as it is. */
  lemma {:induction false} ReplaceAbsent(s: string, pat: string, rep: string)
    requires |pat| > 0
    requires forall i :: 0 <= i < |s| ==> s[i] != pat[0]
    ensures ReplaceAll(s, pat, rep) == s
  {
    if |s| >= |pat| {
      assert s[..|pat|][0] != pat[0];
      ReplaceAbsent(s[1..], pat, rep);
    }
  }

  /** JS `s.replace(/c/g, d)` for single characters: position by position, c becomes d. */
  lemma {:induction false} ReplaceCharAll(s: string, c: char, d: char)
    ensures var r := ReplaceAll(s, [c], [d]);
      |r| == |s| && forall i :: 0 <= i < |s| ==> r[i] == if s[i] == c then d else s[i]
  {
    if |s| >= 1 {
      ReplaceCharAll(s[1..], c, d);
    }
  }

  /** `s` is "$", then `x` to `d` decimals, then `suffix`. */
  predicate ShowsDollars(s: string, x: real, d: nat, suffix: string) {
    && |s| >= 2 + |suffix| && s[0] == '$' && s[|s| - |suffix|..] == suffix
    && Renders(s[1..|s| - |suffix|], x, d)
  }

  /** The template `$${x.toFixed(d)}${suffix}`. */
  function Dollars(x: real, d: nat, suffix: string): string {
    "$" + Fixed(x, d) + suffix
  }

  /** The digits between "$" and the suffix render the number. */
  lemma DollarsWithSuffix(x: real, d: nat, suffix: string)
    ensures ShowsDollars(Dollars(x, d, suffix), x, d, suffix)
  {
    var t := Fixed(x, d);
    FixedRenders(x, d);
    var s := "$" + t + suffix;
    assert s[1..|s| - |suffix|] == t;
    assert s[|s| - |suffix|..] == suffix;
  }

  lemma ShowsDollarsOf(s: string, x: real, d: nat, suffix: string)
    requires s == Dollars(x, d, suffix)
    ensures ShowsDollars(s, x, d, suffix)
  {
    DollarsWithSuffix(x, d, suffix);
  }

  /** `toFixed` starts with a minus sign or a digit. */
  lemma FixedLeadsWithDigit(x: real, d: nat)
    ensures |Fixed(x, d)| >= 1 && (Fixed(x, d)[0] == '-' || IsDigit(Fixed(x, d)[0]))
  {
    var n := FixedMagnitude(x, d);
    var m := PaddedDigits(n, d);
    var s := NatToDecimal(n);
    assert m == Repeat('0', |m| - |s|) + s;
    assert IsDigit(m[0]);
    assert WholeDigits(n, d)[0] == m[0];
    assert PointDigits(n, d)[0] == m[0];
  }

  /** The template `$${Math.round(x).toLocaleString()}`. */
  function RoundedDollars(x: real): string {
    "$" + LocaleString(RoundHalfUp(x) as real)
  }

  /** Whole dollars: the nearest integer (ties upward), grouped by thousands,
      reading back as that integer. */
  lemma RoundedDollarsReadsBack(x: real)
    ensures var r := RoundHalfUp(x);
      && RoundedDollars(x) == "$" + ((if r < 0 then "-" else "") + GroupThousands(NatAbs(r)))
      && Remove(GroupThousands(NatAbs(r)), ',') == NatToDecimal(NatAbs(r))
  {
    var r := RoundHalfUp(x);
    LocaleStringOfInteger(r);
    GroupThousandsRoundTrip(NatAbs(r));
  }

  /** Grouping keeps the leading digit in front. */
  lemma {:induction false} GroupDigitsHead(s: string)
    requires |s| >= 1
    ensures |GroupDigits(s)| >= 1 && GroupDigits(s)[0] == s[0]
  {
    if |s| > 3 {
      GroupDigitsHead(s[..|s| - 3]);
    }
  }

  /** The template `$${x.toLocaleString()}`. */
  function LocaleDollars(x: real): string {
    "$" + LocaleString(x)
  }

  /** A whole amount reads as its digits grouped by thousands. */
  lemma LocaleDollarsOfWhole(i: int)
    ensures LocaleDollars(i as real) == "$" + ((if i < 0 then "-" else "") + GroupThousands(NatAbs(i)))
    ensures Remove(GroupThousands(NatAbs(i)), ',') == NatToDecimal(NatAbs(i))
  {
    LocaleStringOfInteger(i);
    GroupThousandsRoundTrip(NatAbs(i));
  }

  /** `x.toFixed(0)` of a non-negative x within half of n is n's digits. */
  lemma FixedWhole(x: real, n: nat)
    requires 0.0 <= x && n as real - 0.5 <= x < n as real + 0.5
    ensures Fixed(x, 0) == NatToDecimal(n)
  {
    assert FixedMagnitude(x, 0) == n;
    assert PadLeft(NatToDecimal(n), 1, '0') == NatToDecimal(n);
  }

  function NatAbs(i: int): nat {
    if i < 0 then -i else i
  }

  // ---------------------------------------------------------------------------
  // Default number-to-string

  /** Whether x has at most d decimals. */
  predicate HasDecimals(x: real, d: nat) {
    var y := x * Pow10(d) as real;
    y.Floor as real == y
  }

  /** The fewest decimals from d up to 6 that show x exactly (6 when none do). */
  function FewestDecimals(x: real, d: nat): (k: nat)
    requires d <= 6
    ensures d <= k <= 6
    decreases 6 - d
  {
    if d == 6 || HasDecimals(x, d) then d else FewestDecimals(x, d + 1)
  }

  /** ECMAScript `String(x)` (and `${x}`) for a number with at most six
      decimals and magnitude below 10^21: the shortest decimal that is x. */
  function NumberString(x: real): string {
    Fixed(x, FewestDecimals(x, 0))
  }

  lemma {:induction false} FewestDecimalsLeast(x: real, d: nat)
    requires d <= 6 && HasDecimals(x, 6)
    ensures HasDecimals(x, FewestDecimals(x, d))
    ensures forall j :: d <= j < FewestDecimals(x, d) ==> !HasDecimals(x, j)
    decreases 6 - d
  {
    if d < 6 && !HasDecimals(x, d) {
      FewestDecimalsLeast(x, d + 1);
    }
  }

  /** For a number with at most six decimals, `String(x)` renders x with the
      fewest decimals that show it exactly. */
  lemma NumberStringExact(x: real)
    requires HasDecimals(x, 6)
    ensures var k := FewestDecimals(x, 0);
      && Renders(NumberString(x), x, k)
      && HasDecimals(x, k)
      && forall j :: 0 <= j < k ==> !HasDecimals(x, j)
  {
    FewestDecimalsLeast(x, 0);
    FixedRenders(x, FewestDecimals(x, 0));
  }
}
