/** lib/printfmt.c printnum and lib/string.c strtol: what one prints the other reads back. */
module PrintParse {
  // --- printnum ---

  const DIGITS: string := "0123456789abcdef"

  // The digits of num, most significant first.
  function Digits(num: nat, base: nat): (ds: string)
    requires 2 <= base <= 16
    ensures |ds| >= 1
    decreases num
  {
    (if num >= base then Digits(num / base, base) else []) + [DIGITS[num % base]]
  }

  function Pads(n: int, padc: char): (p: string)
    ensures |p| == (if n > 0 then n else 0) && forall i | 0 <= i < |p| :: p[i] == padc
  {
    seq(if n > 0 then n else 0, i => padc)
  }

  /** printnum with its output appended to what was printed before: padding up to the width, then the digits. */
  method Printnum(before: string, num: nat, base: nat, width: int, padc: char) returns (out: string)
    requires 2 <= base <= 16
    ensures out == before + Pads(width - |Digits(num, base)|, padc) + Digits(num, base)
    decreases num
  {
    hide Digits;
    hide Pads;
    QuotRem(num, base);
    if num >= base {
      out := Printnum(before, num / base, base, width - 1, padc);
    } else {
      out := PadLoop(before, width, padc);
    }
    PrintStep(before, num, base, width, padc, out);
    out := out + [DIGITS[num % base]];
  }

  // The last digit behind the others, or behind the padding.
  lemma PrintStep(before: string, num: nat, base: nat, width: int, padc: char, out: string)
    requires 2 <= base <= 16
    requires num >= base ==>
               num / base < num &&
               out == before + Pads(width - 1 - |Digits(num / base, base)|, padc) + Digits(num / base, base)
    requires num < base ==> out == before + Pads(width - 1, padc)
    ensures out + [DIGITS[num % base]] == before + Pads(width - |Digits(num, base)|, padc) + Digits(num, base)
  {
    DigitsStep(num, base);
    hide Digits;
    if num >= base {
      var q := Digits(num / base, base);
      Regroup(before, Pads(width - 1 - |q|, padc), q, DIGITS[num % base]);
    }
  }

  lemma Regroup(a: string, b: string, c: string, d: char)
    ensures a + b + c + [d] == a + b + (c + [d])
  {
  }

  // while (--width > 0) putch(padc)
  method PadLoop(before: string, width: int, padc: char) returns (out: string)
    ensures out == before + Pads(width - 1, padc)
  {
    out := before;
    var w := width - 1;
    while w > 0
      invariant w <= width - 1 && out == before + Pads(width - 1 - (if w > 0 then w else 0), padc)
    {
      PadsMore(width - 1 - w, padc);
      out := out + [padc];
      w := w - 1;
    }
  }

  lemma PadsMore(n: int, padc: char)
    requires n >= 0
    ensures Pads(n + 1, padc) == Pads(n, padc) + [padc]
  {
  }

  lemma DigitsStep(num: nat, base: nat)
    requires 2 <= base <= 16
    ensures num >= base ==> num / base < num && Digits(num, base) == Digits(num / base, base) + [DIGITS[num % base]]
    ensures num < base ==> Digits(num, base) == [DIGITS[num % base]]
  {
  }

  // --- strtol ---

  // What a 32-bit long makes of a result.
  function Long(x: int): int { (x + 0x8000_0000) % 0x1_0000_0000 - 0x8000_0000 }

  // *s, with the terminating zero at the end.
  function At(s: string, i: nat): char { if i < |s| then s[i] else '\0' }

  // The value of a digit character; 99 for anything else.
  function Dig(c: char): int {
    if '0' <= c <= '9' then c as int - '0' as int
    else if 'a' <= c <= 'z' then c as int - 'a' as int + 10
    else if 'A' <= c <= 'Z' then c as int - 'A' as int + 10
    else 99
  }

  function Blanks(s: string, i: nat): (j: nat)
    requires i <= |s|
    ensures i <= j <= |s|
    decreases |s| - i
  {
    if At(s, i) == ' ' || At(s, i) == '\t' then Blanks(s, i + 1) else i
  }

  // The digit loop from position i with val so far: the result and where it stops.
  function Number(s: string, i: nat, base: int, val: int): (r: (int, nat))
    requires i <= |s|
    ensures i <= r.1 <= |s|
    decreases |s| - i
  {
    if Dig(At(s, i)) < base && Dig(At(s, i)) != 99 then Number(s, i + 1, base, Long(val * base + Dig(At(s, i))))
        else (val, i)
  }

  // After the sign: the prefix, which may choose the base.
  function Prefix(s: string, i: nat, base: int): (r: (nat, int))
    requires i <= |s|
    ensures i <= r.0 <= |s|
  {
    if (base == 0 || base == 16) && At(s, i) == '0' && At(s, i + 1) == 'x' then (i + 2, 16)
    else if base == 0 && At(s, i) == '0' then (i + 1, 8)
    else if base == 0 then (i, 10)
    else (i, base)
  }

  function Parse(s: string, base: int): (int, nat) {
    var i := Blanks(s, 0);
    var j := if At(s, i) == '+' || At(s, i) == '-' then i + 1 else i;
    var (k, b) := Prefix(s, j, base);
    var (val, end) := Number(s, k, b, 0);
    (if At(s, i) == '-' then Long(-val) else val, end)
  }

  // The branches of the digit loop; 99 where it leaves the loop.
  method DigitOf(c: char) returns (dig: int)
    ensures dig == Dig(c)
  {
    if '0' <= c <= '9' {
      dig := c as int - '0' as int;
    } else if 'a' <= c <= 'z' {
      dig := c as int - 'a' as int + 10;
    } else if 'A' <= c <= 'Z' {
      dig := c as int - 'A' as int + 10;
    } else {
      dig := 99;
    }
  }

  /** strtol, for a 32-bit long. */
  method Strtol(s: string, base0: int) returns (val: int, end: nat)
    ensures (val, end) == Parse(s, base0)
  {
    hide Long;
    hide Dig;
    var neg, base, i := false, base0, 0;
    val := 0;
    while At(s, i) == ' ' || At(s, i) == '\t'
      invariant i <= |s| && Blanks(s, i) == Blanks(s, 0)
      decreases |s| - i
    {
      i := i + 1;
    }
    if At(s, i) == '+' {
      i := i + 1;
    } else if At(s, i) == '-' {
      i, neg := i + 1, true;
    }
    ghost var j := i;
    if (base == 0 || base == 16) && At(s, i) == '0' && At(s, i + 1) == 'x' {
      i, base := i + 2, 16;
    } else if base == 0 && At(s, i) == '0' {
      i, base := i + 1, 8;
    } else if base == 0 {
      base := 10;
    }
    val, end := DigitLoop(s, i, base);
    if neg {
      val := Long(-val);
    }
  }

  method DigitLoop(s: string, k: nat, base: int) returns (val: int, end: nat)
    requires k <= |s|
    ensures (val, end) == Number(s, k, base, 0)
  {
    hide Long;
    hide Dig;
    val, end := 0, k;
    while true
      invariant end <= |s| && Number(s, end, base, val) == Number(s, k, base, 0)
      decreases |s| - end
    {
      var dig := DigitOf(At(s, end));
      if dig == 99 || dig >= base {
        break;
      }
      end, val := end + 1, Long(val * base + dig);
    }
  }

  // --- the round trip ---

  // A digit of the base, as printnum writes it.
  predicate IsDigit(c: char, base: nat) { 0 <= Dig(c) < base && c != ' ' && c != '\t' && c != '+' && c != '-' &&
                    c != 'x' }

  predicate Plain(s: string, base: nat) { forall i | 0 <= i < |s| :: IsDigit(s[i], base) }

  function Value(ds: string, base: nat): int {
    if ds == [] then 0 else Value(ds[..|ds| - 1], base) * base + Dig(ds[|ds| - 1])
  }

  lemma DigitOk(base: nat, d: nat)
    requires 2 <= base <= 16 && d < base
    ensures IsDigit(DIGITS[d], base) && Dig(DIGITS[d]) == d
  {
  }

  lemma ValueAppend(ds: string, c: char, base: nat)
    ensures Value(ds + [c], base) == Value(ds, base) * base + Dig(c)
  {
    hide Dig;
    assert (ds + [c])[..|ds|] == ds;
  }

  lemma QuotRem(num: nat, base: nat)
    requires base >= 2
    ensures num == num / base * base + num % base && num % base < base && (num < base ==> num / base == 0)
    ensures num >= base ==> num / base < num
  {
  }

  /** printnum writes digits of the base, and their value is the number. */
  lemma {:induction false} DigitsValue(num: nat, base: nat)
    requires 2 <= base <= 16
    ensures Plain(Digits(num, base), base) && Value(Digits(num, base), base) == num
    decreases num
  {
    hide Dig;
    hide IsDigit;
    hide Value;
    QuotRem(num, base);
    var d, q := num % base, num / base;
    DigitOk(base, d);
    if num >= base {
      DigitsValue(q, base);
      ValueAppend(Digits(q, base), DIGITS[d], base);
    } else {
      ValueAppend([], DIGITS[d], base);
      assert [] + [DIGITS[d]] == [DIGITS[d]];
      ValueNil(base);
    }
  }

  lemma ValueNil(base: nat)
    ensures Value([], base) == 0
  {
  }

  lemma {:induction false} PadsValue(n: int, ds: string, base: nat)
    ensures Value(Pads(n, '0') + ds, base) == Value(ds, base)
    decreases |ds|, n
  {
    var s := Pads(n, '0') + ds;
    if ds != [] {
      PadsValue(n, ds[..|ds| - 1], base);
      assert s[..|s| - 1] == Pads(n, '0') + ds[..|ds| - 1];
    } else if n > 0 {
      PadsValue(n - 1, [], base);
      assert s[..|s| - 1] == Pads(n - 1, '0') + [];
      assert s[|s| - 1] == '0';
    } else {
      assert s == [];
    }
  }

  lemma LongShift(x: int, m: int)
    ensures Long(x + m * 0x1_0000_0000) == Long(x)
  {
  }

  // Reducing early or late makes no difference.
  lemma LongStep(a: int, base: nat, d: int)
    ensures Long(Long(a) * base + d) == Long(a * base + d)
  {
    var m := -((a + 0x8000_0000) / 0x1_0000_0000);
    assert Long(a) == a + m * 0x1_0000_0000;
    assert Long(a) * base + d == a * base + d + (m * base) * 0x1_0000_0000 by {
      assert (a + m * 0x1_0000_0000) * base == a * base + m * 0x1_0000_0000 * base;
      assert m * 0x1_0000_0000 * base == (m * base) * 0x1_0000_0000;
    }
    LongShift(a * base + d, m * base);
  }

  lemma {:induction false} NumberValue(s: string, k: nat, i: nat, base: nat)
    requires k <= i <= |s| && 2 <= base <= 16 && Plain(s[k..], base)
    ensures Number(s, i, base, Long(Value(s[k..i], base))) == (Long(Value(s[k..], base)), |s|)
    decreases |s| - i
  {
    hide Long;
    hide Dig;
    hide Value;
    if i < |s| {
      var v, d := Value(s[k..i], base), Dig(s[i]);
      assert IsDigit(s[k..][i - k], base);
      ValueAppend(s[k..i], s[i], base);
      assert s[k..i + 1] == s[k..i] + [s[i]];
      LongStep(v, base, d);
      NumberValue(s, k, i + 1, base);
    } else {
      assert s[k..i] == s[k..];
    }
  }

  lemma {:induction false} BlanksStop(s: string, i: nat, k: nat)
    requires i <= k < |s| && (forall j | i <= j < k :: s[j] == ' ') && s[k] != ' ' && s[k] != '\t'
    ensures Blanks(s, i) == k
    decreases k - i
  {
    if i < k {
      BlanksStop(s, i + 1, k);
    }
  }

  // Blanks and then digits of the base.
  lemma ParsePlain(s: string, k: nat, base: nat)
    requires 2 <= base <= 16 && k < |s| && (forall j | 0 <= j < k :: s[j] == ' ') && Plain(s[k..], base)
    ensures Parse(s, base) == (Long(Value(s[k..], base)), |s|)
  {
    hide Dig;
    hide Number;
    assert s[k..][0] == s[k];
    assert k + 1 < |s| ==> s[k..][1] == s[k + 1];
    BlanksStop(s, 0, k);
    assert Value(s[k..k], base) == 0 && Long(0) == 0;
    NumberValue(s, k, k, base);
  }

  lemma ZeroIsDigit(base: nat)
    requires base >= 2
    ensures IsDigit('0', base)
  {
  }

  /** For every number, base, width and padding with blanks or zeros, strtol reads printnum's output to the end and
      returns the number as a 32-bit long, which is the number itself if and only if it is below 2^31; and the output
      is as long as the larger of the width and the number of digits. */
  lemma RoundTrip(num: nat, base: nat, width: int, padc: char)
    requires 2 <= base <= 16 && (padc == ' ' || padc == '0')
    ensures var out := Pads(width - |Digits(num, base)|, padc) + Digits(num, base);
            && Parse(out, base) == (Long(num), |out|)
            && |out| == (if width > |Digits(num, base)| then width else |Digits(num, base)|)
    ensures Long(num) == num <==> num < 0x8000_0000
  {
    hide Parse;
    hide Dig;
    hide Digits;
    hide Value;
    var ds := Digits(num, base);
    var n := width - |ds|;
    var p := Pads(n, padc);
    var out := p + ds;
    DigitsValue(num, base);
    if padc == ' ' {
      assert out[|p|..] == ds;
      ParsePlain(out, |p|, base);
    } else {
      assert out[0..] == out;
      ZeroIsDigit(base);
      assert Plain(out, base);
      PadsValue(n, ds, base);
      ParsePlain(out, 0, base);
    }
  }

  // --- every numeral ---

  // A digit of a base up to 36, in either case.
  predicate InBase(c: char, base: nat) { 0 <= Dig(c) < base && base <= 36 }

  /** Capital and small letters are the same digits, ten to thirty-five in the order of the alphabet. */
  lemma CaseOfDigits(k: nat)
    requires k < 26
    ensures Dig('a' + k as char) == 10 + k == Dig('A' + k as char)
    ensures k < 10 ==> Dig('0' + k as char) == k
  {
  }

  lemma {:induction false} NumberStops(s: string, k: nat, i: nat, end: nat, base: nat)
    requires k <= i <= end <= |s| && 2 <= base <= 36 && (forall j | k <= j < end :: InBase(s[j], base))
    requires end == |s| || !InBase(s[end], base)
    ensures Number(s, i, base, Long(Value(s[k..i], base))) == (Long(Value(s[k..end], base)), end)
    decreases end - i
  {
    hide Long;
    hide Dig;
    hide Value;
    if i < end {
      var v, d := Value(s[k..i], base), Dig(s[i]);
      assert InBase(s[i], base);
      ValueAppend(s[k..i], s[i], base);
      assert s[k..i + 1] == s[k..i] + [s[i]];
      LongStep(v, base, d);
      NumberStops(s, k, i + 1, end, base);
    } else {
      NotDigit(s, end, base);
    }
  }

  lemma NotDigit(s: string, end: nat, base: nat)
    requires end <= |s| && 2 <= base <= 36 && (end == |s| || !InBase(s[end], base))
    ensures !(Dig(At(s, end)) < base && Dig(At(s, end)) != 99)
  {
  }

  predicate IsBlank(c: char) { c == ' ' || c == '\t' }

  // From j on, a prefix that goes with the base argument; the digits begin at k and are of the base.
  predicate Selects(s: string, j: nat, base0: int, k: nat, base: nat) {
    var hex := At(s, j) == '0' && At(s, j + 1) == 'x';
    || (hex && (base0 == 0 || base0 == 16) && k == j + 2 && base == 16)
    || (!hex && At(s, j) == '0' && base0 == 0 && k == j + 1 && base == 8)
    || (At(s, j) != '0' && base0 == 0 && k == j && base == 10)
    || (2 <= base0 <= 36 && !(hex && base0 == 16) && k == j && base == base0)
  }

  lemma {:induction false} BlanksEnd(s: string, i: nat, k: nat)
    requires i <= k <= |s| && (forall j | i <= j < k :: IsBlank(s[j])) && !IsBlank(At(s, k))
    ensures Blanks(s, i) == k
    decreases k - i
  {
    if i < k {
      BlanksEnd(s, i + 1, k);
    }
  }

  lemma LongNegated(x: int)
    ensures Long(-Long(x)) == Long(-x)
  {
    var m := -((x + 0x8000_0000) / 0x1_0000_0000);
    assert Long(x) == x + m * 0x1_0000_0000;
    LongShift(-x, -m);
  }

  /** Every string: blanks and tabs up to b, a sign or none, a prefix that fits the base argument or none, digits in
      either case from k up to `end`, and then something that is no digit. strtol returns the value of the digits with
      the sign, as a 32-bit long, and stops behind them. */
  lemma NumeralParsed(s: string, base0: int, b: nat, k: nat, end: nat, base: nat)
    requires b <= |s| && (forall i | 0 <= i < b :: IsBlank(s[i])) && !IsBlank(At(s, b))
    requires Selects(s, if At(s, b) == '+' || At(s, b) == '-' then b + 1 else b, base0, k, base)
    requires k <= end <= |s| && forall i | k <= i < end :: InBase(s[i], base)
    requires end == |s| || !InBase(s[end], base)
    ensures var v := Value(s[k..end], base); Parse(s, base0) == (Long(if At(s, b) == '-' then -v else v), end)
  {
    hide Dig;
    hide Value;
    hide Long;
    hide InBase;
    hide Number;
    BlanksEnd(s, 0, b);
    DigitsParsed(s, k, end, base);
    LongNegated(Value(s[k..end], base));
  }

  lemma DigitsParsed(s: string, k: nat, end: nat, base: nat)
    requires 2 <= base <= 36 && k <= end <= |s| && forall i | k <= i < end :: InBase(s[i], base)
    requires end == |s| || !InBase(s[end], base)
    ensures Number(s, k, base, 0) == (Long(Value(s[k..end], base)), end)
  {
    hide Dig;
    hide InBase;
    hide Number;
    NumberStops(s, k, k, end, base);
    assert s[k..k] == [];
  }
}
