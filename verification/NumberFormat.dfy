/** number of kernel/vsprintf.c. */
module NumberFormat {

  /** The bits of `type`. */
  datatype Flags = Flags(zeropad: bool, sign: bool, plus: bool, space: bool, left: bool, special: bool, small: bool)

  /** A 32-bit int and its bits. */
  predicate IsInt(n: int) { -0x8000_0000 <= n <= 0x7fff_ffff }

  function Unsigned(n: int): nat { n % 0x1_0000_0000 }

  const UPPER: string := "0123456789ABCDEFGHIJKLMNOPQRSTUVWXYZ"
  const LOWER: string := "0123456789abcdefghijklmnopqrstuvwxyz"

  function Alphabet(small: bool): (s: string)
    ensures |s| == 36
  {
    if small then LOWER else UPPER
  }

  /** Entry d of the table: ten digits and the letters. */
  function DigitChar(d: nat, small: bool): char
    requires d < 36
  {
    if d < 10 then '0' + d as char else if small then 'a' + (d - 10) as char else 'A' + (d - 10) as char
  }

  lemma TableIs(d: nat, small: bool)
    requires d < 36
    ensures Alphabet(small)[d] == DigitChar(d, small)
  {
  }

  /** The number that a digit stands for, in either alphabet. */
  function DigitValue(c: char): int {
    if '0' <= c <= '9' then c as int - '0' as int
    else if 'A' <= c <= 'Z' then c as int - 'A' as int + 10
    else if 'a' <= c <= 'z' then c as int - 'a' as int + 10
    else -1
  }

  /** The number that a string of digits stands for. */
  function ValueOf(s: string, base: nat): int {
    if s == "" then 0 else ValueOf(s[..|s| - 1], base) * base + DigitValue(s[|s| - 1])
  }

  /** The digits of n, most significant first; none for 0. */
  function Raw(n: nat, base: nat, small: bool): string
    requires 2 <= base <= 36
    decreases n
  {
    if n == 0 then "" else Raw(n / base, base, small) + [DigitChar(n % base, small)]
  }

  function Digits(n: nat, base: nat, small: bool): string
    requires 2 <= base <= 36
  {
    if n == 0 then "0" else Raw(n, base, small)
  }

  function Repeat(c: char, n: int): (s: string)
    ensures |s| == if n > 0 then n else 0
  {
    if n <= 0 then "" else seq(n, _ => c)
  }

  // ---------------------------------------------------------------- the digits

  lemma DigitIs(d: nat, small: bool)
    requires d < 36
    ensures DigitValue(DigitChar(d, small)) == d
  {
  }

  /** The digits read back to the number, in every base. */
  lemma {:induction false} RawReadsBack(n: nat, base: nat, small: bool)
    requires 2 <= base <= 36
    ensures ValueOf(Raw(n, base, small), base) == n
    decreases n
  {
    if n > 0 {
      var q, d := DivMod(n, base);
      RawReadsBack(q, base, small);
      assert Raw(n, base, small) == Raw(q, base, small) + [DigitChar(d, small)];
      ReadStep(Raw(q, base, small), q, d, base, small);
    }
  }

  lemma ReadStep(s: string, q: nat, d: nat, base: nat, small: bool)
    requires d < 36 && ValueOf(s, base) == q
    ensures ValueOf(s + [DigitChar(d, small)], base) == q * base + d
  {
    LastDigit(s, DigitChar(d, small), base);
    DigitIs(d, small);
  }

  lemma LastDigit(s: string, c: char, base: nat)
    ensures ValueOf(s + [c], base) == ValueOf(s, base) * base + DigitValue(c)
  {
    assert (s + [c])[..|s|] == s;
  }

  lemma DivMod(n: nat, base: nat) returns (q: nat, d: nat)
    requires base > 0
    ensures q == n / base && d == n % base && d < base && n == q * base + d
    ensures base >= 2 && n > 0 ==> q < n
  {
    q, d := n / base, n % base;
  }

  function Pow2(k: nat): nat { if k == 0 then 1 else 2 * Pow2(k - 1) }

  /** A number below 2^k has at most k digits, so tmp[36] is long enough. */
  lemma {:induction false} RawLength(n: nat, base: nat, small: bool, k: nat)
    requires 2 <= base <= 36 && n < Pow2(k)
    ensures |Raw(n, base, small)| <= k
    decreases n
  {
    if n > 0 {
      HalfAtLeast(n, base);
      RawLength(n / base, base, small, k - 1);
    }
  }

  lemma HalfAtLeast(n: nat, base: nat)
    requires base >= 2
    ensures n / base <= n / 2
  {
    var q, d := DivMod(n, base);
    Doubled(q, base);
  }

  lemma Doubled(q: nat, base: nat)
    requires base >= 2
    ensures q * base >= q * 2
  {
  }

  /** No digit string but "0" starts with a 0. */
  lemma {:induction false} NoLeadingZero(n: nat, base: nat, small: bool)
    requires 2 <= base <= 36 && n > 0
    ensures Raw(n, base, small) != "" && Raw(n, base, small)[0] != '0'
    decreases n
  {
    var q, d := DivMod(n, base);
    if q > 0 {
      NoLeadingZero(q, base, small);
    } else {
      DigitIs(d, small);
      assert Raw(q, base, small) == "" && Raw(n, base, small) == [DigitChar(d, small)];
      SmallDivision(n, base);
    }
  }

  lemma SmallDivision(n: nat, base: nat)
    requires base >= 2 && n / base == 0
    ensures n % base == n
  {
    assert n == n / base * base + n % base;
  }

  /** Leading zeros do not count. */
  lemma {:induction false} ZerosReadBack(k: nat, s: string, base: nat)
    ensures ValueOf(Repeat('0', k) + s, base) == ValueOf(s, base)
  {
    var z := Repeat('0', k);
    if s == "" {
      assert z + s == z;
      AllZeros(k, base);
    } else {
      ZerosReadBack(k, s[..|s| - 1], base);
      assert (z + s)[..|z + s| - 1] == z + s[..|s| - 1];
    }
  }

  lemma {:induction false} AllZeros(k: nat, base: nat)
    ensures ValueOf(Repeat('0', k), base) == 0
  {
    if k > 0 {
      AllZeros(k - 1, base);
      assert Repeat('0', k)[..k - 1] == Repeat('0', k - 1);
    }
  }

  // ---------------------------------------------------------------- the whole field

  /** The bits whose digits are shown: for a negative signed number those of -num, which for the
      smallest int are its own. */
  function Magnitude(num: int, f: Flags): nat
    requires IsInt(num)
  {
    if f.sign && num < 0 then Unsigned(-num) else Unsigned(num)
  }

  function SignOf(num: int, f: Flags): string {
    if f.sign && num < 0 then "-" else if f.plus then "+" else if f.space then " " else ""
  }

  function Prefix(base: nat, f: Flags): string {
    if !f.special then "" else if base == 8 then "0" else if base == 16 then ['0', if f.small then 'x' else 'X'] else ""
  }

  function Max(a: int, b: int): int { if a < b then b else a }

  /** Digits with zeros in front up to the precision. */
  function Padded(digits: string, precision: int): string { Repeat('0', precision - |digits|) + digits }

  /** Blanks that the field still lacks. */
  function Missing(num: int, base: nat, size: int, precision: int, f: Flags): int
    requires IsInt(num) && 2 <= base <= 36
  {
    size - |SignOf(num, f)| - |Prefix(base, f)| - |Padded(Digits(Magnitude(num, f), base, f.small), precision)|
  }

  /** Everything before the digits; they come after it with zeros in front if the field asks for those. */
  function Lead(num: int, base: nat, pad: int, f: Flags): string
    requires IsInt(num) && 2 <= base <= 36
  {
    Repeat(' ', if f.left || f.zeropad then 0 else pad) + SignOf(num, f) + Prefix(base, f)
  }

  function Body(num: int, base: nat, precision: int, pad: int, f: Flags): string
    requires IsInt(num) && 2 <= base <= 36
  {
    Repeat('0', if f.zeropad && !f.left then pad else 0) + Padded(Digits(Magnitude(num, f), base, f.small), precision)
  }

  function Trail(pad: int, f: Flags): string { Repeat(' ', if f.left then pad else 0) }

  /** What number writes. */
  function Field(num: int, base: nat, size: int, precision: int, f: Flags): string
    requires IsInt(num) && 2 <= base <= 36
  {
    var pad := Missing(num, base, size, precision, f);
    Lead(num, base, pad, f) + Body(num, base, precision, pad, f) + Trail(pad, f)
  }

  lemma MagnitudeIs(num: int, f: Flags)
    requires IsInt(num)
    ensures f.sign ==> Magnitude(num, f) == if num < 0 then -num else num
    ensures !f.sign ==> Magnitude(num, f) == if num < 0 then num + 0x1_0000_0000 else num
    ensures Magnitude(num, f) < 0x1_0000_0000
  {
  }

  /** The field is exactly as wide as it has to be. */
  lemma FieldWidth(num: int, base: nat, size: int, precision: int, f: Flags)
    requires IsInt(num) && 2 <= base <= 36
    ensures |Field(num, base, size, precision, f)|
         == Max(size, |SignOf(num, f)| + |Prefix(base, f)| + Max(|Digits(Magnitude(num, f), base, f.small)|, precision))
  {
  }

  /** Behind blanks, sign and prefix, and before trailing blanks, stand digits that read back to the number. */
  lemma FieldReadsBack(num: int, base: nat, size: int, precision: int, f: Flags) returns (from: nat, to: nat, pad: int)
    requires IsInt(num) && 2 <= base <= 36
    ensures var s := Field(num, base, size, precision, f);
      && from <= to <= |s| && ValueOf(s[from..to], base) == Magnitude(num, f)
      && s[..from] == Lead(num, base, pad, f) && s[to..] == Trail(pad, f)
  {
    pad := Missing(num, base, size, precision, f);
    BodyReadsBack(num, base, precision, pad, f);
    from, to := Parts(Lead(num, base, pad, f), Body(num, base, precision, pad, f), Trail(pad, f));
  }

  lemma BodyReadsBack(num: int, base: nat, precision: int, pad: int, f: Flags)
    requires IsInt(num) && 2 <= base <= 36
    ensures ValueOf(Body(num, base, precision, pad, f), base) == Magnitude(num, f)
  {
    var digits := Digits(Magnitude(num, f), base, f.small);
    DigitsReadBack(Magnitude(num, f), base, f.small);
    SomeZerosReadBack(precision - |digits|, digits, base);
    SomeZerosReadBack(if f.zeropad && !f.left then pad else 0, Padded(digits, precision), base);
  }

  lemma SomeZerosReadBack(k: int, s: string, base: nat)
    ensures ValueOf(Repeat('0', k) + s, base) == ValueOf(s, base)
  {
    if k > 0 {
      ZerosReadBack(k, s, base);
    } else {
      assert Repeat('0', k) + s == s;
    }
  }

  lemma Parts(a: string, b: string, c: string) returns (from: nat, to: nat)
    ensures from <= to <= |a + b + c|
    ensures (a + b + c)[..from] == a && (a + b + c)[from..to] == b && (a + b + c)[to..] == c
  {
    from, to := |a|, |a| + |b|;
  }

  lemma DigitsReadBack(n: nat, base: nat, small: bool)
    requires 2 <= base <= 36
    ensures ValueOf(Digits(n, base, small), base) == n
  {
    if n == 0 {
      assert "0"[..0] == "";
    } else {
      RawReadsBack(n, base, small);
    }
  }

  // ---------------------------------------------------------------- the field in characters

  /** A number below the base is one character of the alphabet, and a larger one is written behind the rest. */
  lemma DigitsAre(n: nat, base: nat, small: bool)
    requires 2 <= base <= 36
    ensures var table :=
        if small then "0123456789abcdefghijklmnopqrstuvwxyz" else "0123456789ABCDEFGHIJKLMNOPQRSTUVWXYZ";
      n < base ==> Digits(n, base, small) == [table[n]]
    ensures n >= base ==> Digits(n, base, small) == Digits(n / base, base, small) + Digits(n % base, base, small)
  {
    var q, d := DivMod(n, base);
    if n < base {
      Quotient(n, base, q);
      assert Raw(0, base, small) == "";
      TableIs(n, small);
    } else {
      Quotient(d, base, 0);
      assert q > 0 && Raw(0, base, small) == "";
    }
  }

  lemma Quotient(n: nat, base: nat, q: nat)
    requires n < base
    ensures n / base == 0 && n % base == n
  {
  }

  /** A minus for a negative signed number, else a plus or a blank if asked for. */
  lemma SignIs(num: int, f: Flags)
    ensures f.sign && num < 0 ==> SignOf(num, f) == "-"
    ensures !(f.sign && num < 0) && f.plus ==> SignOf(num, f) == "+"
    ensures !(f.sign && num < 0) && !f.plus && f.space ==> SignOf(num, f) == " "
    ensures !(f.sign && num < 0) && !f.plus && !f.space ==> SignOf(num, f) == ""
  {
  }

  /** 0 before octal and 0x or 0X before hexadecimal digits, if asked for. */
  lemma PrefixIs(base: nat, f: Flags)
    ensures f.special && base == 8 ==> Prefix(base, f) == "0"
    ensures f.special && base == 16 && f.small ==> Prefix(base, f) == "0x"
    ensures f.special && base == 16 && !f.small ==> Prefix(base, f) == "0X"
    ensures !f.special || (base != 8 && base != 16) ==> Prefix(base, f) == ""
  {
  }

  /** n times the character c. */
  predicate AllOf(s: string, c: char, n: int) {
    |s| == (if n > 0 then n else 0) && forall k :: 0 <= k < |s| ==> s[k] == c
  }

  /** The field by its flags: sign, prefix, zeros up to the precision and the digits; and the rest of the width as
      blanks behind them, as zeros behind the prefix, or as blanks in front. */
  lemma FieldIs(num: int, base: nat, size: int, precision: int, f: Flags)
    returns (front: string, zeros: string, more: string, digits: string, behind: string)
    requires IsInt(num) && 2 <= base <= 36
    ensures digits == Digits(if f.sign && num < 0 then -num else if num < 0 then num + 0x1_0000_0000 else num,
                             base, f.small)
    ensures Field(num, base, size, precision, f)
         == front + SignOf(num, f) + Prefix(base, f) + zeros + more + digits + behind
    ensures AllOf(more, '0', precision - |digits|)
    ensures var room := size - |SignOf(num, f)| - |Prefix(base, f)| - |more| - |digits|;
      && AllOf(behind, ' ', if f.left then room else 0)
      && AllOf(zeros, '0', if f.zeropad && !f.left then room else 0)
      && AllOf(front, ' ', if f.zeropad || f.left then 0 else room)
  {
    MagnitudeIs(num, f);
    digits := Digits(Magnitude(num, f), base, f.small);
    more := Repeat('0', precision - |digits|);
    var room := Missing(num, base, size, precision, f);
    front := Repeat(' ', if f.left || f.zeropad then 0 else room);
    zeros := Repeat('0', if f.zeropad && !f.left then room else 0);
    behind := Repeat(' ', if f.left then room else 0);
    Joined(front + SignOf(num, f) + Prefix(base, f), zeros, more, digits, behind);
  }

  lemma Joined(a: string, b: string, c: string, d: string, e: string)
    ensures a + (b + (c + d)) + e == a + b + c + d + e
  {
  }

  // ---------------------------------------------------------------- the code

  /** A padding loop: n times the same character. */
  method Emit(out: string, c: char, n: int) returns (r: string, left: int)
    ensures r == out + Repeat(c, n) && left == if n > 0 then -1 else n - 1
  {
    r, left := out, n;
    while left > 0
      invariant left <= n && (n > 0 ==> left >= 0) && (n <= 0 ==> left == n)
      invariant r == out + Repeat(c, n - left)
    {
      left := left - 1;
      assert Repeat(c, n - left) == Repeat(c, n - left - 1) + [c];
      r := r + [c];
    }
    left := left - 1;
  }

  /** The digits are produced backwards into tmp. */
  method FillDigits(tmp: array<char>, num: nat, base: nat, small: bool) returns (i: nat)
    requires tmp.Length == 36 && 2 <= base <= 36 && num < 0x1_0000_0000
    modifies tmp
    ensures 0 < i <= 32 && Backwards(tmp[..i]) == Digits(num, base, small)
  {
    i := 0;
    if num == 0 {
      tmp[0] := '0';
      assert tmp[..1] == ['0'];
      return 1;
    }
    var n: nat := num;
    Pow32();
    ghost var k: nat := 32;
    while n != 0
      invariant i + k == 32 && n < Pow2(k) && (n == num || i > 0)
      invariant Raw(n, base, small) + Backwards(tmp[..i]) == Raw(num, base, small)
    {
      n := FillDigit(tmp, i, n, base, small, k);
      i, k := i + 1, k - 1;
    }
  }

  /** One turn of it, for a number below 2^k. */
  method FillDigit(tmp: array<char>, i: nat, n: nat, base: nat, small: bool, ghost k: nat) returns (q: nat)
    requires i < tmp.Length && 2 <= base <= 36 && 0 < n < Pow2(k)
    modifies tmp
    ensures k > 0 && q < Pow2(k - 1) && q < n
    ensures Raw(q, base, small) + Backwards(tmp[..i + 1]) == Raw(n, base, small) + Backwards(old(tmp[..i]))
  {
    ghost var before := tmp[..i];
    TableIs(n % base, small);
    tmp[i] := Alphabet(small)[n % base];
    assert tmp[..i + 1] == before + [tmp[i]];
    BackwardsMore(before, tmp[i], Raw(n / base, base, small));
    PowStep(n, base, k);
    q := n / base;
  }

  function Backwards(s: string): (r: string)
    ensures |r| == |s|
  {
    if s == "" then "" else [s[|s| - 1]] + Backwards(s[..|s| - 1])
  }

  lemma PowStep(n: nat, base: nat, k: nat)
    requires base >= 2 && 0 < n < Pow2(k) && k > 0
    ensures 0 <= n / base < Pow2(k - 1) && n / base < n
  {
    HalfAtLeast(n, base);
  }

  lemma BackwardsMore(s: string, c: char, r: string)
    ensures r + [c] + Backwards(s) == r + Backwards(s + [c])
  {
    assert (s + [c])[..|s|] == s;
  }

  lemma {:induction false} Pow2Sum(a: nat, b: nat)
    ensures Pow2(a + b) == Pow2(a) * Pow2(b)
  {
    if a > 0 { Pow2Sum(a - 1, b); }
  }

  lemma Pow32()
    ensures Pow2(32) == 0x1_0000_0000
  {
    assert Pow2(2) == 4;
    Pow2Sum(2, 2);
    Pow2Sum(4, 4);
    Pow2Sum(8, 8);
    Pow2Sum(16, 16);
  }

  /** number; None is its null pointer for an impossible base. */
  method Number(num: int, base: int, size: int, precision: int, f: Flags) returns (str: Option<string>)
    requires IsInt(num)
    ensures str == if base < 2 || base > 36 then None else Some(Field(num, base, size, precision, f))
  {
    if base < 2 || base > 36 {
      return None;
    }
    var left, n := size, Unsigned(num);
    var sign := if f.plus then "+" else if f.space then " " else "";
    if f.sign && num < 0 {
      sign := "-";
      n := Unsigned(-num);
    }
    assert sign == SignOf(num, f) && n == Magnitude(num, f);
    if sign != "" { left := left - 1; }
    if f.special {
      if base == 16 {
        left := left - 2;
      } else if base == 8 {
        left := left - 1;
      }
    }
    var tmp := new char[36];
    var i := FillDigits(tmp, n, base, f.small);
    var p := if i > precision then i else precision;
    left := left - p;
    assert |Padded(Digits(n, base, f.small), precision)| == p;
    assert left == Missing(num, base, size, precision, f);
    var out := WriteField(num, base, left, sign, f, size, precision, tmp, i, p);
    str := Some(out);
  }

  /** Everything after the last `size -= precision`. */
  method WriteField(ghost num: int, base: nat, pad: int, sign: string, f: Flags, ghost size: int, ghost precision: int,
                    tmp: array<char>, i: nat, p: int) returns (out: string)
    requires IsInt(num) && 2 <= base <= 36 && sign == SignOf(num, f) && pad == Missing(num, base, size, precision, f)
    requires i <= tmp.Length && p == Max(i, precision)
    requires Backwards(tmp[..i]) == Digits(Magnitude(num, f), base, f.small)
    ensures out == Field(num, base, size, precision, f)
  {
    var zeropad := f.zeropad && !f.left;
    var c := if zeropad then '0' else ' ';
    var left: int;
    out, left := EmitLead(num, base, pad, sign, f);
    ghost var lead := out;
    if !f.left {
      out, left := Emit(out, c, left);
    }
    ghost var zeros := Repeat('0', if zeropad then pad else 0);
    assert out == lead + zeros;
    out := EmitDigits(out, tmp, i, p);
    Assoc(lead, zeros, Padded(Backwards(tmp[..i]), p));
    assert Padded(Backwards(tmp[..i]), p) == Padded(Digits(Magnitude(num, f), base, f.small), precision);
    out, left := Emit(out, ' ', left);
  }

  lemma Assoc(a: string, b: string, c: string)
    ensures a + b + c == a + (b + c)
  {
  }

  /** The blanks in front, the sign and the prefix. */
  method EmitLead(ghost num: int, base: nat, pad: int, sign: string, f: Flags) returns (out: string, left: int)
    requires IsInt(num) && 2 <= base <= 36 && sign == SignOf(num, f)
    ensures out == Lead(num, base, pad, f)
    ensures left == if f.left || f.zeropad then pad else if pad > 0 then -1 else pad - 1
  {
    out, left := "", pad;
    if !f.zeropad && !f.left {
      out, left := Emit(out, ' ', left);
    }
    out := out + sign;
    if f.special {
      if base == 8 {
        out := out + "0";
      } else if base == 16 {
        TableIs(33, f.small);
        out := out + ['0', Alphabet(f.small)[33]];
      }
    }
  }

  /** The zeros up to the precision and the digits out of tmp. */
  method EmitDigits(out: string, tmp: array<char>, count: nat, precision: int) returns (r: string)
    requires count <= tmp.Length && count <= precision
    ensures r == out + Padded(Backwards(tmp[..count]), precision)
  {
    var zeros: int;
    r, zeros := Emit(out, '0', precision - count);
    ghost var before, digits := r, Backwards(tmp[..count]);
    var i := count;
    while i > 0
      invariant 0 <= i <= count && before + digits == r + Backwards(tmp[..i])
    {
      i := i - 1;
      assert tmp[..i + 1][..i] == tmp[..i];
      r := r + [tmp[i]];
    }
    assert r == before + digits;
  }

  datatype Option<T> = None | Some(value: T)
}
