/** riscv-tests/benchmarks/common/syscalls.c: digits of numbers, printnum and atol. */
module Digits {

  /** The character of a digit: 0-9, then a, b, ..., as far as characters of eight bits go. */
  function Glyph(d: nat): char {
    if d >= 10 then ((d - 10 + 'a' as int) % 256) as char else (d + '0' as int) as char
  }

  /** A number in a base, most significant digit first. */
  function NumDigits(num: nat, base: nat): (s: string)
    requires 2 <= base
    ensures s != ""
    decreases num
  {
    if num < base then [Glyph(num)]
    else
      Halved(num, base);
      NumDigits(num / base, base) + [Glyph(num % base)]
  }

  /** The digits in the order in which printnum prints its buffer: from the last to the first. */
  function Backwards(digs: seq<nat>): (s: string)
    ensures |s| == |digs|
  {
    if digs == [] then "" else [Glyph(digs[|digs| - 1])] + Backwards(digs[..|digs| - 1])
  }

  function Repeated(c: char, n: int): (s: string)
    ensures |s| == if n < 0 then 0 else n
  {
    if n <= 0 then "" else [c] + Repeated(c, n - 1)
  }

  lemma {:induction false} RepeatedMore(c: char, n: nat)
    ensures Repeated(c, n + 1) == Repeated(c, n) + [c]
  {
    if n > 0 {
      RepeatedMore(c, n - 1);
    }
  }

  /** What printnum prints: padding on the left up to the width, then the digits. */
  function NumText(num: nat, base: nat, width: int, padc: char): string
    requires 2 <= base
  {
    Repeated(padc, width - |NumDigits(num, base)|) + NumDigits(num, base)
  }

  function Pow(b: nat, n: nat): nat {
    if n == 0 then 1 else b * Pow(b, n - 1)
  }

  lemma TwiceAtMost(q: nat, base: nat)
    requires 2 <= base
    ensures 2 * q <= q * base
  {
  }

  lemma Halved(num: nat, base: nat)
    requires 2 <= base
    ensures 2 * (num / base) <= num && num / base <= num
    ensures num >= base ==> num / base >= 1
  {
    var q := num / base;
    assert num == q * base + num % base;
    TwiceAtMost(q, base);
    assert q == 0 ==> num == num % base;
  }

  /** A number below 2^n has at most n digits in any base. */
  lemma {:induction false} DigitsBound(num: nat, base: nat, n: nat)
    requires 2 <= base && 1 <= n && num < Pow(2, n)
    ensures |NumDigits(num, base)| <= n
    decreases n
  {
    if num >= base {
      Halved(num, base);
      assert Pow(2, n) == 2 * Pow(2, n - 1);
      DigitsBound(num / base, base, n - 1);
    }
  }

  // ---------- output ----------

  /** Where the characters go: sprintf's pointer into the caller's buffer. */
  class Sink {
    var buf: array<char>
    var pos: nat

    predicate Valid()
      reads this
    {
      pos <= buf.Length
    }

    constructor (b: array<char>)
      ensures Valid() && buf == b && pos == 0
    {
      buf := b;
      pos := 0;
    }

    /** sprintf_putch */
    method Put(c: char)
      requires Valid() && pos < buf.Length
      modifies this`pos, buf
      ensures Valid() && pos == old(pos) + 1
      ensures buf[..] == old(buf[..])[old(pos) := c]
    {
      buf[pos] := c;
      pos := pos + 1;
    }

    /** Put, for n copies of one character. */
    method PutAll(c: char, n: int)
      requires Valid() && pos + (if n < 0 then 0 else n) <= buf.Length
      modifies this`pos, buf
      ensures Valid() && Wrote(old(buf[..]), old(pos), Repeated(c, n), buf[..], pos)
    {
      var k := n;
      WroteNothing(buf[..], pos);
      while k > 0
        invariant Valid() && pos + (if k < 0 then 0 else k) <= buf.Length
        invariant k <= n && (n >= 0 ==> 0 <= k)
        invariant Wrote(old(buf[..]), old(pos), Repeated(c, n - k), buf[..], pos)
        invariant n < 0 ==> k == n
      {
        RepeatedMore(c, n - k);
        ghost var before, at := buf[..], pos;
        Put(c);
        WroteOne(old(buf[..]), old(pos), Repeated(c, n - k), before, at, c);
        k := k - 1;
      }
    }

    /** printnum: the digits go into a buffer of one cell per bit, least significant first. */
    method PrintNum(num: nat, base: nat, width: int, padc: char)
      requires 2 <= base && num < Pow(2, 64)
      requires Valid() && pos + |NumText(num, base, width, padc)| <= buf.Length
      modifies this`pos, buf
      ensures Valid() && Wrote(old(buf[..]), old(pos), NumText(num, base, width, padc), buf[..], pos)
    {
      hide Wrote;
      var digs := new nat[64];
      var count := TakeApart(num, base, digs);
      PutAll(padc, width - count);
      ghost var s1, p1 := buf[..], pos;
      PutDigits(digs, count);
      WroteBoth(old(buf[..]), old(pos), Repeated(padc, width - count), s1, p1, NumDigits(num, base), buf[..], pos);
    }

    /** The last loop of printnum. */
    method PutDigits(digs: array<nat>, n: nat)
      requires n <= digs.Length && Valid() && pos + n <= buf.Length
      modifies this`pos, buf
      ensures Valid() && Wrote(old(buf[..]), old(pos), Backwards(digs[..n]), buf[..], pos)
    {
      hide Wrote, Glyph;
      var count := n;
      ghost var ds := digs[..n];
      ghost var written := "";
      assert written + Backwards(ds) == Backwards(ds) && ds[..n] == ds;
      WroteNothing(buf[..], pos);
      while count > 0
        invariant Valid() && 0 <= count <= n && pos + count <= buf.Length
        invariant Wrote(old(buf[..]), old(pos), written, buf[..], pos)
        invariant ds == digs[..n] && written + Backwards(ds[..count]) == Backwards(ds)
      {
        count := count - 1;
        ghost var before, at := buf[..], pos;
        assert ds[..count + 1][..count] == ds[..count];
        assert written + Backwards(ds[..count + 1]) == written + [Glyph(ds[count])] + Backwards(ds[..count]);
        Put(Glyph(digs[count]));
        WroteOne(old(buf[..]), old(pos), written, before, at, Glyph(ds[count]));
        written := written + [Glyph(ds[count])];
      }
      assert written + Backwards(ds[..0]) == written;
    }
  }

  /** The first loop of printnum: the digits, least significant first.  The buffer, with one cell for
      each of the 64 bits of the number, is never too small. */
  method TakeApart(num: nat, base: nat, digs: array<nat>) returns (count: nat)
    requires 2 <= base && num < Pow(2, 64) && digs.Length == 64
    modifies digs
    ensures count <= 64 && Backwards(digs[..count]) == NumDigits(num, base)
  {
    hide Glyph, Pow, NumDigits, Backwards;
    DigitsBound(num, base, 64);
    var n := num;
    count := 0;
    NoneBackwards(digs[..count]);
    while true
      invariant 0 <= n && 0 <= count < |NumDigits(num, base)| <= 64
      invariant NumDigits(num, base) == NumDigits(n, base) + Backwards(digs[..count])
      decreases n
    {
      ghost var ds := digs[..count];
      NextDigit(n, base, ds);
      digs[count] := n % base;
      count := count + 1;
      assert digs[..count] == ds + [n % base];
      if n < base {
        break;
      }
      Halved(n, base);
      n := n / base;
    }
  }

  lemma NoneBackwards(digs: seq<nat>)
    ensures digs == [] ==> Backwards(digs) == ""
  {
  }

  /** One turn of the loop that takes a number apart. */
  lemma NextDigit(n: nat, base: nat, ds: seq<nat>)
    requires 2 <= base
    ensures n < base ==> NumDigits(n, base) + Backwards(ds) == Backwards(ds + [n % base])
    ensures n >= base ==> NumDigits(n, base) + Backwards(ds) == NumDigits(n / base, base) + Backwards(ds + [n % base])
  {
    hide Glyph;
    assert (ds + [n % base])[..|ds|] == ds;
    assert n < base ==> n % base == n;
  }

  /** The text has been written at pos and nothing else has changed. */
  predicate Wrote(before: string, pos: nat, text: string, after: string, pos': nat) {
    && pos' == pos + |text| <= |before| == |after|
    && after == before[..pos] + text + before[pos'..]
  }

  lemma WroteNothing(s: string, pos: nat)
    requires pos <= |s|
    ensures Wrote(s, pos, "", s, pos)
  {
  }

  lemma WroteOne(s0: string, p0: nat, text: string, s: string, pos: nat, c: char)
    requires Wrote(s0, p0, text, s, pos) && pos < |s|
    ensures Wrote(s0, p0, text + [c], s[pos := c], pos + 1)
  {
  }

  lemma WroteBoth(s0: string, p0: nat, t1: string, s1: string, p1: nat, t2: string, s2: string, p2: nat)
    requires Wrote(s0, p0, t1, s1, p1) && Wrote(s1, p1, t2, s2, p2)
    ensures Wrote(s0, p0, t1 + t2, s2, p2)
  {
  }

  // ---------- atol ----------

  /** Taking in characters as decimal digits, whatever they are. */
  function Fold(res: int, s: string): int
    decreases |s|
  {
    if s == "" then res else Fold(res * 10 + (s[0] as int - '0' as int), s[1..])
  }

  function Unspaced(s: string): string {
    if s != "" && s[0] == ' ' then Unspaced(s[1..]) else s
  }

  /** What atol returns for a string. */
  function AtolOf(s: string): int {
    var t := Unspaced(s);
    if t != "" && (t[0] == '-' || t[0] == '+') then
      if t[0] == '-' then -Fold(0, t[1..]) else Fold(0, t[1..])
    else Fold(0, t)
  }

  predicate Terminated(mem: seq<char>) { '\0' in mem }

  /** The C string at the beginning of the memory. */
  function CString(mem: seq<char>): (s: string)
    requires Terminated(mem)
    ensures |s| < |mem| && mem[|s|] == '\0' && s == mem[..|s|] && '\0' !in s
  {
    if mem[0] == '\0' then "" else [mem[0]] + CString(mem[1..])
  }

  lemma {:induction false} CStringIs(mem: seq<char>, s: string)
    requires |s| < |mem| && mem[|s|] == '\0' && s == mem[..|s|] && '\0' !in s
    ensures Terminated(mem) && CString(mem) == s
  {
    var t := CString(mem);
    assert forall k :: 0 <= k < |s| ==> mem[k] == s[k] && s[k] in s;
    assert forall k :: 0 <= k < |t| ==> mem[k] == t[k] && t[k] in t;
    assert |t| == |s|;
  }

  /** atol, on numbers that do not overflow. */
  method Atol(str: seq<char>) returns (r: int)
    requires Terminated(str)
    ensures r == AtolOf(CString(str))
  {
    ghost var s := CString(str);
    var i := 0;
    var res := 0;
    var sign := false;
    assert s[0..] == s;
    while str[i] == ' '
      invariant 0 <= i <= |s| && Unspaced(s[i..]) == Unspaced(s)
      decreases |s| - i
    {
      i := i + 1;
      assert s[i - 1..][1..] == s[i..];
    }
    ghost var t := s[i..];
    assert Unspaced(s) == t;
    if str[i] == '-' || str[i] == '+' {
      sign := str[i] == '-';
      i := i + 1;
      assert t[1..] == s[i..];
    }
    ghost var digits := s[i..];
    while str[i] != '\0'
      invariant 0 <= i <= |s| && Fold(res, s[i..]) == Fold(0, digits)
      decreases |s| - i
    {
      res := res * 10;
      res := res + (str[i] as int - '0' as int);
      i := i + 1;
      assert s[i - 1..][1..] == s[i..];
    }
    assert s[i..] == "";
    r := if sign then -res else res;
  }

  lemma {:induction false} FoldBoth(res: int, a: string, b: string)
    ensures Fold(res, a + b) == Fold(Fold(res, a), b)
    decreases |a|
  {
    if a == "" {
      assert a + b == b;
    } else {
      assert (a + b)[1..] == a[1..] + b;
      FoldBoth(res * 10 + (a[0] as int - '0' as int), a[1..], b);
    }
  }

  lemma FoldOne(res: int, c: char)
    ensures Fold(res, [c]) == res * 10 + (c as int - '0' as int)
  {
  }

  lemma PlaceValue(res: int, p: int, q: int, d: int)
    ensures (res * p + q) * 10 + d == res * (10 * p) + (q * 10 + d)
  {
  }

  /** Reading the digits of v after a number res: v and res side by side. */
  lemma {:induction false} FoldDigits(res: int, v: nat)
    ensures var n := |NumDigits(v, 10)|; Fold(res, NumDigits(v, 10)) == res * Pow(10, n) + v && v < Pow(10, n)
    decreases v
  {
    var n := |NumDigits(v, 10)|;
    if v < 10 {
      FoldOne(res, Glyph(v));
      assert Pow(10, 1) == 10;
    } else {
      FoldDigits(res, v / 10);
      FoldBoth(res, NumDigits(v / 10, 10), [Glyph(v % 10)]);
      FoldOne(Fold(res, NumDigits(v / 10, 10)), Glyph(v % 10));
      assert Pow(10, n) == 10 * Pow(10, n - 1);
      PlaceValue(res, Pow(10, n - 1), v / 10, v % 10);
    }
  }

  lemma {:induction false} FoldZeros(n: int)
    ensures Fold(0, Repeated('0', n)) == 0
    decreases if n < 0 then 0 else n
  {
    if n > 0 {
      assert Repeated('0', n)[1..] == Repeated('0', n - 1);
      FoldZeros(n - 1);
    }
  }

  /** Characters below '0' make the number negative. */
  lemma {:induction false} FoldBelow(res: int, c: char, n: int)
    requires res <= 0 && c < '0' && n >= 1
    ensures Fold(res, Repeated(c, n)) <= c as int - '0' as int
    decreases n
  {
    assert Repeated(c, n)[1..] == Repeated(c, n - 1);
    var res' := res * 10 + (c as int - '0' as int);
    if n > 1 {
      FoldBelow(res', c, n - 1);
    }
  }

  lemma {:induction false} UnspacedPadding(n: int, s: string)
    requires s != "" && s[0] != ' '
    ensures Unspaced(Repeated(' ', n) + s) == s
    decreases if n < 0 then 0 else n
  {
    if n > 0 {
      assert (Repeated(' ', n) + s)[1..] == Repeated(' ', n - 1) + s;
      UnspacedPadding(n - 1, s);
    }
  }

  lemma {:induction false} FirstDigit(v: nat)
    ensures '0' <= NumDigits(v, 10)[0] <= '9'
    decreases v
  {
    if v >= 10 {
      FirstDigit(v / 10);
    }
  }

  // ---------- printing and reading back ----------

  function Abs(x: int): nat { if x < 0 then -x else x }

  /** What the conversion d prints: the sign, then printnum. */
  function Decimal(x: int, width: int, padc: char): string {
    (if x < 0 then "-" else "") + NumText(Abs(x), 10, width, padc)
  }

  /** When atol gives back the number that was printed: always without padding and with zeros; with
      spaces unless they come after a minus sign; with the padding that the flag '-' selects only
      for 0 at width 2, where "-0" is read. */
  predicate ReadsBack(x: int, width: int, padc: char) {
    || width <= |NumDigits(Abs(x), 10)|
    || padc == '0'
    || (padc == ' ' && x >= 0)
    || (padc == '-' && x == 0 && width == 2)
  }

  lemma TimesPower(r: int, n: nat)
    ensures r != 0 ==> r * Pow(10, n) != 0
    ensures r <= -3 ==> r * Pow(10, n) <= -3 * Pow(10, n)
  {
    PowPositive(n);
    var p := Pow(10, n);
    if r <= -3 {
      assert (r + 3) * p <= 0;
    }
  }

  lemma {:induction false} PowPositive(n: nat)
    ensures Pow(10, n) >= 1
  {
    if n > 0 {
      PowPositive(n - 1);
    }
  }

  lemma SignedText(s: string)
    ensures AtolOf("-" + s) == -Fold(0, s)
  {
    assert ("-" + s)[1..] == s;
  }

  lemma UnsignedText(s: string)
    requires s != "" && s[0] != ' ' && s[0] != '-' && s[0] != '+'
    ensures AtolOf(s) == Fold(0, s)
  {
  }

  /** Only zeros, or nothing, may stand between a minus sign and the digits. */
  lemma PaddingAfterMinus(v: nat, n: int, padc: char)
    requires v > 0 && padc in {' ', '0', '-'}
    ensures AtolOf("-" + (Repeated(padc, n) + NumDigits(v, 10))) == 0 - v <==> n <= 0 || padc == '0'
  {
    var digits := NumDigits(v, 10);
    var pad := Repeated(padc, n);
    SignedText(pad + digits);
    FoldBoth(0, pad, digits);
    FoldDigits(Fold(0, pad), v);
    TimesPower(Fold(0, pad), |digits|);
    hide Pow, NumDigits;
    if n > 0 {
      if padc == '0' {
        FoldZeros(n);
      } else {
        FoldBelow(0, padc, n);
      }
    }
  }

  lemma ReadNegative(x: int, width: int, padc: char)
    requires x < 0 && padc in {' ', '0', '-'}
    ensures AtolOf(Decimal(x, width, padc)) == x <==> ReadsBack(x, width, padc)
  {
    assert Decimal(x, width, padc) == "-" + (Repeated(padc, width - |NumDigits(-x, 10)|) + NumDigits(-x, 10));
    PaddingAfterMinus(-x, width - |NumDigits(-x, 10)|, padc);
  }

  lemma ReadPositive(x: int, width: int, padc: char)
    requires x >= 0 && padc in {' ', '0'}
    ensures AtolOf(Decimal(x, width, padc)) == x
  {
    var digits := NumDigits(x, 10);
    var pad := Repeated(padc, width - |digits|);
    assert Decimal(x, width, padc) == pad + digits;
    FirstDigit(x);
    if padc == ' ' {
      UnspacedPadding(width - |digits|, digits);
      FoldDigits(0, x);
    } else {
      UnsignedText(pad + digits);
      FoldBoth(0, pad, digits);
      FoldZeros(width - |digits|);
      FoldDigits(0, x);
    }
  }

  lemma ReadDashes(x: int, width: int)
    requires x >= 0
    ensures AtolOf(Decimal(x, width, '-')) == x <==> ReadsBack(x, width, '-')
  {
    var digits := NumDigits(x, 10);
    var n := width - |digits|;
    assert Decimal(x, width, '-') == Repeated('-', n) + digits;
    FirstDigit(x);
    if n <= 0 {
      assert Repeated('-', n) + digits == digits;
      UnsignedText(digits);
      FoldDigits(0, x);
    } else {
      var pad := Repeated('-', n - 1);
      assert Repeated('-', n) + digits == "-" + (pad + digits);
      assert x == 0 ==> |digits| == 1;
      DashesBeforeDigits(x, n);
    }
  }

  lemma DashesBeforeDigits(x: nat, n: nat)
    requires n >= 1
    ensures AtolOf("-" + (Repeated('-', n - 1) + NumDigits(x, 10))) == x <==> x == 0 && n == 1
  {
    var digits := NumDigits(x, 10);
    var pad := Repeated('-', n - 1);
    SignedText(pad + digits);
    FoldBoth(0, pad, digits);
    var r := Fold(0, pad);
    FoldDigits(r, x);
    TimesPower(r, |digits|);
    hide Pow, NumDigits;
    if n > 1 {
      FoldBelow(0, '-', n - 1);
    }
  }

  /** Printing a number and reading it back: exactly when ReadsBack says so. */
  lemma PrintThenRead(x: int, width: int, padc: char)
    requires padc in {' ', '0', '-'}
    ensures AtolOf(Decimal(x, width, padc)) == x <==> ReadsBack(x, width, padc)
  {
    if x < 0 {
      ReadNegative(x, width, padc);
    } else if padc == '-' {
      ReadDashes(x, width);
    } else {
      ReadPositive(x, width, padc);
    }
  }

  /** While atol reads leading zeros and digits, it never exceeds the number it returns: for a number
      that fits in a long, nothing overflows. */
  lemma {:induction false} NeverExceeds(v: nat, i: nat)
    requires i <= |NumDigits(v, 10)|
    ensures 0 <= Fold(0, NumDigits(v, 10)[..i]) <= v
    decreases v
  {
    var digits := NumDigits(v, 10);
    FoldDigits(0, v);
    if i == |digits| {
      assert digits[..i] == digits;
    } else if v >= 10 {
      NeverExceeds(v / 10, i);
      assert digits[..i] == NumDigits(v / 10, 10)[..i];
    }
  }
}
