/** riscv-tests/benchmarks/common/syscalls.c: vprintfmt and sprintf. */
module Formatting {
  import opened Digits

  const U32 := 0x1_0000_0000
  const U64 := 0x1_0000_0000_0000_0000

  /** A variable argument: a number in a 64-bit register, a string, or a null pointer. */
  datatype Arg = Int(v: int) | Str(s: string) | Null

  /** What a call prints; Undefined when an argument is missing or of the wrong kind. */
  datatype Printed = Text(s: string) | Undefined

  function Prepend(t: string, p: Printed): Printed {
    if p.Text? then Text(t + p.s) else Undefined
  }

  /** What the flags and numbers of a conversion have set so far. */
  datatype Spec = Spec(padc: char, width: int, precision: int, lflag: nat, alt: bool)

  const FRESH := Spec(' ', -1, -1, 0, false)

  function ToSigned(v: int, size: nat): int
    requires size > 0
  {
    var u := v % size;
    if 2 * u >= size then u - size else u
  }

  /** getint: an int, or a long, or a long long. */
  function GetInt(v: int, lflag: nat): int {
    if lflag >= 1 then ToSigned(v, U64) else ToSigned(v, U32)
  }

  function GetUint(v: int, lflag: nat): nat {
    if lflag >= 1 then v % U64 else v % U32
  }

  // ---------- what one conversion prints ----------

  datatype Conversion = Converted(text: string, rest: seq<Arg>) | Unknown | Missing

  function Shown(p: string, precision: int): string {
    if precision < 0 || |p| <= precision then p else p[..precision]
  }

  /** Strings are padded on the left, or, with the flag '-', on the right with spaces. */
  function StrText(p: string, width: int, precision: int, padc: char): string {
    var shown := Shown(p, precision);
    if padc == '-' then shown + Repeated(' ', width - |shown|) else Repeated(padc, width - |shown|) + shown
  }

  function Convert(ch: char, sp: Spec, args: seq<Arg>): Conversion {
    if ch == '%' then Converted("%", args)
    else if ch !in {'c', 's', 'd', 'u', 'o', 'x', 'p'} then Unknown
    else if args == [] || (ch == 's') == args[0].Int? then Missing
    else if ch == 'c' then Converted([(args[0].v % 256) as char], args[1..])
    else if ch == 's' then Converted(StrText(if args[0].Null? then "(null)"
                                             else args[0].s, sp.width, sp.precision, sp.padc), args[1..])
    else if ch == 'd' then Converted(Decimal(GetInt(args[0].v, sp.lflag), sp.width, sp.padc), args[1..])
    else if ch == 'p' then Converted("0x" + NumText(GetUint(args[0].v, 1), 16, sp.width, sp.padc), args[1..])
    else Converted(NumText(GetUint(args[0].v, sp.lflag), Base(ch), sp.width, sp.padc), args[1..])
  }

  function Base(ch: char): nat { if ch == 'u' then 10 else if ch == 'o' then 8 else 16 }

  // ---------- what a format prints ----------

  predicate Digit(c: char) { '0' <= c <= '9' }

  /** How many digits a string begins with. */
  function Leading(t: string): (n: nat)
    ensures n <= |t|
  {
    if t == "" || !Digit(t[0]) then 0 else 1 + Leading(t[1..])
  }

  /** A number is the width, unless a width has been seen: then it is the precision. */
  function WithNumber(sp: Spec, n: int): Spec {
    if sp.width < 0 then sp.(width := n, precision := -1) else sp.(precision := n)
  }

  predicate Flag(c: char) { c in {'-', '0', '.', '#', 'l'} }

  function WithFlag(sp: Spec, c: char): Spec
    requires Flag(c)
  {
    if c == '-' || c == '0' then sp.(padc := c)
    else if c == '.' then if sp.width < 0 then sp.(width := 0) else sp
    else if c == '#' then sp.(alt := true)
    else sp.(lflag := sp.lflag + 1)
  }

  /** The rest of a format, up to its end. */
  function Run(s: string, args: seq<Arg>): Printed
    decreases |s|, 0, 0
  {
    if s == "" then Text("")
    else if s[0] != '%' then Prepend([s[0]], Run(s[1..], args))
    else Escape(s[1..], s[1..], FRESH, args)
  }

  /** From inside a conversion: `last` is what follows its percent sign, t is what is left to read.
      When the conversion is not recognized, the percent sign is printed and `last` is printed as
      plain text. */
  function Escape(last: string, t: string, sp: Spec, args: seq<Arg>): Printed
    requires |t| <= |last|
    decreases |last|, 1, |t|
  {
    var ch := if t == "" then '\0' else t[0];
    if t != "" && Flag(ch) then Escape(last, t[1..], WithFlag(sp, ch), args)
    else if t != "" && Digit(ch) then
      Escape(last, t[Leading(t)..], WithNumber(sp, Fold(0, t[..Leading(t)])), args)
    else if t != "" && ch == '*' then
      if args == [] || !args[0].Int? then Undefined
      else Escape(last, t[1..], WithNumber(sp, GetInt(args[0].v, 0)), args[1..])
    else
      match Convert(ch, sp, args)
      case Missing => Undefined
      case Unknown => Prepend("%", Run(last, args))
      case Converted(text, rest) => if t == "" then Undefined else Prepend(text, Run(t[1..], rest))
  }

  // ---------- the printer ----------

  lemma TwoTo64()
    ensures Pow(2, 64) == U64
  {
    assert Pow(2, 8) == 256;
    PowDouble(8);
    PowDouble(16);
    PowDouble(32);
  }

  lemma PowDouble(n: nat)
    ensures Pow(2, 2 * n) == Pow(2, n) * Pow(2, n)
  {
    PowSum(n, n);
  }

  lemma {:induction false} PowSum(m: nat, n: nat)
    ensures Pow(2, m + n) == Pow(2, m) * Pow(2, n)
  {
    if m > 0 {
      PowSum(m - 1, n);
      assert Pow(2, m) == 2 * Pow(2, m - 1);
      assert Pow(2, m + n) == 2 * Pow(2, m + n - 1);
    }
  }

  /** strnlen */
  method StrNLen(p: string, n: int) returns (k: nat)
    ensures k == |Shown(p, n)|
  {
    k := 0;
    while k != n && k < |p|
      invariant 0 <= k <= |p| && (n >= 0 ==> k <= n)
      decreases |p| - k
    {
      k := k + 1;
    }
  }

  /** The loop over the characters of a string, which takes each of them off the width. */
  method PutString(sink: Sink, p: string, width0: int, precision0: int) returns (width: int)
    requires sink.Valid() && sink.pos + |Shown(p, precision0)| <= sink.buf.Length
    modifies sink`pos, sink.buf
    ensures sink.Valid() && Wrote(old(sink.buf[..]), old(sink.pos), Shown(p, precision0), sink.buf[..], sink.pos)
    ensures width == width0 - |Shown(p, precision0)|
  {
    hide Wrote;
    var precision := precision0;
    width := width0;
    var k := 0;
    ghost var shown := Shown(p, precision0);
    WroteNothing(sink.buf[..], sink.pos);
    while k < |p| && (precision < 0 || precision >= 1)
      invariant sink.Valid() && 0 <= k <= |shown| && sink.pos + (|shown| - k) <= sink.buf.Length
      invariant width == width0 - k
      invariant precision == if precision0 < 0 then precision0 else precision0 - k
      invariant Wrote(old(sink.buf[..]), old(sink.pos), shown[..k], sink.buf[..], sink.pos)
      decreases |p| - k
    {
      ghost var before, at := sink.buf[..], sink.pos;
      assert p[k] == shown[k];
      sink.Put(p[k]);
      WroteOne(old(sink.buf[..]), old(sink.pos), shown[..k], before, at, p[k]);
      assert shown[..k] + [p[k]] == shown[..k + 1];
      precision := if precision < 0 then precision else precision - 1;
      k, width := k + 1, width - 1;
    }
    assert shown[..k] == shown;
  }

  /** The conversion s. */
  method PrintString(sink: Sink, p: string, width0: int, precision: int, padc: char)
    requires sink.Valid() && sink.pos + |StrText(p, width0, precision, padc)| <= sink.buf.Length
    modifies sink`pos, sink.buf
    ensures sink.Valid() && Wrote(old(sink.buf[..]), old(sink.pos), StrText(p, width0, precision, padc), sink.buf[..],
                                  sink.pos)
  {
    hide Wrote, Shown;
    ghost var shown := Shown(p, precision);
    ghost var s0, p0 := sink.buf[..], sink.pos;
    WroteNothing(s0, p0);
    var width := width0;
    if width > 0 && padc != '-' {
      var n := StrNLen(p, precision);
      sink.PutAll(padc, width - n);
      width := if width - n > 0 then 0 else width - n;
    }
    ghost var pad := Repeated(padc, if padc != '-' then width0 - |shown| else 0);
    ghost var s1, p1 := sink.buf[..], sink.pos;
    width := PutString(sink, p, width, precision);
    WroteBoth(s0, p0, pad, s1, p1, shown, sink.buf[..], sink.pos);
    ghost var s2, p2 := sink.buf[..], sink.pos;
    sink.PutAll(' ', width);
    WroteBoth(s0, p0, pad + shown, s2, p2, Repeated(' ', width), sink.buf[..], sink.pos);
    assert pad + shown + Repeated(' ', width) == StrText(p, width0, precision, padc);
  }

  /** The conversion d: getint, the sign, printnum. */
  method PrintSigned(sink: Sink, v: int, sp: Spec)
    requires sink.Valid() && sink.pos + |Decimal(GetInt(v, sp.lflag), sp.width, sp.padc)| <= sink.buf.Length
    modifies sink`pos, sink.buf
    ensures sink.Valid()
    ensures Wrote(old(sink.buf[..]), old(sink.pos), Decimal(GetInt(v, sp.lflag), sp.width, sp.padc), sink.buf[..],
                  sink.pos)
  {
    TwoTo64();
    var x := GetInt(v, sp.lflag);
    hide Wrote, NumDigits, Repeated, Pow;
    ghost var s0, p0 := sink.buf[..], sink.pos;
    ghost var sign := "";
    WroteNothing(s0, p0);
    var num: int := x % U64;
    if x < 0 {
      sink.Put('-');
      WroteOne(s0, p0, "", s0, p0, '-');
      sign := "-";
      num := -x % U64;
    }
    assert num == Abs(x);
    ghost var s1, p1 := sink.buf[..], sink.pos;
    sink.PrintNum(num, 10, sp.width, sp.padc);
    WroteBoth(s0, p0, sign, s1, p1, NumText(Abs(x), 10, sp.width, sp.padc), sink.buf[..], sink.pos);
  }

  /** The conversions u, o, x, and p after its "0x": getuint and printnum. */
  method PrintUnsigned(sink: Sink, prefix: string, v: int, lflag: nat, base: nat, width: int, padc: char)
    requires base in {8, 10, 16} && (prefix == "" || prefix == "0x")
    requires sink.Valid() && sink.pos + |prefix + NumText(GetUint(v, lflag), base, width, padc)| <= sink.buf.Length
    modifies sink`pos, sink.buf
    ensures sink.Valid()
    ensures Wrote(old(sink.buf[..]), old(sink.pos), prefix + NumText(GetUint(v, lflag), base, width, padc),
                  sink.buf[..], sink.pos)
  {
    TwoTo64();
    var num := GetUint(v, lflag);
    hide Wrote, NumDigits, Repeated, Pow, NumText;
    ghost var s0, p0 := sink.buf[..], sink.pos;
    WroteNothing(s0, p0);
    if prefix != "" {
      sink.Put('0');
      WroteOne(s0, p0, "", s0, p0, '0');
      ghost var s1, p1 := sink.buf[..], sink.pos;
      sink.Put('x');
      WroteOne(s0, p0, "0", s1, p1, 'x');
      assert "0" + ['x'] == prefix;
    }
    ghost var s2, p2 := sink.buf[..], sink.pos;
    sink.PrintNum(num, base, width, padc);
    WroteBoth(s0, p0, prefix, s2, p2, NumText(num, base, width, padc), sink.buf[..], sink.pos);
  }

  /** The cases of the switch that print. */
  method PrintConversion(sink: Sink, ch: char, sp: Spec, args: seq<Arg>) returns (known: bool, rest: seq<Arg>)
    requires sink.Valid() && !Convert(ch, sp, args).Missing?
    requires Convert(ch, sp, args).Converted? ==> sink.pos + |Convert(ch, sp, args).text| <= sink.buf.Length
    modifies sink`pos, sink.buf
    ensures sink.Valid() && known == Convert(ch, sp, args).Converted?
    ensures known ==> rest == Convert(ch, sp, args).rest
    ensures known ==> Wrote(old(sink.buf[..]), old(sink.pos), Convert(ch, sp, args).text, sink.buf[..], sink.pos)
    ensures !known ==> sink.buf[..] == old(sink.buf[..]) && sink.pos == old(sink.pos)
  {
    hide Wrote, NumText, Decimal, StrText, GetUint, GetInt;
    known, rest := true, args;
    WroteNothing(sink.buf[..], sink.pos);
    if ch == '%' {
      WroteOne(sink.buf[..], sink.pos, "", sink.buf[..], sink.pos, ch);
      sink.Put(ch);
      assert "" + [ch] == "%";
      return;
    }
    if ch !in {'c', 's', 'd', 'u', 'o', 'x', 'p'} {
      known := false;
      return;
    }
    var arg := args[0];
    rest := args[1..];
    match ch
    case 'c' =>
      var c := (arg.v % 256) as char;
      WroteOne(sink.buf[..], sink.pos, "", sink.buf[..], sink.pos, c);
      sink.Put(c);
      assert "" + [c] == [c];
    case 's' =>
      PrintString(sink, if arg.Null? then "(null)" else arg.s, sp.width, sp.precision, sp.padc);
    case 'd' =>
      PrintSigned(sink, arg.v, sp);
    case 'p' =>
      PrintUnsigned(sink, "0x", arg.v, 1, 16, sp.width, sp.padc);
    case _ =>
      assert "" + NumText(GetUint(arg.v, sp.lflag), Base(ch), sp.width, sp.padc)
          == NumText(GetUint(arg.v, sp.lflag), Base(ch), sp.width, sp.padc);
      PrintUnsigned(sink, "", arg.v, sp.lflag, Base(ch), sp.width, sp.padc);
  }

  lemma {:induction false} LeadingDigits(t: string)
    ensures forall k :: 0 <= k < Leading(t) ==> Digit(t[k])
    ensures Leading(t) < |t| ==> !Digit(t[Leading(t)])
    decreases |t|
  {
    if t != "" && Digit(t[0]) {
      LeadingDigits(t[1..]);
    }
  }

  /** The loop that reads a width or a precision. */
  method ReadNumber(fmt: string, i0: nat) returns (precision: int, i: nat)
    requires i0 < |fmt| && Digit(fmt[i0])
    ensures i == i0 + Leading(fmt[i0..]) && i0 < i <= |fmt| && precision == Fold(0, fmt[i0..i])
  {
    ghost var end := i0 + Leading(fmt[i0..]);
    ghost var digits := fmt[i0..end];
    LeadingDigits(fmt[i0..]);
    assert forall k :: i0 <= k < end ==> fmt[i0..][k - i0] == fmt[k];
    assert end < |fmt| ==> fmt[i0..][end - i0] == fmt[end];
    i, precision := i0, 0;
    var ch := fmt[i0];
    while true
      invariant i0 <= i < end && ch == fmt[i]
      invariant Fold(precision, fmt[i..end]) == Fold(0, digits)
      decreases end - i
    {
      assert fmt[i..end][1..] == fmt[i + 1..end];
      precision := precision * 10 + (ch as int - '0' as int);
      i := i + 1;
      ch := if i < |fmt| then fmt[i] else '\0';
      if !Digit(ch) {
        break;
      }
    }
    assert fmt[i..end] == "";
  }

  /** The character at which a format is read; the terminating NUL after the last. */
  function CharAt(fmt: string, i: nat): char { if i < |fmt| then fmt[i] else '\0' }

  /** Reading the flags, width, precision and length of a conversion: the switch up to a case that
      does not go back to it.  Afterwards ch is the character of that case, the one before i. */
  method ReadSpec(fmt: string, i0: nat, args: seq<Arg>) returns (ch: char, i: nat, sp: Spec, ap: seq<Arg>)
    requires '\0' !in fmt && i0 <= |fmt| && Escape(fmt[i0..], fmt[i0..], FRESH, args).Text?
    ensures i0 < i <= |fmt| + 1 && ch == CharAt(fmt, i - 1)
    ensures !Flag(ch) && !Digit(ch) && ch != '*'
    ensures Escape(fmt[i0..], fmt[i0..], FRESH, args) == Escape(fmt[i0..], fmt[i - 1..], sp, ap)
  {
    hide Convert;
    ghost var last := fmt[i0..];
    i, sp, ap := i0, FRESH, args;
    while true
      invariant i0 <= i <= |fmt|
      invariant Escape(last, fmt[i..], sp, ap) == Escape(last, last, FRESH, args)
      decreases |fmt| - i
    {
      ch := CharAt(fmt, i);
      ghost var t := fmt[i..];
      if Flag(ch) {
        assert t[1..] == fmt[i + 1..];
        sp := WithFlag(sp, ch);
        i := i + 1;
      } else if Digit(ch) {
        var precision, j := ReadNumber(fmt, i);
        assert t[..Leading(t)] == fmt[i..j] && t[Leading(t)..] == fmt[j..];
        sp := WithNumber(sp, precision);
        i := j;
      } else if ch == '*' {
        assert t[1..] == fmt[i + 1..];
        sp := WithNumber(sp, GetInt(ap[0].v, 0));
        ap := ap[1..];
        i := i + 1;
      } else {
        i := i + 1;
        return;
      }
    }
  }

  /** One percent escape: reads the conversion that begins at i0 and prints it. */
  method PrintEscape(sink: Sink, fmt: string, i0: nat, args: seq<Arg>)
      returns (i: nat, ap: seq<Arg>, ghost text: string)
    requires '\0' !in fmt && i0 <= |fmt| && Escape(fmt[i0..], fmt[i0..], FRESH, args).Text?
    requires sink.Valid() && sink.pos + |Escape(fmt[i0..], fmt[i0..], FRESH, args).s| <= sink.buf.Length
    modifies sink`pos, sink.buf
    ensures sink.Valid() && i0 <= i <= |fmt|
    ensures Wrote(old(sink.buf[..]), old(sink.pos), text, sink.buf[..], sink.pos)
    ensures Escape(fmt[i0..], fmt[i0..], FRESH, args) == Prepend(text, Run(fmt[i..], ap))
  {
    hide Wrote;
    ghost var last := fmt[i0..];
    var ch, next, sp, rest := ReadSpec(fmt, i0, args);
    ghost var t := fmt[next - 1..];
    EscapeEnds(last, t, sp, rest);
    hide Convert, Run, Escape;
    var known;
    known, ap := PrintConversion(sink, ch, sp, rest);
    if known {
      i := next;
      text := Convert(ch, sp, rest).text;
      assert t[1..] == fmt[i..];
    } else {
      WroteNothing(sink.buf[..], sink.pos);
      WroteOne(sink.buf[..], sink.pos, "", sink.buf[..], sink.pos, '%');
      sink.Put('%');
      i, ap := i0, rest;
      text := "%";
      assert "" + ['%'] == text;
    }
  }

  lemma EscapeEnds(last: string, t: string, sp: Spec, args: seq<Arg>)
    requires |t| <= |last|
    requires var ch := CharAt(t, 0); !Flag(ch) && !Digit(ch) && ch != '*'
    ensures Convert(CharAt(t, 0), sp, args).Unknown? ==> Escape(last, t, sp, args) == Prepend("%", Run(last, args))
    ensures Convert(CharAt(t, 0), sp, args).Missing? ==> Escape(last, t, sp, args) == Undefined
    ensures Convert(CharAt(t, 0), sp, args).Converted? ==>
              t != "" && Escape(last, t, sp, args) == Prepend(Convert(CharAt(t, 0), sp, args).text,
                                                              Run(t[1..], Convert(CharAt(t, 0), sp, args).rest))
  {
    hide Run;
  }

  lemma PrependBoth(t: string, u: string, p: Printed)
    ensures Prepend(t, Prepend(u, p)) == Prepend(t + u, p)
  {
    if p.Text? {
      assert t + (u + p.s) == t + u + p.s;
    }
  }

  /** vprintfmt, writing through sprintf_putch. */
  method VPrintFmt(sink: Sink, fmt: string, args: seq<Arg>)
    requires '\0' !in fmt && Run(fmt, args).Text?
    requires sink.Valid() && sink.pos + |Run(fmt, args).s| <= sink.buf.Length
    modifies sink`pos, sink.buf
    ensures sink.Valid() && Wrote(old(sink.buf[..]), old(sink.pos), Run(fmt, args).s, sink.buf[..], sink.pos)
  {
    hide Wrote, Escape, Convert;
    var i, ap := 0, args;
    ghost var written := "";
    WroteNothing(sink.buf[..], sink.pos);
    assert fmt[0..] == fmt;
    while CharAt(fmt, i) != '\0'
      invariant sink.Valid() && 0 <= i <= |fmt|
      invariant Run(fmt, args) == Prepend(written, Run(fmt[i..], ap))
      invariant sink.pos + |Run(fmt[i..], ap).s| <= sink.buf.Length
      invariant Wrote(old(sink.buf[..]), old(sink.pos), written, sink.buf[..], sink.pos)
      decreases |fmt| - i
    {
      ghost var before, at := sink.buf[..], sink.pos;
      assert fmt[i..][1..] == fmt[i + 1..];
      if fmt[i] != '%' {
        PrependBoth(written, [fmt[i]], Run(fmt[i + 1..], ap));
        sink.Put(fmt[i]);
        WroteOne(old(sink.buf[..]), old(sink.pos), written, before, at, fmt[i]);
        written := written + [fmt[i]];
        i := i + 1;
      } else {
        var next, rest;
        ghost var text;
        next, rest, text := PrintEscape(sink, fmt, i + 1, ap);
        PrependBoth(written, text, Run(fmt[next..], rest));
        WroteBoth(old(sink.buf[..]), old(sink.pos), written, before, at, text, sink.buf[..], sink.pos);
        written := written + text;
        i, ap := next, rest;
      }
    }
    assert Run(fmt[i..], ap) == Text("");
    assert written + "" == written;
  }

  /** sprintf: the text, a NUL, and the length returned. */
  method Sprintf(buf: array<char>, fmt: string, args: seq<Arg>) returns (n: nat)
    requires '\0' !in fmt && Run(fmt, args).Text? && |Run(fmt, args).s| < buf.Length
    modifies buf
    ensures n == |Run(fmt, args).s|
    ensures buf[..] == Run(fmt, args).s + ['\0'] + old(buf[n + 1..])
  {
    var sink := new Sink(buf);
    hide Run;
    VPrintFmt(sink, fmt, args);
    buf[sink.pos] := '\0';
    n := sink.pos;
  }
}
