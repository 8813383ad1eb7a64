/** What the conversions of vprintfmt print, said without printnum: the digits are read back by a fold of
    their own, in the base that each conversion promises. */
module ReadBack {
  import opened Arithmetic
  import opened Digits
  import opened Formatting
  import opened FormatLanguage

  // ---------- digits ----------

  /** The value of a digit, by its character. */
  function ValueOf(c: char): int {
    if '0' <= c <= '9' then c as int - '0' as int
    else if 'a' <= c <= 'f' then c as int - 'a' as int + 10
    else 16
  }

  /** The number that digits stand for, the last of them counting one. */
  function ReadIn(base: int, s: string): int {
    if s == "" then 0 else ReadIn(base, s[..|s| - 1]) * base + ValueOf(s[|s| - 1])
  }

  predicate DigitIn(base: int, c: char) { 0 <= ValueOf(c) < base }

  /** Digits of the base, and no zero in front. */
  predicate Numeral(base: int, s: string) {
    s != "" && (forall k :: 0 <= k < |s| ==> DigitIn(base, s[k])) && (s[0] == '0' ==> |s| == 1)
  }

  lemma GlyphValue(d: nat)
    requires d < 16
    ensures ValueOf(Glyph(d)) == d && (Glyph(d) == '0' <==> d == 0)
  {
  }

  lemma QuotientRemainder(num: nat, base: nat)
    requires 2 <= base
    ensures num / base * base + num % base == num && 0 <= num % base < base
  {
  }

  /** printnum's digits are a numeral of the base, and it stands for the number. */
  lemma {:induction false} DigitsReadBack(num: nat, base: nat)
    requires 2 <= base <= 16
    ensures Numeral(base, NumDigits(num, base)) && ReadIn(base, NumDigits(num, base)) == num
    ensures NumDigits(num, base)[0] == '0' ==> num == 0
    decreases num
  {
    var s := NumDigits(num, base);
    QuotientRemainder(num, base);
    if num < base {
      GlyphValue(num);
      assert s[..|s| - 1] == "";
    } else {
      Halved(num, base);
      DigitsReadBack(num / base, base);
      GlyphValue(num % base);
      var front := NumDigits(num / base, base);
      assert s[..|s| - 1] == front && s[0] == front[0];
    }
  }

  /** A numeral is determined by its number. */
  lemma {:induction false} NumeralsDiffer(base: int, s: string, t: string)
    requires 2 <= base <= 16 && Numeral(base, s) && Numeral(base, t) && ReadIn(base, s) == ReadIn(base, t)
    ensures s == t
    decreases |s|
  {
    var s', t' := s[..|s| - 1], t[..|t| - 1];
    assert DigitIn(base, s[|s| - 1]) && DigitIn(base, t[|t| - 1]);
    LastDigit(base, ReadIn(base, s'), ValueOf(s[|s| - 1]), ReadIn(base, t'), ValueOf(t[|t| - 1]));
    SameValue(s[|s| - 1], t[|t| - 1], base);
    if |s| == 1 || |t| == 1 {
      Positive(base, s);
      Positive(base, t);
    } else {
      NumeralsDiffer(base, s', t');
    }
    assert s == s' + [s[|s| - 1]] && t == t' + [t[|t| - 1]];
  }

  lemma LastDigit(base: int, q: int, d: int, q': int, d': int)
    requires 2 <= base && 0 <= d < base && 0 <= d' < base && q * base + d == q' * base + d'
    ensures q == q' && d == d'
  {
    if q < q' {
      MulMonotone(q + 1, q', base);
      MulDistributes(q, 1, base);
    } else if q' < q {
      MulMonotone(q' + 1, q, base);
      MulDistributes(q', 1, base);
    }
  }

  lemma SameValue(c: char, d: char, base: int)
    requires base <= 16 && DigitIn(base, c) && DigitIn(base, d)
    ensures ValueOf(c) == ValueOf(d) ==> c == d
  {
  }

  /** A numeral of more than one digit does not begin with a number 0. */
  lemma {:induction false} Positive(base: int, s: string)
    requires 2 <= base <= 16 && Numeral(base, s)
    ensures |s| > 1 ==> ReadIn(base, s[..|s| - 1]) > 0
    decreases |s|
  {
    if |s| > 1 {
      var front := s[..|s| - 1];
      assert DigitIn(base, front[|front| - 1]) && front[0] == s[0];
      SameValue(front[0], '0', base);
      if |front| > 1 {
        Positive(base, front);
        LeadingProduct(ReadIn(base, front[..|front| - 1]), base);
      } else {
        assert front[..0] == "";
        assert ReadIn(base, front) == ValueOf(front[0]);
      }
    }
  }

  lemma LeadingProduct(q: int, base: int)
    requires q > 0 && base >= 2
    ensures q * base > 0
  {
  }

  // ---------- numbers ----------

  /** The size of the arguments: 32 bits, or 64 with the length l. */
  function Size(longs: nat): int { if longs == 0 then 4294967296 else 18446744073709551616 }

  /** What a number conversion with any flags, width and length prints: sign or prefix, padding up to the
      width, and the numeral of the argument, decimal for d and u, octal for o, hexadecimal for x and p;
      d takes it as signed, the others as unsigned, and p as 64 bits wide. */
  lemma NumberReadsBack(flags: string, width: nat, longs: nat, kind: char, v: int)
    returns (x: int, prefix: string, t: string)
    requires FlagsOnly(flags) && kind in {'d', 'u', 'o', 'x', 'p'}
    ensures Run(Spelled(NumberPiece(flags, width, longs, kind)), [Int(v)])
         == Text(prefix + (Repeated(PadOf(flags), width - |t|) + t))
    ensures kind == 'd' ==> (x - v) % Size(longs) == 0 && -Size(longs) <= 2 * x < Size(longs)
    ensures kind == 'd' ==> Numeral(10, t) && ReadIn(10, t) == (if x < 0 then -x else x) && prefix == if x < 0 then
        "-" else ""
    ensures kind == 'u' ==> Numeral(10, t) && ReadIn(10, t) == v % Size(longs) && prefix == ""
    ensures kind == 'o' ==> Numeral(8, t) && ReadIn(8, t) == v % Size(longs) && prefix == ""
    ensures kind == 'x' ==> Numeral(16, t) && ReadIn(16, t) == v % Size(longs) && prefix == ""
    ensures kind == 'p' ==> Numeral(16, t) && ReadIn(16, t) == v % 18446744073709551616 && prefix == "0x"
  {
    hide Run, Spelled, NumDigits, Numeral, ReadIn, PadOf, GetInt, GetUint, Repeated, Size, NumberPiece;
    NumberPrints(flags, width, longs, kind, v);
    ArgumentIs(v, longs);
    x := GetInt(v, longs);
    var u := GetUint(v, if kind == 'p' then 1 else longs);
    var num := if kind == 'd' then Abs(x) else u;
    var base := if kind == 'd' then 10 else Base(kind);
    prefix := if kind == 'd' then (if x < 0 then "-" else "") else if kind == 'p' then "0x" else "";
    t := NumDigits(num, base);
    DigitsReadBack(num, base);
    WidthAbsent(PadOf(flags), width, |t|);
  }

  lemma WidthAbsent(pad: char, width: nat, n: nat)
    ensures Repeated(pad, (if width > 0 then width else -1) - n) == Repeated(pad, width - n)
  {
  }

  /** getint and getuint. */
  lemma ArgumentIs(v: int, longs: nat)
    ensures (GetInt(v, longs) - v) % Size(longs) == 0 && -Size(longs) <= 2 * GetInt(v, longs) < Size(longs)
    ensures GetUint(v, longs) == v % Size(longs)
    ensures GetUint(v, 1) == v % 18446744073709551616
  {
  }

  /** The formats without flags and width, as they are written. */
  lemma PlainFormats(kind: char)
    ensures Spelled(NumberPiece("", 0, 0, kind)) == ['%', kind]
    ensures Spelled(NumberPiece("", 0, 1, kind)) == ['%', 'l', kind]
  {
    assert Repeated('l', 0) + [kind] == [kind];
    assert Repeated('l', 1) == ['l'];
    assert Repeated('l', 1) + [kind] == ['l', kind];
    hide Repeated;
    assert "%" + ("" + ("" + ("" + [kind]))) == ['%', kind];
    assert "%" + ("" + ("" + ("" + ['l', kind]))) == ['%', 'l', kind];
  }

  lemma UnsignedPrints(v: int)
    requires 0 <= v < 18446744073709551616
    ensures Run("%lu", [Int(v)]) == Text(NumDigits(v, 10))
  {
    hide Run, Spelled, NumDigits, GetUint, GetInt;
    PlainFormats('u');
    assert ['%', 'l', 'u'] == "%lu";
    NumberPrints("", 0, 1, 'u', v);
    ArgumentIs(v, 1);
    NoPadding(v, 10);
  }

  /** An unsigned long printed with %lu is read back by atol, as long as it fits in a long. */
  lemma UnsignedReadsBack(v: int)
    requires 0 <= v < 9223372036854775808
    ensures Run("%lu", [Int(v)]).Text? && AtolOf(Run("%lu", [Int(v)]).s) == v
  {
    hide Run, NumDigits, AtolOf, Fold;
    UnsignedPrints(v);
    FirstDigit(v);
    UnsignedText(NumDigits(v, 10));
    FoldDigits(0, v);
  }

  /** An int printed with %d is read back by atol. */
  lemma IntReadsBack(v: int)
    requires -2147483648 <= v < 2147483648
    ensures Run("%d", [Int(v)]).Text? && AtolOf(Run("%d", [Int(v)]).s) == v
  {
    PlainFormats('d');
    assert ['%', 'd'] == "%d";
    NumberPrints("", 0, 0, 'd', v);
    ArgumentIs(v, 0);
    SmallMultiple(GetInt(v, 0), v);
    hide Run, Spelled, NumDigits, GetInt, GetUint;
    PrintThenRead(v, -1, ' ');
  }

  lemma SmallMultiple(x: int, v: int)
    requires (x - v) % 4294967296 == 0 && -2147483648 <= x < 2147483648 && -2147483648 <= v < 2147483648
    ensures x == v
  {
  }

  // ---------- flags and padding ----------

  /** No flag pads with spaces; of '-' and '0' the one written last decides. */
  lemma {:induction false} PadMeans(flags: string)
    ensures PadOf(flags) == ' ' <==> '-' !in flags && '0' !in flags
    ensures PadOf(flags) != ' ' ==>
              exists k :: 0 <= k < |flags| && flags[k] == PadOf(flags) && PadOf(flags) in {'-', '0'}
                          && forall l :: k < l < |flags| ==> flags[l] !in {'-', '0'}
    decreases |flags|
  {
    if flags != "" {
      var n := |flags| - 1;
      assert flags == flags[..n] + [flags[n]];
      if flags[n] !in {'-', '0'} {
        PadMeans(flags[..n]);
        if PadOf(flags) != ' ' {
          var k :| 0 <= k < n && flags[..n][k] == PadOf(flags)
              && forall l :: k < l < n ==> flags[..n][l] !in {'-', '0'};
          assert flags[k] == PadOf(flags);
          assert forall l :: k < l < n ==> flags[l] == flags[..n][l];
        }
      }
    }
  }

  lemma {:induction false} RepeatedMeans(c: char, n: int)
    ensures |Repeated(c, n)| == (if n < 0 then 0 else n)
      && forall k :: 0 <= k < |Repeated(c, n)| ==> Repeated(c, n)[k] == c
    decreases if n < 0 then 0 else n
  {
    if n > 0 {
      RepeatedMeans(c, n - 1);
    }
  }

  // ---------- strings, characters, and what is no conversion ----------

  /** What %s prints with any flags and width and a precision n > 0, character by character: at most n
      characters of the string, in front of spaces with the flag '-', and behind the padding otherwise. */
  lemma StringReads(flags: string, width: nat, n: nat, longs: nat, p: string)
    requires FlagsOnly(flags) && n > 0
    ensures
      var printed := Run(StringFormat(flags, width, Literal(n), longs), [Str(p)]);
      var shown := if |p| < n then |p| else n;
      var pad := if shown < width then width - shown else 0;
      && printed.Text? && |printed.s| == shown + pad
      && forall k :: 0 <= k < |printed.s| ==>
           printed.s[k] == if PadOf(flags) == '-' then (if k < shown then p[k] else ' ')
                           else if k < pad then PadOf(flags) else p[k - pad]
  {
    hide Run, StringFormat, PadOf, Repeated;
    StringPrints(flags, width, n, longs, p);
    var shown := if |p| < n then |p| else n;
    RepeatedMeans(' ', width - shown);
    RepeatedMeans(PadOf(flags), width - shown);
    assert |Shown(p, n)| == shown;
  }

  /** A width from the arguments is the same as one that is written. */
  lemma StarWidth(flags: string, width: nat, longs: nat, kind: char, v: int)
    requires FlagsOnly(flags) && kind in {'d', 'u', 'o', 'x', 'p'} && 0 < width < 2147483648
    ensures Run(Spelled(Conv(flags, Star, Absent, longs, kind)), [Int(width), Int(v)])
         == Run(Spelled(NumberPiece(flags, width, longs, kind)), [Int(v)])
  {
    hide Run, Spelled, Convert, PadOf;
    var star, written := Conv(flags, Star, Absent, longs, kind), NumberPiece(flags, width, longs, kind);
    assert GetInt(width, 0) == width;
    assert [Int(width), Int(v)][1..] == [Int(v)];
    assert SettingsOf(star, [Int(width), Int(v)]) == SettingsOf(written, [Int(v)]);
    ConvertsNumber(kind, SettingsOf(written, [Int(v)]).sp, v);
    PieceAlone(star, [Int(width), Int(v)]);
    PieceAlone(written, [Int(v)]);
  }

  lemma ConvertsNumber(kind: char, sp: Spec, v: int)
    requires kind in {'d', 'u', 'o', 'x', 'p'}
    ensures Convert(kind, sp, [Int(v)]).Converted? && Convert(kind, sp, [Int(v)]).rest == []
  {
    hide Decimal, NumText, GetInt, GetUint;
  }

  /** Behind a percent sign, anything that is no conversion, flag or number is printed as it stands. */
  lemma UnknownIsLiteral(c: char, rest: string, args: seq<Arg>)
    requires c !in {'-', '0', '1', '2', '3', '4', '5', '6', '7', '8', '9', '*', '.', '#', 'l'}
    requires c !in {'c', 's', 'd', 'u', 'o', 'x', 'p', '%'}
    ensures Run(['%', c] + rest, args) == Prepend(['%', c], Run(rest, args))
  {
    var s := ['%', c] + rest;
    assert s[1..] == [c] + rest && ([c] + rest)[1..] == rest;
    EscapeEnds(s[1..], s[1..], FRESH, args);
    PrependBoth("%", [c], Run(rest, args));
    assert "%" + [c] == ['%', c];
    assert Run([c] + rest, args) == Prepend([c], Run(rest, args));
    hide Escape, Convert;
  }

  /** The other conversions, as they are written. */
  lemma OthersPrint(v: int, p: string, args: seq<Arg>, rest: string)
    ensures Run("%c" + rest, [Int(v)] + args) == Prepend([(v % 256) as char], Run(rest, args))
    ensures Run("%s" + rest, [Str(p)] + args) == Prepend(p, Run(rest, args))
    ensures Run("%s" + rest, [Null] + args) == Prepend("(null)", Run(rest, args))
    ensures Run("%%" + rest, args) == Prepend("%", Run(rest, args))
  {
    Unchanged(p);
    Unchanged("(null)");
    assert ([Int(v)] + args)[1..] == args && ([Str(p)] + args)[1..] == args && ([Null] + args)[1..] == args;
    var c, s, q := "%c" + rest, "%s" + rest, "%%" + rest;
    assert c[1..] == "c" + rest && s[1..] == "s" + rest && q[1..] == "%" + rest;
    assert ("c" + rest)[1..] == rest && ("s" + rest)[1..] == rest && ("%" + rest)[1..] == rest;
    EscapeEnds(c[1..], c[1..], FRESH, [Int(v)] + args);
    EscapeEnds(s[1..], s[1..], FRESH, [Str(p)] + args);
    EscapeEnds(s[1..], s[1..], FRESH, [Null] + args);
    EscapeEnds(q[1..], q[1..], FRESH, args);
    hide Escape, StrText;
  }

  lemma Unchanged(p: string)
    ensures StrText(p, -1, -1, ' ') == p
  {
    assert "" + p == p;
  }

  // ---------- atol ----------

  /** atol takes any number of spaces and one sign, and then the digits. */
  lemma AtolReads(spaces: nat, v: nat)
    ensures AtolOf(Repeated(' ', spaces) + NumDigits(v, 10)) == v
    ensures AtolOf(Repeated(' ', spaces) + ("+" + NumDigits(v, 10))) == v
    ensures AtolOf(Repeated(' ', spaces) + ("-" + NumDigits(v, 10))) == 0 - v
  {
    var t := NumDigits(v, 10);
    FirstDigit(v);
    FoldDigits(0, v);
    UnspacedPadding(spaces, t);
    UnspacedPadding(spaces, "+" + t);
    UnspacedPadding(spaces, "-" + t);
    assert ("+" + t)[1..] == t && ("-" + t)[1..] == t;
    hide NumDigits, Repeated, Unspaced, Fold;
  }
}
