/** What formats mean: a format built from text and conversions prints the texts of its pieces one
    after the other, and numbers printed with %ld are read back by atol exactly when ReadsBack says. */
module FormatLanguage {
  import opened Digits
  import opened Formatting

  /** A width or a precision as it is written: not at all, as a number, or as '*', which takes it from
      the arguments.  A precision may also be a point with nothing after it. */
  datatype Amount = Absent | Bare | Literal(n: nat) | Star

  /** A character of plain text, a percent sign, or a conversion. */
  datatype Piece =
    | Plain(c: char)
    | Percent
    | Conv(flags: string, width: Amount, precision: Amount, longs: nat, kind: char)

  predicate FlagsOnly(flags: string) { forall k :: 0 <= k < |flags| ==> flags[k] in {'-', '0', '#'} }

  /** A width of 0 is not among these: its '0' is a flag. */
  predicate WellFormed(piece: Piece) {
    match piece
    case Plain(c) => c != '%'
    case Percent => true
    case Conv(flags, width, _, _, kind) =>
      FlagsOnly(flags) && !width.Bare? && (width.Literal? ==> width.n > 0)
          && kind in {'d', 'u', 'o', 'x', 'p', 'c', 's'}
  }

  function Number(n: nat): string { NumDigits(n, 10) }

  function Written(a: Amount): string {
    match a
    case Literal(n) => Number(n)
    case Star => "*"
    case _ => ""
  }

  function WrittenPrecision(a: Amount): string { if a.Absent? then "" else "." + Written(a) }

  /** Flags, width, precision, length and conversion character, in this order. */
  function Spelled(piece: Piece): string {
    match piece
    case Plain(c) => [c]
    case Percent => "%%"
    case Conv(flags, width, precision, longs, kind) =>
      "%" + (flags + (Written(width) + (WrittenPrecision(precision) + (Repeated('l', longs) + [kind]))))
  }

  function SpelledAll(pieces: seq<Piece>): string {
    if pieces == [] then "" else Spelled(pieces[0]) + SpelledAll(pieces[1..])
  }

  /** The settings a conversion stands for and the arguments they leave, or that '*' finds no number. */
  datatype Settings = Settings(sp: Spec, rest: seq<Arg>) | NoNumber

  /** The last of the flags '-' and '0' decides. */
  function PadOf(flags: string): char
    decreases |flags|
  {
    if flags == "" then ' '
    else
      var last := flags[|flags| - 1];
      if last == '-' || last == '0' then last else PadOf(flags[..|flags| - 1])
  }

  function FlagSpec(flags: string): Spec { Spec(PadOf(flags), -1, -1, 0, '#' in flags) }

  function WithWidth(sp: Spec, width: Amount, args: seq<Arg>): Settings {
    match width
    case Literal(n) => Settings(sp.(width := n), args)
    case Star => if args == [] || !args[0].Int? then NoNumber
        else Settings(sp.(width := GetInt(args[0].v, 0)), args[1..])
    case _ => Settings(sp, args)
  }

  /** A precision makes an absent width 0.  The only digit of a written precision of 0 is read as the
      flag '0', so that it sets the padding and no precision, like a point with nothing after it. */
  function WithPrecision(sp: Spec, precision: Amount, args: seq<Arg>): Settings {
    var sp0 := if sp.width < 0 then sp.(width := 0) else sp;
    match precision
    case Absent => Settings(sp, args)
    case Bare => Settings(sp0, args)
    case Literal(n) => Settings(if n == 0 then sp0.(padc := '0') else sp0.(precision := n), args)
    case Star => if args == [] || !args[0].Int? then NoNumber
        else Settings(sp0.(precision := GetInt(args[0].v, 0)), args[1..])
  }

  function SettingsOf(piece: Piece, args: seq<Arg>): Settings
    requires piece.Conv?
  {
    Amounts(FlagSpec(piece.flags), piece.width, piece.precision, piece.longs, args)
  }

  function Amounts(sp: Spec, width: Amount, precision: Amount, longs: nat, args: seq<Arg>): Settings {
    var s1 := WithWidth(sp, width, args);
    if s1.NoNumber? then NoNumber
    else
      var s2 := WithPrecision(s1.sp, precision, s1.rest);
      if s2.NoNumber? then NoNumber else Settings(s2.sp.(lflag := longs), s2.rest)
  }

  /** What one piece prints, and the arguments it leaves. */
  function Effect(piece: Piece, args: seq<Arg>): Conversion {
    match piece
    case Plain(c) => Converted([c], args)
    case Percent => Converted("%", args)
    case Conv(_, _, _, _, kind) =>
      var s := SettingsOf(piece, args);
      if s.NoNumber? then Missing else Convert(kind, s.sp, s.rest)
  }

  /** What pieces print. */
  function Meaning(pieces: seq<Piece>, args: seq<Arg>): Printed
    decreases |pieces|
  {
    if pieces == [] then Text("")
    else if Effect(pieces[0], args).Converted? then
      Prepend(Effect(pieces[0], args).text, Meaning(pieces[1..], Effect(pieces[0], args).rest))
    else Undefined
  }

  // ---------- reading one conversion ----------

  lemma {:induction false} AllDigits(v: nat)
    ensures forall k :: 0 <= k < |NumDigits(v, 10)| ==> Digit(NumDigits(v, 10)[k])
    decreases v
  {
    if v >= 10 {
      AllDigits(v / 10);
    }
  }

  lemma {:induction false} LeadingIs(a: string, b: string)
    requires (forall k :: 0 <= k < |a| ==> Digit(a[k])) && (b != "" ==> !Digit(b[0]))
    ensures Leading(a + b) == |a|
  {
    if a == "" {
      assert a + b == b;
    } else {
      assert (a + b)[1..] == a[1..] + b;
      LeadingIs(a[1..], b);
    }
  }

  /** The first digit of a positive number is not taken for the flag '0'. */
  lemma {:induction false} NoLeadingZero(v: nat)
    requires v > 0
    ensures NumDigits(v, 10)[0] != '0'
    decreases v
  {
    if v >= 10 {
      NoLeadingZero(v / 10);
    }
  }

  /** A number in a conversion is read as itself. */
  lemma NumberRead(last: string, v: nat, b: string, sp: Spec, args: seq<Arg>)
    requires v > 0 && b != "" && !Digit(b[0]) && |Number(v) + b| <= |last|
    ensures Escape(last, Number(v) + b, sp, args) == Escape(last, b, WithNumber(sp, v), args)
  {
    var t := Number(v) + b;
    AllDigits(v);
    LeadingIs(Number(v), b);
    NoLeadingZero(v);
    FoldDigits(0, v);
    assert t[..Leading(t)] == Number(v) && t[Leading(t)..] == b;
    assert Digit(t[0]) && !Flag(t[0]);
    hide Convert;
  }

  lemma FlagRead(last: string, c: char, b: string, sp: Spec, args: seq<Arg>)
    requires Flag(c) && 1 + |b| <= |last|
    ensures Escape(last, [c] + b, sp, args) == Escape(last, b, WithFlag(sp, c), args)
  {
    assert ([c] + b)[1..] == b;
  }

  lemma {:induction false} LongsRead(last: string, n: nat, b: string, sp: Spec, args: seq<Arg>)
    requires |Repeated('l', n) + b| <= |last|
    ensures Escape(last, Repeated('l', n) + b, sp, args) == Escape(last, b, sp.(lflag := sp.lflag + n), args)
    decreases n
  {
    if n == 0 {
      assert Repeated('l', n) + b == b;
    } else {
      assert Repeated('l', n) + b == ['l'] + (Repeated('l', n - 1) + b);
      FlagRead(last, 'l', Repeated('l', n - 1) + b, sp, args);
      LongsRead(last, n - 1, b, sp.(lflag := sp.lflag + 1), args);
    }
  }

  lemma StarRead(last: string, b: string, sp: Spec, args: seq<Arg>)
    requires 1 + |b| <= |last|
    ensures Escape(last, "*" + b, sp, args) ==
            if args == [] || !args[0].Int? then Undefined
                else Escape(last, b, WithNumber(sp, GetInt(args[0].v, 0)), args[1..])
  {
    assert ("*" + b)[1..] == b;
  }

  /** Reading goes on with these settings. */
  function EscapeWith(last: string, t: string, s: Settings): Printed
    requires |t| <= |last|
  {
    if s.NoNumber? then Undefined else Escape(last, t, s.sp, s.rest)
  }

  /** The precision. */
  lemma PrecisionRead(last: string, precision: Amount, b: string, sp: Spec, args: seq<Arg>)
    requires b != "" && !Digit(b[0]) && sp.precision == -1 && |WrittenPrecision(precision) + b| <= |last|
    ensures Escape(last, WrittenPrecision(precision) + b, sp, args)
        == EscapeWith(last, b, WithPrecision(sp, precision, args))
  {
    hide Escape, NumDigits;
    if precision.Absent? {
      assert "" + b == b;
    } else {
      var t := Written(precision) + b;
      assert ("." + Written(precision)) + b == ['.'] + t;
      FlagRead(last, '.', t, sp, args);
      var sp0 := WithFlag(sp, '.');
      match precision
      case Bare =>
        assert "" + b == b;
      case Star =>
        StarRead(last, b, sp0, args);
      case Literal(n) =>
        if n > 0 {
          NumberRead(last, n, b, sp0, args);
        } else {
          ZeroIs();
          FlagRead(last, '0', b, sp0, args);
        }
    }
  }

  lemma ZeroIs()
    ensures Number(0) == ['0']
  {
  }

  lemma WidthRead(last: string, width: Amount, b: string, sp: Spec, args: seq<Arg>)
    requires b != "" && !Digit(b[0]) && sp.precision == -1 && sp.width == -1 && |Written(width) + b| <= |last|
    requires !width.Bare? && (width.Literal? ==> width.n > 0)
    ensures Escape(last, Written(width) + b, sp, args) == EscapeWith(last, b, WithWidth(sp, width, args))
  {
    hide Escape, NumDigits;
    match width
    case Absent =>
      assert "" + b == b;
    case Star =>
      StarRead(last, b, sp, args);
    case Literal(n) =>
      NumberRead(last, n, b, sp, args);
  }

  lemma {:induction false} FlagsRead(last: string, flags: string, b: string, args: seq<Arg>)
    requires FlagsOnly(flags) && |flags + b| <= |last|
    ensures Escape(last, flags + b, FRESH, args) == Escape(last, b, FlagSpec(flags), args)
    decreases |flags|
  {
    if flags == "" {
      assert "" + b == b;
    } else {
      var n := |flags| - 1;
      assert flags + b == flags[..n] + ([flags[n]] + b);
      assert flags == flags[..n] + [flags[n]];
      hide Escape;
      FlagsRead(last, flags[..n], [flags[n]] + b, args);
      FlagRead(last, flags[n], b, FlagSpec(flags[..n]), args);
    }
  }

  /** Width, precision and length in front of anything that does not begin with a digit. */
  lemma AmountsRead(last: string, width: Amount, precision: Amount, longs: nat, b: string, sp: Spec, args: seq<Arg>)
    requires b != "" && !Digit(b[0]) && sp.width == sp.precision == -1 && sp.lflag == 0
    requires !width.Bare? && (width.Literal? ==> width.n > 0)
    requires |Written(width) + (WrittenPrecision(precision) + (Repeated('l', longs) + b))| <= |last|
    ensures Escape(last, Written(width) + (WrittenPrecision(precision) + (Repeated('l', longs) + b)), sp, args)
         == EscapeWith(last, b, Amounts(sp, width, precision, longs, args))
  {
    var t3 := Repeated('l', longs) + b;
    var t2 := WrittenPrecision(precision) + t3;
    assert t3 != "" && !Digit(t3[0]) && t2 != "" && !Digit(t2[0]);
    assert |t3| <= |t2| <= |last|;
    hide Escape, Written, WrittenPrecision, Repeated, GetInt;
    WidthRead(last, width, t2, sp, args);
    var s1 := WithWidth(sp, width, args);
    if s1.Settings? {
      PrecisionRead(last, precision, t3, s1.sp, s1.rest);
      var s2 := WithPrecision(s1.sp, precision, s1.rest);
      if s2.Settings? {
        LongsRead(last, longs, b, s2.sp, s2.rest);
      }
    }
  }

  /** A spelled conversion is read as the settings it stands for. */
  lemma ConversionRead(piece: Piece, rest: string, args: seq<Arg>)
    requires WellFormed(piece) && piece.Conv?
    ensures |[piece.kind] + rest| <= |(Spelled(piece) + rest)[1..]|
    ensures var last := (Spelled(piece) + rest)[1..];
            Escape(last, last, FRESH, args) == EscapeWith(last, [piece.kind] + rest, SettingsOf(piece, args))
  {
    hide Escape, Written, WrittenPrecision, Repeated, PadOf, Amounts;
    var Conv(flags, width, precision, longs, kind) := piece;
    var t4 := [kind] + rest;
    var t1 := Written(width) + (WrittenPrecision(precision) + (Repeated('l', longs) + t4));
    var last := (Spelled(piece) + rest)[1..];
    SplitParts(flags, Written(width), WrittenPrecision(precision), Repeated('l', longs), [kind], rest);
    assert last == flags + t1;
    FlagsRead(last, flags, t1, args);
    AmountsRead(last, width, precision, longs, t4, FlagSpec(flags), args);
  }

  lemma SplitParts(p: string, w: string, r: string, l: string, kind: string, rest: string)
    ensures ("%" + (p + (w + (r + (l + kind)))) + rest)[1..] == p + (w + (r + (l + (kind + rest))))
  {
    assert (l + kind) + rest == l + (kind + rest);
    assert (r + (l + kind)) + rest == r + ((l + kind) + rest);
    assert (w + (r + (l + kind))) + rest == w + ((r + (l + kind)) + rest);
    var body := p + (w + (r + (l + kind)));
    assert body + rest == p + ((w + (r + (l + kind))) + rest);
    assert ("%" + body + rest)[1..] == body + rest;
  }

  /** One piece at the beginning of a format. */
  lemma PieceRead(piece: Piece, rest: string, args: seq<Arg>)
    requires WellFormed(piece)
    ensures var e := Effect(piece, args);
            Run(Spelled(piece) + rest, args) == if e.Converted? then Prepend(e.text, Run(rest, e.rest)) else Undefined
  {
    var s := Spelled(piece) + rest;
    match piece
    case Plain(_) =>
      assert s[1..] == rest;
    case Percent =>
      assert s[1..] == "%" + rest && s[1..][1..] == rest;
      EscapeEnds(s[1..], s[1..], FRESH, args);
    case Conv(_, _, _, _, kind) =>
      ConversionRead(piece, rest, args);
      var t := [kind] + rest;
      assert t[1..] == rest && s[0] == '%';
      var settings := SettingsOf(piece, args);
      if settings.Settings? {
        EscapeEnds(s[1..], t, settings.sp, settings.rest);
      }
  }

  /** A format prints what its pieces mean, in order, each conversion taking the next argument. */
  lemma {:induction false} FormatMeans(pieces: seq<Piece>, args: seq<Arg>)
    requires forall k :: 0 <= k < |pieces| ==> WellFormed(pieces[k])
    ensures Run(SpelledAll(pieces), args) == Meaning(pieces, args)
    decreases |pieces|
  {
    if pieces != [] {
      hide Spelled, Run, Effect, WellFormed;
      PieceRead(pieces[0], SpelledAll(pieces[1..]), args);
      if Effect(pieces[0], args).Converted? {
        FormatMeans(pieces[1..], Effect(pieces[0], args).rest);
      }
    }
  }

  // ---------- a number printed and read back ----------

  /** A conversion with one argument and nothing around it. */
  lemma PieceAlone(piece: Piece, args: seq<Arg>)
    requires WellFormed(piece)
    ensures var e := Effect(piece, args);
            e.Converted? && e.rest == [] ==> Run(Spelled(piece), args) == Text(e.text)
  {
    hide Spelled, Effect, Escape;
    PieceRead(piece, "", args);
    assert Spelled(piece) + "" == Spelled(piece);
    var e := Effect(piece, args);
    if e.Converted? && e.rest == [] {
      assert Run("", []) == Text("");
      assert e.text + "" == e.text;
    }
  }

  function WidthOf(width: nat): Amount { if width > 0 then Literal(width) else Absent }

  /** The format "%<flags><width>ld". */
  function LongFormat(flags: string, width: nat): string { Spelled(LongPiece(flags, width)) }

  function LongPiece(flags: string, width: nat): Piece { Conv(flags, WidthOf(width), Absent, 1, 'd') }

  lemma SignedFits(x: int)
    requires -U64 / 2 <= x < U64 / 2
    ensures GetInt(x, 1) == x
  {
  }

  lemma PadIs(flags: string)
    ensures PadOf(flags) in {' ', '0', '-'}
  {
  }

  lemma LongPrints(x: int, width: nat, flags: string)
    requires -U64 / 2 < x < U64 / 2 && FlagsOnly(flags)
    ensures Run(LongFormat(flags, width), [Int(x)]) == Text(Decimal(x, if width > 0 then width else -1, PadOf(flags)))
  {
    var piece := LongPiece(flags, width);
    SignedFits(x);
    var sp := SettingsOf(piece, [Int(x)]).sp;
    assert Effect(piece, [Int(x)]) == Convert('d', sp, [Int(x)]);
    assert Convert('d', sp, [Int(x)]) == Converted(Decimal(x, sp.width, sp.padc), []);
    hide Run, Spelled;
    PieceAlone(piece, [Int(x)]);
  }

  /** A long printed with %ld, and any width and flags, is read back by atol exactly when ReadsBack
      says so; without a width always. */
  lemma LongReadsBack(x: int, width: nat, flags: string)
    requires -U64 / 2 < x < U64 / 2 && FlagsOnly(flags)
    ensures Run(LongFormat(flags, width), [Int(x)]).Text?
    ensures AtolOf(Run(LongFormat(flags, width), [Int(x)]).s) == x <==> ReadsBack(x, width, PadOf(flags))
  {
    LongPrints(x, width, flags);
    PadIs(flags);
    hide Run, Spelled;
    PrintThenRead(x, if width > 0 then width else -1, PadOf(flags));
  }

  // ---------- a precision limits a string ----------

  predicate AtMost(r: Printed, n: nat) { r.Text? && |r.s| <= n }

  function Larger(m: nat, n: nat): nat { if m < n then n else m }

  /** The format "%<flags><width>.<precision>s". */
  function StringFormat(flags: string, width: nat, precision: Amount, longs: nat): string {
    Spelled(Conv(flags, WidthOf(width), precision, longs, 's'))
  }

  /** What it prints: the padding is '0' after a written precision of 0. */
  lemma StringPrints(flags: string, width: nat, written: nat, longs: nat, p: string)
    requires FlagsOnly(flags)
    ensures Run(StringFormat(flags, width, Literal(written), longs), [Str(p)]) ==
            Text(StrText(p, width, if written > 0 then written else -1, if written > 0 then PadOf(flags) else '0'))
  {
    hide Run, Spelled, StrText, GetInt, PadOf;
    var piece := Conv(flags, WidthOf(width), Literal(written), longs, 's');
    var sp := SettingsOf(piece, [Str(p)]).sp;
    assert Effect(piece, [Str(p)]) == Convert('s', sp, [Str(p)]);
    PieceAlone(piece, [Str(p)]);
  }

  lemma StarPrints(flags: string, width: nat, k: int, longs: nat, p: string)
    requires FlagsOnly(flags) && -U32 / 2 <= k < U32 / 2
    ensures Run(StringFormat(flags, width, Star, longs), [Int(k), Str(p)]) == Text(StrText(p, width, k, PadOf(flags)))
  {
    hide Run, Spelled, StrText, PadOf;
    var piece := Conv(flags, WidthOf(width), Star, longs, 's');
    var args := [Int(k), Str(p)];
    assert GetInt(k, 0) == k;
    assert args[1..] == [Str(p)];
    var s := SettingsOf(piece, args);
    assert s.Settings? && s.rest == [Str(p)];
    assert Effect(piece, args) == Convert('s', s.sp, [Str(p)]);
    PieceAlone(piece, args);
  }

  lemma TextLength(p: string, width: nat, precision: int, padc: char)
    ensures |StrText(p, width, precision, padc)| == Larger(width, |Shown(p, precision)|)
  {
  }

  lemma {:induction false} NoNulIn(n: nat)
    ensures '\0' !in Repeated('a', n)
    decreases n
  {
    if n > 0 {
      NoNulIn(n - 1);
    }
  }

  ghost predicate ShowsAtMost(format: string, p: string, n: nat) { '\0' !in p ==> AtMost(Run(format, [Str(p)]), n) }

  /** A written precision limits what is shown of a string to that many characters, so that no string
      takes more than the width or these characters, exactly when it is not 0. */
  lemma PrecisionLimits(flags: string, width: nat, written: nat, longs: nat)
    requires FlagsOnly(flags)
    ensures (forall p: string :: ShowsAtMost(StringFormat(flags, width, Literal(written), longs), p,
                                             Larger(width, written)))
            <==> written > 0
  {
    var format := StringFormat(flags, width, Literal(written), longs);
    var pad := if written > 0 then PadOf(flags) else '0';
    hide Run, StringFormat, PadOf;
    if written > 0 {
      forall p: string
        ensures ShowsAtMost(format, p, Larger(width, written))
      {
        StringPrints(flags, width, written, longs, p);
        TextLength(p, width, written, pad);
      }
    } else {
      var p := Repeated('a', width + 1);
      NoNulIn(width + 1);
      StringPrints(flags, width, written, longs, p);
      TextLength(p, width, -1, pad);
      assert !ShowsAtMost(format, p, Larger(width, written));
    }
  }

  /** Taken from the arguments, a precision of 0 does limit it. */
  lemma StarLimits(flags: string, width: nat, k: nat, longs: nat, p: string)
    requires FlagsOnly(flags) && k < U32 / 2
    ensures AtMost(Run(StringFormat(flags, width, Star, longs), [Int(k), Str(p)]), Larger(width, k))
  {
    StarPrints(flags, width, k, longs, p);
    TextLength(p, width, k, PadOf(flags));
    hide Run, StringFormat, PadOf;
  }

  /** %.0s prints the whole of every string. */
  lemma PointZeroPrintsAll(p: string)
    ensures Run("%.0s", [Str(p)]) == Text(p)
  {
    assert Repeated('l', 0) + ['s'] == "s";
    ZeroIs();
    assert WrittenPrecision(Literal(0)) == ".0";
    assert StringFormat("", 0, Literal(0), 0) == "%" + ("" + ("" + (".0" + "s"))) == "%.0s";
    StringPrints("", 0, 0, 0, p);
    assert StrText(p, 0, -1, '0') == "" + p == p;
  }

  // ---------- the flag '-' ----------

  predicate PaddedBehind(text: string, bare: string, c: char, k: nat) { text == bare + Repeated(c, k) }

  ghost predicate FollowedByPadding(text: string, bare: string) {
    exists c: char, k: nat :: PaddedBehind(text, bare, c, k)
  }

  lemma DashesInFront(prefix: string, num: nat, base: nat, width: int)
    requires base in {8, 10, 16}
    ensures FollowedByPadding(prefix + NumText(num, base, width, '-'), prefix + NumDigits(num, base))
        <==> width <= |NumDigits(num, base)|
  {
    var digits := NumDigits(num, base);
    var text := prefix + NumText(num, base, width, '-');
    NoDash(num, base);
    hide NumDigits;
    if width <= |digits| {
      assert "" + digits == digits;
      assert text == prefix + digits + "";
      assert PaddedBehind(text, prefix + digits, ' ', 0);
    } else {
      assert text[|prefix|] == '-';
      forall c: char, k: nat
        ensures !PaddedBehind(text, prefix + digits, c, k)
      {
        assert (prefix + digits + Repeated(c, k))[|prefix|] == digits[0];
      }
    }
  }

  lemma {:induction false} NoDash(num: nat, base: nat)
    requires base in {8, 10, 16}
    ensures NumDigits(num, base)[0] != '-'
    decreases num
  {
    if num >= base {
      Halved(num, base);
      NoDash(num / base, base);
    }
  }

  /** The number of digits of an argument of this conversion, without sign and 0x. */
  function DigitCount(kind: char, v: int, longs: nat): nat {
    if kind == 'd' then |NumDigits(Abs(GetInt(v, longs)), 10)|
    else |NumDigits(GetUint(v, if kind == 'p' then 1 else longs), Base(kind))|
  }

  /** The format "%<flags><width>l...l<kind>". */
  function NumberPiece(flags: string, width: nat, longs: nat, kind: char): Piece {
    Conv(flags, WidthOf(width), Absent, longs, kind)
  }

  lemma NumberPrints(flags: string, width: nat, longs: nat, kind: char, v: int)
    requires FlagsOnly(flags) && kind in {'d', 'u', 'o', 'x', 'p'}
    ensures
      var x, u, w := GetInt(v, longs), GetUint(v, if kind == 'p' then 1 else longs), if width > 0 then width else -1;
      Run(Spelled(NumberPiece(flags, width, longs, kind)), [Int(v)]) ==
      Text(if kind == 'd' then (if x < 0 then "-" else "") + NumText(Abs(x), 10, w, PadOf(flags))
           else (if kind == 'p' then "0x" else "") + NumText(u, Base(kind), w, PadOf(flags)))
  {
    hide Run, Spelled, NumText, GetInt, GetUint, PadOf;
    var piece := NumberPiece(flags, width, longs, kind);
    var sp := SettingsOf(piece, [Int(v)]).sp;
    assert Effect(piece, [Int(v)]) == Convert(kind, sp, [Int(v)]);
    PieceAlone(piece, [Int(v)]);
    var t := NumText(GetUint(v, longs), Base(kind), sp.width, sp.padc);
    assert "" + t == t;
  }

  /** The flag '-' does not pad a number on the right: what is printed is the number followed by
      padding exactly when the width asks for none. */
  lemma DashPadsBehindIff(flags: string, width: nat, longs: nat, kind: char, v: int)
    requires FlagsOnly(flags) && PadOf(flags) == '-' && kind in {'d', 'u', 'o', 'x', 'p'}
    ensures
      var padded := Run(Spelled(NumberPiece(flags, width, longs, kind)), [Int(v)]);
      var bare := Run(Spelled(NumberPiece("", 0, longs, kind)), [Int(v)]);
      padded.Text? && bare.Text? && (FollowedByPadding(padded.s, bare.s) <==> width <= DigitCount(kind, v, longs))
  {
    NumberPrints(flags, width, longs, kind, v);
    NumberPrints("", 0, longs, kind, v);
    hide Run, Spelled, NumDigits, GetInt, GetUint, FollowedByPadding;
    var w := if width > 0 then width else -1;
    if kind == 'd' {
      var x := GetInt(v, longs);
      NoPadding(Abs(x), 10);
      DashesInFront(if x < 0 then "-" else "", Abs(x), 10, w);
    } else {
      var u := GetUint(v, if kind == 'p' then 1 else longs);
      NoPadding(u, Base(kind));
      DashesInFront(if kind == 'p' then "0x" else "", u, Base(kind), w);
    }
  }

  lemma NoPadding(num: nat, base: nat)
    requires 2 <= base
    ensures NumText(num, base, -1, ' ') == NumDigits(num, base)
  {
    assert "" + NumDigits(num, base) == NumDigits(num, base);
  }

  lemma DashText(p: string, width: nat, w: int)
    requires w == width || (w == -1 && width == 0)
    ensures StrText(p, w, -1, '-') == p + Repeated(' ', width - |p|)
  {
  }

  /** A string it does pad on the right, with spaces. */
  lemma DashPadsStrings(flags: string, width: nat, longs: nat, p: string)
    requires FlagsOnly(flags) && PadOf(flags) == '-'
    ensures Run(StringFormat(flags, width, Absent, longs), [Str(p)]) == Text(p + Repeated(' ', width - |p|))
  {
    hide Run, Spelled, StrText, GetInt, PadOf;
    DashText(p, width, if width > 0 then width else -1);
    var piece := Conv(flags, WidthOf(width), Absent, longs, 's');
    var sp := SettingsOf(piece, [Str(p)]).sp;
    assert Effect(piece, [Str(p)]) == Convert('s', sp, [Str(p)]);
    PieceAlone(piece, [Str(p)]);
  }

  /** A printed number has at least as many characters as the width; the sign comes on top of it. */
  lemma DecimalLength(x: int, width: int, padc: char)
    ensures var digits := |NumDigits(Abs(x), 10)|;
            |Decimal(x, width, padc)| == (if width > digits then width else digits) + (if x < 0 then 1 else 0)
  {
  }

  /** What sprintf leaves in the buffer is the string it printed, and the length it returns is where
      the NUL is, exactly when no character printed is a NUL. */
  lemma LengthIsWhereNulIs(text: string, tail: string)
    ensures Terminated(text + ['\0'] + tail)
    ensures |CString(text + ['\0'] + tail)| == |text| <==> '\0' !in text
    ensures '\0' !in text ==> CString(text + ['\0'] + tail) == text
  {
    var mem := text + ['\0'] + tail;
    assert mem[|text|] == '\0';
    assert mem[..|text|] == text;
    if '\0' !in text {
      CStringIs(mem, text);
    }
  }

  lemma {:induction false} DigitsAreVisible(v: nat)
    ensures '\0' !in NumDigits(v, 10)
    decreases v
  {
    if v >= 10 {
      DigitsAreVisible(v / 10);
    }
  }

  lemma {:induction false} RepeatedIs(c: char, n: int, d: char)
    requires c != d
    ensures d !in Repeated(c, n)
    decreases if n < 0 then 0 else n
  {
    if n > 0 {
      RepeatedIs(c, n - 1, d);
    }
  }

  /** The whole way: whatever the buffer held behind it, atol applied to a buffer into which sprintf
      has printed a long gives the number back exactly when ReadsBack says so. */
  lemma BufferReadsBack(x: int, width: nat, flags: string, mem: string, tail: string)
    requires -U64 / 2 < x < U64 / 2 && FlagsOnly(flags)
    requires Run(LongFormat(flags, width), [Int(x)]).Text?
      && mem == Run(LongFormat(flags, width), [Int(x)]).s + ['\0'] + tail
    ensures Terminated(mem) && (AtolOf(CString(mem)) == x <==> ReadsBack(x, width, PadOf(flags)))
  {
    var w := if width > 0 then width else -1;
    PadIs(flags);
    hide *;
    LongReadsBack(x, width, flags);
    LongPrints(x, width, flags);
    DecimalIsVisible(x, w, PadOf(flags));
    LengthIsWhereNulIs(Decimal(x, w, PadOf(flags)), tail);
  }

  lemma DecimalIsVisible(x: int, width: int, padc: char)
    requires padc != '\0'
    ensures '\0' !in Decimal(x, width, padc)
  {
    DigitsAreVisible(Abs(x));
    RepeatedIs(padc, width - |NumDigits(Abs(x), 10)|, '\0');
    hide NumDigits, Repeated;
  }
}
