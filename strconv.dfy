/**
 * Go's `strconv.ParseUint(s, 0, 64)` and `strconv.ParseInt(s, 0, 64)`, the two
 * integer parsers the row decoder calls for integer and unsigned fields.
 *
 * Base 0 means the base is chosen by the literal's prefix: `0b`/`0B` binary,
 * `0o`/`0O` octal, `0x`/`0X` hexadecimal, any other leading `0` octal, and
 * decimal otherwise; underscores may separate digits.  Only a signed parse
 * accepts a leading `+` or `-`.  Results must fit 64 bits.
 */
module Strconv {
  import opened Wrappers

  /** The two causes strconv reports in a NumError. */
  datatype NumError = ErrSyntax | ErrRange

  const MaxUint64: int := 0xFFFF_FFFF_FFFF_FFFF
  const MaxInt64: int := 0x7FFF_FFFF_FFFF_FFFF
  const MinInt64: int := -0x8000_0000_0000_0000

  /** The bases a base-0 parse can select. */
  predicate ValidBase(base: nat) {
    base == 2 || base == 8 || base == 10 || base == 16
  }

  /**
   * strconv's `lower`, which sets bit 0x20.  On every comparison strconv makes
   * with it (against `b`, `o`, `x` and the range `a`..`z`), that agrees with
   * folding the ASCII upper-case letters and leaving every other character alone.
   */
  function Lower(c: char): (l: char)
    ensures 'a' <= l <= 'z' <==> ('a' <= c <= 'z' || 'A' <= c <= 'Z')
  {
    if 'A' <= c <= 'Z' then (c as int + 32) as char else c
  }

  /** The value of one digit character in any base up to 36, or None for a non-digit. */
  function DigitValue(c: char): (d: Option<nat>)
    ensures d.Some? ==> d.value < 36
    ensures d.Some? <==> ('0' <= c <= '9' || 'a' <= c <= 'z' || 'A' <= c <= 'Z')
  {
    if '0' <= c <= '9' then Some(c as int - '0' as int)
    else if 'a' <= Lower(c) <= 'z' then Some(Lower(c) as int - 'a' as int + 10)
    else None
  }

  /** What the digit loop has read so far: the value and whether an underscore occurred. */
  datatype Scanned = Scanned(value: nat, underscores: bool)

  /**
   * The digit loop of ParseUint with base 0: the digits are read left to right
   * into `n`; an underscore is noted and skipped; a non-digit or a digit too
   * large for the base is a syntax error; the first step past 2^64 - 1 is a
   * range error (strconv checks `n >= cutoff` before multiplying and the sum
   * after adding).
   */
  function Scan(s: string, base: nat, n: nat, underscores: bool): (r: Result<Scanned, NumError>)
    requires ValidBase(base) && n <= MaxUint64
    ensures r.Ok? ==> r.value.value <= MaxUint64
    decreases |s|
  {
    if s == [] then Ok(Scanned(n, underscores))
    else if s[0] == '_' then Scan(s[1..], base, n, true)
    else match DigitValue(s[0])
      case None => Err(ErrSyntax)
      case Some(d) =>
        if d >= base then Err(ErrSyntax)
        else if n >= MaxUint64 / base + 1 then Err(ErrRange)
        else if n * base + d > MaxUint64 then Err(ErrRange)
        else Scan(s[1..], base, n * base + d, underscores)
  }

  /** The base selected by the prefix of a non-empty literal, and the digits after the prefix. */
  function BasePrefix(s: string): (r: (nat, string))
    requires s != []
    ensures ValidBase(r.0) && |r.1| <= |s|
  {
    if s[0] != '0' then (10, s)
    else if |s| >= 3 && Lower(s[1]) == 'b' then (2, s[2..])
    else if |s| >= 3 && Lower(s[1]) == 'o' then (8, s[2..])
    else if |s| >= 3 && Lower(s[1]) == 'x' then (16, s[2..])
    else (8, s[1..])
  }

  /** The classes of character strconv's underscoreOK remembers as the last one seen. */
  datatype Saw = Start | SawDigit | SawUnderscore | SawOther

  /**
   * strconv's underscoreOK: an underscore may stand only between digits, or
   * between a base prefix and a digit.
   */
  function UnderscoreOK(s: string): bool {
    var t := if |s| >= 1 && (s[0] == '-' || s[0] == '+') then s[1..] else s;
    if |t| >= 2 && t[0] == '0' && (Lower(t[1]) == 'b' || Lower(t[1]) == 'o' || Lower(t[1]) == 'x') then
      UnderscoresFrom(t[2..], Lower(t[1]) == 'x', SawDigit)
    else
      UnderscoresFrom(t, false, Start)
  }

  /** The loop of underscoreOK over the number proper. */
  function UnderscoresFrom(s: string, hex: bool, saw: Saw): bool
    decreases |s|
  {
    if s == [] then saw != SawUnderscore
    else if ('0' <= s[0] <= '9') || (hex && 'a' <= Lower(s[0]) <= 'f') then
      UnderscoresFrom(s[1..], hex, SawDigit)
    else if s[0] == '_' then
      saw == SawDigit && UnderscoresFrom(s[1..], hex, SawUnderscore)
    else if saw == SawUnderscore then false
    else UnderscoresFrom(s[1..], hex, SawOther)
  }

  /** `strconv.ParseUint(s, 0, 64)`. */
  function ParseUint(s: string): (r: Result<nat, NumError>)
    ensures r.Ok? ==> r.value <= MaxUint64
  {
    if s == [] then Err(ErrSyntax)
    else
      var (base, digits) := BasePrefix(s);
      match Scan(digits, base, 0, false)
      case Err(e) => Err(e)
      case Ok(sc) =>
        if sc.underscores && !UnderscoreOK(s) then Err(ErrSyntax) else Ok(sc.value)
  }

  /**
   * `strconv.ParseInt(s, 0, 64)`: an optional sign, then ParseUint of the rest.
   * A syntax error of the unsigned parse is passed on; after a range error the
   * unsigned value is 2^64 - 1, which the signed range check then rejects.
   */
  function ParseInt(s: string): (r: Result<int, NumError>)
    ensures r.Ok? ==> MinInt64 <= r.value <= MaxInt64
  {
    if s == [] then Err(ErrSyntax)
    else
      var neg := s[0] == '-';
      var body := if s[0] == '+' || s[0] == '-' then s[1..] else s;
      var un := ParseUint(body);
      if un.Err? && un.error != ErrRange then Err(un.error)
      else
        var u := if un.Ok? then un.value else MaxUint64;
        if !neg && u >= MaxInt64 + 1 then Err(ErrRange)
        else if neg && u > MaxInt64 + 1 then Err(ErrRange)
        else Ok(if neg then -u else u)
  }

  // ---------------------------------------------------------------------------
  // Reference definitions: digit strings and their values
  // ---------------------------------------------------------------------------

  /** The lower-case digit character for `d`. */
  function DigitChar(d: nat): (c: char)
    requires d < 16
    ensures DigitValue(c) == Some(d)
  {
    if d < 10 then ('0' as int + d) as char else ('a' as int + d - 10) as char
  }

  /** Every character of `s` is a digit of `base`. */
  predicate AllDigits(s: string, base: nat) {
    forall i :: 0 <= i < |s| ==> DigitValue(s[i]).Some? && DigitValue(s[i]).value < base
  }

  /** The number a digit string denotes in `base`, read as positional notation. */
  function DigitsValue(s: string, base: nat): nat
    requires AllDigits(s, base)
  {
    if s == [] then 0
    else
      assert AllDigits(s[..|s| - 1], base) by {
        assert forall i :: 0 <= i < |s| - 1 ==> s[..|s| - 1][i] == s[i];
      }
      var high: nat := DigitsValue(s[..|s| - 1], base);
      assert high * base >= 0;
      high * base + DigitValue(s[|s| - 1]).value
  }

  /** The shortest digit string for `v` in `base`, with lower-case letters. */
  function Format(v: nat, base: nat): (s: string)
    requires ValidBase(base)
    ensures s != [] && AllDigits(s, base)
    decreases v
  {
    if v < base then [DigitChar(v)]
    else Format(v / base, base) + [DigitChar(v % base)]
  }

  /** `strconv.FormatInt(v, 10)`. */
  function FormatInt(v: int): string {
    if v < 0 then "-" + Format(-v, 10) else Format(v, 10)
  }

  /** The prefix a base-0 parse reads as selecting `base`. */
  function Prefix(base: nat): string
    requires base == 2 || base == 8 || base == 16
  {
    if base == 2 then "0b" else if base == 8 then "0o" else "0x"
  }

  // ---------------------------------------------------------------------------
  // Lemmas
  // ---------------------------------------------------------------------------

  /** The formatted value reads back as the value. */
  lemma {:induction false} FormatValue(v: nat, base: nat)
    requires ValidBase(base)
    ensures DigitsValue(Format(v, base), base) == v
    decreases v
  {
    var s := Format(v, base);
    if v >= base {
      FormatValue(v / base, base);
      assert s[..|s| - 1] == Format(v / base, base);
    }
  }

  /** Only zero is formatted with a leading `0`. */
  lemma {:induction false} FormatLeadingDigit(v: nat, base: nat)
    requires ValidBase(base)
    ensures (Format(v, base)[0] == '0') <==> v == 0
    decreases v
  {
    if v >= base {
      FormatLeadingDigit(v / base, base);
    }
  }

  /** Appending digits never makes a value smaller. */
  lemma {:induction false} DigitsValueGrows(p: string, s: string, base: nat)
    requires ValidBase(base) && AllDigits(p + s, base)
    ensures AllDigits(p, base) && DigitsValue(p, base) <= DigitsValue(p + s, base)
    decreases |s|
  {
    assert forall i :: 0 <= i < |p| ==> p[i] == (p + s)[i];
    if s == [] {
      assert p + s == p;
    } else {
      var q := p + s[..|s| - 1];
      assert (p + s)[..|p + s| - 1] == q;
      assert forall i :: 0 <= i < |q| ==> q[i] == (p + s)[i];
      DigitsValueGrows(p, s[..|s| - 1], base);
      assert p + s[..|s| - 1] == q;
      var m := DigitsValue(q, base);
      assert DigitsValue(p + s, base) == m * base + DigitValue((p + s)[|p + s| - 1]).value;
      assert m * base >= m by {
        assert base == 2 || base == 8 || base == 10 || base == 16;
      }
    }
  }

  /** Past strconv's cutoff, one more digit position overflows 64 bits. */
  lemma CutoffOverflows(n: nat, base: nat)
    requires ValidBase(base) && n >= MaxUint64 / base + 1
    ensures n * base > MaxUint64
  {
    assert base == 2 || base == 8 || base == 10 || base == 16;
  }

  /** Moving the first digit of `s` to the end of `p`. */
  lemma AppendDigit(p: string, s: string, base: nat)
    requires ValidBase(base) && s != [] && AllDigits(p + s, base) && AllDigits(p, base)
    ensures var p' := p + [s[0]];
      && p' + s[1..] == p + s
      && AllDigits(p', base)
      && DigitValue(s[0]).Some? && DigitValue(s[0]).value < base
      && DigitsValue(p', base) == DigitsValue(p, base) * base + DigitValue(s[0]).value
      && DigitsValue(p', base) <= DigitsValue(p + s, base)
  {
    var p' := p + [s[0]];
    assert s[0] == (p + s)[|p|];
    assert p' + s[1..] == p + s;
    assert forall i :: 0 <= i < |p'| ==> p'[i] == (p + s)[i];
    assert p'[..|p'| - 1] == p;
    DigitsValueGrows(p', s[1..], base);
  }

  /** One step of the digit loop on a digit of the base. */
  lemma ScanStep(s: string, base: nat, n: nat, d: nat)
    requires ValidBase(base) && n <= MaxUint64 && s != [] && DigitValue(s[0]) == Some(d) && d < base
    ensures Scan(s, base, n, false) ==
      if n >= MaxUint64 / base + 1 || n * base + d > MaxUint64 then Err(ErrRange)
      else Scan(s[1..], base, n * base + d, false)
  {
  }

  /**
   * The digit loop, started on the value of the digits already read, ends with
   * the value of all the digits when that fits 64 bits, and with a range error
   * otherwise.
   */
  lemma {:induction false} ScanDigits(p: string, s: string, base: nat)
    requires ValidBase(base) && AllDigits(p + s, base)
    requires AllDigits(p, base) && DigitsValue(p, base) <= MaxUint64
    ensures Scan(s, base, DigitsValue(p, base), false) ==
            if DigitsValue(p + s, base) <= MaxUint64 then Ok(Scanned(DigitsValue(p + s, base), false))
            else Err(ErrRange)
    decreases |s|
  {
    if s == [] {
      assert p + s == p;
    } else {
      var n := DigitsValue(p, base);
      var p' := p + [s[0]];
      AppendDigit(p, s, base);
      var d := DigitValue(s[0]).value;
      ScanStep(s, base, n, d);
      if n >= MaxUint64 / base + 1 {
        CutoffOverflows(n, base);
      } else if n * base + d <= MaxUint64 {
        ScanDigits(p', s[1..], base);
      }
    }
  }

  /** Decimal text round-trips through ParseUint, and a value past 64 bits is a range error. */
  lemma DecimalRoundTrip(v: nat)
    ensures ParseUint(Format(v, 10)) == if v <= MaxUint64 then Ok(v) else Err(ErrRange)
  {
    var s := Format(v, 10);
    FormatLeadingDigit(v, 10);
    FormatValue(v, 10);
    if v == 0 {
      assert s == "0";
    } else {
      assert [] + s == s;
      ScanDigits([], s, 10);
    }
  }

  /** A `0b`, `0o` or `0x` prefix in front of at least one more character selects its base. */
  lemma PrefixSelectsBase(digits: string, base: nat)
    requires (base == 2 || base == 8 || base == 16) && digits != []
    ensures BasePrefix(Prefix(base) + digits) == (base, digits)
  {
    var s := Prefix(base) + digits;
    assert s[2..] == digits && s[0] == '0' && s[1] == Prefix(base)[1];
  }

  /** Text with a `0b`, `0o` or `0x` prefix round-trips in its base. */
  lemma PrefixedRoundTrip(v: nat, base: nat)
    requires base == 2 || base == 8 || base == 16
    ensures ParseUint(Prefix(base) + Format(v, base)) == if v <= MaxUint64 then Ok(v) else Err(ErrRange)
  {
    var digits := Format(v, base);
    var s := Prefix(base) + digits;
    PrefixSelectsBase(digits, base);
    FormatValue(v, base);
    assert [] + digits == digits;
    ScanDigits([], digits, base);
  }

  /** A lone leading zero selects octal: `"0" + Format(v, 8)` reads back as v. */
  lemma LeadingZeroIsOctal(v: nat)
    ensures ParseUint("0" + Format(v, 8)) == if v <= MaxUint64 then Ok(v) else Err(ErrRange)
  {
    var digits := Format(v, 8);
    var s := "0" + digits;
    assert s[1..] == digits;
    assert DigitValue(s[1]).value < 8 by { assert s[1] == digits[0]; }
    assert BasePrefix(s) == (8, digits);
    FormatValue(v, 8);
    assert [] + digits == digits;
    ScanDigits([], digits, 8);
  }

  /** Signed decimal text round-trips through ParseInt inside the int64 range and is a range error outside it. */
  lemma SignedRoundTrip(v: int)
    ensures ParseInt(FormatInt(v)) == if MinInt64 <= v <= MaxInt64 then Ok(v) else Err(ErrRange)
  {
    var s := FormatInt(v);
    if v < 0 {
      DecimalRoundTrip(-v);
      assert s[1..] == Format(-v, 10);
    } else {
      DecimalRoundTrip(v);
      FormatLeadingDigit(v, 10);
      assert DigitValue(s[0]).Some?;
    }
  }

  /** An unsigned parse rejects every sign, `"-0"` and `"+1"` included. */
  lemma UnsignedRejectsSign(s: string)
    requires s != [] && (s[0] == '-' || s[0] == '+')
    ensures ParseUint(s) == Err(ErrSyntax)
  {
  }

  /** Decimal text, and text that is not a number. */
  lemma ParseDecimalExamples()
    ensures ParseInt("42") == Ok(42)
    ensures ParseInt("abc") == Err(ErrSyntax)
    ensures ParseInt("") == Err(ErrSyntax)
  {
  }

  /** Hexadecimal text, with and without a sign. */
  lemma ParseHexExamples()
    ensures ParseInt("0x2A") == Ok(42)
    ensures ParseInt("-0x2A") == Ok(-42)
  {
    assert BasePrefix("0x2A") == (16, "2A");
  }

  /** A minus sign is a syntax error for an unsigned parse. */
  lemma ParseUnsignedExamples()
    ensures ParseUint("-1") == Err(ErrSyntax)
  {
  }

  /** Underscores between digits are accepted, a leading one is not; 8 is not an octal digit. */
  lemma ParseUnderscoreExamples()
    ensures ParseInt("1_000") == Ok(1000)
    ensures ParseInt("_1") == Err(ErrSyntax)
    ensures ParseInt("08") == Err(ErrSyntax)
  {
    assert BasePrefix("08") == (8, "8");
    assert UnderscoreOK("1_000");
  }
}
