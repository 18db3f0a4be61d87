/**
  Numbers in four bases: 256-bit patterns with a sign, printed with a base prefix and parsed
  back with the base detected from the text.
 */
module Numbers {
  import opened Wrappers
  import opened Words

  datatype Base = Binary | Octal | Decimal | Hexadecimal

  function Radix(b: Base): (r: nat)
    ensures 2 <= r <= 16
  {
    match b
    case Binary => 2
    case Octal => 8
    case Decimal => 10
    case Hexadecimal => 16
  }

  function Prefix(b: Base): string {
    match b
    case Binary => "0b"
    case Octal => "0o"
    case Decimal => ""
    case Hexadecimal => "0x"
  }

  /* ---------- Digits ---------- */

  const DIGITS := "0123456789abcdef"

  function DigitValue(c: char): Option<nat> {
    if '0' <= c <= '9' then Some((c - '0') as nat)
    else if 'a' <= c <= 'z' then Some((c - 'a') as nat + 10)
    else if 'A' <= c <= 'Z' then Some((c - 'A') as nat + 10)
    else None
  }

  /** A number without its last digit. */
  function High(n: nat, base: Base): (r: nat)
    ensures n >= Radix(base) ==> 0 < r < n
  {
    match base
    case Binary => n / 2
    case Octal => n / 8
    case Decimal => n / 10
    case Hexadecimal => n / 16
  }

  function Low(n: nat, base: Base): (r: nat)
    ensures r < Radix(base)
  {
    match base
    case Binary => n % 2
    case Octal => n % 8
    case Decimal => n % 10
    case Hexadecimal => n % 16
  }

  function AppendDigit(high: nat, base: Base, d: nat): nat {
    match base
    case Binary => high * 2 + d
    case Octal => high * 8 + d
    case Decimal => high * 10 + d
    case Hexadecimal => high * 16 + d
  }

  /** The usual digits, without leading zeros; zero is one digit. */
  function Render(n: nat, base: Base): string {
    if n < Radix(base) then [DIGITS[n]] else Render(High(n, base), base) + [DIGITS[Low(n, base)]]
  }

  /** Digits in either case, with underscores ignored; overflow is an error. */
  function ParseU256(s: string, base: Base): Option<nat> {
    if s == "" then Some(0)
    else
      var c := s[|s| - 1];
      match ParseU256(s[..|s| - 1], base)
      case None => None
      case Some(high) =>
        if c == '_' then Some(high)
        else
          match DigitValue(c)
          case None => None
          case Some(d) =>
            if d < Radix(base) && AppendDigit(high, base, d) < U256_LIMIT then Some(AppendDigit(high, base, d)) else None
  }

  datatype Scan = Fits(value: nat) | Overflows | Invalid

  /** What the 64-bit parser used as a probe makes of the digits: the first failure counts. */
  function ScanU64(s: string, base: Base): Scan {
    if s == "" then Fits(0)
    else
      var c := s[|s| - 1];
      match ScanU64(s[..|s| - 1], base)
      case Overflows => Overflows
      case Invalid => Invalid
      case Fits(high) =>
        match DigitValue(c)
        case None => Invalid
        case Some(d) =>
          if d >= Radix(base) then Invalid
          else if AppendDigit(high, base, d) < U64_LIMIT then Fits(AppendDigit(high, base, d)) else Overflows
  }

  /** Empty input, and a sign alone, are invalid; a leading plus is accepted. */
  predicate ProbeU64(s: string, base: Base) {
    var digits := if s != "" && s[0] == '+' then s[1..] else s;
    digits != "" && !ScanU64(digits, base).Invalid?
  }

  /* ---------- Detecting and parsing ---------- */

  function Detect(s: string): Option<Base> {
    if s != "" && (s[0] == '+' || s[0] == '-') then Detect(s[1..])
    else if "0b" <= s then (if ProbeU64(s[2..], Binary) then Some(Binary) else None)
    else if "0o" <= s then (if ProbeU64(s[2..], Octal) then Some(Octal) else None)
    else if "0x" <= s then (if ProbeU64(s[2..], Hexadecimal) then Some(Hexadecimal) else None)
    else if ParseU256(s, Decimal).Some? then Some(Decimal)
    else if ParseU256(s, Hexadecimal).Some? then Some(Hexadecimal)
    else None
  }

  predicate HasPrefix(s: string) {
    |s| >= 2 && s[0] == '0' && s[1] in "xXoObB"
  }

  function ParseMagnitude(s: string, base: Base): Option<nat> {
    ParseU256(if HasPrefix(s) then s[2..] else s, base)
  }

  /** `number` is the two's complement pattern. */
  datatype Number = Number(number: nat, nonnegative: bool, base: Base)

  /** Without a given base, the base is detected. */
  function ParseInt(s: string, base: Option<Base>): Option<Number> {
    match if base.Some? then base else Detect(s)
    case None => None
    case Some(b) =>
      var negative := s != "" && s[0] == '-';
      var digits := if s != "" && (s[0] == '+' || s[0] == '-') then s[1..] else s;
      match ParseMagnitude(digits, b)
      case None => None
      case Some(n) =>
        if negative then Some(Number((U256_LIMIT - n) % U256_LIMIT, false, b)) else Some(Number(n, true, b))
  }

  /* ---------- Formatting ---------- */

  /** The absolute value of a pattern read as a signed number. */
  function Magnitude(pattern: nat): nat
    requires pattern < U256_LIMIT
  {
    if pattern < I256_LIMIT then pattern else U256_LIMIT - pattern
  }

  function TrimZeros(s: string): string {
    if s != "" && s[0] == '0' then TrimZeros(s[1..]) else s
  }

  /** Only decimal shows a sign. */
  predicate ShowsSign(n: Number) { n.base == Decimal && !n.nonnegative }

  function Shown(n: Number): nat
    requires n.number < U256_LIMIT
  {
    if ShowsSign(n) then Magnitude(n.number) else n.number
  }

  /** Digits only: no sign, no prefix. */
  function Format(n: Number): string
    requires n.number < U256_LIMIT
  {
    TrimZeros(Render(Shown(n), n.base))
  }

  function Sign(n: Number): string {
    if ShowsSign(n) && n.number != 0 then "-" else ""
  }

  /** The alternate `Debug` form: sign in decimal, prefix, digits. */
  function Print(n: Number): string
    requires n.number < U256_LIMIT
  {
    Sign(n) + (Prefix(n.base) + if n.number == 0 then "0" else Format(n))
  }

  /** A mathematical value as a number in a base. */
  function Of(value: int, base: Base): (r: Number)
    requires 0 <= value + I256_LIMIT && value < U256_LIMIT
    ensures r.number < U256_LIMIT
  {
    if value >= 0 then Number(value, true, base) else Number(U256_LIMIT + value, false, base)
  }

  /** Converts a text to another base; a text already in that base is returned as it is. */
  function ToBase(value: string, base: Base): Option<string> {
    match Detect(value)
    case None => None
    case Some(b) =>
      if b == base then Some(value)
      else
        match ParseInt(value, Some(b))
        case None => None
        case Some(n) => if n.number < U256_LIMIT then Some(Print(n.(base := base))) else None
  }

  /* ---------- Digits round trip ---------- */

  lemma DigitRoundTrip(d: nat)
    requires d < 16
    ensures DigitValue(DIGITS[d]) == Some(d) && DIGITS[d] != '_'
  {
  }

  lemma Recompose(n: nat, base: Base)
    ensures AppendDigit(High(n, base), base, Low(n, base)) == n
  {
  }

  lemma ParseOneMore(s: string, base: Base, high: nat, d: nat)
    requires d < Radix(base) && ParseU256(s, base) == Some(high) && AppendDigit(high, base, d) < U256_LIMIT
    ensures ParseU256(s + [DIGITS[d]], base) == Some(AppendDigit(high, base, d))
  {
    DigitRoundTrip(d);
    assert (s + [DIGITS[d]])[..|s|] == s;
  }

  lemma ScanOneMore(s: string, base: Base, d: nat)
    requires d < Radix(base) && !ScanU64(s, base).Invalid?
    ensures !ScanU64(s + [DIGITS[d]], base).Invalid?
  {
    DigitRoundTrip(d);
    assert (s + [DIGITS[d]])[..|s|] == s;
  }

  lemma {:induction false} RenderParses(n: nat, base: Base)
    requires n < U256_LIMIT
    ensures ParseU256(Render(n, base), base) == Some(n)
  {
    if n < Radix(base) {
      ParseOneMore("", base, 0, n);
      assert "" + [DIGITS[n]] == [DIGITS[n]];
    } else {
      Recompose(n, base);
      RenderParses(High(n, base), base);
      ParseOneMore(Render(High(n, base), base), base, High(n, base), Low(n, base));
    }
  }

  lemma {:induction false} RenderScans(n: nat, base: Base)
    ensures !ScanU64(Render(n, base), base).Invalid?
  {
    if n < Radix(base) {
      ScanOneMore("", base, n);
      assert "" + [DIGITS[n]] == [DIGITS[n]];
    } else {
      Recompose(n, base);
      RenderScans(High(n, base), base);
      ScanOneMore(Render(High(n, base), base), base, Low(n, base));
    }
  }

  /** A positive number starts with a digit other than zero. */
  lemma {:induction false} RenderStarts(n: nat, base: Base)
    ensures Render(n, base) != "" && Render(n, base)[0] in DIGITS
    ensures n > 0 ==> Render(n, base)[0] != '0'
  {
    if n >= Radix(base) {
      Recompose(n, base);
      RenderStarts(High(n, base), base);
    }
  }

  /* ---------- Printing and parsing back ---------- */

  lemma PrefixDetected(base: Base, digits: string)
    requires base != Decimal && ProbeU64(digits, base)
    ensures
      var s := Prefix(base) + digits;
      |s| >= 2 && s[0] == '0' && Detect(s) == Some(base) && HasPrefix(s) && s[2..] == digits
  {
    var s := Prefix(base) + digits;
    assert s[0] == '0' && s[2..] == digits;
    match base
    case Binary => assert s[1] == 'b';
    case Octal => assert s[1] == 'o';
    case Hexadecimal => assert s[1] == 'x';
  }

  lemma PrefixedText(digits: string, base: Base)
    requires base != Decimal && ProbeU64(digits, base)
    ensures ParseInt(Prefix(base) + digits, None) ==
      match ParseU256(digits, base) { case Some(n) => Some(Number(n, true, base)) case None => None }
  {
    PrefixDetected(base, digits);
  }

  lemma RenderProbed(n: nat, base: Base)
    ensures ProbeU64(Render(n, base), base)
  {
    RenderScans(n, base);
    RenderStarts(n, base);
    assert Render(n, base)[0] != '+';
  }

  /** A digit string after its prefix, for the three bases that have one. */
  lemma PrefixedParses(n: nat, base: Base)
    requires n < U256_LIMIT && base != Decimal
    ensures ParseInt(Prefix(base) + Render(n, base), None) == Some(Number(n, true, base))
  {
    RenderParses(n, base);
    RenderProbed(n, base);
    PrefixedText(Render(n, base), base);
  }

  lemma PlainDetected(s: string)
    requires s != "" && s[0] != '+' && s[0] != '-' && (s[0] != '0' || |s| == 1) && ParseU256(s, Decimal).Some?
    ensures Detect(s) == Some(Decimal) && ParseMagnitude(s, Decimal) == ParseU256(s, Decimal)
  {
  }

  lemma DecimalDetected(n: nat)
    requires n < U256_LIMIT
    ensures
      var s := Render(n, Decimal);
      s != "" && s[0] != '+' && s[0] != '-' && Detect(s) == Some(Decimal) && ParseMagnitude(s, Decimal) == Some(n)
  {
    RenderParses(n, Decimal);
    RenderStarts(n, Decimal);
    assert n == 0 ==> Render(n, Decimal) == "0";
    PlainDetected(Render(n, Decimal));
  }

  /** A decimal text without sign, alone and behind a minus. */
  lemma PlainParses(s: string, n: nat)
    requires s != "" && s[0] != '+' && s[0] != '-' && Detect(s) == Some(Decimal) && ParseMagnitude(s, Decimal) == Some(n)
    ensures ParseInt(s, None) == Some(Number(n, true, Decimal))
    ensures 0 < n < U256_LIMIT ==> ParseInt("-" + s, None) == Some(Number(U256_LIMIT - n, false, Decimal))
  {
    assert ("-" + s)[1..] == s;
  }

  lemma DecimalParses(n: nat)
    requires n < U256_LIMIT
    ensures ParseInt(Render(n, Decimal), None) == Some(Number(n, true, Decimal))
    ensures n > 0 ==> ParseInt("-" + Render(n, Decimal), None) == Some(Number(U256_LIMIT - n, false, Decimal))
  {
    DecimalDetected(n);
    PlainParses(Render(n, Decimal), n);
  }

  lemma FormatIsRender(n: Number)
    requires 0 < n.number < U256_LIMIT
    ensures Shown(n) > 0 && Format(n) == Render(Shown(n), n.base)
  {
    RenderStarts(Shown(n), n.base);
  }

  lemma RenderZero(base: Base)
    ensures Render(0, base) == "0"
  {
  }

  lemma PrintShows(n: Number)
    requires n.number < U256_LIMIT
    ensures Print(n) == Sign(n) + (Prefix(n.base) + Render(Shown(n), n.base))
  {
    if n.number == 0 { RenderZero(n.base); } else { FormatIsRender(n); }
  }

  /** Printing any value of the signed and unsigned ranges in any base and parsing the text
      back, the base being detected, gives the same base and the same 256-bit pattern; the sign
      is kept in decimal and absorbed by the pattern in the other bases. */
  lemma PrintParses(value: int, base: Base)
    requires 0 <= value + I256_LIMIT && value < U256_LIMIT
    ensures
      var n := Of(value, base);
      ParseInt(Print(n), None) == Some(if base == Decimal then n else n.(nonnegative := true))
  {
    if base == Decimal { DecimalPrintParses(value); } else { PrefixedPrintParses(Of(value, base)); }
  }

  lemma PrefixedPrintParses(n: Number)
    requires n.number < U256_LIMIT && n.base != Decimal
    ensures ParseInt(Print(n), None) == Some(n.(nonnegative := true))
  {
    PrefixedParses(n.number, n.base);
    PrintPrefixed(n);
  }

  lemma DecimalPrintParses(value: int)
    requires 0 <= value + I256_LIMIT && value < U256_LIMIT
    ensures ParseInt(Print(Of(value, Decimal)), None) == Some(Of(value, Decimal))
  {
    DecimalParses(if value < 0 then -value else value);
    PrintDecimal(Of(value, Decimal));
  }

  lemma PrintPrefixed(n: Number)
    requires n.number < U256_LIMIT && n.base != Decimal
    ensures Print(n) == Prefix(n.base) + Render(n.number, n.base)
  {
    PrintShows(n);
    NoSign(Prefix(n.base) + Render(n.number, n.base));
  }

  lemma NoSign(s: string)
    ensures "" + s == s
  {
  }

  lemma PrintDecimal(n: Number)
    requires n.number < U256_LIMIT && n.base == Decimal && (n.number == 0 ==> n.nonnegative)
    ensures Print(n) == if n.nonnegative then Render(n.number, Decimal) else "-" + Render(Magnitude(n.number), Decimal)
  {
    PrintShows(n);
    NoSign(Render(Shown(n), Decimal));
  }

  lemma RenderInjective(m: nat, n: nat, base: Base)
    requires m < U256_LIMIT && n < U256_LIMIT
    ensures Render(m, base) == Render(n, base) <==> m == n
  {
    RenderParses(m, base);
    RenderParses(n, base);
  }

  /** A negative decimal text prints back as it was exactly down to the least signed value. */
  lemma NegativePrintsBack(n: nat)
    requires 0 < n < U256_LIMIT
    ensures
      var s := "-" + Render(n, Decimal);
      var parsed := ParseInt(s, None);
      parsed.Some? && parsed.value.number < U256_LIMIT && (Print(parsed.value) == s <==> n <= I256_LIMIT)
  {
    var s := "-" + Render(n, Decimal);
    DecimalParses(n);
    var p := Number(U256_LIMIT - n, false, Decimal);
    PrintDecimal(p);
    assert Print(p)[1..] == Render(Magnitude(p.number), Decimal) && s[1..] == Render(n, Decimal);
    RenderInjective(Magnitude(p.number), n, Decimal);
  }

  lemma PrintIgnoresSign(pattern: nat, base: Base)
    requires pattern < U256_LIMIT && base != Decimal
    ensures Print(Number(pattern, true, base)) == Print(Number(pattern, false, base))
  {
  }

  lemma ConvertsText(s: string, n: Number, to: Base)
    requires ParseInt(s, None) == Some(n) && n.number < U256_LIMIT && n.base != to
    ensures ToBase(s, to) == Some(Print(n.(base := to)))
  {
    assert ParseInt(s, Some(n.base)) == ParseInt(s, None);
  }

  /** Converting a printed value to another base prints its pattern in that base. */
  lemma Converts(value: int, from: Base, to: Base)
    requires 0 <= value + I256_LIMIT && value < U256_LIMIT && from != to
    ensures ToBase(Print(Of(value, from)), to) == Some(Print(Of(Of(value, from).number, to)))
  {
    var n := Of(value, from);
    PrintParses(value, from);
    ConvertsText(Print(n), if from == Decimal then n else n.(nonnegative := true), to);
    if to != Decimal { PrintIgnoresSign(n.number, to); }
  }

  /** A value and its pattern read as an unsigned number print alike exactly when the value is
      not negative or the base has no sign. */
  lemma PrintsAlike(value: int, base: Base)
    requires 0 <= value + I256_LIMIT && value < U256_LIMIT
    ensures Print(Of(Of(value, base).number, base)) == Print(Of(value, base)) <==> value >= 0 || base != Decimal
  {
    if value < 0 && base == Decimal {
      SignShows(U256_LIMIT + value);
    } else if value < 0 {
      PrintIgnoresSign(U256_LIMIT + value, base);
    }
  }

  lemma NonnegativeStarts(pattern: nat)
    requires 0 < pattern < U256_LIMIT
    ensures var s := Print(Number(pattern, true, Decimal)); s != "" && s[0] in DIGITS
  {
    PrintDecimal(Number(pattern, true, Decimal));
    RenderStarts(pattern, Decimal);
  }

  lemma NegativeStarts(pattern: nat)
    requires 0 < pattern < U256_LIMIT
    ensures var s := Print(Number(pattern, false, Decimal)); s != "" && s[0] == '-'
  {
  }

  lemma SignShows(pattern: nat)
    requires 0 < pattern < U256_LIMIT
    ensures Print(Number(pattern, true, Decimal)) != Print(Number(pattern, false, Decimal))
  {
    NonnegativeStarts(pattern);
    NegativeStarts(pattern);
  }

  /** Converting there and back gives the text back exactly unless a negative decimal loses its
      sign to a base that has none. */
  lemma ThereAndBack(value: int, from: Base, to: Base)
    requires 0 <= value + I256_LIMIT && value < U256_LIMIT
    ensures
      var s := Print(Of(value, from));
      var there := ToBase(s, to);
      there.Some? && (ToBase(there.value, from) == Some(s) <==> value >= 0 || from != Decimal || to == Decimal)
  {
    if from == to {
      PrintParses(value, from);
    } else {
      Converts(value, from, to);
      Converts(Of(value, from).number, to, from);
      PrintsAlike(value, from);
    }
  }

  /* ---------- Any text ---------- */

  function Pow(r: nat, k: nat): nat { if k == 0 then 1 else r * Pow(r, k - 1) }

  /** The reference: each digit counts for its power of the radix, the last one for itself. */
  function Weighted(digits: seq<nat>, r: nat): nat {
    if digits == [] then 0 else digits[0] * Pow(r, |digits| - 1) + Weighted(digits[1..], r)
  }

  /** The digits of a text, without underscores. */
  function DigitsOf(s: string): seq<nat> {
    if s == "" then []
    else
      var n := |s| - 1;
      DigitsOf(s[..n]) + (match DigitValue(s[n]) case Some(d) => [d] case None => [])
  }

  predicate IsDigit(c: char, base: Base) {
    DigitValue(c).Some? && DigitValue(c).value < Radix(base)
  }

  predicate AllDigits(s: string, base: Base) {
    forall k :: 0 <= k < |s| ==> IsDigit(s[k], base)
  }

  predicate DigitsOrUnderscores(s: string, base: Base) {
    forall k :: 0 <= k < |s| ==> s[k] == '_' || IsDigit(s[k], base)
  }

  /** A digit stands for its value in either case, and nothing else does. */
  lemma DigitCases(d: nat, c: char)
    requires d < 16
    ensures DigitValue(c) == Some(d) <==> c == "0123456789abcdef"[d] || c == "0123456789ABCDEF"[d]
  {
    if d < 10 {
      assert "0123456789abcdef"[d] == '0' + d as char && "0123456789ABCDEF"[d] == '0' + d as char;
    } else {
      assert "0123456789abcdef"[d] == 'a' + (d - 10) as char && "0123456789ABCDEF"[d] == 'A' + (d - 10) as char;
    }
  }

  lemma TimesSum(a: nat, p: nat, w: nat, r: nat)
    ensures a * (r * p) + (w * r) == (a * p + w) * r
  {
  }

  lemma {:induction false} WeightedSnoc(digits: seq<nat>, d: nat, r: nat)
    ensures Weighted(digits + [d], r) == Weighted(digits, r) * r + d
  {
    var all := digits + [d];
    if digits == [] {
      assert all[1..] == [] && Weighted([], r) == 0 && Pow(r, 0) == 1;
      assert all[0] * 1 == d;
    } else {
      var a, p, w := digits[0], Pow(r, |digits| - 1), Weighted(digits[1..], r);
      WeightedSnoc(digits[1..], d, r);
      assert all[1..] == digits[1..] + [d];
      assert Pow(r, |all| - 1) == r * p;
      TimesSum(a, p, w, r);
    }
  }

  lemma AppendIs(high: nat, base: Base, d: nat)
    ensures AppendDigit(high, base, d) == high * Radix(base) + d && AppendDigit(high, base, d) >= high
  {
  }

  /** What the characters `s` denote in a base, if they denote a 256-bit word. */
  function Denoted(s: string, base: Base): Option<nat> {
    var value := Weighted(DigitsOf(s), Radix(base));
    if DigitsOrUnderscores(s, base) && value < U256_LIMIT then Some(value) else None
  }

  lemma DenotedSnoc(s: string, c: char, base: Base)
    ensures DigitsOrUnderscores(s + [c], base) <==> DigitsOrUnderscores(s, base) && (c == '_' || IsDigit(c, base))
    ensures Weighted(DigitsOf(s + [c]), Radix(base)) ==
      match DigitValue(c) {
        case Some(d) => Weighted(DigitsOf(s), Radix(base)) * Radix(base) + d
        case None => Weighted(DigitsOf(s), Radix(base))
      }
  {
    var t := s + [c];
    assert t[..|s|] == s;
    if DigitsOrUnderscores(t, base) {
      forall k | 0 <= k < |s| ensures s[k] == '_' || IsDigit(s[k], base) { assert t[k] == s[k]; }
      assert t[|s|] == c;
    }
    match DigitValue(c)
    case Some(d) => WeightedSnoc(DigitsOf(s), d, Radix(base));
    case None => assert DigitsOf(s) + [] == DigitsOf(s);
  }

  /** The parser against the reference, on every text and in every base. */
  lemma {:induction false} ParsesDenoted(s: string, base: Base)
    ensures ParseU256(s, base) == Denoted(s, base)
  {
    if s != "" {
      var n := |s| - 1;
      var c, r := s[n], Radix(base);
      ParsesDenoted(s[..n], base);
      assert s[..n] + [c] == s;
      DenotedSnoc(s[..n], c, base);
      var high := Weighted(DigitsOf(s[..n]), r);
      match DigitValue(c) {
        case None =>
        case Some(d) =>
          AppendIs(high, base, d);
      }
    }
  }

  lemma {:induction false} LowerCase(n: nat, base: Base)
    ensures forall k :: 0 <= k < |Render(n, base)| ==> Render(n, base)[k] in "0123456789abcdef"
  {
    if n >= Radix(base) { LowerCase(High(n, base), base); }
  }

  /** What is rendered denotes the number, in lower-case digits without a leading zero. */
  lemma RenderDenotes(n: nat, base: Base)
    requires n < U256_LIMIT
    ensures
      var s := Render(n, base);
      && Denoted(s, base) == Some(n) && s != "" && (s[0] == '0' ==> s == "0")
      && forall k :: 0 <= k < |s| ==> s[k] in "0123456789abcdef"
  {
    RenderParses(n, base);
    ParsesDenoted(Render(n, base), base);
    RenderStarts(n, base);
    RenderZero(base);
    LowerCase(n, base);
  }

  lemma {:induction false} DigitsScan(s: string, base: Base)
    requires AllDigits(s, base)
    ensures !ScanU64(s, base).Invalid?
  {
    if s != "" { DigitsScan(s[..|s| - 1], base); }
  }

  /** Digits after a base's prefix, in either case, are read in that base. */
  lemma PrefixedDigitsParse(s: string, base: Base)
    requires base != Decimal && s != "" && AllDigits(s, base)
    ensures
      var value := Weighted(DigitsOf(s), Radix(base));
      ParseInt(Prefix(base) + s, None) == if value < U256_LIMIT then Some(Number(value, true, base)) else None
  {
    assert IsDigit(s[0], base);
    DigitsScan(s, base);
    PrefixedText(s, base);
    ParsesDenoted(s, base);
  }

  predicate Unprefixed(s: string) {
    s != "" && s[0] != '+' && s[0] != '-' && !("0b" <= s) && !("0o" <= s) && !("0x" <= s)
  }

  /** A text without prefix and sign is decimal if it denotes a word in decimal, otherwise
      hexadecimal if it denotes one there, and otherwise refused. */
  lemma UnprefixedDetected(s: string)
    requires Unprefixed(s)
    ensures Detect(s) ==
      if Denoted(s, Decimal).Some? then Some(Decimal)
      else if Denoted(s, Hexadecimal).Some? then Some(Hexadecimal)
      else None
  {
    ParsesDenoted(s, Decimal);
    ParsesDenoted(s, Hexadecimal);
  }

  lemma NoUpperPrefix(s: string)
    requires HasPrefix(s) && Unprefixed(s)
    ensures s[1] == 'B' || s[1] == 'O' || s[1] == 'X'
  {
    assert s[1] == 'b' ==> "0b" <= s;
    assert s[1] == 'o' ==> "0o" <= s;
    assert s[1] == 'x' ==> "0x" <= s;
  }

  /** It is then read in the base detected; `0B` alone is taken off as a prefix afterwards. */
  lemma UnprefixedParses(s: string)
    requires Unprefixed(s)
    ensures
      var b := if Denoted(s, Decimal).Some? then Decimal else Hexadecimal;
      && (Denoted(s, b).None? ==> ParseInt(s, None) == None)
      && (Denoted(s, b).Some? && !("0B" <= s) ==> ParseInt(s, None) == Some(Number(Denoted(s, b).value, true, b)))
      && (Denoted(s, b).Some? && "0B" <= s ==>
            ParseInt(s, None) == match Denoted(s[2..], b) { case Some(n) => Some(Number(n, true, b)) case None => None })
  {
    var b := if Denoted(s, Decimal).Some? then Decimal else Hexadecimal;
    UnprefixedDetected(s);
    ParsesDenoted(s, b);
    if HasPrefix(s) {
      NoUpperPrefix(s);
      ParsesDenoted(s[2..], b);
      if s[1] == 'B' { assert "0B" <= s; } else { assert !IsDigit(s[1], b); }
    }
  }

  /** With a base given, one sign and one prefix, of whatever base, are taken off; a minus gives
      the two's complement. */
  lemma GivenBaseParses(s: string, base: Base)
    ensures
      var unsigned := if s != "" && (s[0] == '+' || s[0] == '-') then s[1..] else s;
      var prefixed := |unsigned| >= 2 && unsigned[..2] in ["0x", "0X", "0o", "0O", "0b", "0B"];
      var negative := s != "" && s[0] == '-';
      ParseInt(s, Some(base)) ==
        match Denoted(if prefixed then unsigned[2..] else unsigned, base) {
          case None => None
          case Some(n) => Some(Number(if negative && n > 0 then U256_LIMIT - n else n, !negative, base))
        }
  {
    var unsigned := if s != "" && (s[0] == '+' || s[0] == '-') then s[1..] else s;
    PrefixSpelled(unsigned);
    ParsesDenoted(if HasPrefix(unsigned) then unsigned[2..] else unsigned, base);
  }

  lemma PrefixSpelled(s: string)
    ensures HasPrefix(s) <==> |s| >= 2 && s[..2] in ["0x", "0X", "0o", "0O", "0b", "0B"]
  {
    if HasPrefix(s) {
      var c := s[1];
      assert s[..2] == ['0', c];
      assert c == 'x' || c == 'X' || c == 'o' || c == 'O' || c == 'b' || c == 'B';
    }
  }

  /** A leading plus changes nothing. */
  lemma PlusIgnored(s: string, base: Option<Base>)
    requires s == "" || (s[0] != '+' && s[0] != '-')
    ensures ParseInt("+" + s, base) == ParseInt(s, base)
  {
    assert ("+" + s)[1..] == s;
  }
}
