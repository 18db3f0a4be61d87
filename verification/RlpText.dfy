/**
  The text form of RLP items: printed as JSON strings of hex in JSON arrays, read back through
  a JSON parser. The two commands `from-rlp` and `to-rlp` are one the inverse of the other as
  far as the parser's nesting limit reaches.
 */
module RlpText {
  import opened Wrappers
  import opened Words
  import opened Rlp
  import Numbers

  /* ---------- Hex ---------- */

  const HEX_DIGITS := "0123456789abcdef"

  function HexDigit(n: nat): (c: char)
    requires n < 16
  {
    HEX_DIGITS[n]
  }

  function HexValue(c: char): (r: Option<nat>)
    ensures r.Some? ==> r.value < 16
  {
    if '0' <= c <= '9' then Some((c - '0') as nat)
    else if 'a' <= c <= 'f' then Some((c - 'a') as nat + 10)
    else if 'A' <= c <= 'F' then Some((c - 'A') as nat + 10)
    else None
  }

  lemma HexDigitValue(n: nat)
    requires n < 16
    ensures HexValue(HexDigit(n)) == Some(n) && Printable(HexDigit(n))
  {
  }

  function HexEncode(s: Bytes): string {
    if s == [] then ""
    else [HexDigit(s[0] / 16), HexDigit(s[0] % 16)] + HexEncode(s[1..])
  }

  function HexDecodeDigits(s: string): Option<Bytes> {
    if s == "" then Some([])
    else if |s| == 1 then None
    else
      match (HexValue(s[0]), HexValue(s[1]), HexDecodeDigits(s[2..]))
      case (Some(hi), Some(lo), Some(rest)) => Some([hi * 16 + lo] + rest)
      case _ => None
  }

  /** An optional `0x` followed by pairs of digits in either case. */
  function HexDecode(s: string): Option<Bytes> {
    HexDecodeDigits(if "0x" <= s then s[2..] else s)
  }

  lemma HexDecodePair(hi: nat, lo: nat, rest: string)
    requires hi < 16 && lo < 16 && HexDecodeDigits(rest).Some?
    ensures HexDecodeDigits([HexDigit(hi), HexDigit(lo)] + rest) == Some([hi * 16 + lo] + HexDecodeDigits(rest).value)
  {
    HexDigitValue(hi);
    HexDigitValue(lo);
    assert ([HexDigit(hi), HexDigit(lo)] + rest)[2..] == rest;
  }

  lemma {:induction false} HexRoundTrip(s: Bytes)
    ensures HexDecodeDigits(HexEncode(s)) == Some(s)
  {
    if s != [] {
      HexRoundTrip(s[1..]);
      var hi, lo := s[0] / 16, s[0] % 16;
      assert hi * 16 + lo == s[0];
      HexDecodePair(hi, lo, HexEncode(s[1..]));
      assert [s[0]] + s[1..] == s;
    }
  }

  lemma PrefixedHexRoundTrip(s: Bytes)
    ensures HexDecode("0x" + HexEncode(s)) == Some(s)
  {
    HexRoundTrip(s);
    assert ("0x" + HexEncode(s))[2..] == HexEncode(s);
  }

  /* ---------- Printing ---------- */

  function Show(i: Item): string
    decreases i, 1
  {
    match i
    case Data(d) => "\"0x" + HexEncode(d) + "\""
    case Array(xs) => "[" + ShowElements(xs) + "]"
  }

  function ShowElements(xs: seq<Item>): string
    decreases xs, 0
  {
    if xs == [] then ""
    else if |xs| == 1 then Show(xs[0])
    else Show(xs[0]) + "," + ShowElements(xs[1..])
  }

  lemma {:induction false} ShowElementsSnoc(xs: seq<Item>, x: Item)
    ensures ShowElements(xs + [x]) == if xs == [] then Show(x) else ShowElements(xs) + "," + Show(x)
  {
    var all := xs + [x];
    if xs == [] {
      assert all == [x];
    } else {
      ShowElementsSnoc(xs[1..], x);
      assert all[1..] == xs[1..] + [x];
      assert ShowElements(all) == Show(xs[0]) + "," + ShowElements(xs[1..] + [x]);
      if |xs| > 1 { Joined(Show(xs[0]), ShowElements(xs[1..]), Show(x)); }
    }
  }

  lemma Joined(a: string, b: string, c: string)
    ensures a + "," + (b + "," + c) == a + "," + b + "," + c
  {
  }

  lemma ElementShown(xs: seq<Item>, k: nat)
    requires k < |xs|
    ensures
      var before := "[" + ShowElements(xs[..k]);
      "[" + ShowElements(xs[..k + 1]) == (if k > 0 then before + "," else before) + Show(xs[k])
  {
    ShowElementsSnoc(xs[..k], xs[k]);
    assert xs[..k + 1] == xs[..k] + [xs[k]];
    assert k == 0 ==> ShowElements(xs[..k]) == "";
  }

  /** The `Display` code, which writes the elements in a loop. */
  method Display(i: Item) returns (out: string)
    ensures out == Show(i)
    decreases i
  {
    match i {
      case Data(d) =>
        out := "\"0x" + HexEncode(d) + "\"";
      case Array(xs) =>
        out := "[";
        for k := 0 to |xs|
          invariant out == "[" + ShowElements(xs[..k])
        {
          ElementShown(xs, k);
          if k > 0 {
            out := out + ",";
          }
          var element := Display(xs[k]);
          out := out + element;
        }
        assert xs[..|xs|] == xs;
        out := out + "]";
    }
  }

  /* ---------- Parsing ---------- */

  datatype Value =
    | Null | Bool(b: bool) | Number(text: string) | Str(s: string) | Arr(values: seq<Value>)

  function SkipWhitespace(s: string): (r: string)
    ensures |r| <= |s|
  {
    if s != "" && s[0] in " \n\t\r" then SkipWhitespace(s[1..]) else s
  }

  predicate Printable(c: char) {
    c >= ' ' && c != '"' && c != '\\'
  }

  /** A string up to its closing quote; escapes are not part of this model. */
  function TakeString(s: string): (r: Option<(string, string)>)
    ensures r.Some? ==> |r.value.1| < |s|
  {
    if s == "" then None
    else if s[0] == '"' then Some(("", s[1..]))
    else if !Printable(s[0]) then None
    else
      match TakeString(s[1..])
      case None => None
      case Some((t, rest)) => Some(([s[0]] + t, rest))
  }

  predicate IsDigit(c: char) { '0' <= c <= '9' }

  predicate AllDigits(s: string) {
    forall k :: 0 <= k < |s| ==> IsDigit(s[k])
  }

  /** The digits in front, and the rest. */
  function TakeDigits(s: string): (r: (string, string))
    ensures |r.0| + |r.1| == |s|
  {
    if s == "" || !IsDigit(s[0]) then ("", s)
    else var r := TakeDigits(s[1..]); ([s[0]] + r.0, r.1)
  }

  /** What follows an optional fraction: a point needs a digit after it. */
  function SkipFraction(s: string): (r: Option<string>)
    ensures r.Some? ==> |r.value| <= |s|
  {
    if s == "" || s[0] != '.' then Some(s)
    else
      var (digits, rest) := TakeDigits(s[1..]);
      if digits == "" then None else Some(rest)
  }

  /** What follows an optional exponent, with an optional sign. */
  function SkipExponent(s: string): (r: Option<string>)
    ensures r.Some? ==> |r.value| <= |s|
  {
    if s == "" || s[0] !in "eE" then Some(s)
    else
      var (digits, rest) := TakeDigits(if |s| > 1 && s[1] in "+-" then s[2..] else s[1..]);
      if digits == "" then None else Some(rest)
  }

  /** What follows a number with these digits in front; no zero may lead. */
  function SkipNumber(digits: string, rest: string): (r: Option<string>)
    ensures r.Some? ==> |r.value| <= |rest| && digits != ""
  {
    if digits == "" || (digits[0] == '0' && |digits| > 1) then None
    else
      match SkipFraction(rest)
      case None => None
      case Some(t) => SkipExponent(t)
  }

  /** A number as it is written, which the parser keeps, and the rest. */
  function TakeNumber(s: string): (r: Option<(string, string)>)
    requires s != ""
    ensures r.Some? ==> |r.value.1| < |s|
  {
    var (digits, rest) := TakeDigits(if s[0] == '-' then s[1..] else s);
    match SkipNumber(digits, rest)
    case None => None
    case Some(u) => Some((s[..|s| - |u|], u))
  }

  /** The parser gives up on the array that would bring this to zero. */
  const RECURSION_LIMIT: nat := 128

  function ParseValue(s: string, remaining: nat): (r: Option<(Value, string)>)
    ensures r.Some? ==> |r.value.1| < |s|
    decreases |s|, 0
  {
    var t := SkipWhitespace(s);
    if t == "" then None
    else if t[0] == '"' then
      match TakeString(t[1..])
      case None => None
      case Some((u, rest)) => Some((Str(u), rest))
    else if t[0] == '[' then
      if remaining <= 1 then None
      else
        var u := SkipWhitespace(t[1..]);
        if u != "" && u[0] == ']' then Some((Arr([]), u[1..]))
        else
          match ParseElements(t[1..], remaining - 1)
          case None => None
          case Some((vs, rest)) => Some((Arr(vs), rest))
    else if "null" <= t then Some((Null, t[4..]))
    else if "true" <= t then Some((Bool(true), t[4..]))
    else if "false" <= t then Some((Bool(false), t[5..]))
    else if IsDigit(t[0]) || t[0] == '-' then
      match TakeNumber(t)
      case None => None
      case Some((text, rest)) => Some((Number(text), rest))
    else None
  }

  function ParseElements(s: string, remaining: nat): (r: Option<(seq<Value>, string)>)
    ensures r.Some? ==> |r.value.1| < |s|
    decreases |s|, 1
  {
    match ParseValue(s, remaining)
    case None => None
    case Some((v, rest)) =>
      var u := SkipWhitespace(rest);
      if u == "" then None
      else if u[0] == ']' then Some(([v], u[1..]))
      else if u[0] == ',' then
        match ParseElements(u[1..], remaining)
        case None => None
        case Some((vs, rest')) => Some(([v] + vs, rest'))
      else None
  }

  function FromStr(s: string): Option<Value> {
    match ParseValue(s, RECURSION_LIMIT)
    case None => None
    case Some((v, rest)) => if SkipWhitespace(rest) == "" then Some(v) else None
  }

  /* ---------- Values to items ---------- */

  function DecimalValue(s: string): nat
    requires AllDigits(s)
  {
    if s == "" then 0
    else
      assert IsDigit(s[|s| - 1]);
      DecimalValue(s[..|s| - 1]) * 10 + (s[|s| - 1] - '0') as nat
  }

  function ValueToItem(v: Value): Option<Item>
    decreases v, 1
  {
    match v
    case Null => Some(Data([]))
    case Bool(_) => None
    case Number(text) =>
      if text != "" && AllDigits(text) && DecimalValue(text) < U256_LIMIT
      then Some(Data(BigEndian(DecimalValue(text))))
      else None
    case Str(s) =>
      (match HexDecode(s)
       case None => None
       case Some(d) => Some(Data(d)))
    case Arr(vs) =>
      match ValuesToItems(vs)
      case None => None
      case Some(xs) => Some(Array(xs))
  }

  function ValuesToItems(vs: seq<Value>): Option<seq<Item>>
    decreases vs, 0
  {
    if vs == [] then Some([])
    else
      match (ValueToItem(vs[0]), ValuesToItems(vs[1..]))
      case (Some(x), Some(xs)) => Some([x] + xs)
      case _ => None
  }

  /* ---------- The two commands ---------- */

  datatype CommandError = BadHex | BadRlp | BadValue

  function FromRlp(value: string): Result<string, CommandError> {
    match HexDecode(value)
    case None => Err(BadHex)
    case Some(bytes) =>
      match Decode(bytes)
      case Err(_) => Err(BadRlp)
      case Ok((item, _)) => Ok(Show(item))
  }

  /** Text that is not JSON is taken as one hex string. */
  function ToRlp(value: string): Result<string, CommandError> {
    var v := match FromStr(value) { case Some(v) => v case None => Str(value) };
    match ValueToItem(v)
    case None => Err(BadValue)
    case Some(item) => if Fits(item) then Ok("0x" + HexEncode(Encode(item))) else Err(BadValue)
  }

  /* ---------- Round trip ---------- */

  /** How deeply lists are nested. */
  function ListDepth(i: Item): nat
    decreases i, 1
  {
    match i
    case Data(_) => 0
    case Array(xs) => 1 + MaxDepth(xs)
  }

  function MaxDepth(xs: seq<Item>): nat
    decreases xs, 0
  {
    if xs == [] then 0
    else if ListDepth(xs[0]) > MaxDepth(xs[1..]) then ListDepth(xs[0]) else MaxDepth(xs[1..])
  }

  function AsValue(i: Item): Value
    decreases i, 1
  {
    match i
    case Data(d) => Str("0x" + HexEncode(d))
    case Array(xs) => Arr(AsValues(xs))
  }

  function AsValues(xs: seq<Item>): (r: seq<Value>)
    ensures |r| == |xs|
    decreases xs, 0
  {
    if xs == [] then [] else [AsValue(xs[0])] + AsValues(xs[1..])
  }

  lemma {:induction false} AsValueInverse(i: Item)
    ensures ValueToItem(AsValue(i)) == Some(i)
    decreases i, 1
  {
    match i
    case Data(d) => PrefixedHexRoundTrip(d);
    case Array(xs) => AsValuesInverse(xs);
  }

  lemma {:induction false} AsValuesInverse(xs: seq<Item>)
    ensures ValuesToItems(AsValues(xs)) == Some(xs)
    decreases xs, 0
  {
    if xs != [] {
      AsValueInverse(xs[0]);
      AsValuesInverse(xs[1..]);
      assert AsValues(xs)[1..] == AsValues(xs[1..]);
      assert [xs[0]] + xs[1..] == xs;
    }
  }

  lemma {:induction false} TakeStringPrinted(s: string, rest: string)
    requires forall k :: 0 <= k < |s| ==> Printable(s[k])
    ensures TakeString(s + "\"" + rest) == Some((s, rest))
  {
    var t := s + "\"" + rest;
    if s == "" {
      assert t[1..] == rest;
    } else {
      TakeStringPrinted(s[1..], rest);
      assert t[1..] == s[1..] + "\"" + rest;
      assert [s[0]] + s[1..] == s;
    }
  }

  lemma {:induction false} HexIsPrintable(d: Bytes)
    ensures forall k :: 0 <= k < |HexEncode(d)| ==> Printable(HexEncode(d)[k])
  {
    if d != [] {
      HexIsPrintable(d[1..]);
      HexDigitValue(d[0] / 16);
      HexDigitValue(d[0] % 16);
    }
  }

  lemma ShowStarts(i: Item)
    ensures Show(i) != "" && (Show(i)[0] == '"' || Show(i)[0] == '[')
  {
  }

  lemma ParsePrintedData(d: Bytes, rest: string, remaining: nat)
    requires remaining >= 1
    ensures ParseValue(Show(Data(d)) + rest, remaining) == Some((AsValue(Data(d)), rest))
  {
    var text := "0x" + HexEncode(d);
    HexIsPrintable(d);
    TakeStringPrinted(text, rest);
    assert (Show(Data(d)) + rest)[1..] == text + "\"" + rest;
  }

  lemma ParseArray(t: string, remaining: nat)
    requires remaining > 1 && t != "" && (t[0] == '"' || t[0] == '[')
    ensures ParseValue("[" + t, remaining) ==
      match ParseElements(t, remaining - 1) { case None => None case Some((vs, rest)) => Some((Arr(vs), rest)) }
  {
    assert ("[" + t)[1..] == t;
  }

  lemma ParseEmptyArray(rest: string, remaining: nat)
    requires remaining > 1
    ensures ParseValue("[]" + rest, remaining) == Some((Arr([]), rest))
  {
    var s := "[]" + rest;
    assert s[1..][1..] == rest;
  }

  lemma ParseTooDeep(t: string, remaining: nat)
    requires remaining <= 1
    ensures ParseValue("[" + t, remaining) == None
  {
  }

  /** The parser reads a printed item back, whatever follows it, unless lists nest too deeply. */
  lemma {:induction false} ParsePrinted(i: Item, rest: string, remaining: nat)
    requires remaining >= 1
    ensures ParseValue(Show(i) + rest, remaining) ==
      if ListDepth(i) < remaining then Some((AsValue(i), rest)) else None
    decreases i, 1
  {
    match i
    case Data(d) => ParsePrintedData(d, rest, remaining);
    case Array(xs) =>
      var t := ShowElements(xs) + "]" + rest;
      assert Show(i) + rest == "[" + t;
      if remaining == 1 {
        ParseTooDeep(t, remaining);
      } else if xs == [] {
        assert "[" + t == "[]" + rest;
        ParseEmptyArray(rest, remaining);
      } else {
        ElementsStart(xs);
        ParseArray(t, remaining);
        ParsePrintedElements(xs, rest, remaining - 1);
      }
  }

  lemma ElementsStart(xs: seq<Item>)
    requires xs != []
    ensures ShowElements(xs) != "" && (ShowElements(xs)[0] == '"' || ShowElements(xs)[0] == '[')
  {
    ShowStarts(xs[0]);
  }

  lemma LastElement(s: string, remaining: nat, v: Value, rest: string)
    requires ParseValue(s, remaining) == Some((v, "]" + rest))
    ensures ParseElements(s, remaining) == Some(([v], rest))
  {
    assert ("]" + rest)[1..] == rest;
  }

  lemma MoreElements(s: string, remaining: nat, v: Value, tail: string)
    requires ParseValue(s, remaining) == Some((v, "," + tail))
    ensures ParseElements(s, remaining) ==
      match ParseElements(tail, remaining) { case None => None case Some((vs, rest)) => Some(([v] + vs, rest)) }
  {
    assert ("," + tail)[1..] == tail;
  }

  lemma {:induction false} ParsePrintedElements(xs: seq<Item>, rest: string, remaining: nat)
    requires remaining >= 1 && xs != []
    ensures ParseElements(ShowElements(xs) + "]" + rest, remaining) ==
      if MaxDepth(xs) < remaining then Some((AsValues(xs), rest)) else None
    decreases xs, 0
  {
    var s := ShowElements(xs) + "]" + rest;
    var tail := if |xs| == 1 then rest else ShowElements(xs[1..]) + "]" + rest;
    var after := (if |xs| == 1 then "]" else ",") + tail;
    assert s == Show(xs[0]) + after;
    ParsePrinted(xs[0], after, remaining);
    if ListDepth(xs[0]) < remaining {
      if |xs| == 1 {
        LastElement(s, remaining, AsValue(xs[0]), tail);
        assert xs[1..] == [];
        assert AsValues(xs) == [AsValue(xs[0])] + AsValues([]) == [AsValue(xs[0])];
        assert MaxDepth([]) == 0;
      } else {
        MoreElements(s, remaining, AsValue(xs[0]), tail);
        ParsePrintedElements(xs[1..], rest, remaining);
      }
    } else {
      NoElement(s, remaining);
    }
  }

  lemma NoElement(s: string, remaining: nat)
    requires ParseValue(s, remaining) == None
    ensures ParseElements(s, remaining) == None
  {
  }

  lemma FromStrPrinted(i: Item)
    ensures FromStr(Show(i)) == if ListDepth(i) < RECURSION_LIMIT then Some(AsValue(i)) else None
  {
    ParsePrinted(i, "", RECURSION_LIMIT);
    assert Show(i) + "" == Show(i);
  }

  lemma NotHex(i: Item)
    ensures HexDecode(Show(i)) == None
  {
    ShowStarts(i);
    assert HexValue(Show(i)[0]) == None;
  }

  /** Reading a printed item gives its encoding back exactly when its lists nest less than 128
      deep; beyond that the text is rejected. */
  lemma PrintedReadsBack(i: Item)
    requires Fits(i)
    ensures ToRlp(Show(i)) ==
      if ListDepth(i) < RECURSION_LIMIT then Ok("0x" + HexEncode(Encode(i))) else Err(BadValue)
  {
    FromStrPrinted(i);
    AsValueInverse(i);
    NotHex(i);
  }

  /** `to-rlp` after `from-rlp`: the bytes the decoder consumed, without any trailing ones, or
      an error when the lists nest too deeply for the reader. */
  lemma TextRoundTrip(bytes: Bytes)
    ensures
      var h := "0x" + HexEncode(bytes);
      var decoded := Decode(bytes);
      if decoded.Err? then FromRlp(h) == Err(BadRlp)
      else
        && FromRlp(h) == Ok(Show(decoded.value.0))
        && ToRlp(Show(decoded.value.0)) ==
           if ListDepth(decoded.value.0) < RECURSION_LIMIT then Ok("0x" + HexEncode(bytes[..decoded.value.1]))
           else Err(BadValue)
  {
    PrefixedHexRoundTrip(bytes);
    if Decode(bytes).Ok? {
      Canonical(bytes);
      PrintedReadsBack(Decode(bytes).value.0);
    }
  }

  lemma HexInjective(a: Bytes, b: Bytes)
    ensures "0x" + HexEncode(a) == "0x" + HexEncode(b) <==> a == b
  {
    PrefixedHexRoundTrip(a);
    PrefixedHexRoundTrip(b);
  }

  /** The two commands are inverse on a hex string exactly when it is one complete encoding
      whose lists nest less than 128 deep. */
  lemma CommandsInverse(bytes: Bytes)
    requires Decode(bytes).Ok?
    ensures
      var h := "0x" + HexEncode(bytes);
      var decoded := Decode(bytes).value;
      && FromRlp(h).Ok?
      && (ToRlp(FromRlp(h).value) == Ok(h) <==> decoded.1 == |bytes| && ListDepth(decoded.0) < RECURSION_LIMIT)
  {
    TextRoundTrip(bytes);
    var n := Decode(bytes).value.1;
    HexInjective(bytes[..n], bytes);
    assert bytes[..n] == bytes <==> n == |bytes|;
  }

  /** Empty data inside `k` lists. */
  function Nested(k: nat): Item {
    if k == 0 then Data([]) else Array([Nested(k - 1)])
  }

  lemma {:induction false} NestedFits(k: nat)
    requires 10 * k + 1 < USIZE_LIMIT
    ensures Fits(Nested(k)) && Size(Nested(k)) <= 10 * k + 1 && ListDepth(Nested(k)) == k
  {
    if k > 0 {
      var x := Nested(k - 1);
      NestedFits(k - 1);
      assert [x][1..] == [] && FitAll([]) && SizeAll([]) == 0 && MaxDepth([]) == 0;
      assert SizeAll([x]) == Size(x) && FitAll([x]) && MaxDepth([x]) == ListDepth(x);
      LengthBytes(Size(x), []);
    }
  }

  /** So the commands do part: lists nested 128 deep or more are printed and then refused. */
  lemma DeepListRefused(k: nat)
    requires RECURSION_LIMIT <= k && 10 * k + 1 < USIZE_LIMIT
    ensures
      Fits(Nested(k)) &&
      var printed := FromRlp("0x" + HexEncode(Encode(Nested(k))));
      printed == Ok(Show(Nested(k))) && ToRlp(printed.value) == Err(BadValue)
  {
    NestedFits(k);
    RoundTrip(Nested(k), []);
    assert Encode(Nested(k)) + [] == Encode(Nested(k));
    TextRoundTrip(Encode(Nested(k)));
  }

  /** And bytes behind a complete encoding are dropped. */
  lemma TrailingBytesDropped(i: Item, trailer: Bytes)
    requires Fits(i) && ListDepth(i) < RECURSION_LIMIT && trailer != []
    ensures
      var h := "0x" + HexEncode(Encode(i) + trailer);
      && FromRlp(h) == Ok(Show(i))
      && ToRlp(Show(i)) == Ok("0x" + HexEncode(Encode(i)))
      && "0x" + HexEncode(Encode(i)) != h
  {
    var bytes := Encode(i) + trailer;
    RoundTrip(i, trailer);
    TextRoundTrip(bytes);
    assert bytes[..|Encode(i)|] == Encode(i);
    HexInjective(Encode(i), bytes);
  }

  /* ---------- Other texts ---------- */

  /** What `to-rlp` answers for an item. */
  function Encoded(i: Item): Result<string, CommandError> {
    if Fits(i) then Ok("0x" + HexEncode(Encode(i))) else Err(BadValue)
  }

  predicate AllHex(s: string) {
    forall k :: 0 <= k < |s| ==> HexValue(s[k]).Some?
  }

  /** A hex digit stands for its value in either case, and nothing else does. */
  lemma HexCases(d: nat, c: char)
    requires d < 16
    ensures HexValue(c) == Some(d) <==> c == "0123456789abcdef"[d] || c == "0123456789ABCDEF"[d]
  {
    if d < 10 {
      assert "0123456789abcdef"[d] == '0' + d as char && "0123456789ABCDEF"[d] == '0' + d as char;
    } else {
      assert "0123456789abcdef"[d] == 'a' + (d - 10) as char && "0123456789ABCDEF"[d] == 'A' + (d - 10) as char;
    }
  }

  lemma {:induction false} HexDecodesIff(s: string)
    ensures HexDecodeDigits(s).Some? <==> |s| % 2 == 0 && AllHex(s)
  {
    if |s| >= 2 {
      HexDecodesIff(s[2..]);
      HexFirstTwo(s);
    }
  }

  lemma HexFirstTwo(s: string)
    requires |s| >= 2
    ensures AllHex(s) <==> HexValue(s[0]).Some? && HexValue(s[1]).Some? && AllHex(s[2..])
  {
    assert forall k :: 2 <= k < |s| ==> s[k] == s[2..][k - 2];
  }

  /** `from-rlp` refuses a text as hex exactly when it has an odd number of digits or another
      character, and otherwise as RLP exactly when its bytes do not decode. */
  lemma FromRlpRefuses(s: string)
    ensures
      if |s| % 2 == 1 || !AllHex(s) then FromRlp("0x" + s) == Err(BadHex)
      else
        && HexDecodeDigits(s).Some?
        && var decoded := Decode(HexDecodeDigits(s).value);
        FromRlp("0x" + s) == if decoded.Err? then Err(BadRlp) else Ok(Show(decoded.value.0))
  {
    var h := "0x" + s;
    assert h[2..] == s;
    HexDecodesIff(s);
    Answered(h, HexDecodeDigits(s));
  }

  lemma Answered(h: string, bytes: Option<Bytes>)
    requires HexDecode(h) == bytes
    ensures FromRlp(h) ==
      if bytes.None? then Err(BadHex)
      else if Decode(bytes.value).Err? then Err(BadRlp)
      else Ok(Show(Decode(bytes.value).value.0))
  {
  }

  predicate Spaces(s: string) {
    forall k :: 0 <= k < |s| ==> s[k] == ' ' || s[k] == '\n' || s[k] == '\t' || s[k] == '\r'
  }

  lemma {:induction false} SpacesSkipped(blank: string, s: string)
    requires Spaces(blank)
    ensures SkipWhitespace(blank + s) == SkipWhitespace(s)
  {
    if blank == "" {
      assert blank + s == s;
    } else {
      assert (blank + s)[0] == blank[0] && (blank + s)[1..] == blank[1..] + s;
      SpacesSkipped(blank[1..], s);
    }
  }

  lemma ElementsFrom(s: string, t: string, remaining: nat)
    requires ParseValue(s, remaining) == ParseValue(t, remaining)
    ensures ParseElements(s, remaining) == ParseElements(t, remaining)
  {
  }

  /** White space before a value, or before an element of a list, changes nothing. */
  lemma SpacesIgnored(blank: string, s: string, remaining: nat)
    requires Spaces(blank)
    ensures ParseValue(blank + s, remaining) == ParseValue(s, remaining)
    ensures ParseElements(blank + s, remaining) == ParseElements(s, remaining)
  {
    SpacesSkipped(blank, s);
    ElementsFrom(blank + s, s, remaining);
  }

  /** Nor does it around the whole text. */
  lemma PrintedReadsBackSpaced(i: Item, before: string, after: string)
    requires Fits(i) && ListDepth(i) < RECURSION_LIMIT && Spaces(before) && Spaces(after)
    ensures ToRlp(before + (Show(i) + after)) == Ok("0x" + HexEncode(Encode(i)))
  {
    SpacesIgnored(before, Show(i) + after, RECURSION_LIMIT);
    ParsePrinted(i, after, RECURSION_LIMIT);
    SpacesSkipped(after, "");
    assert after + "" == after;
    AsValueInverse(i);
  }

  lemma ZeroThenX(s: string)
    requires |s| > 1 && s[0] == '0' && s[1] == 'x'
    ensures TakeNumber(s) == Some(("0", s[1..]))
  {
    var rest := s[1..];
    assert TakeDigits(rest) == ("", rest);
    assert TakeDigits(s) == ([s[0]] + "", rest) && [s[0]] + "" == "0";
    assert SkipFraction(rest) == Some(rest) && SkipExponent(rest) == Some(rest);
    assert s[..1] == "0";
  }

  lemma PrefixedIsNotJson(s: string)
    requires |s| > 1 && s[0] == '0' && s[1] == 'x'
    ensures FromStr(s) == None
  {
    ZeroThenX(s);
    assert SkipWhitespace(s) == s && SkipWhitespace(s[1..]) == s[1..];
    assert ParseValue(s, RECURSION_LIMIT) == Some((Number("0"), s[1..]));
  }

  /** Text with the prefix is not JSON, and is taken as hex. */
  lemma PrefixedTextIsHex(h: string)
    ensures ToRlp("0x" + h) == match HexDecodeDigits(h) { case Some(d) => Encoded(Data(d)) case None => Err(BadValue) }
  {
    PrefixedIsNotJson("0x" + h);
    assert ("0x" + h)[2..] == h;
  }

  lemma BareHexReads(d: Bytes)
    requires Fits(Data(d))
    ensures ToRlp("0x" + HexEncode(d)) == Ok("0x" + HexEncode(Encode(Data(d))))
  {
    PrefixedTextIsHex(HexEncode(d));
    HexRoundTrip(d);
  }

  /** Hex digits that make a JSON number: decimal digits without a leading zero, perhaps followed
      by `e` and more decimal digits. */
  predicate NumberText(s: string) {
    exists k :: 1 <= k <= |s| && NumberSplit(s, k)
  }

  predicate NumberSplit(s: string, k: nat)
    requires 1 <= k <= |s|
  {
    && AllDigits(s[..k]) && (s[0] == '0' ==> k == 1)
    && (k < |s| ==> s[k] in "eE" && k + 1 < |s| && AllDigits(s[k + 1..]))
  }

  lemma {:induction false} TakenDigits(s: string)
    ensures
      var (digits, rest) := TakeDigits(s);
      var k := |digits|;
      k <= |s| && digits == s[..k] && rest == s[k..] && AllDigits(s[..k]) && (k < |s| ==> !IsDigit(s[k]))
  {
    if s != "" && IsDigit(s[0]) {
      TakenDigits(s[1..]);
      var k := |TakeDigits(s[1..]).0|;
      assert [s[0]] + s[1..][..k] == s[..k + 1];
      assert s[1..][k..] == s[k + 1..];
    }
  }

  lemma WholeTaken(s: string)
    ensures TakeDigits(s).1 == "" <==> AllDigits(s)
  {
    TakenDigits(s);
    var k := |TakeDigits(s).0|;
    assert k == |s| ==> s[..k] == s;
  }

  lemma SplitAtDigits(s: string, k: nat)
    requires 1 <= k <= |s| && NumberSplit(s, k)
    ensures k == |TakeDigits(s).0|
  {
    TakenDigits(s);
  }

  lemma NumberTextAtDigits(s: string)
    ensures NumberText(s) <==> TakeDigits(s).0 != "" && |TakeDigits(s).0| <= |s| && NumberSplit(s, |TakeDigits(s).0|)
  {
    TakenDigits(s);
    if k :| 1 <= k <= |s| && NumberSplit(s, k) { SplitAtDigits(s, k); }
  }

  lemma HexIsNoSpace(s: string)
    requires AllHex(s)
    ensures SkipWhitespace(s) == s
  {
    if s != "" { assert HexValue(s[0]).Some?; }
  }

  lemma HexSuffix(s: string, k: nat)
    requires AllHex(s) && k <= |s|
    ensures AllHex(s[k..])
  {
    forall i | 0 <= i < |s[k..]| ensures HexValue(s[k..][i]).Some? { assert s[k..][i] == s[k + i]; }
  }

  /** The exponent of a text of hex digits has no sign, and must reach to its end. */
  lemma HexExponent(s: string)
    requires AllHex(s) && s != "" && !IsDigit(s[0])
    ensures SkipFraction(s) == Some(s)
    ensures SkipExponent(s) == Some("") <==> s[0] in "eE" && |s| > 1 && AllDigits(s[1..])
    ensures SkipExponent(s).Some? ==> AllHex(SkipExponent(s).value)
  {
    assert HexValue(s[0]).Some?;
    if |s| > 1 { assert HexValue(s[1]).Some?; }
    var t := s[1..];
    WholeTaken(t);
    TakenDigits(t);
    var k := |TakeDigits(t).0|;
    HexSuffix(s, k + 1);
    assert t[k..] == s[k + 1..];
    assert TakeDigits(t).0 == "" && AllDigits(t) ==> t == "";
  }

  lemma SplitBefore(s: string, k: nat, rest: string)
    requires 1 <= k < |s| && rest == s[k..] && AllDigits(s[..k])
    ensures NumberSplit(s, k) <==> (s[0] == '0' ==> k == 1) && rest[0] in "eE" && |rest| > 1 && AllDigits(rest[1..])
  {
    assert rest[1..] == s[k + 1..];
  }

  /** Whether or not the digits in front are a number. */
  lemma HexNumber(s: string)
    requires AllHex(s) && s != "" && IsDigit(s[0])
    ensures NumberText(s) ==> TakeNumber(s) == Some((s, ""))
    ensures !NumberText(s) ==> TakeNumber(s) == None || (TakeNumber(s).value.1 != "" && AllHex(TakeNumber(s).value.1))
  {
    var (digits, rest) := TakeDigits(s);
    var k := |digits|;
    TakenDigits(s);
    NumberTextAtDigits(s);
    assert digits[0] == s[0];
    if rest == "" {
      assert s[..|s|] == s;
    } else {
      HexSuffix(s, k);
      HexExponent(rest);
      SplitBefore(s, k, rest);
      assert s[..|s|] == s;
    }
  }

  lemma HexText(s: string)
    requires AllHex(s) && s != ""
    ensures FromStr(s) == if NumberText(s) then Some(Number(s)) else None
  {
    HexIsNoSpace(s);
    assert HexValue(s[0]).Some?;
    if IsDigit(s[0]) {
      HexNumber(s);
      if !NumberText(s) && TakeNumber(s).Some? { HexIsNoSpace(TakeNumber(s).value.1); }
    } else {
      NumberTextAtDigits(s);
      assert |s| > 2 ==> HexValue(s[2]).Some?;
    }
  }

  /** Hex digits without the prefix are taken as hex exactly when they do not make a number. As a
      number they stand for its value, and one with an exponent or of more than 256 bits is
      refused. */
  lemma UnprefixedText(s: string)
    requires AllHex(s) && s != ""
    ensures ToRlp(s) ==
      if !NumberText(s) then match HexDecodeDigits(s) { case Some(d) => Encoded(Data(d)) case None => Err(BadValue) }
      else if AllDigits(s) && DecimalValue(s) < U256_LIMIT then Encoded(Data(BigEndian(DecimalValue(s))))
      else Err(BadValue)
  {
    HexText(s);
    assert |s| > 1 ==> HexValue(s[1]).Some?;
  }

  lemma {:induction false} RenderedDecimal(n: nat)
    ensures var s := Numbers.Render(n, Numbers.Decimal); AllDigits(s) && DecimalValue(s) == n
  {
    var s := Numbers.Render(n, Numbers.Decimal);
    if n < 10 {
      assert s[..0] == "" && DecimalValue("") == 0;
    } else {
      RenderedDecimal(n / 10);
      assert s[..|s| - 1] == Numbers.Render(n / 10, Numbers.Decimal);
    }
  }

  lemma WordFits(n: nat)
    requires n < U256_LIMIT
    ensures Fits(Data(BigEndian(n)))
  {
    Pow256Of32();
    BigEndianLength(n, 32);
  }

  lemma DecimalIsNumber(s: string)
    requires s != "" && AllDigits(s) && (s[0] == '0' ==> |s| == 1)
    ensures AllHex(s) && NumberText(s)
  {
    assert s[..|s|] == s;
    assert NumberSplit(s, |s|);
  }

  /** So a decimal number becomes its big-endian bytes, up to 256 bits. */
  lemma DecimalReads(n: nat)
    ensures
      var answer := ToRlp(Numbers.Render(n, Numbers.Decimal));
      if n < U256_LIMIT then Fits(Data(BigEndian(n))) && answer == Ok("0x" + HexEncode(Encode(Data(BigEndian(n)))))
      else answer == Err(BadValue)
  {
    var s := Numbers.Render(n, Numbers.Decimal);
    RenderedDecimal(n);
    Numbers.RenderStarts(n, Numbers.Decimal);
    DecimalIsNumber(s);
    UnprefixedText(s);
    if n < U256_LIMIT { WordFits(n); }
  }

  lemma NullParses(rest: string)
    ensures ParseValue("null" + rest, RECURSION_LIMIT) == Some((Null, rest))
  {
    var s := "null" + rest;
    assert s[0] == 'n' && s[4..] == rest;
  }

  lemma BoolsParse(rest: string)
    ensures ParseValue("true" + rest, RECURSION_LIMIT) == Some((Bool(true), rest))
    ensures ParseValue("false" + rest, RECURSION_LIMIT) == Some((Bool(false), rest))
  {
    var t, f := "true" + rest, "false" + rest;
    assert t[0] == 't' && t[4..] == rest;
    assert f[0] == 'f' && f[5..] == rest;
  }

  /** The JSON words: null is empty data, and booleans are refused. */
  lemma WordsRead()
    ensures ToRlp("null") == Encoded(Data([])) && ToRlp("true") == Err(BadValue) && ToRlp("false") == Err(BadValue)
  {
    NullParses("");
    BoolsParse("");
    assert "null" + "" == "null" && "true" + "" == "true" && "false" + "" == "false";
  }
}
