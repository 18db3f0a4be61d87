/**
  Recursive Length Prefix: nested byte strings and lists, encoded and decoded as in Appendix B
  of the Ethereum Yellow Paper, with the canonical-form checks of the decoder.
 */
module Rlp {
  import opened Wrappers
  import opened Words

  type Byte = b: int | 0 <= b < 256

  type Bytes = seq<Byte>

  datatype Item = Data(data: Bytes) | Array(items: seq<Item>)

  /** Lengths are machine words. */
  const USIZE_LIMIT: nat := U64_LIMIT

  /* ---------- Big-endian lengths ---------- */

  function BigEndian(n: nat): Bytes {
    if n == 0 then [] else BigEndian(n / 256) + [n % 256]
  }

  function FromBigEndian(s: Bytes): nat {
    if s == [] then 0 else FromBigEndian(s[..|s| - 1]) * 256 + s[|s| - 1]
  }

  function Pow256(k: nat): nat {
    if k == 0 then 1 else 256 * Pow256(k - 1)
  }

  lemma Pow256Of8()
    ensures Pow256(8) == USIZE_LIMIT
  {
    assert Pow256(4) == 0x1_0000_0000;
  }

  lemma Pow256Of32()
    ensures Pow256(32) == U256_LIMIT
  {
    Pow256Of8();
    assert Pow256(12) == 0x1_00000000_00000000_00000000;
    assert Pow256(16) == 0x1_00000000_00000000_00000000_00000000;
    assert Pow256(20) == 0x1_00000000_00000000_00000000_00000000_00000000;
    assert Pow256(24) == 0x1_00000000_00000000_00000000_00000000_00000000_00000000;
    assert Pow256(28) == 0x1_00000000_00000000_00000000_00000000_00000000_00000000_00000000;
  }

  lemma {:induction false} BigEndianInverse(n: nat)
    ensures FromBigEndian(BigEndian(n)) == n
    ensures n > 0 ==> BigEndian(n) != [] && BigEndian(n)[0] != 0
  {
    if n > 0 {
      BigEndianInverse(n / 256);
      assert BigEndian(n)[..|BigEndian(n)| - 1] == BigEndian(n / 256);
    }
  }

  lemma {:induction false} BigEndianLength(n: nat, k: nat)
    requires n < Pow256(k)
    ensures |BigEndian(n)| <= k
  {
    if n > 0 { BigEndianLength(n / 256, k - 1); }
  }

  lemma {:induction false} FromBigEndianInverse(s: Bytes)
    requires s == [] || s[0] != 0
    ensures BigEndian(FromBigEndian(s)) == s
    ensures s != [] ==> FromBigEndian(s) > 0
  {
    if s != [] { FromBigEndianInverse(s[..|s| - 1]); }
  }

  lemma {:induction false} FromBigEndianBound(s: Bytes)
    ensures FromBigEndian(s) < Pow256(|s|)
  {
    if s != [] { FromBigEndianBound(s[..|s| - 1]); }
  }

  lemma {:induction false} Pow256Monotone(j: nat, k: nat)
    requires j <= k
    ensures Pow256(j) <= Pow256(k)
  {
    if j < k { Pow256Monotone(j, k - 1); }
  }

  /** A length below the limit takes at most eight bytes, and eight bytes stay below the limit. */
  lemma LengthBytes(n: nat, s: Bytes)
    ensures n < USIZE_LIMIT ==> |BigEndian(n)| <= 8
    ensures |s| <= 8 ==> FromBigEndian(s) < USIZE_LIMIT
  {
    Pow256Of8();
    if n < USIZE_LIMIT { BigEndianLength(n, 8); }
    if |s| <= 8 {
      FromBigEndianBound(s);
      Pow256Monotone(|s|, 8);
    }
  }

  /* ---------- Encoding ---------- */

  datatype Header = Header(list: bool, payloadLength: nat)

  function HeaderSize(length: nat): nat {
    if length < 56 then 1 else 1 + |BigEndian(length)|
  }

  function EncodeHeader(h: Header): (r: Bytes)
    requires h.payloadLength < USIZE_LIMIT
    ensures |r| == HeaderSize(h.payloadLength)
  {
    if h.payloadLength < 56 then
      [(if h.list then 0xC0 else 0x80) + h.payloadLength]
    else
      LengthBytes(h.payloadLength, []);
      [(if h.list then 0xF7 else 0xB7) + |BigEndian(h.payloadLength)|] + BigEndian(h.payloadLength)
  }

  predicate IsSmallByte(d: Bytes) {
    |d| == 1 && d[0] < 0x80
  }

  /** The length of the encoding, computed without encoding. */
  function Size(i: Item): nat
    decreases i, 1
  {
    match i
    case Data(d) => if IsSmallByte(d) then 1 else HeaderSize(|d|) + |d|
    case Array(xs) => HeaderSize(SizeAll(xs)) + SizeAll(xs)
  }

  function SizeAll(xs: seq<Item>): nat
    decreases xs, 0
  {
    if xs == [] then 0 else Size(xs[0]) + SizeAll(xs[1..])
  }

  /** All payload lengths are machine words, as they are for anything held in memory. */
  predicate Fits(i: Item)
    decreases i, 1
  {
    match i
    case Data(d) => |d| < USIZE_LIMIT
    case Array(xs) => SizeAll(xs) < USIZE_LIMIT && FitAll(xs)
  }

  predicate FitAll(xs: seq<Item>)
    decreases xs, 0
  {
    xs == [] || (Fits(xs[0]) && FitAll(xs[1..]))
  }

  function Encode(i: Item): (r: Bytes)
    requires Fits(i)
    ensures |r| == Size(i)
    decreases i, 1
  {
    match i
    case Data(d) => if IsSmallByte(d) then d else EncodeHeader(Header(false, |d|)) + d
    case Array(xs) => EncodeHeader(Header(true, SizeAll(xs))) + EncodeAll(xs)
  }

  function EncodeAll(xs: seq<Item>): (r: Bytes)
    requires FitAll(xs)
    ensures |r| == SizeAll(xs)
    decreases xs, 0
  {
    if xs == [] then [] else Encode(xs[0]) + EncodeAll(xs[1..])
  }

  /** The number written without leading zeros in the bytes `be`. */
  predicate Writes(be: Bytes, n: nat) {
    (be == [] || be[0] != 0) && FromBigEndian(be) == n
  }

  /** The prefixes of Appendix B of the Yellow Paper: fewer than 56 bytes have their length added
      to 128 or 192; more have the length of their length added to 183 or 247, and then it. */
  lemma HeaderWritten(h: Header)
    requires h.payloadLength < USIZE_LIMIT
    ensures
      var n, head := h.payloadLength, EncodeHeader(h);
      if n < 56 then head == [(if h.list then 192 else 128) + n]
      else
        && 2 <= |head| <= 9 && Writes(head[1..], n)
        && head[0] == (if h.list then 247 else 183) + |head[1..]|
  {
    var n, head := h.payloadLength, EncodeHeader(h);
    BigEndianInverse(n);
    LengthBytes(n, []);
    if n >= 56 { assert head[1..] == BigEndian(n); }
  }

  /** A byte below 128 is itself; short data and lists follow one byte. */
  lemma YellowPaper(i: Item)
    requires Fits(i)
    ensures
      match i
      case Data(d) => |d| < 56 ==> Encode(i) == if |d| == 1 && d[0] < 128 then d else [128 + |d|] + d
      case Array(xs) => |EncodeAll(xs)| < 56 ==> Encode(i) == [192 + |EncodeAll(xs)|] + EncodeAll(xs)
  {
    HeaderWritten(Header(i.Array?, if i.Data? then |i.data| else SizeAll(i.items)));
  }

  /* ---------- Decoding ---------- */

  datatype Error = InputTooShort | NonCanonicalSingleByte | NonCanonicalSize | LeadingZero

  /** The header at the front of the buffer and how many bytes it takes; a small byte is its
      own payload and has no header bytes. */
  function DecodeHeader(buf: Bytes): (r: Result<(Header, nat), Error>)
    ensures r.Ok? ==>
      && r.value.1 + r.value.0.payloadLength <= |buf|
      && r.value.1 + r.value.0.payloadLength >= 1
      && (r.value.0.list ==> r.value.1 >= 1)
  {
    if buf == [] then Err(InputTooShort)
    else
      var b := buf[0];
      if b < 0x80 then
        Ok((Header(false, 1), 0))
      else if b <= 0xB7 then
        var length := b - 0x80;
        if length == 1 && |buf| < 2 then Err(InputTooShort)
        else if length == 1 && buf[1] < 0x80 then Err(NonCanonicalSingleByte)
        else if |buf| - 1 < length then Err(InputTooShort)
        else Ok((Header(false, length), 1))
      else if b <= 0xBF || 0xF8 <= b then
        var lengthOfLength := if 0xF8 <= b then b - 0xF7 else b - 0xB7;
        if |buf| - 1 < lengthOfLength then Err(InputTooShort)
        else if buf[1] == 0 then Err(LeadingZero)
        else
          var length := FromBigEndian(buf[1..1 + lengthOfLength]);
          if length < 56 then Err(NonCanonicalSize)
          else if |buf| - 1 - lengthOfLength < length then Err(InputTooShort)
          else Ok((Header(0xF8 <= b, length), 1 + lengthOfLength))
      else
        var length := b - 0xC0;
        if |buf| - 1 < length then Err(InputTooShort)
        else Ok((Header(true, length), 1))
  }

  /** The item at the front of the buffer and how many bytes it takes. */
  function Decode(buf: Bytes): (r: Result<(Item, nat), Error>)
    ensures r.Ok? ==> 1 <= r.value.1 <= |buf|
    decreases |buf|, 0
  {
    match DecodeHeader(buf)
    case Err(e) => Err(e)
    case Ok((h, k)) =>
      var d := buf[k..k + h.payloadLength];
      if h.list then
        match DecodeAll(d)
        case Err(e) => Err(e)
        case Ok(xs) => Ok((Array(xs), k + h.payloadLength))
      else
        Ok((Data(d), k + h.payloadLength))
  }

  /** Items until the view is used up. */
  function DecodeAll(view: Bytes): Result<seq<Item>, Error>
    decreases |view|, 1
  {
    if view == [] then Ok([])
    else
      match Decode(view)
      case Err(e) => Err(e)
      case Ok((x, n)) => Prepend([x], DecodeAll(view[n..]))
  }

  function Prepend(xs: seq<Item>, r: Result<seq<Item>, Error>): Result<seq<Item>, Error> {
    match r
    case Err(e) => Err(e)
    case Ok(ys) => Ok(xs + ys)
  }

  /** The decoder's code: it advances the buffer past the item and fills lists in a loop. */
  method DecodeItem(buf: Bytes) returns (r: Result<Item, Error>, rest: Bytes)
    ensures Decode(buf).Ok? ==> r == Ok(Decode(buf).value.0) && rest == buf[Decode(buf).value.1..]
    ensures Decode(buf).Err? ==> r == Err(Decode(buf).error)
    decreases |buf|
  {
    rest := buf;
    var header := DecodeHeader(buf);
    if header.Err? {
      return Err(header.error), rest;
    }
    var (h, k) := header.value;
    rest := rest[k..];
    if |rest| < h.payloadLength {
      return Err(InputTooShort), rest;
    }
    var view := rest[..h.payloadLength];
    assert view == buf[k..k + h.payloadLength];
    if h.list {
      var v: seq<Item> := [];
      ghost var d := view;
      assert [] + (if DecodeAll(d).Ok? then DecodeAll(d).value else []) == if DecodeAll(d).Ok? then DecodeAll(d).value else [];
      while view != []
        invariant |view| < |buf|
        invariant DecodeAll(d) == Prepend(v, DecodeAll(view))
        decreases |view|
      {
        var x, tail := DecodeItem(view);
        if x.Err? {
          return Err(x.error), rest;
        }
        ghost var n := Decode(view).value.1;
        PrependTwice(v, x.value, DecodeAll(view[n..]));
        v := v + [x.value];
        view := tail;
      }
      assert v + [] == v;
      r := Ok(Array(v));
    } else {
      r := Ok(Data(view));
    }
    rest := rest[h.payloadLength..];
  }

  lemma PrependTwice(v: seq<Item>, x: Item, r: Result<seq<Item>, Error>)
    ensures Prepend(v, Prepend([x], r)) == Prepend(v + [x], r)
  {
    if r.Ok? { assert v + ([x] + r.value) == v + [x] + r.value; }
  }

  /* ---------- Round trip ---------- */

  lemma LongHeaderRead(buf: Bytes, list: bool, be: Bytes)
    requires 1 <= |be| <= 8 && be[0] != 0 && FromBigEndian(be) >= 56
    requires |buf| >= 1 + |be| + FromBigEndian(be)
    requires buf[0] == (if list then 0xF7 else 0xB7) + |be| && buf[1..1 + |be|] == be
    ensures DecodeHeader(buf) == Ok((Header(list, FromBigEndian(be)), 1 + |be|))
  {
    assert buf[1] == be[0];
  }

  lemma LongHeaderRoundTrip(h: Header, rest: Bytes)
    requires 56 <= h.payloadLength < USIZE_LIMIT && h.payloadLength <= |rest|
    ensures DecodeHeader(EncodeHeader(h) + rest) == Ok((h, |EncodeHeader(h)|))
  {
    var be := BigEndian(h.payloadLength);
    var buf := EncodeHeader(h) + rest;
    LengthBytes(h.payloadLength, []);
    BigEndianInverse(h.payloadLength);
    assert buf[1..1 + |be|] == be;
    LongHeaderRead(buf, h.list, be);
  }

  lemma ShortHeaderRoundTrip(h: Header, rest: Bytes)
    requires h.payloadLength < 56 && h.payloadLength <= |rest| && (h.list || !IsSmallByte(rest[..h.payloadLength]))
    ensures DecodeHeader(EncodeHeader(h) + rest) == Ok((h, |EncodeHeader(h)|))
  {
    var buf := EncodeHeader(h) + rest;
    assert h.payloadLength == 1 ==> buf[1] == rest[..1][0];
  }

  /** A header in front of its payload is read back, with its size. */
  lemma HeaderRoundTrip(h: Header, payload: Bytes, trailer: Bytes)
    requires h.payloadLength == |payload| < USIZE_LIMIT
    requires h.list || !IsSmallByte(payload)
    ensures DecodeHeader(EncodeHeader(h) + payload + trailer) == Ok((h, |EncodeHeader(h)|))
  {
    var rest := payload + trailer;
    assert EncodeHeader(h) + payload + trailer == EncodeHeader(h) + rest;
    if h.payloadLength >= 56 {
      LongHeaderRoundTrip(h, rest);
    } else {
      assert rest[..|payload|] == payload;
      ShortHeaderRoundTrip(h, rest);
    }
  }

  /** What a buffer decodes to, given its header and the bytes behind it. */
  lemma DecodeFramed(buf: Bytes, h: Header, k: nat, payload: Bytes)
    requires DecodeHeader(buf) == Ok((h, k)) && h.payloadLength == |payload|
    requires buf[k..k + |payload|] == payload
    ensures !h.list ==> Decode(buf) == Ok((Data(payload), k + |payload|))
    ensures h.list && DecodeAll(payload).Ok? ==>
      Decode(buf) == Ok((Array(DecodeAll(payload).value), k + |payload|))
  {
  }

  lemma DecodeParts(e: Bytes, h: Header, head: Bytes, payload: Bytes, trailer: Bytes)
    requires e == head + payload && h.payloadLength == |payload|
    requires DecodeHeader(head + payload + trailer) == Ok((h, |head|))
    ensures !h.list ==> Decode(e + trailer) == Ok((Data(payload), |e|))
    ensures h.list && DecodeAll(payload).Ok? ==> Decode(e + trailer) == Ok((Array(DecodeAll(payload).value), |e|))
  {
    assert (e + trailer)[|head|..|head| + |payload|] == payload;
    DecodeFramed(e + trailer, h, |head|, payload);
  }

  lemma DataRoundTrip(d: Bytes, trailer: Bytes)
    requires Fits(Data(d))
    ensures Decode(Encode(Data(d)) + trailer) == Ok((Data(d), |Encode(Data(d))|))
  {
    var e, h := Encode(Data(d)), Header(false, |d|);
    if IsSmallByte(d) {
      assert (e + trailer)[0..1] == d;
    } else {
      HeaderRoundTrip(h, d, trailer);
      DecodeParts(e, h, EncodeHeader(h), d, trailer);
    }
  }

  lemma ArrayRoundTrip(xs: seq<Item>, trailer: Bytes)
    requires Fits(Array(xs)) && DecodeAll(EncodeAll(xs)) == Ok(xs)
    ensures Decode(Encode(Array(xs)) + trailer) == Ok((Array(xs), |Encode(Array(xs))|))
  {
    var payload, h := EncodeAll(xs), Header(true, SizeAll(xs));
    HeaderRoundTrip(h, payload, trailer);
    DecodeParts(Encode(Array(xs)), h, EncodeHeader(h), payload, trailer);
  }

  /** Decoding an encoding followed by anything gives the item back and leaves the rest. */
  lemma {:induction false} RoundTrip(i: Item, trailer: Bytes)
    requires Fits(i)
    ensures Decode(Encode(i) + trailer) == Ok((i, |Encode(i)|))
    decreases i, 1
  {
    match i
    case Data(d) => DataRoundTrip(d, trailer);
    case Array(xs) =>
      RoundTripAll(xs);
      ArrayRoundTrip(xs, trailer);
  }

  lemma {:induction false} RoundTripAll(xs: seq<Item>)
    requires FitAll(xs)
    ensures DecodeAll(EncodeAll(xs)) == Ok(xs)
    decreases xs, 0
  {
    if xs != [] {
      RoundTrip(xs[0], EncodeAll(xs[1..]));
      RoundTripAll(xs[1..]);
      var e := Encode(xs[0]);
      assert EncodeAll(xs)[|e|..] == EncodeAll(xs[1..]);
      assert [xs[0]] + xs[1..] == xs;
    }
  }

  /* ---------- Canonical form ---------- */

  lemma HeaderCanonical(buf: Bytes)
    requires DecodeHeader(buf).Ok?
    ensures
      var (h, k) := DecodeHeader(buf).value;
      var d := buf[k..k + h.payloadLength];
      && h.payloadLength < USIZE_LIMIT
      && if k == 0 then !h.list && IsSmallByte(d) && d == buf[..1]
         else buf[..k] == EncodeHeader(h) && (h.list || !IsSmallByte(d))
  {
    var (h, k) := DecodeHeader(buf).value;
    if k == 0 {
      assert buf[0..1] == buf[..1];
    } else if k == 1 {
      ShortHeaderCanonical(buf);
    } else {
      LongHeaderCanonical(buf);
    }
  }

  lemma ShortHeaderCanonical(buf: Bytes)
    requires DecodeHeader(buf).Ok? && DecodeHeader(buf).value.1 == 1
    ensures
      var h := DecodeHeader(buf).value.0;
      h.payloadLength < 56 && buf[..1] == EncodeHeader(h) && (h.list || !IsSmallByte(buf[1..1 + h.payloadLength]))
  {
  }

  lemma LongHeader(buf: Bytes)
    requires DecodeHeader(buf).Ok? && DecodeHeader(buf).value.1 > 1
    ensures
      var (h, k) := DecodeHeader(buf).value;
      && 2 <= k <= 9 && k <= |buf| && buf[1] != 0
      && h.payloadLength == FromBigEndian(buf[1..k]) && h.payloadLength >= 56
      && buf[0] == (if h.list then 0xF7 else 0xB7) + k - 1
  {
  }

  lemma LongLength(s: Bytes, list: bool)
    requires 1 <= |s| <= 8 && s[0] != 0 && FromBigEndian(s) >= 56
    ensures FromBigEndian(s) < USIZE_LIMIT
    ensures EncodeHeader(Header(list, FromBigEndian(s))) == [(if list then 0xF7 else 0xB7) + |s|] + s
  {
    FromBigEndianInverse(s);
    LengthBytes(0, s);
  }

  lemma LongHeaderCanonical(buf: Bytes)
    requires DecodeHeader(buf).Ok? && DecodeHeader(buf).value.1 > 1
    ensures
      var (h, k) := DecodeHeader(buf).value;
      56 <= h.payloadLength < USIZE_LIMIT && buf[..k] == EncodeHeader(h)
  {
    var (h, k) := DecodeHeader(buf).value;
    LongHeader(buf);
    LongLength(buf[1..k], h.list);
    assert buf[..k] == [buf[0]] + buf[1..k];
  }

  lemma EncodedData(head: Bytes, d: Bytes)
    requires |d| < USIZE_LIMIT
    requires if IsSmallByte(d) then head == [] else head == EncodeHeader(Header(false, |d|))
    ensures Fits(Data(d)) && Encode(Data(d)) == head + d
  {
    assert [] + d == d;
  }

  lemma EncodedArray(head: Bytes, d: Bytes, xs: seq<Item>)
    requires |d| < USIZE_LIMIT && FitAll(xs) && EncodeAll(xs) == d && head == EncodeHeader(Header(true, |d|))
    ensures Fits(Array(xs)) && Encode(Array(xs)) == head + d
  {
  }

  lemma Rejoined(buf: Bytes, k: nat, n: nat)
    requires k <= n <= |buf|
    ensures buf[..k] + buf[k..n] == buf[..n]
  {
  }

  /** The item a header and its payload stand for. */
  function ItemOf(h: Header, d: Bytes): Item
    requires h.list ==> DecodeAll(d).Ok?
  {
    if h.list then Array(DecodeAll(d).value) else Data(d)
  }

  lemma EncodedParts(buf: Bytes, h: Header, k: nat, d: Bytes)
    requires DecodeHeader(buf) == Ok((h, k)) && d == buf[k..k + h.payloadLength]
    requires h.list ==> DecodeAll(d).Ok? && FitAll(DecodeAll(d).value) && EncodeAll(DecodeAll(d).value) == d
    ensures Fits(ItemOf(h, d)) && Encode(ItemOf(h, d)) == buf[..k + |d|]
  {
    HeaderCanonical(buf);
    Rejoined(buf, k, k + |d|);
    if h.list { EncodedArray(buf[..k], d, DecodeAll(d).value); } else { EncodedData(buf[..k], d); }
  }

  lemma DecodedParts(buf: Bytes, h: Header, k: nat, d: Bytes)
    requires DecodeHeader(buf) == Ok((h, k)) && d == buf[k..k + h.payloadLength]
    ensures Decode(buf).Ok? <==> (h.list ==> DecodeAll(d).Ok?)
    ensures Decode(buf).Ok? ==> Decode(buf).value == (ItemOf(h, d), k + |d|)
  {
  }

  /** Whatever decodes re-encodes to exactly the bytes that were consumed. */
  lemma {:induction false} Canonical(buf: Bytes)
    requires Decode(buf).Ok?
    ensures Fits(Decode(buf).value.0) && Encode(Decode(buf).value.0) == buf[..Decode(buf).value.1]
    decreases |buf|, 0
  {
    var (h, k) := DecodeHeader(buf).value;
    var d := buf[k..k + h.payloadLength];
    DecodedParts(buf, h, k, d);
    if h.list { CanonicalAll(d); }
    EncodedParts(buf, h, k, d);
  }

  lemma {:induction false} CanonicalAll(view: Bytes)
    requires DecodeAll(view).Ok?
    ensures FitAll(DecodeAll(view).value) && EncodeAll(DecodeAll(view).value) == view
    decreases |view|, 1
  {
    if view != [] {
      Canonical(view);
      var (x, n) := Decode(view).value;
      CanonicalAll(view[n..]);
      var xs := DecodeAll(view[n..]).value;
      assert ([x] + xs)[1..] == xs;
      assert view == view[..n] + view[n..];
    }
  }

  /** No encoding is a prefix of another, and different items have different encodings. */
  lemma PrefixFree(i: Item, j: Item, trailer: Bytes)
    requires Fits(i) && Fits(j) && Encode(i) + trailer == Encode(j)
    ensures i == j && trailer == []
  {
    RoundTrip(i, trailer);
    RoundTrip(j, []);
    assert Encode(j) + [] == Encode(j);
  }

  predicate StartsWith(buf: Bytes, i: Item) {
    Fits(i) && Encode(i) <= buf
  }

  lemma DecodesWhatItStartsWith(buf: Bytes, i: Item)
    requires StartsWith(buf, i)
    ensures Decode(buf) == Ok((i, |Encode(i)|))
  {
    var n := |Encode(i)|;
    RoundTrip(i, buf[n..]);
    assert Encode(i) + buf[n..] == buf;
  }

  /** A buffer decodes to an item exactly when it starts with that item's encoding, and fails to
      decode exactly when it starts with no item's. */
  lemma DecodesIffEncoded(buf: Bytes, i: Item)
    ensures Decode(buf).Ok? && Decode(buf).value.0 == i <==> StartsWith(buf, i)
    ensures Decode(buf).Ok? <==> exists j :: StartsWith(buf, j)
  {
    if Decode(buf).Ok? {
      Canonical(buf);
      assert StartsWith(buf, Decode(buf).value.0);
    }
    forall j | StartsWith(buf, j) ensures Decode(buf) == Ok((j, |Encode(j)|)) {
      DecodesWhatItStartsWith(buf, j);
    }
  }
}
