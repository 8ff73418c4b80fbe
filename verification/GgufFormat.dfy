/** GGUF metadata values (the ggml GGUF specification): their encoding, and where a value ends. */
module GgufFormat {
  import opened Wrappers
  import opened Utf8

  // ----- little-endian numbers ---------------------------------------------------------------

  const TWO_32 := 0x1_0000_0000
  const TWO_64 := 0x1_0000_0000_0000_0000

  /** The little-endian number of the four bytes at a position. */
  function Number4(data: seq<Byte>, pos: nat): nat
    requires pos + 4 <= |data|
  {
    var a: int, b: int, c: int, d: int := data[pos], data[pos + 1], data[pos + 2], data[pos + 3];
    a + 256 * b + 65536 * c + 16777216 * d
  }

  function Number8(data: seq<Byte>, pos: nat): nat
    requires pos + 8 <= |data|
  {
    Number4(data, pos) + TWO_32 * Number4(data, pos + 4)
  }

  function Bytes4(n: nat): (r: seq<Byte>)
    ensures |r| == 4
  {
    [n % 256, n / 256 % 256, n / 65536 % 256, n / 16777216 % 256]
  }

  function Bytes8(n: nat): (r: seq<Byte>)
    ensures |r| == 8
  {
    Bytes4(n % TWO_32) + Bytes4(n / TWO_32)
  }

  /** `bs` stands at a position. */
  predicate Holds(data: seq<Byte>, pos: nat, bs: seq<Byte>) {
    pos + |bs| <= |data| && Matches(data, pos, bs)
  }

  predicate Matches(data: seq<Byte>, pos: nat, bs: seq<Byte>)
    requires pos + |bs| <= |data|
    decreases |bs|
  {
    bs == [] || (data[pos] == bs[0] && Matches(data, pos + 1, bs[1..]))
  }

  lemma {:induction false} HoldsSlice(data: seq<Byte>, pos: nat, bs: seq<Byte>)
    requires Holds(data, pos, bs)
    ensures data[pos..pos + |bs|] == bs
    decreases |bs|
  {
    if bs != [] {
      HoldsSlice(data, pos + 1, bs[1..]);
      assert data[pos..pos + |bs|] == [data[pos]] + data[pos + 1..pos + 1 + |bs[1..]|];
      assert bs == [bs[0]] + bs[1..];
    }
  }

  lemma {:induction false} HoldsParts(data: seq<Byte>, pos: nat, a: seq<Byte>, b: seq<Byte>)
    requires Holds(data, pos, a + b)
    ensures Holds(data, pos, a) && Holds(data, pos + |a|, b)
    decreases |a|
  {
    if a == [] {
      assert a + b == b;
    } else {
      assert (a + b)[1..] == a[1..] + b;
      HoldsParts(data, pos + 1, a[1..], b);
    }
  }

  lemma Digits4(n: nat)
    requires n < TWO_32
    ensures n % 256 + 256 * (n / 256 % 256) + 65536 * (n / 65536 % 256) + 16777216 * (n / 16777216 % 256) == n
  {
    assert n / 65536 == n / 256 / 256 && n / 16777216 == n / 65536 / 256;
  }

  lemma Number4Held(data: seq<Byte>, pos: nat, n: nat)
    requires Holds(data, pos, Bytes4(n)) && n < TWO_32
    ensures Number4(data, pos) == n
  {
    Digits4(n);
    HoldsSlice(data, pos, Bytes4(n));
    var bs := data[pos..pos + 4];
    assert data[pos] == bs[0] && data[pos + 1] == bs[1] && data[pos + 2] == bs[2] && data[pos + 3] == bs[3];
  }

  /** A number that fits is read back as itself. */
  lemma Number8Held(data: seq<Byte>, pos: nat, n: nat)
    requires Holds(data, pos, Bytes8(n)) && n < TWO_64
    ensures Number8(data, pos) == n
  {
    HoldsParts(data, pos, Bytes4(n % TWO_32), Bytes4(n / TWO_32));
    Number4Held(data, pos, n % TWO_32);
    Number4Held(data, pos + 4, n / TWO_32);
  }

  // ----- values ------------------------------------------------------------------------------

  const TEXT := 8
  const ARRAY := 9
  const MAX_ARRAY := 1_000_000

  /** Bytes of a scalar of this kind; none for kinds that are not scalars. */
  function Width(kind: nat): nat {
    if kind == 0 || kind == 1 || kind == 7 then 1
    else if kind == 2 || kind == 3 then 2
    else if kind == 4 || kind == 5 || kind == 6 then 4
    else if kind == 10 || kind == 11 || kind == 12 then 8
    else 0
  }

  datatype Value =
    | Scalar(kind: nat, bytes: seq<Byte>)
    | Text(bytes: seq<Byte>)
    | Scalars(kind: nat, items: seq<seq<Byte>>)
    | Texts(texts: seq<seq<Byte>>)

  function KindOf(v: Value): nat {
    match v
    case Scalar(kind, _) => kind
    case Text(_) => TEXT
    case _ => ARRAY
  }

  predicate TextFits(t: seq<Byte>) {
    |t| < TWO_64
  }

  /** Widths agree with kinds, and arrays are no longer than the readers allow. */
  predicate ValidValue(v: Value) {
    match v
    case Scalar(kind, bytes) => Width(kind) > 0 && |bytes| == Width(kind)
    case Text(bytes) => TextFits(bytes)
    case Scalars(kind, items) =>
      Width(kind) > 0 && |items| <= MAX_ARRAY && forall i :: 0 <= i < |items| ==> |items[i]| == Width(kind)
    case Texts(texts) => |texts| <= MAX_ARRAY && forall i :: 0 <= i < |texts| ==> TextFits(texts[i])
  }

  function EncodeText(t: seq<Byte>): seq<Byte> {
    Bytes8(|t|) + t
  }

  function EncodeTexts(ts: seq<seq<Byte>>): seq<Byte> {
    if ts == [] then [] else EncodeText(ts[0]) + EncodeTexts(ts[1..])
  }

  function Flatten(items: seq<seq<Byte>>): seq<Byte> {
    if items == [] then [] else items[0] + Flatten(items[1..])
  }

  function ArrayHeader(kind: nat, count: nat): seq<Byte> {
    Bytes4(kind) + Bytes8(count)
  }

  function EncodeValue(v: Value): seq<Byte> {
    match v
    case Scalar(_, bytes) => bytes
    case Text(bytes) => EncodeText(bytes)
    case Scalars(kind, items) => ArrayHeader(kind, |items|) + Flatten(items)
    case Texts(texts) => ArrayHeader(TEXT, |texts|) + EncodeTexts(texts)
  }

  // ----- where a value ends ------------------------------------------------------------------

  /** The end of n length-prefixed texts, if their lengths can be read. */
  function TextsEnd(data: seq<Byte>, pos: nat, n: nat): Option<nat>
    decreases n
  {
    if n == 0 then Some(pos)
    else if pos + 8 > |data| then None
    else TextsEnd(data, pos + 8 + Number8(data, pos), n - 1)
  }

  /** The end of an array whose header has been read. */
  function ElementsEnd(data: seq<Byte>, pos: nat, subtype: nat, count: nat): Option<nat> {
    if count > MAX_ARRAY then None
    else if Width(subtype) > 0 then Some(pos + count * Width(subtype))
    else if subtype == TEXT then TextsEnd(data, pos, count)
    else None
  }

  function ArrayEnd(data: seq<Byte>, pos: nat): Option<nat> {
    if pos + 12 > |data| then None
    else ElementsEnd(data, pos + 12, Number4(data, pos), Number8(data, pos + 4))
  }

  /** The end of a value of a kind, if the kind is known and the lengths can be read. */
  function ValueEnd(data: seq<Byte>, pos: nat, kind: nat): Option<nat> {
    if Width(kind) > 0 then Some(pos + Width(kind))
    else if kind == TEXT then TextsEnd(data, pos, 1)
    else if kind == ARRAY then ArrayEnd(data, pos)
    else None
  }

  lemma TextHeld(data: seq<Byte>, pos: nat, t: seq<Byte>, rest: seq<Byte>)
    requires Holds(data, pos, EncodeText(t) + rest) && TextFits(t)
    ensures pos + 8 + |t| <= |data| && Number8(data, pos) == |t|
    ensures Holds(data, pos + 8, t) && Holds(data, pos + 8 + |t|, rest)
  {
    HoldsParts(data, pos, EncodeText(t), rest);
    HoldsParts(data, pos, Bytes8(|t|), t);
    Number8Held(data, pos, |t|);
  }

  lemma TextsEndUnfolds(data: seq<Byte>, pos: nat, n: nat, length: nat)
    requires n > 0 && pos + 8 <= |data| && length == Number8(data, pos)
    ensures TextsEnd(data, pos, n) == TextsEnd(data, pos + 8 + length, n - 1)
  {
  }

  lemma FirstTextHeld(data: seq<Byte>, pos: nat, ts: seq<seq<Byte>>)
    requires ts != [] && TextFits(ts[0]) && Holds(data, pos, EncodeTexts(ts))
    ensures TextsEnd(data, pos, |ts|) == TextsEnd(data, pos + 8 + |ts[0]|, |ts| - 1)
    ensures Holds(data, pos + 8 + |ts[0]|, EncodeTexts(ts[1..]))
    ensures |EncodeTexts(ts)| == 8 + |ts[0]| + |EncodeTexts(ts[1..])|
  {
    assert EncodeTexts(ts) == EncodeText(ts[0]) + EncodeTexts(ts[1..]);
    TextHeld(data, pos, ts[0], EncodeTexts(ts[1..]));
    assert TextsEnd(data, pos, |ts|) == TextsEnd(data, pos + 8 + |ts[0]|, |ts| - 1) by {
      TextsEndUnfolds(data, pos, |ts|, |ts[0]|);
    }
  }

  lemma {:induction false} TextsEndHeld(data: seq<Byte>, pos: nat, ts: seq<seq<Byte>>)
    requires Holds(data, pos, EncodeTexts(ts)) && forall i :: 0 <= i < |ts| ==> TextFits(ts[i])
    ensures TextsEnd(data, pos, |ts|) == Some(pos + |EncodeTexts(ts)|)
    decreases |ts|
  {
    if ts != [] {
      FirstTextHeld(data, pos, ts);
      TextsEndHeld(data, pos + 8 + |ts[0]|, ts[1..]);
    }
  }

  lemma {:induction false} FlattenLength(items: seq<seq<Byte>>, width: nat)
    requires forall i :: 0 <= i < |items| ==> |items[i]| == width
    ensures |Flatten(items)| == |items| * width
  {
    if items != [] {
      FlattenLength(items[1..], width);
      assert |items| * width == width + (|items| - 1) * width;
    }
  }

  lemma HeaderHeld(data: seq<Byte>, pos: nat, kind: nat, count: nat, body: seq<Byte>)
    requires Holds(data, pos, ArrayHeader(kind, count) + body) && kind <= 12 && count <= MAX_ARRAY
    ensures pos + 12 <= |data| && Number4(data, pos) == kind && Number8(data, pos + 4) == count
    ensures Holds(data, pos + 12, body)
  {
    HoldsParts(data, pos, ArrayHeader(kind, count), body);
    HoldsParts(data, pos, Bytes4(kind), Bytes8(count));
    Number4Held(data, pos, kind);
    Number8Held(data, pos + 4, count);
  }

  lemma TextEndHeld(data: seq<Byte>, pos: nat, t: seq<Byte>)
    requires TextFits(t) && Holds(data, pos, EncodeText(t))
    ensures TextsEnd(data, pos, 1) == Some(pos + |EncodeText(t)|)
  {
    assert EncodeText(t) + [] == EncodeText(t);
    TextHeld(data, pos, t, []);
    assert TextsEnd(data, pos + 8 + |t|, 0) == Some(pos + 8 + |t|);
  }

  lemma ArrayEndHeld(data: seq<Byte>, pos: nat, kind: nat, count: nat, body: seq<Byte>)
    requires Holds(data, pos, ArrayHeader(kind, count) + body) && kind <= 12 && count <= MAX_ARRAY
    requires ElementsEnd(data, pos + 12, kind, count) == Some(pos + 12 + |body|)
    ensures ArrayEnd(data, pos) == Some(pos + |ArrayHeader(kind, count) + body|)
  {
    HeaderHeld(data, pos, kind, count, body);
  }

  /** Wherever the encoding of a value stands, the value ends exactly where its encoding does. */
  lemma ValueEndHeld(data: seq<Byte>, pos: nat, v: Value)
    requires ValidValue(v) && Holds(data, pos, EncodeValue(v))
    ensures ValueEnd(data, pos, KindOf(v)) == Some(pos + |EncodeValue(v)|)
  {
    if v.Text? {
      TextEndHeld(data, pos, v.bytes);
    } else if v.Scalars? {
      FlattenLength(v.items, Width(v.kind));
      ArrayEndHeld(data, pos, v.kind, |v.items|, Flatten(v.items));
    } else if v.Texts? {
      HeaderHeld(data, pos, TEXT, |v.texts|, EncodeTexts(v.texts));
      TextsEndHeld(data, pos + 12, v.texts);
      ArrayEndHeld(data, pos, TEXT, |v.texts|, EncodeTexts(v.texts));
    }
  }
}
