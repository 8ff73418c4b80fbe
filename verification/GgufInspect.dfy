/** The bounded reader of one metadata value, and where it stops on well-formed encodings. */
module GgufInspect {
  import opened Wrappers
  import opened Utf8
  import opened GgufFormat

  const MAX_READ := 1_048_576
  const MAX_POSITION := 16 * 1_048_576
  const MAX_KEPT_TEXT := 65_536

  function Limit(data: seq<Byte>): nat {
    if |data| < MAX_POSITION then |data| else MAX_POSITION
  }

  /** A stream position and the number of bytes read so far; skipped bytes are not read. */
  datatype Cursor = Cursor(pos: nat, consumed: nat)

  predicate InBounds(data: seq<Byte>, c: Cursor) {
    c.pos <= Limit(data) && c.consumed <= MAX_READ
  }

  /** A step either goes on at a later cursor or stops where it is. */
  datatype Step<+T> = Done(at: Cursor, value: T) | Stopped(at: Cursor)

  /** What a value is kept as. */
  datatype Item = NoItem | Number(n: int) | Words(text: string) | Other

  // ----- reading and skipping ----------------------------------------------------------------

  function Read(data: seq<Byte>, c: Cursor, count: nat): (r: Step<seq<Byte>>)
    requires InBounds(data, c)
    ensures InBounds(data, r.at)
    ensures r.Done? <==> c.consumed + count <= MAX_READ && c.pos + count <= Limit(data)
  {
    if c.consumed + count > MAX_READ || c.pos + count > Limit(data) then Stopped(c)
    else Done(Cursor(c.pos + count, c.consumed + count), data[c.pos..c.pos + count])
  }

  function Skip(data: seq<Byte>, c: Cursor, count: nat): (r: Step<()>)
    requires InBounds(data, c)
    ensures InBounds(data, r.at)
    ensures r.Done? <==> c.pos + count <= Limit(data)
  {
    if c.pos + count > Limit(data) then Stopped(c) else Done(Cursor(c.pos + count, c.consumed), ())
  }

  /** A length-prefixed text, read if it is kept and skipped otherwise. */
  function ReadText(data: seq<Byte>, c: Cursor, keep: bool): (r: Step<Item>)
    requires InBounds(data, c)
    ensures InBounds(data, r.at)
  {
    var prefix := Read(data, c, 8);
    if prefix.Stopped? then Stopped(prefix.at)
    else
      var length := Number8(data, c.pos);
      if keep then
        if length > MAX_KEPT_TEXT then Stopped(prefix.at)
        else
          var body := Read(data, prefix.at, length);
          if body.Stopped? then Stopped(body.at) else Done(body.at, Words(Decode(body.value)))
      else
        var body := Skip(data, prefix.at, length);
        if body.Stopped? then Stopped(body.at) else Done(body.at, NoItem)
  }

  function SkipTexts(data: seq<Byte>, c: Cursor, n: nat): (r: Step<Item>)
    requires InBounds(data, c)
    ensures InBounds(data, r.at)
    decreases n
  {
    if n == 0 then Done(c, NoItem)
    else
      var first := ReadText(data, c, false);
      if first.Stopped? then first else SkipTexts(data, first.at, n - 1)
  }

  /** Two's complement. */
  function Signed(n: nat, bits: int): int {
    if 2 * n >= bits then n - bits else n
  }

  function Number2(data: seq<Byte>, pos: nat): nat
    requires pos + 2 <= |data|
  {
    var a: int, b: int := data[pos], data[pos + 1];
    a + 256 * b
  }

  /** An integer scalar; booleans and floating point numbers are kept as something else. */
  function ScalarItem(data: seq<Byte>, pos: nat, kind: nat): Item
    requires Width(kind) > 0 && pos + Width(kind) <= |data|
  {
    if kind == 0 then Number(data[pos])
    else if kind == 1 then Number(Signed(data[pos], 256))
    else if kind == 2 then Number(Number2(data, pos))
    else if kind == 3 then Number(Signed(Number2(data, pos), 65536))
    else if kind == 4 then Number(Number4(data, pos))
    else if kind == 5 then Number(Signed(Number4(data, pos), TWO_32))
    else if kind == 10 then Number(Number8(data, pos))
    else if kind == 11 then Number(Signed(Number8(data, pos), TWO_64))
    else Other
  }

  function ReadArray(data: seq<Byte>, c: Cursor): (r: Step<Item>)
    requires InBounds(data, c)
    ensures InBounds(data, r.at)
  {
    var header := Read(data, c, 12);
    if header.Stopped? then Stopped(header.at)
    else
      var subtype, count := Number4(data, c.pos), Number8(data, c.pos + 4);
      if count > MAX_ARRAY || subtype == ARRAY then Stopped(header.at)
      else if Width(subtype) > 0 then
        var body := Skip(data, header.at, count * Width(subtype));
        if body.Stopped? then Stopped(body.at) else Done(body.at, NoItem)
      else if subtype == TEXT then SkipTexts(data, header.at, count)
      else Stopped(header.at)
  }

  function ReadValue(data: seq<Byte>, c: Cursor, kind: nat, keep: bool): (r: Step<Item>)
    requires InBounds(data, c)
    ensures InBounds(data, r.at)
  {
    if Width(kind) > 0 then
      var raw := Read(data, c, Width(kind));
      if raw.Stopped? then Stopped(raw.at) else Done(raw.at, if keep then ScalarItem(data, c.pos, kind) else NoItem)
    else if kind == TEXT then ReadText(data, c, keep)
    else if kind == ARRAY then ReadArray(data, c)
    else Stopped(c)
  }

  // ----- where the reader stops --------------------------------------------------------------

  lemma {:induction false} SkipTextsStops(data: seq<Byte>, c: Cursor, n: nat)
    requires InBounds(data, c)
    ensures SkipTexts(data, c, n).Done? ==>
              TextsEnd(data, c.pos, n) == Some(SkipTexts(data, c, n).at.pos)
              && SkipTexts(data, c, n).at.consumed == c.consumed + 8 * n && SkipTexts(data, c, n).value == NoItem
    ensures TextsEnd(data, c.pos, n).Some? && TextsEnd(data, c.pos, n).value <= Limit(data) && c.consumed + 8 * n <= MAX_READ
            ==> SkipTexts(data, c, n).Done?
    decreases n
  {
    if n > 0 && ReadText(data, c, false).Done? {
      SkipTextsStops(data, ReadText(data, c, false).at, n - 1);
    } else if n > 0 && TextsEnd(data, c.pos, n).Some? {
      TextsEndGrows(data, c.pos + 8 + Number8(data, c.pos), n - 1);
    }
  }

  lemma {:induction false} TextsEndGrows(data: seq<Byte>, pos: nat, n: nat)
    ensures TextsEnd(data, pos, n).Some? ==> TextsEnd(data, pos, n).value >= pos
    decreases n
  {
    if n > 0 && pos + 8 <= |data| {
      TextsEndGrows(data, pos + 8 + Number8(data, pos), n - 1);
    }
  }

  /** Bytes read, not skipped, for a value. */
  function Cost(v: Value, keep: bool): nat {
    match v
    case Scalar(_, bytes) => |bytes|
    case Text(bytes) => 8 + (if keep then |bytes| else 0)
    case Scalars(_, _) => 12
    case Texts(texts) => 12 + 8 * |texts|
  }

  /** What a value is kept as. */
  function ItemOf(v: Value): Item
    requires ValidValue(v)
  {
    match v
    case Scalar(kind, bytes) => ScalarItem(bytes, 0, kind)
    case Text(bytes) => Words(Decode(bytes))
    case _ => NoItem
  }

  // ----- the scalar types of the GGUF specification --------------------------------------------

  datatype Scalar =
    | Uint8(n: int) | Int8(n: int) | Uint16(n: int) | Int16(n: int) | Uint32(n: int) | Int32(n: int)
    | Uint64(n: int) | Int64(n: int)
    | Float32(bits: nat) | Float64(bits: nat) | Bool(b: bool)

  predicate InRange(x: Scalar) {
    match x
    case Uint8(n) => 0 <= n < 0x100
    case Int8(n) => -0x80 <= n < 0x80
    case Uint16(n) => 0 <= n < 0x1_0000
    case Int16(n) => -0x8000 <= n < 0x8000
    case Uint32(n) => 0 <= n < 0x1_0000_0000
    case Int32(n) => -0x8000_0000 <= n < 0x8000_0000
    case Uint64(n) => 0 <= n < 0x1_0000_0000_0000_0000
    case Int64(n) => -0x8000_0000_0000_0000 <= n < 0x8000_0000_0000_0000
    case Float32(bits) => bits < 0x1_0000_0000
    case Float64(bits) => bits < 0x1_0000_0000_0000_0000
    case Bool(_) => true
  }

  /** Two's complement of a negative number, in so many values. */
  function Wrapped(n: int, values: nat): int {
    if n < 0 then n + values else n
  }

  function Bytes2(n: nat): (r: seq<Byte>)
    ensures |r| == 2
  {
    [n % 256, n / 256 % 256]
  }

  /** The value as the specification writes it: its type number and its bytes. */
  function Typed(x: Scalar): Value
    requires InRange(x)
  {
    match x
    case Uint8(n) => Value.Scalar(0, [n])
    case Int8(n) => Value.Scalar(1, [Wrapped(n, 0x100)])
    case Uint16(n) => Value.Scalar(2, Bytes2(n))
    case Int16(n) => Value.Scalar(3, Bytes2(Wrapped(n, 0x1_0000)))
    case Uint32(n) => Value.Scalar(4, Bytes4(n))
    case Int32(n) => Value.Scalar(5, Bytes4(Wrapped(n, 0x1_0000_0000)))
    case Float32(bits) => Value.Scalar(6, Bytes4(bits))
    case Bool(b) => Value.Scalar(7, [if b then 1 else 0])
    case Uint64(n) => Value.Scalar(10, Bytes8(n))
    case Int64(n) => Value.Scalar(11, Bytes8(Wrapped(n, 0x1_0000_0000_0000_0000)))
    case Float64(bits) => Value.Scalar(12, Bytes8(bits))
  }

  lemma {:induction false} HoldsItself(front: seq<Byte>, bs: seq<Byte>)
    ensures Holds(front + bs, |front|, bs)
    decreases |bs|
  {
    if bs != [] {
      assert front + bs == (front + [bs[0]]) + bs[1..];
      HoldsItself(front + [bs[0]], bs[1..]);
    }
  }

  lemma TwoBytesAreRead(n: nat)
    requires n < 0x1_0000
    ensures Number2(Bytes2(n), 0) == n
  {
    assert n == 256 * (n / 256) + n % 256 && n / 256 % 256 == n / 256;
  }

  lemma BytesAreRead(n: nat)
    ensures n < 0x1_0000_0000 ==> Number4(Bytes4(n), 0) == n
    ensures n < 0x1_0000_0000_0000_0000 ==> Number8(Bytes8(n), 0) == n
  {
    assert [] + Bytes4(n) == Bytes4(n) && [] + Bytes8(n) == Bytes8(n);
    HoldsItself([], Bytes4(n));
    HoldsItself([], Bytes8(n));
    if n < 0x1_0000_0000 {
      Number4Held(Bytes4(n), 0, n);
    }
    if n < 0x1_0000_0000_0000_0000 {
      Number8Held(Bytes8(n), 0, n);
    }
  }

  /** Every integer, signed or not, is read as itself, and every other scalar as something else. */
  lemma TypedIsRead(x: Scalar)
    requires InRange(x)
    ensures ValidValue(Typed(x))
    ensures ItemOf(Typed(x)) == if x.Float32? || x.Float64? || x.Bool? then Other else Number(x.n)
  {
    hide Bytes4, Bytes8, Bytes2, Number4, Number8, Number2;
    match x
    case Uint16(n) => TwoBytesAreRead(n);
    case Int16(n) => TwoBytesAreRead(Wrapped(n, 0x1_0000));
    case Uint32(n) => BytesAreRead(n);
    case Int32(n) => BytesAreRead(Wrapped(n, 0x1_0000_0000));
    case Uint64(n) => BytesAreRead(n);
    case Int64(n) => BytesAreRead(Wrapped(n, 0x1_0000_0000_0000_0000));
    case _ =>
  }

  predicate Affordable(data: seq<Byte>, c: Cursor, v: Value, keep: bool) {
    && c.pos + |EncodeValue(v)| <= Limit(data) && c.consumed + Cost(v, keep) <= MAX_READ
    && (keep && v.Text? ==> |v.bytes| <= MAX_KEPT_TEXT)
  }

  /** A reading of a value, as it should be. */
  predicate ReadsAs(data: seq<Byte>, c: Cursor, v: Value, keep: bool, r: Step<Item>)
    requires ValidValue(v)
  {
    && (r.Done? <==> Affordable(data, c, v, keep))
    && (r.Done? ==> r.at == Cursor(c.pos + |EncodeValue(v)|, c.consumed + Cost(v, keep))
                    && r.value == (if keep then ItemOf(v) else NoItem))
  }

  lemma TextSlice(data: seq<Byte>, pos: nat, t: seq<Byte>)
    requires TextFits(t) && Holds(data, pos, EncodeText(t))
    ensures pos + 8 + |t| <= |data| && Number8(data, pos) == |t| && data[pos + 8..pos + 8 + |t|] == t
  {
    assert EncodeText(t) + [] == EncodeText(t);
    TextHeld(data, pos, t, []);
    HoldsSlice(data, pos + 8, t);
  }

  lemma ReadsLength(data: seq<Byte>, c: Cursor, n: nat, keep: bool)
    requires InBounds(data, c) && c.pos + 8 + n <= |data| && Number8(data, c.pos) == n
    ensures var r := ReadText(data, c, keep);
            && (r.Done? <==> c.pos + 8 + n <= Limit(data) && c.consumed + 8 + (if keep then n else 0) <= MAX_READ
                             && (keep ==> n <= MAX_KEPT_TEXT))
            && (r.Done? ==> r.at == Cursor(c.pos + 8 + n, c.consumed + 8 + (if keep then n else 0))
                            && r.value == (if keep then Words(Decode(data[c.pos + 8..c.pos + 8 + n])) else NoItem))
  {
  }

  lemma ReadsScalar(data: seq<Byte>, c: Cursor, v: Value, keep: bool)
    requires InBounds(data, c) && ValidValue(v) && v.Scalar? && Holds(data, c.pos, v.bytes)
    ensures ReadsAs(data, c, v, keep, ReadValue(data, c, v.kind, keep))
  {
    ScalarHeld(data, c.pos, v);
  }

  lemma ScalarHeld(data: seq<Byte>, pos: nat, v: Value)
    requires ValidValue(v) && v.Scalar? && Holds(data, pos, v.bytes)
    ensures ScalarItem(data, pos, v.kind) == ItemOf(v)
  {
    HoldsSlice(data, pos, v.bytes);
    forall i | 0 <= i < |v.bytes| ensures data[pos + i] == v.bytes[i] {
      assert data[pos + i] == data[pos..pos + |v.bytes|][i];
    }
    var w := |v.bytes|;
    assert data[pos + 0] == v.bytes[0];
    assert w >= 2 ==> data[pos + 1] == v.bytes[1];
    if w >= 4 {
      assert data[pos + 2] == v.bytes[2] && data[pos + 3] == v.bytes[3];
      assert Number4(data, pos) == Number4(v.bytes, 0);
    }
    if w == 8 {
      assert data[pos + 4] == v.bytes[4] && data[pos + 5] == v.bytes[5] && data[pos + 6] == v.bytes[6] && data[pos + 7] == v.bytes[7];
      assert Number4(data, pos + 4) == Number4(v.bytes, 4);
    }
  }

  lemma ReadsScalars(data: seq<Byte>, c: Cursor, kind: nat, items: seq<seq<Byte>>)
    requires var v := Scalars(kind, items); InBounds(data, c) && ValidValue(v) && Holds(data, c.pos, EncodeValue(v))
    ensures var v := Scalars(kind, items);
            var r := ReadArray(data, c);
            && (r.Done? <==> c.pos + |EncodeValue(v)| <= Limit(data) && c.consumed + 12 <= MAX_READ)
            && (r.Done? ==> r == Done(Cursor(c.pos + |EncodeValue(v)|, c.consumed + 12), NoItem))
  {
    HeaderHeld(data, c.pos, kind, |items|, Flatten(items));
    FlattenLength(items, Width(kind));
  }

  lemma ReadsTexts(data: seq<Byte>, c: Cursor, texts: seq<seq<Byte>>)
    requires var v := Texts(texts); InBounds(data, c) && ValidValue(v) && Holds(data, c.pos, EncodeValue(v))
    ensures var v := Texts(texts);
            var r := ReadArray(data, c);
            && (r.Done? <==> c.pos + |EncodeValue(v)| <= Limit(data) && c.consumed + 12 + 8 * |texts| <= MAX_READ)
            && (r.Done? ==> r == Done(Cursor(c.pos + |EncodeValue(v)|, c.consumed + 12 + 8 * |texts|), NoItem))
  {
    HeaderHeld(data, c.pos, TEXT, |texts|, EncodeTexts(texts));
    TextsEndHeld(data, c.pos + 12, texts);
    if Read(data, c, 12).Done? {
      SkipTextsStops(data, Read(data, c, 12).at, |texts|);
    }
  }

  lemma ReadsTextValue(data: seq<Byte>, c: Cursor, t: seq<Byte>, keep: bool)
    requires InBounds(data, c) && TextFits(t) && Holds(data, c.pos, EncodeText(t))
    ensures ReadsAs(data, c, Text(t), keep, ReadText(data, c, keep))
  {
    TextSlice(data, c.pos, t);
    ReadsLength(data, c, |t|, keep);
    assert |EncodeValue(Text(t))| == 8 + |t|;
  }

  /** Wherever the encoding of a value stands, the reader goes on exactly if the bounds allow it, and then stands exactly
      at the end of the encoding, whether the value was kept or not; a kept value is the encoded one. */
  lemma ReadsValue(data: seq<Byte>, c: Cursor, v: Value, keep: bool)
    requires InBounds(data, c) && ValidValue(v) && Holds(data, c.pos, EncodeValue(v))
    ensures ReadsAs(data, c, v, keep, ReadValue(data, c, KindOf(v), keep))
  {
    match v
    case Scalar(_, _) => ReadsScalar(data, c, v, keep);
    case Text(bytes) => ReadsTextValue(data, c, bytes, keep);
    case Scalars(kind, items) => ReadsScalars(data, c, kind, items);
    case Texts(texts) => ReadsTexts(data, c, texts);
  }
}
