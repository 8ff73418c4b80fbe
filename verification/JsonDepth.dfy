/** The nesting check on a request body, against the JSON grammar (sections 2, 4, 5 and 7 of RFC 8259). */
module JsonDepth {
  import opened Wrappers

  type Byte = b: int | 0 <= b < 256

  const MAX_NESTING := 64

  // ----- the scanner -------------------------------------------------------------------------

  datatype Scanner = Scanner(depth: int, quoted: bool, escaped: bool)

  function Step(s: Scanner, b: Byte): Scanner {
    if s.quoted then
      if s.escaped then s.(escaped := false)
      else if b == 92 then s.(escaped := true)
      else if b == 34 then s.(quoted := false)
      else s
    else if b == 34 then s.(quoted := true)
    else if b == 91 || b == 123 then s.(depth := s.depth + 1)
    else if b == 93 || b == 125 then s.(depth := s.depth - 1)
    else s
  }

  function Scan(s: Scanner, data: seq<Byte>): Scanner
    decreases |data|
  {
    if data == [] then s else Scan(Step(s, data[0]), data[1..])
  }

  /** The depth after each byte. */
  function Trace(s: Scanner, data: seq<Byte>): (r: seq<int>)
    ensures |r| == |data|
    decreases |data|
  {
    if data == [] then [] else [Step(s, data[0]).depth] + Trace(Step(s, data[0]), data[1..])
  }

  predicate Within(depths: seq<int>, bound: int) {
    forall i :: 0 <= i < |depths| ==> depths[i] <= bound
  }

  lemma {:induction false} ScanConcat(s: Scanner, a: seq<Byte>, b: seq<Byte>)
    ensures Scan(s, a + b) == Scan(Scan(s, a), b)
    ensures Trace(s, a + b) == Trace(s, a) + Trace(Scan(s, a), b)
    decreases |a|
  {
    if a == [] {
      assert a + b == b;
    } else {
      assert (a + b)[1..] == a[1..] + b;
      ScanConcat(Step(s, a[0]), a[1..], b);
    }
  }

  lemma OneByte(s: Scanner, b: Byte)
    ensures Scan(s, [b]) == Step(s, b) && Trace(s, [b]) == [Step(s, b).depth]
  {
    assert [b][1..] == [];
  }

  lemma {:induction false} TraceAt(s: Scanner, data: seq<Byte>, i: nat)
    requires i < |data|
    ensures Trace(s, data)[i] == Scan(s, data[..i + 1]).depth
    decreases |data|
  {
    if data[1..] != [] {
      TraceAt(Step(s, data[0]), data[1..], if i == 0 then 0 else i - 1);
    }
    if i == 0 {
      assert data[..1][1..] == [];
    } else {
      assert data[..i + 1][1..] == data[1..][..i];
    }
  }

  const START := Scanner(0, false, false)

  /** Rejects exactly when the running depth exceeds the limit somewhere. */
  method ValidateRequestDepth(data: seq<Byte>) returns (ok: bool)
    ensures ok <==> Within(Trace(START, data), MAX_NESTING)
  {
    var depth, quoted, escaped := 0, false, false;
    for i := 0 to |data|
      invariant Scanner(depth, quoted, escaped) == Scan(START, data[..i])
      invariant depth <= MAX_NESTING
      invariant forall j :: 0 <= j < i ==> Trace(START, data)[j] <= MAX_NESTING
    {
      var character := data[i];
      TraceAt(START, data, i);
      assert data[..i + 1] == data[..i] + [character];
      ScanConcat(START, data[..i], [character]);
      OneByte(Scan(START, data[..i]), character);
      if quoted {
        if escaped {
          escaped := false;
        } else if character == 92 {
          escaped := true;
        } else if character == 34 {
          quoted := false;
        }
      } else if character == 34 {
        quoted := true;
      } else if character == 91 || character == 123 {
        depth := depth + 1;
        if depth > MAX_NESTING {
          return false;
        }
      } else if character == 93 || character == 125 {
        depth := depth - 1;
      }
    }
    return true;
  }

  // ----- the grammar -------------------------------------------------------------------------

  /** A byte of a string, or an escape with its selector and, for \u, four hexadecimal digits. */
  datatype Item = Plain(b: Byte) | Escape(selector: Byte) | Unicode(digits: seq<Byte>)

  datatype Json =
    | Scalar(text: seq<Byte>)                                    // a number, true, false or null
    | Text(items: seq<Item>)
    | Container(isObject: bool, lead: seq<Byte>, parts: seq<Part>)

  /** An element, or a member with its name; blanks may surround the name and the value. */
  datatype Part = Part(before: seq<Byte>, name: Option<Name>, value: Json, after: seq<Byte>)
  datatype Name = Name(items: seq<Item>, after: seq<Byte>, beforeValue: seq<Byte>)
  predicate Blanks(bs: seq<Byte>) {
    forall i :: 0 <= i < |bs| ==> bs[i] == 32 || bs[i] == 9 || bs[i] == 10 || bs[i] == 13
  }

  predicate HexDigit(b: Byte) {
    48 <= b <= 57 || 65 <= b <= 70 || 97 <= b <= 102
  }

  predicate ValidItem(i: Item) {
    match i
    case Plain(b) => b >= 32 && b != 34 && b != 92
    case Escape(b) => b in {34, 92, 47, 98, 102, 110, 114, 116}
    case Unicode(ds) => |ds| == 4 && forall k :: 0 <= k < 4 ==> HexDigit(ds[k])
  }

  predicate ValidItems(items: seq<Item>) {
    forall i :: 0 <= i < |items| ==> ValidItem(items[i])
  }

  /** Letters, digits, signs and points; which of them form a number or a name does not matter here. */
  predicate ScalarText(bs: seq<Byte>) {
    forall i :: 0 <= i < |bs| ==> 48 <= bs[i] <= 57 || 97 <= bs[i] <= 122 || bs[i] in {43, 45, 46, 69}
  }

  predicate Valid(j: Json) {
    match j
    case Scalar(text) => text != [] && ScalarText(text)
    case Text(items) => ValidItems(items)
    case Container(isObject, lead, parts) => Blanks(lead) && ValidParts(isObject, parts)
  }

  predicate ValidParts(isObject: bool, parts: seq<Part>)
    decreases parts
  {
    parts == []
    || (&& Blanks(parts[0].before) && Blanks(parts[0].after) && Valid(parts[0].value)
        && (isObject <==> parts[0].name.Some?)
        && (isObject ==> ValidItems(parts[0].name.value.items) && Blanks(parts[0].name.value.after)
                         && Blanks(parts[0].name.value.beforeValue))
        && ValidParts(isObject, parts[1..]))
  }

  function ItemBytes(i: Item): seq<Byte> {
    match i
    case Plain(b) => [b]
    case Escape(b) => [92, b]
    case Unicode(ds) => [92, 117] + ds
  }

  function ItemsBytes(items: seq<Item>): seq<Byte> {
    if items == [] then [] else ItemBytes(items[0]) + ItemsBytes(items[1..])
  }

  function Quoted(items: seq<Item>): seq<Byte> {
    [34] + ItemsBytes(items) + [34]
  }

  function Bytes(j: Json): seq<Byte>
    decreases j
  {
    match j
    case Scalar(text) => text
    case Text(items) => Quoted(items)
    case Container(isObject, lead, parts) =>
      [if isObject then 123 else 91] + (lead + PartsBytes(parts)) + [if isObject then 125 else 93]
  }

  function NameBytes(name: Option<Name>): seq<Byte> {
    match name
    case None => []
    case Some(n) => Quoted(n.items) + (n.after + [58] + n.beforeValue)
  }

  function PartsBytes(parts: seq<Part>): seq<Byte>
    decreases parts
  {
    if parts == [] then []
    else
      (parts[0].before + NameBytes(parts[0].name)) + Bytes(parts[0].value)
      + (parts[0].after + (if |parts| > 1 then [44] else []))
      + PartsBytes(parts[1..])
  }

  function Nesting(j: Json): nat
    decreases j
  {
    match j
    case Scalar(_) => 0
    case Text(_) => 0
    case Container(_, _, parts) => 1 + NestingOfParts(parts)
  }

  function NestingOfParts(parts: seq<Part>): nat
    decreases parts
  {
    if parts == [] then 0
    else
      var first, rest := Nesting(parts[0].value), NestingOfParts(parts[1..]);
      if first > rest then first else rest
  }

  // ----- depth by the grammar ----------------------------------------------------------------

  function Flat(d: int, n: nat): seq<int> {
    seq(n, i => d)
  }

  /** The number of containers open after each byte of a value inside d containers. */
  function Depths(j: Json, d: int): seq<int>
    decreases j
  {
    match j
    case Scalar(text) => Flat(d, |text|)
    case Text(items) => Flat(d, |Quoted(items)|)
    case Container(_, lead, parts) => [d + 1] + (Flat(d + 1, |lead|) + PartsDepths(parts, d + 1)) + [d]
  }

  function PartsDepths(parts: seq<Part>, d: int): seq<int>
    decreases parts
  {
    if parts == [] then []
    else
      Flat(d, |parts[0].before + NameBytes(parts[0].name)|) + Depths(parts[0].value, d)
      + Flat(d, |parts[0].after| + (if |parts| > 1 then 1 else 0))
      + PartsDepths(parts[1..], d)
  }

  // ----- the scanner follows the grammar -----------------------------------------------------

  /** From outside a string, at depth d, the bytes lead back outside a string at depth d, by the given depths. */
  ghost predicate Follows(data: seq<Byte>, d: int, depths: seq<int>) {
    Scan(Scanner(d, false, false), data) == Scanner(d, false, false) && Trace(Scanner(d, false, false), data) == depths
  }

  lemma FollowsConcat(a: seq<Byte>, b: seq<Byte>, d: int, da: seq<int>, db: seq<int>)
    requires Follows(a, d, da) && Follows(b, d, db)
    ensures Follows(a + b, d, da + db)
  {
    ScanConcat(Scanner(d, false, false), a, b);
  }

  lemma FollowsFour(a: seq<Byte>, b: seq<Byte>, c: seq<Byte>, e: seq<Byte>, d: int,
                    da: seq<int>, db: seq<int>, dc: seq<int>, de: seq<int>)
    requires Follows(a, d, da) && Follows(b, d, db) && Follows(c, d, dc) && Follows(e, d, de)
    ensures Follows(a + b + c + e, d, da + db + dc + de)
  {
    FollowsConcat(a, b, d, da, db);
    FollowsConcat(a + b, c, d, da + db, dc);
    FollowsConcat(a + b + c, e, d, da + db + dc, de);
  }

  predicate Neutral(b: Byte) {
    b != 34 && b != 91 && b != 123 && b != 93 && b != 125
  }

  lemma {:induction false} NeutralFollows(bs: seq<Byte>, d: int)
    requires forall i :: 0 <= i < |bs| ==> Neutral(bs[i])
    ensures Follows(bs, d, Flat(d, |bs|))
  {
    if bs != [] {
      NeutralFollows(bs[1..], d);
      assert Flat(d, |bs|) == [d] + Flat(d, |bs[1..]|);
    }
  }

  /** Inside a string the depth stands still. */
  lemma {:induction false} PlainStays(bs: seq<Byte>, d: int)
    requires forall i :: 0 <= i < |bs| ==> bs[i] != 34 && bs[i] != 92
    ensures Scan(Scanner(d, true, false), bs) == Scanner(d, true, false)
    ensures Trace(Scanner(d, true, false), bs) == Flat(d, |bs|)
  {
    if bs != [] {
      PlainStays(bs[1..], d);
      assert Flat(d, |bs|) == [d] + Flat(d, |bs[1..]|);
    }
  }

  lemma EscapeStays(b: Byte, d: int)
    ensures Scan(Scanner(d, true, false), [92, b]) == Scanner(d, true, false)
    ensures Trace(Scanner(d, true, false), [92, b]) == Flat(d, 2)
  {
    OneByte(Scanner(d, true, false), 92);
    OneByte(Scanner(d, true, true), b);
    ScanConcat(Scanner(d, true, false), [92], [b]);
    assert [92, b] == [92] + [b];
  }

  lemma ItemStays(item: Item, d: int)
    requires ValidItem(item)
    ensures Scan(Scanner(d, true, false), ItemBytes(item)) == Scanner(d, true, false)
    ensures Trace(Scanner(d, true, false), ItemBytes(item)) == Flat(d, |ItemBytes(item)|)
  {
    var s := Scanner(d, true, false);
    match item
    case Plain(b) => PlainStays([b], d);
    case Escape(b) =>
      EscapeStays(b, d);
    case Unicode(ds) =>
      EscapeStays(117, d);
      PlainStays(ds, d);
      ScanConcat(s, [92, 117], ds);
  }

  lemma {:induction false} ItemsStay(items: seq<Item>, d: int)
    requires ValidItems(items)
    ensures Scan(Scanner(d, true, false), ItemsBytes(items)) == Scanner(d, true, false)
    ensures Trace(Scanner(d, true, false), ItemsBytes(items)) == Flat(d, |ItemsBytes(items)|)
  {
    if items != [] {
      ItemStays(items[0], d);
      ItemsStay(items[1..], d);
      ScanConcat(Scanner(d, true, false), ItemBytes(items[0]), ItemsBytes(items[1..]));
    }
  }

  lemma QuotedFollows(items: seq<Item>, d: int)
    requires ValidItems(items)
    ensures Follows(Quoted(items), d, Flat(d, |Quoted(items)|))
  {
    var quote, close: seq<Byte> := [34], [34];
    var outside, inside := Scanner(d, false, false), Scanner(d, true, false);
    ItemsStay(items, d);
    OneByte(outside, 34);
    OneByte(inside, 34);
    ScanConcat(outside, quote, ItemsBytes(items));
    ScanConcat(outside, quote + ItemsBytes(items), close);
  }

  lemma FlatConcat(d: int, m: nat, n: nat)
    ensures Flat(d, m) + Flat(d, n) == Flat(d, m + n)
  {
  }

  lemma PartHeadFollows(isObject: bool, parts: seq<Part>, d: int)
    requires parts != [] && ValidParts(isObject, parts)
    ensures var head := parts[0].before + NameBytes(parts[0].name); Follows(head, d, Flat(d, |head|))
  {
    var part := parts[0];
    NeutralFollows(part.before, d);
    if part.name.Some? {
      var n := part.name.value;
      var colon := n.after + [58] + n.beforeValue;
      QuotedFollows(n.items, d);
      NeutralFollows(colon, d);
      FollowsConcat(Quoted(n.items), colon, d, Flat(d, |Quoted(n.items)|), Flat(d, |colon|));
      FlatConcat(d, |Quoted(n.items)|, |colon|);
    } else {
      NeutralFollows([], d);
    }
    FollowsConcat(part.before, NameBytes(part.name), d, Flat(d, |part.before|), Flat(d, |NameBytes(part.name)|));
    FlatConcat(d, |part.before|, |NameBytes(part.name)|);
  }

  lemma ContainerFollows(isObject: bool, lead: seq<Byte>, parts: seq<Part>, d: int)
    requires Blanks(lead) && Follows(PartsBytes(parts), d + 1, PartsDepths(parts, d + 1))
    ensures Follows(Bytes(Container(isObject, lead, parts)), d, Depths(Container(isObject, lead, parts), d))
  {
    NeutralFollows(lead, d + 1);
    FollowsConcat(lead, PartsBytes(parts), d + 1, Flat(d + 1, |lead|), PartsDepths(parts, d + 1));
    var begin: seq<Byte>, end: seq<Byte> := [if isObject then 123 else 91], [if isObject then 125 else 93];
    var inner := lead + PartsBytes(parts);
    var outside, inside := Scanner(d, false, false), Scanner(d + 1, false, false);
    OneByte(outside, begin[0]);
    OneByte(inside, end[0]);
    ScanConcat(outside, begin, inner);
    ScanConcat(outside, begin + inner, end);
  }

  /** On every JSON value the running depth is the number of open containers after each byte, and comes back to where
      it was. */
  lemma {:induction false} ValueFollows(j: Json, d: int)
    requires Valid(j)
    ensures Follows(Bytes(j), d, Depths(j, d))
    decreases j
  {
    match j
    case Scalar(text) => NeutralFollows(text, d);
    case Text(items) => QuotedFollows(items, d);
    case Container(isObject, lead, parts) =>
      PartsFollow(isObject, parts, d + 1);
      ContainerFollows(isObject, lead, parts, d);
  }

  lemma {:induction false} PartsFollow(isObject: bool, parts: seq<Part>, d: int)
    requires ValidParts(isObject, parts)
    ensures Follows(PartsBytes(parts), d, PartsDepths(parts, d))
    decreases parts
  {
    if parts != [] {
      var head := parts[0].before + NameBytes(parts[0].name);
      var tail := parts[0].after + (if |parts| > 1 then [44] else []);
      PartHeadFollows(isObject, parts, d);
      ValueFollows(parts[0].value, d);
      NeutralFollows(tail, d);
      PartsFollow(isObject, parts[1..], d);
      FollowsFour(head, Bytes(parts[0].value), tail, PartsBytes(parts[1..]), d,
                  Flat(d, |head|), Depths(parts[0].value, d), Flat(d, |tail|), PartsDepths(parts[1..], d));
    }
  }

  // ----- nesting -----------------------------------------------------------------------------

  lemma WithinConcat(a: seq<int>, b: seq<int>, bound: int)
    ensures Within(a + b, bound) <==> Within(a, bound) && Within(b, bound)
  {
    if Within(a + b, bound) {
      assert forall i :: 0 <= i < |a| ==> a[i] == (a + b)[i];
      assert forall i :: 0 <= i < |b| ==> b[i] == (a + b)[|a| + i];
    }
  }

  /** Where a value stands inside no more containers than allowed, the depths stay within the bound exactly when its
      nesting fits. */
  lemma {:induction false} DepthsWithin(j: Json, d: int, bound: int)
    requires d <= bound
    ensures Within(Depths(j, d), bound) <==> d + Nesting(j) <= bound
    decreases j
  {
    if j.Container? {
      var inner := Flat(d + 1, |j.lead|) + PartsDepths(j.parts, d + 1);
      WithinConcat([d + 1] + inner, [d], bound);
      WithinConcat([d + 1], inner, bound);
      WithinConcat(Flat(d + 1, |j.lead|), PartsDepths(j.parts, d + 1), bound);
      assert Within([d + 1], bound) <==> d + 1 <= bound by { assert [d + 1][0] == d + 1; }
      if d + 1 <= bound {
        PartsDepthsWithin(j.parts, d + 1, bound);
      }
    }
  }

  lemma {:induction false} PartsDepthsWithin(parts: seq<Part>, d: int, bound: int)
    requires d <= bound
    ensures Within(PartsDepths(parts, d), bound) <==> d + NestingOfParts(parts) <= bound
    decreases parts
  {
    if parts != [] {
      var head := Flat(d, |parts[0].before + NameBytes(parts[0].name)|);
      var value := Depths(parts[0].value, d);
      var tail := Flat(d, |parts[0].after| + (if |parts| > 1 then 1 else 0));
      DepthsWithin(parts[0].value, d, bound);
      PartsDepthsWithin(parts[1..], d, bound);
      WithinConcat(head + value + tail, PartsDepths(parts[1..], d), bound);
      WithinConcat(head + value, tail, bound);
      WithinConcat(head, value, bound);
    }
  }

  /** The depth after each byte of a JSON text, blanks around the value included. */
  function TextDepths(before: seq<Byte>, j: Json, after: seq<Byte>): seq<int> {
    Flat(0, |before|) + Depths(j, 0) + Flat(0, |after|)
  }

  lemma TextFollows(before: seq<Byte>, j: Json, after: seq<Byte>)
    requires Blanks(before) && Valid(j) && Blanks(after)
    ensures Follows(before + Bytes(j) + after, 0, TextDepths(before, j, after))
  {
    NeutralFollows(before, 0);
    ValueFollows(j, 0);
    NeutralFollows(after, 0);
    FollowsConcat(before, Bytes(j), 0, Flat(0, |before|), Depths(j, 0));
    FollowsConcat(before + Bytes(j), after, 0, Flat(0, |before|) + Depths(j, 0), Flat(0, |after|));
  }

  lemma TextWithin(before: seq<Byte>, j: Json, after: seq<Byte>, bound: nat)
    ensures Within(TextDepths(before, j, after), bound) <==> Nesting(j) <= bound
  {
    WithinConcat(Flat(0, |before|) + Depths(j, 0), Flat(0, |after|), bound);
    WithinConcat(Flat(0, |before|), Depths(j, 0), bound);
    DepthsWithin(j, 0, bound);
  }

  /** A JSON text passes exactly when its containers nest at most 64 deep, and the depth is back at zero at its end. */
  lemma PassesIffNestingFits(before: seq<Byte>, j: Json, after: seq<Byte>)
    requires Blanks(before) && Valid(j) && Blanks(after)
    ensures Within(Trace(START, before + Bytes(j) + after), MAX_NESTING) <==> Nesting(j) <= MAX_NESTING
    ensures Scan(START, before + Bytes(j) + after) == START
  {
    TextFollows(before, j, after);
    TextWithin(before, j, after, MAX_NESTING);
  }
}
