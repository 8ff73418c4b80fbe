/** The second metadata reader, which compares tokenizers. */
module TokenizerSignature {
  // It walks a complete metadata list and records the raw bytes of every tokenizer entry, so that two models can be
  // compared.

  import opened Wrappers
  import opened Utf8
  import opened GgufFormat
  import opened GgufInspect
  import opened GgufMetadata
  import opened GgufSerialized

  // ----- walking over a value ----------------------------------------------------------------

  /** Reading within the file and its first 16 MiB. */
  predicate CanRead(data: seq<Byte>, pos: nat, count: nat) {
    pos + count <= MAX_POSITION && pos + count <= |data|
  }

  method ConsumeText(data: seq<Byte>, pos: nat) returns (end: Option<nat>)
    requires pos <= Limit(data)
    ensures end == Within(data, TextsEnd(data, pos, 1))
  {
    if !CanRead(data, pos, 8) {
      return None;
    }
    var count := Number8(data, pos);
    OneTextEnd(data, pos);
    if !CanRead(data, pos + 8, count) {
      return None;
    }
    return Some(pos + 8 + count);
  }

  lemma OneTextEnd(data: seq<Byte>, pos: nat)
    ensures TextsEnd(data, pos, 1) == if pos + 8 > |data| then None else Some(pos + 8 + Number8(data, pos))
  {
    if pos + 8 <= |data| {
      assert TextsEnd(data, pos + 8 + Number8(data, pos), 0) == Some(pos + 8 + Number8(data, pos));
    }
  }

  /** An end is reached if it lies within the bounds. */
  function Within(data: seq<Byte>, end: Option<nat>): Option<nat> {
    if end.Some? && end.value <= Limit(data) then end else None
  }

  method ConsumeTexts(data: seq<Byte>, pos: nat, n: nat) returns (end: Option<nat>)
    requires pos <= Limit(data)
    ensures end == Within(data, TextsEnd(data, pos, n))
  {
    var at: nat := pos;
    for i := 0 to n
      invariant at <= Limit(data) && TextsEnd(data, at, n - i) == TextsEnd(data, pos, n)
    {
      OneTextEnd(data, at);
      var next := ConsumeText(data, at);
      if at + 8 <= |data| {
        TextsEndGrows(data, at + 8 + Number8(data, at), n - i - 1);
      }
      if next == None {
        return None;
      }
      at := next.value;
    }
    return Some(at);
  }

  method ConsumeArray(data: seq<Byte>, pos: nat) returns (end: Option<nat>)
    requires pos <= Limit(data)
    ensures end == Within(data, ArrayEnd(data, pos))
  {
    if !CanRead(data, pos, 12) {
      ArrayEndGrows(data, pos);
      return None;
    }
    var subtype, count := Number4(data, pos), Number8(data, pos + 4);
    if subtype == ARRAY || count > MAX_ARRAY {
      return None;
    }
    if Width(subtype) > 0 {
      if !CanRead(data, pos + 12, Width(subtype) * count) {
        return None;
      }
      return Some(pos + 12 + Width(subtype) * count);
    } else if subtype == TEXT {
      end := ConsumeTexts(data, pos + 12, count);
    } else {
      return None;
    }
  }

  lemma ArrayEndGrows(data: seq<Byte>, pos: nat)
    ensures ArrayEnd(data, pos).Some? ==> ArrayEnd(data, pos).value >= pos + 12
  {
    if pos + 12 <= |data| && Number8(data, pos + 4) <= MAX_ARRAY && Number4(data, pos) == TEXT {
      TextsEndGrows(data, pos + 12, Number8(data, pos + 4));
    }
  }

  /** Walks over a value: the walk ends exactly at the value's end, and fails exactly if there is no such end within the
      bounds. */
  method Consume(data: seq<Byte>, pos: nat, kind: nat) returns (end: Option<nat>)
    requires pos <= Limit(data)
    ensures end == Within(data, ValueEnd(data, pos, kind))
  {
    if Width(kind) > 0 {
      if !CanRead(data, pos, Width(kind)) {
        return None;
      }
      return Some(pos + Width(kind));
    } else if kind == TEXT {
      end := ConsumeText(data, pos);
    } else if kind == ARRAY {
      end := ConsumeArray(data, pos);
    } else {
      return None;
    }
  }

  /** Both readers agree on where a value ends: on every encoding that the first reader can afford, keeping the value or
      not, the second reader stops at the same place. */
  lemma ReadersAgree(data: seq<Byte>, c: Cursor, v: Value, keep: bool)
    requires InBounds(data, c) && ValidValue(v) && Holds(data, c.pos, EncodeValue(v))
    ensures Within(data, ValueEnd(data, c.pos, KindOf(v)))
            == if c.pos + |EncodeValue(v)| <= Limit(data) then Some(c.pos + |EncodeValue(v)|) else None
    ensures ReadValue(data, c, KindOf(v), keep).Done? ==>
              Within(data, ValueEnd(data, c.pos, KindOf(v))) == Some(ReadValue(data, c, KindOf(v), keep).at.pos)
  {
    ValueEndHeld(data, c.pos, v);
    ReadsValue(data, c, v, keep);
  }

  // ----- the signature -----------------------------------------------------------------------

  const CHAT_TEMPLATE := "tokenizer.chat_template"
  const REQUIRED := {ARCHITECTURE, "tokenizer.ggml.model", "tokenizer.ggml.tokens"}

  predicate Relevant(key: string) {
    key == ARCHITECTURE || (|key| >= 10 && key[..10] == "tokenizer." && key != CHAT_TEMPLATE)
  }

  /** Kind and raw bytes of each entry that matters; the program keeps a digest of the two. */
  type Signature = map<string, (nat, seq<Byte>)>

  function Noted(s: Signature, key: string, kind: nat, raw: seq<Byte>): Signature {
    if Relevant(key) then s[key := (kind, raw)] else s
  }

  datatype Walk = Walk(pos: nat, signature: Signature)

  /** Strict decoding: well-formed text only. */
  function StrictDecode(bs: seq<Byte>): Option<string> {
    if WellFormed(bs) then Some(Decode(bs)) else None
  }

  type Decoder = seq<Byte> -> Option<string>

  /** A decoder that reads every encoded text as itself. */
  ghost predicate DecodesTexts(decode: Decoder) {
    forall s :: decode(EncodeAll(s)) == Some(s)
  }

  lemma StrictDecodeDecodes()
    ensures DecodesTexts(StrictDecode)
  {
    forall s ensures StrictDecode(EncodeAll(s)) == Some(s) {
      DecodeEncoded(s);
    }
  }

  /** Where the key at a position ends, and what it is. */
  function KeyOf(decode: Decoder, data: seq<Byte>, pos: nat): (r: Option<(nat, string)>)
    ensures r.Some? ==> pos + 8 <= r.value.0 <= Limit(data)
  {
    var end := Within(data, TextsEnd(data, pos, 1));
    if end == None || end.value < pos + 8 then None
    else
      match decode(data[pos + 8..end.value])
      case None => None
      case Some(key) => Some((end.value, key))
  }

  /** Where the value after the kind at a position ends, its kind and its bytes. */
  function ValueOf(data: seq<Byte>, pos: nat): (r: Option<(nat, nat, seq<Byte>)>)
    ensures r.Some? ==> r.value.0 <= Limit(data)
  {
    if !CanRead(data, pos, 4) then None
    else
      var kind := Number4(data, pos);
      var end := Within(data, ValueEnd(data, pos + 4, kind));
      if end == None || end.value < pos + 4 then None else Some((end.value, kind, data[pos + 4..end.value]))
  }

  function WalkEntry(decode: Decoder, data: seq<Byte>, w: Walk): (r: Option<Walk>)
    requires w.pos <= Limit(data)
    ensures r.Some? ==> r.value.pos <= Limit(data)
  {
    match KeyOf(decode, data, w.pos)
    case None => None
    case Some((keyEnd, key)) =>
      match ValueOf(data, keyEnd)
      case None => None
      case Some((end, kind, raw)) => Some(Walk(end, Noted(w.signature, key, kind, raw)))
  }

  function WalkEntries(step: Walk -> Option<Walk>, n: nat, w: Walk): Option<Walk>
    decreases n
  {
    if n == 0 then Some(w)
    else
      match step(w)
      case None => None
      case Some(next) => WalkEntries(step, n - 1, next)
  }

  function StepOf(decode: Decoder, data: seq<Byte>): Walk -> Option<Walk> {
    (w: Walk) => if w.pos <= Limit(data) then WalkEntry(decode, data, w) else None
  }

  lemma ValueEndGrows(data: seq<Byte>, pos: nat, kind: nat)
    ensures ValueEnd(data, pos, kind).Some? ==> ValueEnd(data, pos, kind).value >= pos
  {
    TextsEndGrows(data, pos, 1);
    ArrayEndGrows(data, pos);
  }

  method ParseKey(decode: Decoder, data: seq<Byte>, pos: nat) returns (r: Option<(nat, string)>)
    requires pos <= Limit(data)
    ensures r == KeyOf(decode, data, pos)
  {
    var end := ConsumeText(data, pos);
    OneTextEnd(data, pos);
    if end == None {
      return None;
    }
    var key := decode(data[pos + 8..end.value]);
    return if key == None then None else Some((end.value, key.value));
  }

  method ParseWalkEntry(decode: Decoder, data: seq<Byte>, w: Walk) returns (r: Option<Walk>)
    requires w.pos <= Limit(data)
    ensures r == WalkEntry(decode, data, w)
  {
    var key := ParseKey(decode, data, w.pos);
    if key == None || !CanRead(data, key.value.0, 4) {
      return None;
    }
    var start := key.value.0 + 4;
    var kind := Number4(data, key.value.0);
    var end := Consume(data, start, kind);
    if end == None {
      return None;
    }
    ValueEndGrows(data, start, kind);
    return Some(Walk(end.value, Noted(w.signature, key.value.1, kind, data[start..end.value])));
  }

  predicate Comparable(data: seq<Byte>) {
    |data| >= 24 && data[..4] == MAGIC && Number4(data, 4) in {2, 3} && Number8(data, 8) > 0 && Number8(data, 16) <= MAX_ENTRIES
  }

  /** The signature of a file whose metadata is complete and names its tokenizer; anything less gives none. */
  method Sign(data: seq<Byte>) returns (r: Option<Signature>)
    ensures r == if !Comparable(data) then None
                 else match WalkEntries(StepOf(StrictDecode, data), Number8(data, 16), Walk(24, map[]))
                   case None => None
                   case Some(w) => if REQUIRED <= w.signature.Keys then Some(w.signature) else None
    ensures r.Some? ==> |data| >= 24 && data[..4] == [71, 71, 85, 70] && Number4(data, 4) in {2, 3}
                        && Number8(data, 8) >= 1 && Number8(data, 16) <= 4096
  {
    if !CanRead(data, 0, 24) || !Comparable(data) {
      return None;
    }
    hide WalkEntry, StrictDecode;
    var w: Walk, n := Walk(24, map[]), Number8(data, 16);
    for i := 0 to n
      invariant w.pos <= Limit(data)
                && WalkEntries(StepOf(StrictDecode, data), n - i, w)
                   == WalkEntries(StepOf(StrictDecode, data), n, Walk(24, map[]))
    {
      var next := ParseWalkEntry(StrictDecode, data, w);
      assert next == StepOf(StrictDecode, data)(w);
      if next == None {
        return None;
      }
      w := next.value;
    }
    return if REQUIRED <= w.signature.Keys then Some(w.signature) else None;
  }

  // ----- what a signature says ---------------------------------------------------------------

  /** The last value of every relevant key. */
  function SignatureOf(ps: seq<Pair>): Signature {
    if ps == [] then map[]
    else
      var last, before := ps[|ps| - 1], SignatureOf(ps[..|ps| - 1]);
      Noted(before, last.key, KindOf(last.value), EncodeValue(last.value))
  }

  /** What names the tokenizer, and the model it belongs to; how a chat is laid out does not matter. */
  predicate TokenizerKey(key: string) {
    key == "general.architecture" || ("tokenizer." <= key && key != "tokenizer.chat_template")
  }

  /** Kind and bytes of the last entry with a key. */
  function LastEntry(ps: seq<Pair>, key: string): Option<(nat, seq<Byte>)> {
    if ps == [] then None
    else if ps[|ps| - 1].key == key then Some((KindOf(ps[|ps| - 1].value), EncodeValue(ps[|ps| - 1].value)))
    else LastEntry(ps[..|ps| - 1], key)
  }

  lemma TokenizerKeyIff(key: string)
    ensures TokenizerKey(key) <==> Relevant(key)
  {
    assert |"tokenizer."| == 10;
  }

  lemma {:induction false} SignatureIs(ps: seq<Pair>, key: string)
    ensures key in SignatureOf(ps) <==> TokenizerKey(key) && LastEntry(ps, key).Some?
    ensures key in SignatureOf(ps) ==> LastEntry(ps, key) == Some(SignatureOf(ps)[key])
  {
    if ps != [] {
      SignatureIs(ps[..|ps| - 1], key);
      TokenizerKeyIff(ps[|ps| - 1].key);
      hide Relevant, TokenizerKey, EncodeValue, KindOf;
    }
  }

  lemma SameSignatureIff(pa: seq<Pair>, pb: seq<Pair>)
    ensures SignatureOf(pa) == SignatureOf(pb) <==>
              forall key :: TokenizerKey(key) ==> LastEntry(pa, key) == LastEntry(pb, key)
  {
    forall key ensures (key in SignatureOf(pa) <==> TokenizerKey(key) && LastEntry(pa, key).Some?)
                       && (key in SignatureOf(pb) <==> TokenizerKey(key) && LastEntry(pb, key).Some?)
      ensures key in SignatureOf(pa) ==> LastEntry(pa, key) == Some(SignatureOf(pa)[key])
      ensures key in SignatureOf(pb) ==> LastEntry(pb, key) == Some(SignatureOf(pb)[key])
    {
      SignatureIs(pa, key);
      SignatureIs(pb, key);
    }
    hide SignatureOf, LastEntry, TokenizerKey;
    if forall key :: TokenizerKey(key) ==> LastEntry(pa, key) == LastEntry(pb, key) {
      assert SignatureOf(pa).Keys == SignatureOf(pb).Keys;
    }
  }

  predicate NamesTokenizer(ps: seq<Pair>) {
    && LastEntry(ps, "general.architecture").Some?
    && LastEntry(ps, "tokenizer.ggml.model").Some? && LastEntry(ps, "tokenizer.ggml.tokens").Some?
  }

  lemma RequiredIff(ps: seq<Pair>)
    ensures REQUIRED <= SignatureOf(ps).Keys <==> NamesTokenizer(ps)
  {
    SignatureIs(ps, "general.architecture");
    SignatureIs(ps, "tokenizer.ggml.model");
    SignatureIs(ps, "tokenizer.ggml.tokens");
    assert TokenizerKey("tokenizer.ggml.model") && TokenizerKey("tokenizer.ggml.tokens") by {
      assert |"tokenizer.ggml.model"| != |"tokenizer.chat_template"| && |"tokenizer.ggml.tokens"| != |"tokenizer.chat_template"|;
    }
    hide SignatureOf, LastEntry, TokenizerKey;
  }

  lemma KeyStands(decode: Decoder, data: seq<Byte>, pos: nat, key: string, rest: seq<Byte>)
    requires DecodesTexts(decode) && Holds(data, pos, EncodeText(EncodeAll(key)) + rest) && TextFits(EncodeAll(key))
    requires pos + 8 + |EncodeAll(key)| <= Limit(data)
    ensures KeyOf(decode, data, pos) == Some((pos + 8 + |EncodeAll(key)|, key))
    ensures Holds(data, pos + 8 + |EncodeAll(key)|, rest)
  {
    KeyHeld(data, pos, key, rest);
    OneTextEnd(data, pos);
  }

  lemma ValueStands(data: seq<Byte>, pos: nat, v: Value)
    requires ValidValue(v) && Holds(data, pos, Bytes4(KindOf(v)) + EncodeValue(v)) && pos + 4 + |EncodeValue(v)| <= Limit(data)
    ensures ValueOf(data, pos) == Some((pos + 4 + |EncodeValue(v)|, KindOf(v), EncodeValue(v)))
  {
    HoldsParts(data, pos, Bytes4(KindOf(v)), EncodeValue(v));
    Number4Held(data, pos, KindOf(v));
    ValueEndHeld(data, pos + 4, v);
    HoldsSlice(data, pos + 4, EncodeValue(v));
  }

  lemma PairKey(decode: Decoder, data: seq<Byte>, pos: nat, pair: Pair)
    requires DecodesTexts(decode) && StandardPair(pair) && Holds(data, pos, EncodePair(pair))
    requires pos + |EncodePair(pair)| <= Limit(data)
    ensures KeyOf(decode, data, pos) == Some((pos + 8 + |EncodeAll(pair.key)|, pair.key))
  {
    KeyStands(decode, data, pos, pair.key, Bytes4(KindOf(pair.value)) + EncodeValue(pair.value));
  }

  lemma PairWalks(decode: Decoder, data: seq<Byte>, pair: Pair, w: Walk)
    requires DecodesTexts(decode) && StandardPair(pair)
    requires Holds(data, w.pos, EncodePair(pair)) && w.pos + |EncodePair(pair)| <= Limit(data)
    ensures WalkEntry(decode, data, w)
            == Some(Walk(w.pos + |EncodePair(pair)|, Noted(w.signature, pair.key, KindOf(pair.value), EncodeValue(pair.value))))
  {
    hide EncodePair, EncodeValue, EncodeAll, ValidValue, Holds, Bytes4, KeyOf, ValueOf;
    PairKey(decode, data, w.pos, pair);
    PairTail(data, w.pos, pair);
    ValueStands(data, w.pos + 8 + |EncodeAll(pair.key)|, pair.value);
  }

  lemma {:induction false} ExtendWalk(step: Walk -> Option<Walk>, n: nat, w: Walk, w1: Walk, w2: Walk)
    requires WalkEntries(step, n, w) == Some(w1) && step(w1) == Some(w2)
    ensures WalkEntries(step, n + 1, w) == Some(w2)
    decreases n
  {
    if n > 0 {
      ExtendWalk(step, n - 1, step(w).value, w1, w2);
    }
  }

  function WalkAfter(ps: seq<Pair>): Walk {
    Walk(24 + |EncodePairs(ps)|, SignatureOf(ps))
  }

  lemma LastPairWalks(decode: Decoder, data: seq<Byte>, ps: seq<Pair>)
    requires DecodesTexts(decode) && ps != [] && StandardPairs(ps)
    requires Holds(data, 24, EncodePairs(ps)) && 24 + |EncodePairs(ps)| <= Limit(data)
    ensures var front := ps[..|ps| - 1];
            Holds(data, 24, EncodePairs(front)) && StepOf(decode, data)(WalkAfter(front)) == Some(WalkAfter(ps))
  {
    hide EncodePair, StandardPair, WalkEntry, Holds;
    var front, last := ps[..|ps| - 1], ps[|ps| - 1];
    HoldsParts(data, 24, EncodePairs(front), EncodePair(last));
    PairWalks(decode, data, last, WalkAfter(front));
  }

  lemma {:induction false} PairsWalk(decode: Decoder, data: seq<Byte>, ps: seq<Pair>)
    requires DecodesTexts(decode) && StandardPairs(ps) && Holds(data, 24, EncodePairs(ps)) && 24 + |EncodePairs(ps)| <= Limit(data)
    ensures WalkEntries(StepOf(decode, data), |ps|, Walk(24, map[])) == Some(WalkAfter(ps))
    decreases |ps|
  {
    if ps != [] {
      var front := ps[..|ps| - 1];
      LastPairWalks(decode, data, ps);
      PairsWalk(decode, data, front);
      ExtendWalk(StepOf(decode, data), |front|, Walk(24, map[]), WalkAfter(front), WalkAfter(ps));
    }
  }

  /** A serialized file is signed with the last value of every relevant key, if the required ones are among them. */
  method SignSerialized(data: seq<Byte>, ps: seq<Pair>, version: nat, tensors: nat) returns (r: Option<Signature>)
    requires version in {2, 3} && 0 < tensors < TWO_64 && |ps| <= MAX_ENTRIES && StandardPairs(ps)
    requires Holds(data, 0, Header(version, tensors, |ps|) + EncodePairs(ps)) && 24 + |EncodePairs(ps)| <= MAX_POSITION
    ensures r == if REQUIRED <= SignatureOf(ps).Keys then Some(SignatureOf(ps)) else None
  {
    HeaderFields(data, version, tensors, |ps|, EncodePairs(ps));
    StrictDecodeDecodes();
    PairsWalk(StrictDecode, data, ps);
    r := Sign(data);
  }

  /** Two files with serialized metadata within the bounds are compatible exactly when every entry that matters has the
      same kind and the same bytes in both, and both name architecture, tokenizer model and tokens. */
  method Compatible(a: seq<Byte>, pa: seq<Pair>, b: seq<Byte>, pb: seq<Pair>, va: nat, ta: nat, vb: nat, tb: nat)
    returns (same: bool)
    requires va in {2, 3} && vb in {2, 3} && 0 < ta < TWO_64 && 0 < tb < TWO_64
    requires |pa| <= MAX_ENTRIES && |pb| <= MAX_ENTRIES && StandardPairs(pa) && StandardPairs(pb)
    requires Holds(a, 0, Header(va, ta, |pa|) + EncodePairs(pa)) && 24 + |EncodePairs(pa)| <= MAX_POSITION
    requires Holds(b, 0, Header(vb, tb, |pb|) + EncodePairs(pb)) && 24 + |EncodePairs(pb)| <= MAX_POSITION
    ensures same <==>
              && (forall key :: TokenizerKey(key) ==> LastEntry(pa, key) == LastEntry(pb, key))
              && NamesTokenizer(pa)
  {
    SameSignatureIff(pa, pb);
    RequiredIff(pa);
    hide SignatureOf, LastEntry, TokenizerKey, NamesTokenizer, REQUIRED;
    var first := SignSerialized(a, pa, va, ta);
    var second := SignSerialized(b, pb, vb, tb);
    same := first.Some? && first == second;
  }
}
