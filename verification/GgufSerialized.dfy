/** What a serialized metadata list is read back as. */
module GgufSerialized {
  import opened Wrappers
  import opened Utf8
  import opened GgufFormat
  import opened GgufInspect
  import opened GgufMetadata

  datatype Pair = Pair(key: string, value: Value)

  /** The encodings are well-formed. */
  predicate StandardPair(p: Pair) {
    ValidValue(p.value) && TextFits(EncodeAll(p.key))
  }

  predicate StandardPairs(ps: seq<Pair>) {
    forall i :: 0 <= i < |ps| ==> StandardPair(ps[i])
  }

  /** What the first reader keeps is not too long for it. */
  predicate ValidPair(p: Pair) {
    && StandardPair(p) && |EncodeAll(p.key)| <= MAX_KEPT_TEXT
    && (Kept(p.key) && p.value.Text? ==> |p.value.bytes| <= MAX_KEPT_TEXT)
  }

  predicate ValidPairs(ps: seq<Pair>) {
    forall i :: 0 <= i < |ps| ==> ValidPair(ps[i])
  }

  function EncodePair(p: Pair): seq<Byte> {
    EncodeText(EncodeAll(p.key)) + (Bytes4(KindOf(p.value)) + EncodeValue(p.value))
  }

  function EncodePairs(ps: seq<Pair>): seq<Byte> {
    if ps == [] then [] else EncodePairs(ps[..|ps| - 1]) + EncodePair(ps[|ps| - 1])
  }

  function PairCost(p: Pair): nat {
    8 + |EncodeAll(p.key)| + 4 + Cost(p.value, Kept(p.key))
  }

  function PairsCost(ps: seq<Pair>): nat {
    if ps == [] then 0 else PairsCost(ps[..|ps| - 1]) + PairCost(ps[|ps| - 1])
  }

  function NotePair(p: Progress, pair: Pair): Progress
    requires ValidPair(pair)
  {
    Note(p, pair.key, ItemOf(pair.value))
  }

  function NoteAll(ps: seq<Pair>): Progress
    requires ValidPairs(ps)
  {
    if ps == [] then NOTHING else NotePair(NoteAll(ps[..|ps| - 1]), ps[|ps| - 1])
  }

  /** Where the reader stands after some pairs. */
  function After(ps: seq<Pair>): Cursor {
    Cursor(24 + |EncodePairs(ps)|, 24 + PairsCost(ps))
  }

  // ----- reading the list --------------------------------------------------------------------

  lemma KeyHeld(data: seq<Byte>, pos: nat, key: string, rest: seq<Byte>)
    requires Holds(data, pos, EncodeText(EncodeAll(key)) + rest) && TextFits(EncodeAll(key))
    ensures var t := EncodeAll(key);
            && pos + 8 + |t| <= |data| && Number8(data, pos) == |t| && data[pos + 8..pos + 8 + |t|] == t
            && Holds(data, pos + 8 + |t|, rest)
  {
    HoldsParts(data, pos, EncodeText(EncodeAll(key)), rest);
    TextSlice(data, pos, EncodeAll(key));
  }

  lemma KeyReads(data: seq<Byte>, c: Cursor, key: string, n: nat)
    requires InBounds(data, c) && c.pos + 8 + n <= Limit(data) && c.consumed + 8 + n <= MAX_READ && n <= MAX_KEPT_TEXT
    requires Number8(data, c.pos) == n && Decode(data[c.pos + 8..c.pos + 8 + n]) == key
    ensures ReadText(data, c, true) == Done(Cursor(c.pos + 8 + n, c.consumed + 8 + n), Words(key))
  {
    ReadsLength(data, c, n, true);
  }

  lemma KindReads(data: seq<Byte>, c: Cursor, v: Value)
    requires InBounds(data, c) && ValidValue(v) && Holds(data, c.pos, Bytes4(KindOf(v)) + EncodeValue(v))
    requires c.pos + 4 <= Limit(data) && c.consumed + 4 <= MAX_READ
    ensures Read(data, c, 4).Done? && Read(data, c, 4).at == Cursor(c.pos + 4, c.consumed + 4)
    ensures Number4(data, c.pos) == KindOf(v) && Holds(data, c.pos + 4, EncodeValue(v))
  {
    HoldsParts(data, c.pos, Bytes4(KindOf(v)), EncodeValue(v));
    Number4Held(data, c.pos, KindOf(v));
  }

  /** What follows the key of a pair where it stands. */
  lemma PairTail(data: seq<Byte>, pos: nat, pair: Pair)
    requires Holds(data, pos, EncodePair(pair))
    ensures Holds(data, pos + 8 + |EncodeAll(pair.key)|, Bytes4(KindOf(pair.value)) + EncodeValue(pair.value))
    ensures |EncodePair(pair)| == 8 + |EncodeAll(pair.key)| + 4 + |EncodeValue(pair.value)|
  {
    HoldsParts(data, pos, EncodeText(EncodeAll(pair.key)), Bytes4(KindOf(pair.value)) + EncodeValue(pair.value));
  }

  lemma PairKeyReads(data: seq<Byte>, c: Cursor, pair: Pair)
    requires InBounds(data, c) && ValidPair(pair) && Holds(data, c.pos, EncodePair(pair))
    requires c.pos + 8 + |EncodeAll(pair.key)| <= Limit(data) && c.consumed + 8 + |EncodeAll(pair.key)| <= MAX_READ
    ensures ReadText(data, c, true)
            == Done(Cursor(c.pos + 8 + |EncodeAll(pair.key)|, c.consumed + 8 + |EncodeAll(pair.key)|), Words(pair.key))
  {
    KeyHeld(data, c.pos, pair.key, Bytes4(KindOf(pair.value)) + EncodeValue(pair.value));
    DecodeEncoded(pair.key);
    KeyReads(data, c, pair.key, |EncodeAll(pair.key)|);
  }

  lemma ValueReads(data: seq<Byte>, c: Cursor, v: Value, keep: bool)
    requires InBounds(data, c) && ValidValue(v) && Holds(data, c.pos, Bytes4(KindOf(v)) + EncodeValue(v))
    requires c.pos + 4 + |EncodeValue(v)| <= Limit(data) && c.consumed + 4 + Cost(v, keep) <= MAX_READ
    requires keep && v.Text? ==> |v.bytes| <= MAX_KEPT_TEXT
    ensures Read(data, c, 4).Done? && Read(data, c, 4).at == Cursor(c.pos + 4, c.consumed + 4)
    ensures Number4(data, c.pos) == KindOf(v)
    ensures ReadValue(data, Cursor(c.pos + 4, c.consumed + 4), KindOf(v), keep)
            == Done(Cursor(c.pos + 4 + |EncodeValue(v)|, c.consumed + 4 + Cost(v, keep)), if keep then ItemOf(v) else NoItem)
  {
    KindReads(data, c, v);
    ReadsValue(data, Cursor(c.pos + 4, c.consumed + 4), v, keep);
  }

  lemma EntryReads(data: seq<Byte>, c: Cursor, pair: Pair, p: Progress)
    requires InBounds(data, c) && ValidPair(pair) && Holds(data, c.pos, EncodePair(pair))
    requires c.pos + |EncodePair(pair)| <= Limit(data) && c.consumed + PairCost(pair) <= MAX_READ
    ensures ReadEntry(data, c, p) == Done(Cursor(c.pos + |EncodePair(pair)|, c.consumed + PairCost(pair)), NotePair(p, pair))
  {
    hide EncodePair, EncodeValue, EncodeAll, ValidValue, Holds, Bytes4, ReadEntry, ReadValue, ReadText, NotePair;
    var n := |EncodeAll(pair.key)|;
    PairTail(data, c.pos, pair);
    PairKeyReads(data, c, pair);
    var afterKey := Cursor(c.pos + 8 + n, c.consumed + 8 + n);
    ValueReads(data, afterKey, pair.value, Kept(pair.key));
    var afterKind := Cursor(afterKey.pos + 4, afterKey.consumed + 4);
    EntryFollows(data, c, pair, p, afterKey, afterKind, ReadValue(data, afterKind, KindOf(pair.value), Kept(pair.key)));
  }

  lemma EntryFollows(data: seq<Byte>, c: Cursor, pair: Pair, p: Progress, afterKey: Cursor, afterKind: Cursor, value: Step<Item>)
    requires InBounds(data, c) && ValidPair(pair)
    requires ReadText(data, c, true) == Done(afterKey, Words(pair.key)) && InBounds(data, afterKey) && InBounds(data, afterKind)
    requires Read(data, afterKey, 4).Done? && Read(data, afterKey, 4).at == afterKind && afterKind.pos == afterKey.pos + 4
    requires Number4(data, afterKey.pos) == KindOf(pair.value)
    requires value == ReadValue(data, afterKind, KindOf(pair.value), Kept(pair.key)) && value.Done?
    requires value.value == (if Kept(pair.key) then ItemOf(pair.value) else NoItem)
    ensures ReadEntry(data, c, p) == Done(value.at, NotePair(p, pair))
  {
  }

  lemma {:induction false} ExtendRun(step: (Cursor, Progress) -> Step<Progress>, c: Cursor, n: nat, p: Progress,
                                     c1: Cursor, p1: Progress, c2: Cursor, p2: Progress)
    requires Iterate(step, c, n, p) == (c1, p1, true) && step(c1, p1) == Done(c2, p2)
    ensures Iterate(step, c, n + 1, p) == (c2, p2, true)
    decreases n
  {
    if n > 0 {
      var next := step(c, p);
      ExtendRun(step, next.at, n - 1, next.value, c1, p1, c2, p2);
    }
  }

  lemma LastPairReads(data: seq<Byte>, ps: seq<Pair>)
    requires ps != [] && ValidPairs(ps) && Holds(data, 24, EncodePairs(ps))
    requires 24 + |EncodePairs(ps)| <= Limit(data) && 24 + PairsCost(ps) <= MAX_READ
    ensures var front := ps[..|ps| - 1];
            Holds(data, 24, EncodePairs(front))
            && EntryStep(data)(After(front), NoteAll(front)) == Done(After(ps), NoteAll(ps))
  {
    hide EncodePair, EncodeValue, EncodeAll, ValidValue, Holds, Bytes4, ReadEntry, NotePair, PairCost;
    var front, last := ps[..|ps| - 1], ps[|ps| - 1];
    HoldsParts(data, 24, EncodePairs(front), EncodePair(last));
    EntryReads(data, After(front), last, NoteAll(front));
  }

  lemma {:induction false} EntriesRead(data: seq<Byte>, ps: seq<Pair>)
    requires ValidPairs(ps) && Holds(data, 24, EncodePairs(ps))
    requires 24 + |EncodePairs(ps)| <= Limit(data) && 24 + PairsCost(ps) <= MAX_READ
    ensures Iterate(EntryStep(data), Cursor(24, 24), |ps|, NOTHING) == (After(ps), NoteAll(ps), true)
    decreases |ps|
  {
    if ps != [] {
      var front := ps[..|ps| - 1];
      LastPairReads(data, ps);
      EntriesRead(data, front);
      ExtendRun(EntryStep(data), Cursor(24, 24), |front|, NOTHING, After(front), NoteAll(front), After(ps), NoteAll(ps));
    }
  }

  // ----- what is recovered -------------------------------------------------------------------

  lemma {:induction false} GetPut(d: Dictionary, key: string, item: Item, other: string)
    ensures Get(Put(d, key, item), other) == if other == key then item else Get(d, other)
  {
    if d != [] && d[0].0 != key {
      GetPut(d[1..], key, item, other);
      assert ([d[0]] + Put(d[1..], key, item))[1..] == Put(d[1..], key, item);
    }
  }

  /** The value of a key's last occurrence in the list. */
  function LastItem(ps: seq<Pair>, key: string): Item
    requires ValidPairs(ps)
  {
    if ps == [] then NoItem
    else if ps[|ps| - 1].key == key then ItemOf(ps[|ps| - 1].value) else LastItem(ps[..|ps| - 1], key)
  }

  lemma {:induction false} KeepsLast(ps: seq<Pair>, key: string)
    requires ValidPairs(ps) && Kept(key)
    ensures Get(NoteAll(ps).metadata, key) == LastItem(ps, key)
    decreases |ps|
  {
    if ps != [] {
      var front, last := ps[..|ps| - 1], ps[|ps| - 1];
      KeepsLast(front, key);
      GetPut(NoteAll(front).metadata, last.key, ItemOf(last.value), key);
    }
  }

  /** The pair gives a context length between 512 and 16 Mi. */
  predicate HasContext(p: Pair)
    requires ValidPair(p)
  {
    && |p.key| >= 15 && p.key[|p.key| - 15..] == ".context_length"
    && ItemOf(p.value).Number? && 512 <= ItemOf(p.value).n <= 16_777_216
  }

  lemma HasContextIff(p: Pair)
    requires ValidPair(p)
    ensures HasContext(p) <==> EndsWith(p.key, CONTEXT) && ValidContext(ItemOf(p.value))
  {
    assert |CONTEXT| == 15;
  }

  /** The last valid context length of the list. */
  function LastContext(ps: seq<Pair>): Option<int>
    requires ValidPairs(ps)
  {
    if ps == [] then None
    else if HasContext(ps[|ps| - 1]) then Some(ItemOf(ps[|ps| - 1].value).n) else LastContext(ps[..|ps| - 1])
  }

  /** The valid context length under the architecture's own key. */
  function OwnContext(ps: seq<Pair>, architecture: Option<string>): Option<int>
    requires ValidPairs(ps)
  {
    if ps == [] then None
    else
      var before, last := OwnContext(ps[..|ps| - 1], architecture), ps[|ps| - 1];
      if before.Some? then before
      else if HasContext(last) && last.key == (if architecture.Some? then architecture.value else "None") + ".context_length" then Some(ItemOf(last.value).n) else None
  }

  lemma {:induction false} KeepsContext(ps: seq<Pair>)
    requires ValidPairs(ps)
    ensures NoteAll(ps).context == LastContext(ps)
    decreases |ps|
  {
    if ps != [] {
      HasContextIff(ps[|ps| - 1]);
      KeepsContext(ps[..|ps| - 1]);
    }
  }

  ghost predicate DistinctKeys(ps: seq<Pair>) {
    forall i, j :: 0 <= i < j < |ps| ==> ps[i].key != ps[j].key
  }

  predicate Unused(d: Dictionary, key: string) {
    d == [] || (d[0].0 != key && Unused(d[1..], key))
  }

  lemma {:induction false} PutNew(d: Dictionary, key: string, item: Item)
    requires Unused(d, key)
    ensures Put(d, key, item) == d + [(key, item)]
  {
    if d != [] {
      PutNew(d[1..], key, item);
    }
  }

  lemma {:induction false} AppendUnused(d: Dictionary, key: string, item: Item, other: string)
    requires Unused(d, other) && key != other
    ensures Unused(d + [(key, item)], other)
  {
    if d == [] {
      assert [(key, item)][1..] == [];
    } else {
      assert (d + [(key, item)])[1..] == d[1..] + [(key, item)];
      AppendUnused(d[1..], key, item, other);
    }
  }

  function KeptItems(ps: seq<Pair>): Dictionary
    requires ValidPairs(ps)
  {
    if ps == [] then []
    else
      KeptItems(ps[..|ps| - 1]) + (if Kept(ps[|ps| - 1].key) then [(ps[|ps| - 1].key, ItemOf(ps[|ps| - 1].value))] else [])
  }

  lemma {:induction false} KeptItemsUnused(ps: seq<Pair>, key: string)
    requires ValidPairs(ps) && forall i :: 0 <= i < |ps| ==> ps[i].key != key
    ensures Unused(KeptItems(ps), key)
    decreases |ps|
  {
    if ps != [] {
      var front, last := ps[..|ps| - 1], ps[|ps| - 1];
      KeptItemsUnused(front, key);
      assert KeptItems(front) + [] == KeptItems(front);
      AppendUnused(KeptItems(front), last.key, ItemOf(last.value), key);
    }
  }

  lemma {:induction false} KeepsInOrder(ps: seq<Pair>)
    requires ValidPairs(ps) && DistinctKeys(ps)
    ensures NoteAll(ps).metadata == KeptItems(ps)
    decreases |ps|
  {
    if ps != [] {
      var front, last := ps[..|ps| - 1], ps[|ps| - 1];
      KeepsInOrder(front);
      KeptItemsUnused(front, last.key);
      PutNew(KeptItems(front), last.key, ItemOf(last.value));
    }
  }

  lemma {:induction false} PickFromExtended(d: Dictionary, key: string, item: Item, architecture: Option<string>,
                                            sofar: Option<int>)
    ensures PickContext(d + [(key, item)], architecture, sofar)
            == if PickStops(d, architecture) then PickContext(d, architecture, sofar)
               else if EndsWith(key, CONTEXT) && ValidContext(item) then Some(item.n)
               else PickContext(d, architecture, sofar)
    ensures PickStops(d + [(key, item)], architecture)
            <==> PickStops(d, architecture) || (EndsWith(key, CONTEXT) && ValidContext(item) && key == OwnKey(architecture))
  {
    if d == [] {
      assert [(key, item)][1..] == [];
    } else {
      assert (d + [(key, item)])[1..] == d[1..] + [(key, item)];
      PickFromExtended(d[1..], key, item, architecture,
                       if EndsWith(d[0].0, CONTEXT) && ValidContext(d[0].1) then Some(d[0].1.n) else sofar);
    }
  }

  /** The dictionary holds a valid context length under the architecture's own key. */
  predicate PickStops(d: Dictionary, architecture: Option<string>) {
    d != []
    && ((EndsWith(d[0].0, CONTEXT) && ValidContext(d[0].1) && d[0].0 == OwnKey(architecture))
        || PickStops(d[1..], architecture))
  }

  lemma {:induction false} PicksFrom(ps: seq<Pair>, architecture: Option<string>, sofar: Option<int>)
    requires ValidPairs(ps)
    ensures PickContext(KeptItems(ps), architecture, sofar)
            == if OwnContext(ps, architecture).Some? then OwnContext(ps, architecture)
               else if LastContext(ps).Some? then LastContext(ps) else sofar
    ensures PickStops(KeptItems(ps), architecture) <==> OwnContext(ps, architecture).Some?
    decreases |ps|
  {
    if ps != [] {
      var front, last := ps[..|ps| - 1], ps[|ps| - 1];
      PicksFrom(front, architecture, sofar);
      HasContextIff(last);
      if Kept(last.key) {
        PickFromExtended(KeptItems(front), last.key, ItemOf(last.value), architecture, sofar);
      } else {
        assert KeptItems(ps) == KeptItems(front);
      }
    }
  }

  // ----- a whole file ------------------------------------------------------------------------

  function Header(version: nat, tensors: nat, count: nat): seq<Byte> {
    MAGIC + (Bytes4(version) + (Bytes8(tensors) + Bytes8(count)))
  }

  /** The fields of a header where it stands. */
  lemma HeaderFields(data: seq<Byte>, version: nat, tensors: nat, count: nat, rest: seq<Byte>)
    requires version in {2, 3} && tensors < TWO_64 && count < TWO_64
    requires Holds(data, 0, Header(version, tensors, count) + rest)
    ensures |data| >= 24 && data[..4] == MAGIC && Number4(data, 4) == version
    ensures Number8(data, 8) == tensors && Number8(data, 16) == count && Holds(data, 24, rest)
  {
    HoldsParts(data, 0, Header(version, tensors, count), rest);
    HoldsParts(data, 0, MAGIC, Bytes4(version) + (Bytes8(tensors) + Bytes8(count)));
    HoldsParts(data, 4, Bytes4(version), Bytes8(tensors) + Bytes8(count));
    HoldsParts(data, 8, Bytes8(tensors), Bytes8(count));
    Number4Held(data, 4, version);
    Number8Held(data, 8, tensors);
    Number8Held(data, 16, count);
    HoldsSlice(data, 0, MAGIC);
  }

  function AsText(item: Item): Option<string> {
    match item
    case Words(text) => Some(text)
    case _ => None
  }

  /** What a complete reading of a list reports: architecture and name are the texts last given for them, and, keys being
      distinct, the context length is the architecture's own if that is valid, else the last valid one. */
  ghost predicate Recovers(r: Inspection, ps: seq<Pair>)
    requires ValidPairs(ps)
  {
    && r.bytesRead == 24 + PairsCost(ps)
    && r.architecture == AsText(LastItem(ps, "general.architecture")) && r.name == AsText(LastItem(ps, "general.name"))
    && (DistinctKeys(ps) ==>
          r.context == if OwnContext(ps, r.architecture).Some? then OwnContext(ps, r.architecture) else LastContext(ps))
  }

  lemma ReportRecovers(data: seq<Byte>, ps: seq<Pair>)
    requires GoodHeader(data) && ValidPairs(ps)
    ensures Recovers(Report(data, After(ps), NoteAll(ps), true), ps)
  {
    KeepsLast(ps, ARCHITECTURE);
    KeepsLast(ps, NAME);
    if DistinctKeys(ps) {
      KeepsInOrder(ps);
      KeepsContext(ps);
      PicksFrom(ps, Report(data, After(ps), NoteAll(ps), true).architecture, NoteAll(ps).context);
    }
  }

  /** A file that begins with a header and a serialized metadata list within the bounds is read back in full; of a longer
      list, the first 4096 pairs are. */
  method RoundTrip(data: seq<Byte>, version: nat, tensors: nat, count: nat, ps: seq<Pair>) returns (r: Inspection)
    requires version in {2, 3} && tensors <= 10_000_000 && count <= 1_000_000 && ValidPairs(ps)
    requires |ps| == if count <= 4096 then count else 4096
    requires Holds(data, 0, Header(version, tensors, count) + EncodePairs(ps))
    requires 24 + |EncodePairs(ps)| <= MAX_POSITION && 24 + PairsCost(ps) <= MAX_READ
    ensures r.headerValid && Recovers(r, ps) && (r.partial <==> count > 4096)
  {
    HeaderFields(data, version, tensors, count, EncodePairs(ps));
    EntriesRead(data, ps);
    ReportRecovers(data, ps);
    r := InspectGguf(data);
  }

  // ----- a file that breaks off --------------------------------------------------------------

  function First500(text: string): string {
    seq(if |text| < 500 then |text| else 500, i requires 0 <= i < |text| => text[i])
  }

  lemma CutIsFirst500(text: string)
    ensures Cut500(text) == First500(text)
  {
  }

  /** The first 500 characters of the text last given for a key. */
  function LastText(ps: seq<Pair>, key: string): Option<string>
    requires ValidPairs(ps)
  {
    if ps == [] then None
    else
      var last := ps[|ps| - 1];
      if last.key == key && last.value.Text? then
        Some(First500(Decode(last.value.bytes)))
      else LastText(ps[..|ps| - 1], key)
  }

  lemma NamesDiffer()
    ensures ARCHITECTURE == "general.architecture" && NAME == "general.name" && ARCHITECTURE != NAME
  {
    assert |ARCHITECTURE| != |NAME|;
  }

  lemma KeptAs(v: Value)
    requires ValidValue(v)
    ensures if v.Text? then ItemOf(v) == Words(Decode(v.bytes)) else !ItemOf(v).Words?
  {
    hide Decode;
  }

  lemma NotesTexts(p: Progress, pair: Pair)
    requires ValidPair(pair)
    ensures var text := if pair.value.Text? then Some(First500(Decode(pair.value.bytes))) else None;
            && NotePair(p, pair).architecture
               == (if pair.key == "general.architecture" && text.Some? then text else p.architecture)
            && NotePair(p, pair).name == (if pair.key == "general.name" && text.Some? then text else p.name)
  {
    NamesDiffer();
    KeptAs(pair.value);
    if pair.value.Text? {
      CutIsFirst500(Decode(pair.value.bytes));
    }
    hide Cut500, First500;
    hide ItemOf, Decode, EndsWith, ARCHITECTURE, NAME, Put, ValidContext;
  }

  lemma {:induction false} KeepsTexts(ps: seq<Pair>)
    requires ValidPairs(ps)
    ensures NoteAll(ps).architecture == LastText(ps, "general.architecture")
    ensures NoteAll(ps).name == LastText(ps, "general.name")
    decreases |ps|
  {
    if ps != [] {
      KeepsTexts(ps[..|ps| - 1]);
      NotesTexts(NoteAll(ps[..|ps| - 1]), ps[|ps| - 1]);
      hide NotePair, Decode, ItemOf, ValidValue, EncodeAll, Kept, First500;
    }
  }

  lemma {:induction false} StopsAfter(step: (Cursor, Progress) -> Step<Progress>, c: Cursor, k: nat, n: nat, p: Progress,
                                      c1: Cursor, p1: Progress)
    requires Iterate(step, c, k, p) == (c1, p1, true) && step(c1, p1).Stopped? && k < n
    ensures Iterate(step, c, n, p) == (step(c1, p1).at, p1, false)
    decreases k
  {
    if k > 0 {
      var next := step(c, p);
      StopsAfter(step, next.at, k - 1, n - 1, next.value, c1, p1);
    }
  }

  /** Wherever the list breaks off, by a bound, a broken entry or the end of the file: what stood in the pairs before is
      reported, as partial. */
  method BreaksOff(data: seq<Byte>, version: nat, tensors: nat, count: nat, ps: seq<Pair>) returns (r: Inspection)
    requires version in {2, 3} && tensors <= 10_000_000 && |ps| < count <= 1_000_000 && |ps| < 4096 && ValidPairs(ps)
    requires Holds(data, 0, Header(version, tensors, count) + EncodePairs(ps))
    requires 24 + |EncodePairs(ps)| <= Limit(data) && 24 + PairsCost(ps) <= MAX_READ
    requires ReadEntry(data, After(ps), NoteAll(ps)).Stopped?
    ensures r.headerValid && r.partial && r.context == LastContext(ps)
    ensures r.architecture == LastText(ps, "general.architecture") && r.name == LastText(ps, "general.name")
    ensures r.bytesRead >= 24 + PairsCost(ps)
  {
    HeaderFields(data, version, tensors, count, EncodePairs(ps));
    EntriesRead(data, ps);
    StopsAfter(EntryStep(data), Cursor(24, 24), |ps|, Count(data), NOTHING, After(ps), NoteAll(ps));
    KeepsTexts(ps);
    KeepsContext(ps);
    StopsLater(data, After(ps), NoteAll(ps));
    r := InspectGguf(data);
  }

  lemma StopsLater(data: seq<Byte>, c: Cursor, p: Progress)
    requires InBounds(data, c) && ReadEntry(data, c, p).Stopped?
    ensures ReadEntry(data, c, p).at.consumed >= c.consumed
  {
    var key := ReadText(data, c, true);
    if key.Done? && Read(data, key.at, 4).Done? && key.value.Words? {
      ValueReadsOn(data, Read(data, key.at, 4).at, Number4(data, key.at.pos), Kept(key.value.text));
    }
    hide ReadValue, Decode, Kept, Note;
  }

  lemma {:induction false} TextsReadOn(data: seq<Byte>, c: Cursor, n: nat)
    requires InBounds(data, c)
    ensures SkipTexts(data, c, n).at.consumed >= c.consumed
    decreases n
  {
    if n > 0 && ReadText(data, c, false).Done? {
      TextsReadOn(data, ReadText(data, c, false).at, n - 1);
    }
  }

  lemma ValueReadsOn(data: seq<Byte>, c: Cursor, kind: nat, keep: bool)
    requires InBounds(data, c)
    ensures ReadValue(data, c, kind, keep).at.consumed >= c.consumed
  {
    if kind == ARRAY && Read(data, c, 12).Done? {
      TextsReadOn(data, Read(data, c, 12).at, Number8(data, c.pos + 4));
    }
  }

  /** A list that ends early is such a file. */
  lemma EndedStops(data: seq<Byte>, c: Cursor, p: Progress)
    requires InBounds(data, c) && |data| < c.pos + 8
    ensures ReadEntry(data, c, p) == Stopped(c)
  {
  }
}
