/** Inspecting a GGUF file: reading its metadata list, and what is kept and reported of it. */
module GgufMetadata {
  import opened Wrappers
  import opened Utf8
  import opened GgufFormat
  import opened GgufInspect

  const MAX_ENTRIES := 4096
  const ARCHITECTURE := "general.architecture"
  const NAME := "general.name"
  const CONTEXT := ".context_length"

  // ----- the loops of the reader -------------------------------------------------------------

  method SkipTextList(data: seq<Byte>, c: Cursor, n: nat) returns (r: Step<Item>)
    requires InBounds(data, c)
    ensures r == SkipTexts(data, c, n)
  {
    var at := c;
    for i := 0 to n
      invariant InBounds(data, at) && SkipTexts(data, at, n - i) == SkipTexts(data, c, n)
    {
      var text := ReadText(data, at, false);
      if text.Stopped? {
        return text;
      }
      at := text.at;
    }
    return Done(at, NoItem);
  }

  method ParseValue(data: seq<Byte>, c: Cursor, kind: nat, keep: bool) returns (r: Step<Item>)
    requires InBounds(data, c)
    ensures r == ReadValue(data, c, kind, keep)
  {
    if Width(kind) > 0 || kind != ARRAY {
      return ReadValue(data, c, kind, keep);
    }
    var header := Read(data, c, 12);
    if header.Stopped? {
      return Stopped(header.at);
    }
    var subtype, count := Number4(data, c.pos), Number8(data, c.pos + 4);
    if count > MAX_ARRAY || subtype == ARRAY {
      return Stopped(header.at);
    }
    if Width(subtype) == 0 && subtype == TEXT {
      r := SkipTextList(data, header.at, count);
      return;
    }
    return ReadArray(data, c);
  }

  // ----- what is kept ------------------------------------------------------------------------

  predicate EndsWith(s: string, suffix: string) {
    |suffix| <= |s| && s[|s| - |suffix|..] == suffix
  }

  predicate Kept(key: string) {
    key == NAME || key == ARCHITECTURE || EndsWith(key, CONTEXT)
  }

  predicate ValidContext(item: Item) {
    item.Number? && 512 <= item.n <= 16_777_216
  }

  type Dictionary = seq<(string, Item)>

  /** A dictionary keeps the position of a key's first insertion. */
  function Put(d: Dictionary, key: string, item: Item): Dictionary {
    if d == [] then [(key, item)]
    else if d[0].0 == key then [(key, item)] + d[1..]
    else [d[0]] + Put(d[1..], key, item)
  }

  function Get(d: Dictionary, key: string): Item {
    if d == [] then NoItem else if d[0].0 == key then d[0].1 else Get(d[1..], key)
  }

  /** What has been found so far; a file that breaks off is reported with this. */
  datatype Progress = Progress(architecture: Option<string>, name: Option<string>, context: Option<int>, metadata: Dictionary)

  const NOTHING := Progress(None, None, None, [])

  function Cut500(s: string): string {
    if |s| <= 500 then s else s[..500]
  }

  function Note(p: Progress, key: string, item: Item): Progress {
    if !Kept(key) then p
    else
      Progress(if key == ARCHITECTURE && item.Words? then Some(Cut500(item.text)) else p.architecture,
               if key == NAME && item.Words? then Some(Cut500(item.text)) else p.name,
               if EndsWith(key, CONTEXT) && ValidContext(item) then Some(item.n) else p.context,
               Put(p.metadata, key, item))
  }

  function TextOf(item: Item): Option<string> {
    if item.Words? then Some(item.text) else None
  }

  /** The last valid context length in the dictionary, but the architecture's own ends the search. */
  function PickContext(d: Dictionary, architecture: Option<string>, sofar: Option<int>): Option<int> {
    if d == [] then sofar
    else if !(EndsWith(d[0].0, CONTEXT) && ValidContext(d[0].1)) then PickContext(d[1..], architecture, sofar)
    else if d[0].0 == OwnKey(architecture) then Some(d[0].1.n)
    else PickContext(d[1..], architecture, Some(d[0].1.n))
  }

  function OwnKey(architecture: Option<string>): string {
    (if architecture.Some? then architecture.value else "None") + CONTEXT
  }

  // ----- inspecting a file -------------------------------------------------------------------

  datatype Inspection = Inspection(
    headerValid: bool, partial: bool, architecture: Option<string>, name: Option<string>, context: Option<int>, bytesRead: nat)

  function ReadEntry(data: seq<Byte>, c: Cursor, p: Progress): (r: Step<Progress>)
    requires InBounds(data, c)
    ensures InBounds(data, r.at)
  {
    var key := ReadText(data, c, true);
    if key.Stopped? then Stopped(key.at)
    else
      var kind := Read(data, key.at, 4);
      if kind.Stopped? || !key.value.Words? then Stopped(kind.at)
      else
        var value := ReadValue(data, kind.at, Number4(data, key.at.pos), Kept(key.value.text));
        if value.Stopped? then Stopped(value.at) else Done(value.at, Note(p, key.value.text, value.value))
  }

  /** Reads one entry and notes it. */
  function EntryStep(data: seq<Byte>): (Cursor, Progress) -> Step<Progress> {
    (c, p) => if InBounds(data, c) then ReadEntry(data, c, p) else Stopped(c)
  }

  /** Up to n steps; what was found is kept where one stops. */
  function Iterate(step: (Cursor, Progress) -> Step<Progress>, c: Cursor, n: nat, p: Progress): (Cursor, Progress, bool)
    decreases n
  {
    if n == 0 then (c, p, true)
    else
      match step(c, p)
      case Stopped(at) => (at, p, false)
      case Done(at, next) => Iterate(step, at, n - 1, next)
  }

  const MAGIC: seq<Byte> := [71, 71, 85, 70]

  predicate GoodHeader(data: seq<Byte>) {
    |data| >= 24 && data[..4] == MAGIC && Number4(data, 4) in {2, 3}
    && Number8(data, 8) <= 10_000_000 && Number8(data, 16) <= 1_000_000
  }

  function Count(data: seq<Byte>): nat
    requires GoodHeader(data)
  {
    if Number8(data, 16) < MAX_ENTRIES then Number8(data, 16) else MAX_ENTRIES
  }

  function Report(data: seq<Byte>, at: Cursor, p: Progress, complete: bool): Inspection
    requires GoodHeader(data)
  {
    if !complete then Inspection(true, true, p.architecture, p.name, p.context, at.consumed)
    else
      var architecture := TextOf(Get(p.metadata, ARCHITECTURE));
      Inspection(true, Number8(data, 16) > MAX_ENTRIES, architecture, TextOf(Get(p.metadata, NAME)),
                 PickContext(p.metadata, architecture, p.context), at.consumed)
  }

  method ParseEntry(data: seq<Byte>, c: Cursor, p: Progress) returns (r: Step<Progress>)
    requires InBounds(data, c)
    ensures r == ReadEntry(data, c, p)
  {
    var key := ReadText(data, c, true);
    if key.Stopped? {
      return Stopped(key.at);
    }
    var kind := Read(data, key.at, 4);
    if kind.Stopped? || !key.value.Words? {
      return Stopped(kind.at);
    }
    var value := ParseValue(data, kind.at, Number4(data, key.at.pos), Kept(key.value.text));
    if value.Stopped? {
      return Stopped(value.at);
    }
    return Done(value.at, Note(p, key.value.text, value.value));
  }

  method ParseEntries(data: seq<Byte>, c: Cursor, n: nat, start: Progress) returns (at: Cursor, p: Progress, complete: bool)
    requires InBounds(data, c)
    ensures InBounds(data, at) && (at, p, complete) == Iterate(EntryStep(data), c, n, start)
  {
    at, p := c, start;
    for i := 0 to n
      invariant InBounds(data, at)
      invariant Iterate(EntryStep(data), at, n - i, p) == Iterate(EntryStep(data), c, n, start)
    {
      var entry := ParseEntry(data, at, p);
      assert entry == EntryStep(data)(at, p);
      if entry.Stopped? {
        return entry.at, p, false;
      }
      at, p := entry.at, entry.value;
    }
    return at, p, true;
  }

  /** Never reads more than 1 MiB and never moves past the end of the file or past 16 MiB; a broken file is reported with
      what was found before the break. */
  method InspectGguf(data: seq<Byte>) returns (r: Inspection)
    ensures r.headerValid <==> |data| >= 24 && data[..4] == [71, 71, 85, 70] && Number4(data, 4) in {2, 3}
                               && Number8(data, 8) <= 10_000_000 && Number8(data, 16) <= 1_000_000
    ensures r.bytesRead <= 1_048_576
    ensures !r.headerValid ==> r.architecture == None && r.name == None && r.context == None && !r.partial
    ensures GoodHeader(data) ==>
              var (at, p, complete) := Iterate(EntryStep(data), Cursor(24, 24), Count(data), NOTHING);
              r == Report(data, at, p, complete) && InBounds(data, at)
  {
    var header := Read(data, Cursor(0, 0), 24);
    if !GoodHeader(data) {
      return Inspection(false, false, None, None, None, header.at.consumed);
    }
    assert header.at == Cursor(24, 24);
    var at, p, complete := ParseEntries(data, header.at, Count(data), NOTHING);
    return Report(data, at, p, complete);
  }
}
