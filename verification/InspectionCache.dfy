/** The inspection cache: a map in last-use order, bounded in entries and in bytes. */
module InspectionCache {
  import opened Wrappers

  const MAX_ENTRIES := 4096
  const MAX_BYTES := 4 * 1024 * 1024

  /** What a file's status says about it: device, inode, size and times. */
  datatype Identity = Identity(device: int, inode: int, size: int, modified: int, changed: int)

  /** An inspection result, reduced to its text. */
  datatype Record = Record(text: string)

  datatype Entry = Entry(key: string, identity: Identity, record: Record, size: nat)

  function Sum(entries: seq<Entry>): nat {
    if entries == [] then 0 else entries[0].size + Sum(entries[1..])
  }

  predicate Absent(entries: seq<Entry>, key: string) {
    entries == [] || (entries[0].key != key && Absent(entries[1..], key))
  }

  predicate Distinct(entries: seq<Entry>) {
    entries == [] || (Absent(entries[1..], entries[0].key) && Distinct(entries[1..]))
  }

  function Find(entries: seq<Entry>, key: string): Option<Entry> {
    if entries == [] then None else if entries[0].key == key then Some(entries[0]) else Find(entries[1..], key)
  }

  function Without(entries: seq<Entry>, key: string): seq<Entry> {
    if entries == [] then []
    else if entries[0].key == key then entries[1..] else [entries[0]] + Without(entries[1..], key)
  }

  predicate Fits(entries: seq<Entry>) {
    |entries| <= MAX_ENTRIES && Sum(entries) <= MAX_BYTES
  }

  /** Oldest entries dropped until both caps hold. */
  function Evict(entries: seq<Entry>): seq<Entry> {
    if entries == [] || Fits(entries) then entries else Evict(entries[1..])
  }

  /** How a file is inspected, as a model or as a runtime, and how large a record is stored. */
  datatype Inspection = Inspection(inspect: (string, bool, Identity) -> Option<Record>, measure: Record -> nat)

  /** Every entry has its record's size and, where `kind` says as what each path is inspected, the record a fresh
      inspection would give. */
  predicate Sized(x: Inspection, entries: seq<Entry>) {
    entries == [] || (entries[0].size == x.measure(entries[0].record) && Sized(x, entries[1..]))
  }

  predicate Faithful(x: Inspection, kind: string -> bool, entries: seq<Entry>) {
    entries == []
    || (x.inspect(entries[0].key, kind(entries[0].key), entries[0].identity) == Some(entries[0].record)
        && Faithful(x, kind, entries[1..]))
  }

  // ----- removing, adding and evicting entries -----------------------------------------------

  lemma {:induction false} WithoutAbsent(entries: seq<Entry>, key: string, other: string)
    requires Absent(entries, other)
    ensures Absent(Without(entries, key), other)
  {
    if entries != [] && entries[0].key != key {
      WithoutAbsent(entries[1..], key, other);
    }
  }

  lemma {:induction false} WithoutKeeps(x: Inspection, kind: string -> bool, entries: seq<Entry>, key: string)
    requires Distinct(entries) && Sized(x, entries)
    ensures var w := Without(entries, key);
            && Distinct(w) && Absent(w, key) && Sized(x, w) && (Faithful(x, kind, entries) ==> Faithful(x, kind, w))
            && Sum(w) == Sum(entries) - (if Find(entries, key).Some? then Find(entries, key).value.size else 0)
            && |w| == |entries| - (if Find(entries, key).Some? then 1 else 0)
  {
    if entries != [] && entries[0].key != key {
      WithoutKeeps(x, kind, entries[1..], key);
      WithoutAbsent(entries[1..], key, entries[0].key);
    }
  }

  lemma {:induction false} FoundEntry(x: Inspection, kind: string -> bool, entries: seq<Entry>, key: string)
    requires Sized(x, entries) && Find(entries, key).Some?
    ensures var e := Find(entries, key).value;
            && e.key == key && e.size == x.measure(e.record) && e in entries
            && (Faithful(x, kind, entries) ==> x.inspect(key, kind(key), e.identity) == Some(e.record))
  {
    if entries[0].key != key {
      FoundEntry(x, kind, entries[1..], key);
    }
  }

  lemma {:induction false} AppendAbsent(entries: seq<Entry>, e: Entry, key: string)
    requires Absent(entries, key) && e.key != key
    ensures Absent(entries + [e], key)
  {
    if entries == [] {
      assert [e][1..] == [];
    } else {
      assert (entries + [e])[1..] == entries[1..] + [e];
      AppendAbsent(entries[1..], e, key);
    }
  }

  lemma {:induction false} AppendKeeps(x: Inspection, kind: string -> bool, entries: seq<Entry>, e: Entry)
    requires Distinct(entries) && Absent(entries, e.key) && Sized(x, entries) && e.size == x.measure(e.record)
    ensures var all := entries + [e];
            && Distinct(all) && Sized(x, all) && Sum(all) == Sum(entries) + e.size
            && (Faithful(x, kind, entries) && x.inspect(e.key, kind(e.key), e.identity) == Some(e.record) ==>
                  Faithful(x, kind, all))
  {
    if entries == [] {
      assert [e][1..] == [];
    } else {
      assert (entries + [e])[1..] == entries[1..] + [e];
      AppendKeeps(x, kind, entries[1..], e);
      AppendAbsent(entries[1..], e, entries[0].key);
    }
  }

  function Newest(entries: seq<Entry>, n: nat): seq<Entry>
    requires n <= |entries|
  {
    entries[|entries| - n..]
  }

  lemma OneEntry(entries: seq<Entry>)
    requires entries != []
    ensures |entries| == 1 ==> Sum(entries) == entries[0].size
  {
    assert Sum(entries) == entries[0].size + Sum(entries[1..]);
  }

  /** Eviction keeps the most recently used entries, as many as both caps allow: what is kept is the longest suffix
      that fits, and the newest entry is always kept. */
  lemma {:induction false} EvictKeepsNewest(entries: seq<Entry>)
    requires entries != [] && entries[|entries| - 1].size <= MAX_BYTES
    ensures 1 <= |Evict(entries)| <= |entries| && Fits(Evict(entries))
    ensures Evict(entries) == Newest(entries, |Evict(entries)|)
    ensures forall n: nat :: |Evict(entries)| < n <= |entries| ==> !Fits(Newest(entries, n))
    decreases |entries|
  {
    assert Newest(entries, |entries|) == entries;
    OneEntry(entries);
    if !Fits(entries) {
      EvictKeepsNewest(entries[1..]);
      forall n: nat | n < |entries| ensures Newest(entries, n) == Newest(entries[1..], n) {
      }
    }
  }

  lemma {:induction false} EvictKeeps(x: Inspection, kind: string -> bool, entries: seq<Entry>)
    requires Distinct(entries) && Sized(x, entries)
    ensures Distinct(Evict(entries)) && Sized(x, Evict(entries))
    ensures Faithful(x, kind, entries) ==> Faithful(x, kind, Evict(entries))
  {
    if entries != [] && !Fits(entries) {
      EvictKeeps(x, kind, entries[1..]);
    }
  }

  // ----- the cache ---------------------------------------------------------------------------

  datatype Outcome = Returned(record: Record) | Failed

  /** What a call returns and what it leaves: the stored record if the file has not changed since, moved to the end;
      otherwise a fresh inspection, stored at the end unless it failed, the file changed meanwhile or it is too large. */
  function Call(x: Inspection, entries: seq<Entry>, key: string, model: bool, identity: Identity, later: Identity)
    : (Outcome, seq<Entry>)
  {
    var found, rest := Find(entries, key), Without(entries, key);
    if found.Some? && found.value.identity == identity then (Returned(found.value.record), rest + [found.value])
    else
      match x.inspect(key, model, identity)
      case None => (Failed, rest)
      case Some(record) =>
        if later != identity then (Failed, rest)
        else if x.measure(record) > MAX_BYTES then (Returned(record), rest)
        else (Returned(record), Evict(rest + [Entry(key, identity, record, x.measure(record))]))
  }

  // ----- order of use ------------------------------------------------------------------------

  /** One call: `later` is the file's identity after the inspection. */
  datatype Request = Request(key: string, model: bool, identity: Identity, later: Identity)

  function KeysOf(calls: seq<Request>): seq<string> {
    seq(|calls|, i requires 0 <= i < |calls| => calls[i].key)
  }

  /** The cache after a sequence of calls on an empty one. */
  function CacheAfter(x: Inspection, calls: seq<Request>): seq<Entry> {
    if calls == [] then []
    else
      var last := calls[|calls| - 1];
      Call(x, CacheAfter(x, calls[..|calls| - 1]), last.key, last.model, last.identity, last.later).1
  }

  /** Number of the last call with a key, counted from one; zero if there was none. */
  function LastUse(used: seq<string>, key: string): (n: nat)
    ensures n <= |used|
    ensures n > 0 ==> used[n - 1] == key
    ensures forall i :: n <= i < |used| ==> used[i] != key
  {
    if used == [] then 0
    else if used[|used| - 1] == key then |used|
    else LastUse(used[..|used| - 1], key)
  }

  /** Every cached key was asked for, and the entries stand in the order in which their keys were last asked for. */
  ghost predicate ByLastUse(entries: seq<Entry>, used: seq<string>) {
    && (forall i :: 0 <= i < |entries| ==> LastUse(used, entries[i].key) > 0)
    && (forall i, j :: 0 <= i < j < |entries| ==> LastUse(used, entries[i].key) < LastUse(used, entries[j].key))
  }

  predicate Rising(entries: seq<Entry>, used: seq<string>, bound: nat) {
    entries == []
    || (LastUse(used, entries[0].key) > bound && Rising(entries[1..], used, LastUse(used, entries[0].key)))
  }

  lemma {:induction false} RisingIsByLastUse(entries: seq<Entry>, used: seq<string>, bound: nat)
    requires Rising(entries, used, bound)
    ensures forall i :: 0 <= i < |entries| ==> LastUse(used, entries[i].key) > bound
    ensures ByLastUse(entries, used)
  {
    if entries != [] {
      RisingIsByLastUse(entries[1..], used, LastUse(used, entries[0].key));
      assert forall i :: 0 < i < |entries| ==> entries[i] == entries[1..][i - 1];
    }
  }

  lemma RisingFromBelow(entries: seq<Entry>, used: seq<string>, low: nat, high: nat)
    requires Rising(entries, used, high) && low <= high
    ensures Rising(entries, used, low)
  {
  }

  lemma {:induction false} WithoutRises(entries: seq<Entry>, used: seq<string>, key: string, bound: nat)
    requires Rising(entries, used, bound)
    ensures Rising(Without(entries, key), used, bound)
  {
    if entries != [] {
      var first := LastUse(used, entries[0].key);
      if entries[0].key == key {
        RisingFromBelow(entries[1..], used, bound, first);
      } else {
        WithoutRises(entries[1..], used, key, first);
      }
    }
  }

  /** A call with another key changes nobody's order. */
  lemma {:induction false} UsedRises(entries: seq<Entry>, used: seq<string>, key: string, bound: nat)
    requires Rising(entries, used, bound) && Absent(entries, key)
    ensures Rising(entries, used + [key], bound)
    decreases |entries|
  {
    assert (used + [key])[..|used|] == used;
    if entries != [] {
      UsedRises(entries[1..], used, key, LastUse(used, entries[0].key));
    }
  }

  /** The key of a call comes last. */
  lemma {:induction false} AppendRises(entries: seq<Entry>, used: seq<string>, e: Entry, bound: nat)
    requires Rising(entries, used, bound) && Absent(entries, e.key) && bound <= |used|
    ensures Rising(entries + [e], used + [e.key], bound)
    decreases |entries|
  {
    assert (used + [e.key])[..|used|] == used;
    if entries == [] {
      assert entries + [e] == [e] && [e][1..] == [];
    } else {
      assert (entries + [e])[1..] == entries[1..] + [e];
      AppendRises(entries[1..], used, e, LastUse(used, entries[0].key));
    }
  }

  lemma {:induction false} EvictRises(entries: seq<Entry>, used: seq<string>)
    requires Rising(entries, used, 0)
    ensures Rising(Evict(entries), used, 0)
  {
    if entries != [] && !Fits(entries) {
      RisingFromBelow(entries[1..], used, 0, LastUse(used, entries[0].key));
      EvictRises(entries[1..], used);
    }
  }

  lemma CallRises(x: Inspection, entries: seq<Entry>, used: seq<string>, c: Request)
    requires Distinct(entries) && Sized(x, entries) && Rising(entries, used, 0)
    ensures Rising(Call(x, entries, c.key, c.model, c.identity, c.later).1, used + [c.key], 0)
  {
    hide Rising, Evict, Sized, Distinct;
    var cached, rest := Find(entries, c.key), Without(entries, c.key);
    WithoutKeeps(x, _ => c.model, entries, c.key);
    WithoutRises(entries, used, c.key, 0);
    UsedRises(rest, used, c.key, 0);
    if cached.Some? && cached.value.identity == c.identity {
      FoundEntry(x, _ => c.model, entries, c.key);
      AppendRises(rest, used, cached.value, 0);
    } else if x.inspect(c.key, c.model, c.identity).Some? {
      var record := x.inspect(c.key, c.model, c.identity).value;
      var entry := Entry(c.key, c.identity, record, x.measure(record));
      AppendRises(rest, used, entry, 0);
      EvictRises(rest + [entry], used + [c.key]);
    }
  }

  lemma CallKeeps(x: Inspection, entries: seq<Entry>, c: Request)
    requires Distinct(entries) && Sized(x, entries)
    ensures var after := Call(x, entries, c.key, c.model, c.identity, c.later).1; Distinct(after) && Sized(x, after)
  {
    var kind: string -> bool, rest := _ => c.model, Without(entries, c.key);
    WithoutKeeps(x, kind, entries, c.key);
    if Find(entries, c.key).Some? && Find(entries, c.key).value.identity == c.identity {
      FoundEntry(x, kind, entries, c.key);
      AppendKeeps(x, kind, rest, Find(entries, c.key).value);
    } else if x.inspect(c.key, c.model, c.identity).Some? {
      var record := x.inspect(c.key, c.model, c.identity).value;
      AppendKeeps(x, kind, rest, Entry(c.key, c.identity, record, x.measure(record)));
      EvictKeeps(x, kind, rest + [Entry(c.key, c.identity, record, x.measure(record))]);
    }
  }

  lemma {:induction false} RunRises(x: Inspection, calls: seq<Request>)
    ensures Distinct(CacheAfter(x, calls)) && Sized(x, CacheAfter(x, calls))
    ensures Rising(CacheAfter(x, calls), KeysOf(calls), 0)
  {
    if calls != [] {
      var before, last := calls[..|calls| - 1], calls[|calls| - 1];
      RunRises(x, before);
      CallKeeps(x, CacheAfter(x, before), last);
      CallRises(x, CacheAfter(x, before), KeysOf(before), last);
      assert KeysOf(calls) == KeysOf(before) + [last.key];
    }
  }

  /** After any sequence of calls the cache is in order of last use. */
  lemma CacheIsByLastUse(x: Inspection, calls: seq<Request>)
    ensures ByLastUse(CacheAfter(x, calls), KeysOf(calls))
  {
    RunRises(x, calls);
    RisingIsByLastUse(CacheAfter(x, calls), KeysOf(calls), 0);
  }

  /** The last call inspected its file anew and stores the record. */
  predicate Stores(x: Inspection, before: seq<Request>, c: Request) {
    var cached, record := Find(CacheAfter(x, before), c.key), x.inspect(c.key, c.model, c.identity);
    && (cached.Some? ==> cached.value.identity != c.identity) && c.later == c.identity
    && record.Some? && x.measure(record.value) <= MAX_BYTES
  }

  /** What a call that stores its record could keep: everything cached before, and the new entry. */
  function Candidates(x: Inspection, before: seq<Request>, c: Request): seq<Entry>
    requires Stores(x, before, c)
  {
    var record := x.inspect(c.key, c.model, c.identity).value;
    Without(CacheAfter(x, before), c.key) + [Entry(c.key, c.identity, record, x.measure(record))]
  }

  lemma CandidatesByLastUse(x: Inspection, before: seq<Request>, c: Request)
    requires Stores(x, before, c)
    ensures ByLastUse(Candidates(x, before, c), KeysOf(before) + [c.key])
  {
    hide Rising, ByLastUse, Sized, Distinct, CacheAfter;
    var all := Candidates(x, before, c);
    RunRises(x, before);
    WithoutKeeps(x, _ => c.model, CacheAfter(x, before), c.key);
    WithoutRises(CacheAfter(x, before), KeysOf(before), c.key, 0);
    AppendRises(Without(CacheAfter(x, before), c.key), KeysOf(before), all[|all| - 1], 0);
    RisingIsByLastUse(all, KeysOf(before) + [c.key], 0);
  }

  /** After any sequence of calls that ends with a store: of all candidates, in order of last use, the cache holds the most
      recently used ones, as many as both caps allow, and the one just stored is among them. */
  lemma StoreKeepsMostRecentlyUsed(x: Inspection, before: seq<Request>, c: Request)
    requires Stores(x, before, c)
    ensures var all, kept := Candidates(x, before, c), CacheAfter(x, before + [c]);
            && ByLastUse(all, KeysOf(before + [c]))
            && 1 <= |kept| <= |all| && kept == Newest(all, |kept|) && Fits(kept)
            && forall n: nat :: |kept| < n <= |all| ==> !Fits(Newest(all, n))
  {
    hide ByLastUse, Evict, Without;
    assert (before + [c])[..|before|] == before;
    assert KeysOf(before + [c]) == KeysOf(before) + [c.key];
    CandidatesByLastUse(x, before, c);
    EvictKeepsNewest(Candidates(x, before, c));
  }

  class DiscoveryManager {
    var cache: seq<Entry>
    var cacheBytes: int
    ghost var calls: seq<Request>         // every call so far
    const x: Inspection

    constructor (x: Inspection)
      ensures Valid() && cache == [] && this.x == x
    {
      this.x, cache, cacheBytes, calls := x, [], 0, [];
    }

    /** Keys are distinct, the tracked bytes are the sum of the stored sizes, and both caps hold. */
    ghost predicate Valid()
      reads this
    {
      Distinct(cache) && cacheBytes == Sum(cache) && Fits(cache) && Sized(x, cache) && cache == CacheAfter(x, calls)
    }

    method InspectCached(key: string, model: bool, identity: Identity, later: Identity) returns (r: Outcome)
      requires Valid()
      modifies this
      ensures Valid() && calls == old(calls) + [Request(key, model, identity, later)]
      ensures (r, cache) == Call(x, old(cache), key, model, identity, later)
      ensures ByLastUse(cache, KeysOf(calls))
    {
      hide ByLastUse, Without, Find;
      calls := calls + [Request(key, model, identity, later)];
      assert calls[..|calls| - 1] == old(calls);
      CacheIsByLastUse(x, calls);
      ghost var kind: string -> bool := k => model;
      var cached := Find(cache, key);
      WithoutKeeps(x, kind, cache, key);
      cache := Without(cache, key);
      if cached.Some? {
        FoundEntry(x, kind, old(cache), key);
        cacheBytes := cacheBytes - cached.value.size;
        if cached.value.identity == identity {
          AppendKeeps(x, kind, cache, cached.value);
          cache := cache + [cached.value];
          cacheBytes := cacheBytes + cached.value.size;
          return Returned(cached.value.record);
        }
      }
      var record := x.inspect(key, model, identity);
      if record == None || later != identity {
        return Failed;
      }
      var size := x.measure(record.value);
      if size <= MAX_BYTES {
        var entry := Entry(key, identity, record.value, size);
        AppendKeeps(x, kind, cache, entry);
        cache := cache + [entry];
        cacheBytes := cacheBytes + size;
        EvictOldest();
      }
      return Returned(record.value);
    }

    method EvictOldest()
      requires Distinct(cache) && Sized(x, cache) && cacheBytes == Sum(cache)
      modifies this`cache, this`cacheBytes
      ensures cache == Evict(old(cache)) && Distinct(cache) && cacheBytes == Sum(cache) && Fits(cache) && Sized(x, cache)
    {
      while |cache| > MAX_ENTRIES || cacheBytes > MAX_BYTES
        invariant Evict(cache) == Evict(old(cache))
        invariant Distinct(cache) && Sized(x, cache) && cacheBytes == Sum(cache)
        decreases |cache|
      {
        var removed := cache[0];
        cache := cache[1..];
        cacheBytes := cacheBytes - removed.size;
      }
    }
  }

  /** After a call that stores a record, that record is the newest entry; the others are the most recently used ones that
      fit beside it, in order. */
  lemma StoredRecordSurvives(x: Inspection, entries: seq<Entry>, key: string, model: bool, identity: Identity)
    requires x.inspect(key, model, identity).Some? && x.measure(x.inspect(key, model, identity).value) <= MAX_BYTES
    requires Find(entries, key).Some? ==> Find(entries, key).value.identity != identity
    ensures var (r, after) := Call(x, entries, key, model, identity, identity);
            var all := Without(entries, key) + [Entry(key, identity, r.record, x.measure(r.record))];
            && r.Returned? && after != [] && after[|after| - 1] == all[|all| - 1]
            && |after| <= |all| && after == Newest(all, |after|) && Fits(after)
            && forall n: nat :: |after| < n <= |all| ==> !Fits(Newest(all, n))
  {
    var (r, after) := Call(x, entries, key, model, identity, identity);
    EvictKeepsNewest(Without(entries, key) + [Entry(key, identity, r.record, x.measure(r.record))]);
  }

  // ----- cached records against fresh inspections --------------------------------------------

  /** While every path is inspected as one kind, a call returns exactly what a fresh inspection would, and the cache goes
      on holding only such records. */
  lemma CallIsFresh(x: Inspection, kind: string -> bool, entries: seq<Entry>, key: string, identity: Identity)
    requires Distinct(entries) && Sized(x, entries) && Faithful(x, kind, entries)
    ensures var (r, after) := Call(x, entries, key, kind(key), identity, identity);
            && (r == match x.inspect(key, kind(key), identity) case Some(record) => Returned(record) case None => Failed)
            && Faithful(x, kind, after)
  {
    WithoutKeeps(x, kind, entries, key);
    var rest := Without(entries, key);
    if Find(entries, key).Some? && Find(entries, key).value.identity == identity {
      FoundEntry(x, kind, entries, key);
      AppendKeeps(x, kind, rest, Find(entries, key).value);
    } else if x.inspect(key, kind(key), identity).Some? {
      var record := x.inspect(key, kind(key), identity).value;
      var entry := Entry(key, identity, record, x.measure(record));
      AppendKeeps(x, kind, rest, entry);
      EvictKeeps(x, kind, rest + [entry]);
    }
  }

  /** The key does not say as what a file was inspected. Asked for the other kind of an unchanged file that was stored as
      `kind` says, a call returns the fresh inspection exactly when both kinds of inspection agree on it. */
  lemma OtherKindIsFreshIff(x: Inspection, kind: string -> bool, entries: seq<Entry>, key: string, identity: Identity)
    requires Sized(x, entries) && Faithful(x, kind, entries)
    requires Find(entries, key).Some? && Find(entries, key).value.identity == identity
    ensures var (r, _) := Call(x, entries, key, !kind(key), identity, identity);
            r.Returned? && (Some(r.record) == x.inspect(key, !kind(key), identity)
                            <==> x.inspect(key, true, identity) == x.inspect(key, false, identity))
  {
    FoundEntry(x, kind, entries, key);
  }

  /** A file inspected first as a model and then, unchanged, as a runtime: the second call returns the model's record. */
  lemma RuntimeIsReadAsModel(id: Identity)
    ensures var x := Inspection((_: string, model: bool, _: Identity) => Some(Record(if model then "model" else "runtime")),
                                (_: Record) => 1);
            var cache := CacheAfter(x, [Request("file", true, id, id)]);
            && Call(x, cache, "file", false, id, id).0 == Returned(Record("model"))
            && x.inspect("file", false, id) == Some(Record("runtime"))
  {
    var x := Inspection((_: string, model: bool, _: Identity) => Some(Record(if model then "model" else "runtime")),
                        (_: Record) => 1);
    var calls, stored := [Request("file", true, id, id)], [Entry("file", id, Record("model"), 1)];
    assert calls[..0] == [] && stored[1..] == [];
    assert CacheAfter(x, []) == [] && [] + stored == stored;
    assert Sum(stored) == 1 && Evict(stored) == stored;
    assert CacheAfter(x, calls) == stored;
    assert "model"[0] != "runtime"[0];
  }
}
