/** Hash-chained journals, and the request budget kept with one of them. */
module EvidenceChain {
  // The records of the evidence ledger carry an index, the events of the engagement journal do not. The request budget
  // of an engagement is kept in the same file as its journal.

  import opened Wrappers

  const MAX_RECORDS := 10_000
  const MAX_LEDGER_BYTES := 8_000_000

  type Data = map<string, string>

  datatype Record = Record(version: int, index: int, createdAt: string, kind: string, data: Data, previousHash: string,
                           hash: string)

  /** A record without its hash, which is what the hash is taken over. */
  datatype Unsigned = Unsigned(version: int, index: int, createdAt: string, kind: string, data: Data, previousHash: string)

  function UnsignedOf(r: Record): Unsigned {
    Unsigned(r.version, r.index, r.createdAt, r.kind, r.data, r.previousHash)
  }

  /** How records are measured: `digest` is the hash of the canonical form, `bounded` the structural limits on one
      record, `size` the length of its canonical form. `zero` is the head of an empty journal, sixty-four zeros. */
  datatype Measures = Measures(digest: Unsigned -> string, bounded: Record -> bool, size: Record -> nat, zero: string)

  predicate HashFormat(s: string) {
    |s| == 64 && forall i :: 0 <= i < 64 ==> '0' <= s[i] <= '9' || 'a' <= s[i] <= 'f'
  }

  predicate KindFormat(s: string) {
    1 <= |s| <= 64 && 'a' <= s[0] <= 'z'
    && forall i :: 0 <= i < |s| ==> 'a' <= s[i] <= 'z' || '0' <= s[i] <= '9' || s[i] == '_'
  }

  /** Digests are lower-case hexadecimal, as those of SHA-256 are. */
  ghost predicate Formatted(m: Measures) {
    forall u :: HashFormat(m.digest(u))
  }

  /** Two of the records at hand are different and have the same digest, or one of them has the digest zero. */
  ghost predicate Collides(m: Measures, a: seq<Record>, b: seq<Record>) {
    || (exists x, y :: x in a && y in b && UnsignedOf(x) != UnsignedOf(y) && m.digest(UnsignedOf(x)) == m.digest(UnsignedOf(y)))
    || (exists x :: (x in a || x in b) && m.digest(UnsignedOf(x)) == m.zero)
  }

  predicate Links(m: Measures, r: Record, index: nat, previous: string) {
    && r.version == 1 && r.index == index && r.previousHash == previous
    && HashFormat(r.hash) && KindFormat(r.kind) && m.bounded(r)
    && m.digest(UnsignedOf(r)) == r.hash
  }

  function Head(m: Measures, rows: seq<Record>): string {
    if rows == [] then m.zero else rows[|rows| - 1].hash
  }

  predicate Chained(m: Measures, rows: seq<Record>) {
    rows == []
    || (Chained(m, rows[..|rows| - 1]) && Links(m, rows[|rows| - 1], |rows|, Head(m, rows[..|rows| - 1])))
  }

  function TotalSize(m: Measures, rows: seq<Record>): nat {
    if rows == [] then 0 else TotalSize(m, rows[..|rows| - 1]) + m.size(rows[|rows| - 1]) + 1
  }

  predicate Loadable(m: Measures, rows: seq<Record>) {
    TotalSize(m, rows) <= MAX_LEDGER_BYTES && |rows| <= MAX_RECORDS && Chained(m, rows)
  }

  // ----- what a journal is -------------------------------------------------------------------

  /** A hash is written with 64 of these characters, a kind with at most 64 of those, a letter first. */
  lemma FormatsAre(s: string)
    ensures HashFormat(s) <==> |s| == 64 && forall c :: c in s ==> c in "0123456789abcdef"
    ensures KindFormat(s) <==>
              1 <= |s| <= 64 && s[0] in "abcdefghijklmnopqrstuvwxyz"
              && forall c :: c in s ==> c in "abcdefghijklmnopqrstuvwxyz" || c in "0123456789_"
  {
    forall c: char ensures c in "0123456789abcdef" <==> '0' <= c <= '9' || 'a' <= c <= 'f' {
      HexIs(c);
    }
    forall c: char ensures c in "abcdefghijklmnopqrstuvwxyz" <==> 'a' <= c <= 'z'
      ensures c in "0123456789_" <==> '0' <= c <= '9' || c == '_' {
      LetterIs(c);
      DigitIs(c);
    }
    assert forall i :: 0 <= i < |s| ==> s[i] in s;
  }

  lemma HexIs(c: char)
    ensures c in "0123456789abcdef" <==> '0' <= c <= '9' || 'a' <= c <= 'f'
  {
    var all := "0123456789abcdef";
    if '0' <= c <= '9' {
      assert all[c as int - '0' as int] == c;
    } else if 'a' <= c <= 'f' {
      assert all[c as int - 'a' as int + 10] == c;
    }
  }

  lemma LetterIs(c: char)
    ensures c in "abcdefghijklmnopqrstuvwxyz" <==> 'a' <= c <= 'z'
  {
    var letters := "abcdefghijklmnopqrstuvwxyz";
    if 'a' <= c <= 'z' {
      assert letters[c as int - 'a' as int] == c;
    }
  }

  lemma DigitIs(c: char)
    ensures c in "0123456789_" <==> '0' <= c <= '9' || c == '_'
  {
    var digits := "0123456789_";
    if '0' <= c <= '9' {
      assert digits[c as int - '0' as int] == c;
    } else if c == '_' {
      assert digits[10] == c;
    }
  }

  /** Row by row: the version, the position, the hash of the row before, and its own. */
  ghost predicate RowIsGood(m: Measures, rows: seq<Record>, i: nat)
    requires i < |rows|
  {
    var r := rows[i];
    && r.version == 1 && r.index == i + 1 && r.previousHash == (if i == 0 then m.zero else rows[i - 1].hash)
    && r.hash == m.digest(Unsigned(1, i + 1, r.createdAt, r.kind, r.data, r.previousHash))
    && HashFormat(r.hash) && KindFormat(r.kind) && m.bounded(r)
  }

  lemma {:induction false} ChainedIff(m: Measures, rows: seq<Record>)
    ensures Chained(m, rows) <==> forall i: nat :: i < |rows| ==> RowIsGood(m, rows, i)
  {
    if rows != [] {
      var front := rows[..|rows| - 1];
      ChainedIff(m, front);
      assert forall i: nat :: i < |front| ==> (RowIsGood(m, rows, i) <==> RowIsGood(m, front, i));
      assert RowIsGood(m, rows, |rows| - 1) <==> Links(m, rows[|rows| - 1], |rows|, Head(m, front));
    }
  }

  /** The file: one line for each record. */
  function FileOf(canonical: Record -> string, rows: seq<Record>): string {
    if rows == [] then "" else FileOf(canonical, rows[..|rows| - 1]) + canonical(rows[|rows| - 1]) + "\n"
  }

  lemma {:induction false} TotalSizeIsTheFile(m: Measures, canonical: Record -> string, rows: seq<Record>)
    requires forall r :: m.size(r) == |canonical(r)|
    ensures TotalSize(m, rows) == |FileOf(canonical, rows)|
  {
    if rows != [] {
      TotalSizeIsTheFile(m, canonical, rows[..|rows| - 1]);
    }
  }

  // ----- a head fixes the history ------------------------------------------------------------

  lemma LastLinks(m: Measures, rows: seq<Record>)
    requires rows != [] && Chained(m, rows)
    ensures var last := rows[|rows| - 1];
            && m.digest(UnsignedOf(last)) == Head(m, rows) == last.hash && last.previousHash == Head(m, rows[..|rows| - 1])
            && last.index == |rows| && Chained(m, rows[..|rows| - 1])
  {
  }

  lemma LargerCollides(m: Measures, a: seq<Record>, b: seq<Record>, k: nat, l: nat)
    requires k <= |a| && l <= |b| && Collides(m, a[..k], b[..l])
    ensures Collides(m, a, b)
  {
    if x, y :| x in a[..k] && y in b[..l] && UnsignedOf(x) != UnsignedOf(y)
               && m.digest(UnsignedOf(x)) == m.digest(UnsignedOf(y)) {
      assert x in a && y in b;
    } else {
      var x :| (x in a[..k] || x in b[..l]) && m.digest(UnsignedOf(x)) == m.zero;
      assert x in a || x in b;
    }
  }

  /** Two journals that load and share a head are the same journal, record for record, or two of their records show a
      collision of the digest. */
  lemma {:induction false} HeadFixesHistory(m: Measures, a: seq<Record>, b: seq<Record>)
    requires Chained(m, a) && Chained(m, b) && Head(m, a) == Head(m, b)
    ensures a == b || Collides(m, a, b)
    decreases |a|
  {
    if a != [] { LastLinks(m, a); }
    if b != [] { LastLinks(m, b); }
    if a == [] || b == [] {
      assert a != [] ==> a[|a| - 1] in a;
      assert b != [] ==> b[|b| - 1] in b;
    } else {
      var x, y := a[|a| - 1], b[|b| - 1];
      assert x in a && y in b;
      if UnsignedOf(x) == UnsignedOf(y) {
        HeadFixesHistory(m, a[..|a| - 1], b[..|b| - 1]);
        if a[..|a| - 1] == b[..|b| - 1] {
          assert a == a[..|a| - 1] + [x] && b == b[..|b| - 1] + [y];
        } else {
          LargerCollides(m, a, b, |a| - 1, |b| - 1);
        }
      }
    }
  }

  lemma {:induction false} PrefixChained(m: Measures, rows: seq<Record>, n: nat)
    requires Chained(m, rows) && n <= |rows|
    ensures Chained(m, rows[..n])
    decreases |rows|
  {
    if n == |rows| {
      assert rows[..n] == rows;
    } else {
      PrefixChained(m, rows[..|rows| - 1], n);
      assert rows[..|rows| - 1][..n] == rows[..n];
    }
  }

  /** A head seen earlier pins everything up to the record that carries it: whatever was appended since, the journal
      still begins with exactly the history that had that head. */
  lemma AnchoredPrefix(m: Measures, earlier: seq<Record>, later: seq<Record>, i: nat)
    requires Chained(m, earlier) && Chained(m, later) && i < |later| && later[i].hash == Head(m, earlier)
    ensures earlier == later[..i + 1] || Collides(m, earlier, later)
  {
    PrefixChained(m, later, i + 1);
    HeadFixesHistory(m, earlier, later[..i + 1]);
    if earlier != later[..i + 1] {
      assert earlier[..|earlier|] == earlier;
      LargerCollides(m, earlier, later, |earlier|, i + 1);
    }
  }

  // ----- remediation -------------------------------------------------------------------------

  const ATTEMPT := "verification_attempt"
  const REMEDIATION := "remediation_verification"

  function Get(d: Data, key: string): string {
    if key in d then d[key] else ""
  }

  /** The last record with a hash. */
  function Lookup(rows: seq<Record>, hash: string): Option<Record> {
    if rows == [] then None
    else if rows[|rows| - 1].hash == hash then Some(rows[|rows| - 1])
    else Lookup(rows[..|rows| - 1], hash)
  }

  predicate SameCase(before: Record, after: Record, finding: string) {
    && before.index < after.index && before.kind == ATTEMPT && after.kind == ATTEMPT
    && HashFormat(Get(before.data, "case_hash")) && 1 <= |finding| <= 200
    && Get(before.data, "finding_id") == finding && Get(after.data, "finding_id") == finding
    && Get(after.data, "case_hash") == Get(before.data, "case_hash")
    && Get(before.data, "outcome") == "triggered" && Get(after.data, "outcome") == "not_triggered"
  }

  /** The data recorded for a remediation, or nothing if the references do not support it. */
  function Remediation(rows: seq<Record>, data: Data): Option<Data> {
    var before, after := Lookup(rows, Get(data, "before_hash")), Lookup(rows, Get(data, "after_hash"));
    if !HashFormat(Get(data, "before_hash")) || !HashFormat(Get(data, "after_hash")) || before == None || after == None
    then None
    else if !SameCase(before.value, after.value, Get(data, "finding_id")) then None
    else Some(map["finding_id" := Get(data, "finding_id"), "case_hash" := Get(before.value.data, "case_hash"),
                  "before_hash" := before.value.hash, "after_hash" := after.value.hash, "verification" := "reported"])
  }

  /** A remediation record names two earlier attempts at the same case of the same finding, triggered first and not
      triggered later. */
  ghost predicate Supported(rows: seq<Record>, r: Record) {
    r.kind == "remediation_verification" ==>
      && r.data.Keys == {"finding_id", "case_hash", "before_hash", "after_hash", "verification"}
      && r.data["verification"] == "reported"
      && exists i, j :: Supports(rows, i, j, r.data) && rows[i].data["case_hash"] == r.data["case_hash"]
  }

  ghost predicate LastWith(rows: seq<Record>, i: int, hash: string) {
    0 <= i < |rows| && rows[i].hash == hash && forall k :: i < k < |rows| ==> rows[k].hash != hash
  }

  /** The records that the references name: two attempts at one case of the finding, of which the first triggered it and the
      second, which is later, did not. */
  ghost predicate Supports(rows: seq<Record>, i: int, j: int, data: Data) {
    && data.Keys >= {"before_hash", "after_hash", "finding_id"}
    && HashFormat(data["before_hash"]) && LastWith(rows, i, data["before_hash"])
    && HashFormat(data["after_hash"]) && LastWith(rows, j, data["after_hash"])
    && rows[i].index < rows[j].index
    && rows[i].kind == "verification_attempt" && rows[j].kind == "verification_attempt"
    && 1 <= |data["finding_id"]| <= 200
    && (forall r :: r in {rows[i], rows[j]} ==>
          r.data.Keys >= {"finding_id", "case_hash", "outcome"} && r.data["finding_id"] == data["finding_id"])
    && HashFormat(rows[i].data["case_hash"]) && rows[j].data["case_hash"] == rows[i].data["case_hash"]
    && rows[i].data["outcome"] == "triggered" && rows[j].data["outcome"] == "not_triggered"
  }

  lemma {:induction false} LookupIs(rows: seq<Record>, hash: string)
    ensures match Lookup(rows, hash)
            case Some(r) => exists i :: LastWith(rows, i, hash) && rows[i] == r
            case None => forall i :: !LastWith(rows, i, hash)
  {
    if rows != [] {
      var front, n := rows[..|rows| - 1], |rows| - 1;
      if rows[n].hash == hash {
        assert LastWith(rows, n, hash);
      } else {
        LookupIs(front, hash);
        assert forall i :: LastWith(rows, i, hash) <==> LastWith(front, i, hash);
      }
    }
  }

  lemma OneLast(rows: seq<Record>, hash: string, i: int, j: int)
    requires LastWith(rows, i, hash) && LastWith(rows, j, hash)
    ensures i == j
  {
  }

  lemma SameCaseIff(rows: seq<Record>, i: int, j: int, data: Data)
    requires LastWith(rows, i, Get(data, "before_hash")) && HashFormat(Get(data, "before_hash"))
    requires LastWith(rows, j, Get(data, "after_hash")) && HashFormat(Get(data, "after_hash"))
    ensures SameCase(rows[i], rows[j], Get(data, "finding_id")) <==> Supports(rows, i, j, data)
  {
  }

  /** A remediation is recorded exactly if the journal supports it. */
  lemma RemediationIff(rows: seq<Record>, data: Data)
    ensures Remediation(rows, data).Some? <==> exists i, j :: Supports(rows, i, j, data)
  {
    var before, after := Get(data, "before_hash"), Get(data, "after_hash");
    LookupIs(rows, before);
    LookupIs(rows, after);
    if HashFormat(before) && HashFormat(after) && Lookup(rows, before).Some? && Lookup(rows, after).Some? {
      var i :| LastWith(rows, i, before) && rows[i] == Lookup(rows, before).value;
      var j :| LastWith(rows, j, after) && rows[j] == Lookup(rows, after).value;
      SameCaseIff(rows, i, j, data);
      if k, l :| Supports(rows, k, l, data) {
        OneLast(rows, before, i, k);
        OneLast(rows, after, j, l);
      }
    }
  }

  ghost predicate AllSupported(rows: seq<Record>) {
    forall k :: 0 <= k < |rows| ==> Supported(rows[..k], rows[k])
  }

  lemma RemediationIsSupported(rows: seq<Record>, data: Data, r: Record)
    requires Remediation(rows, data).Some? && r.data == Remediation(rows, data).value
    ensures Supported(rows, r)
  {
    RemediationIff(rows, data);
    var i, j :| Supports(rows, i, j, data);
    LookupIs(rows, data["before_hash"]);
    var k :| LastWith(rows, k, data["before_hash"]) && rows[k] == Lookup(rows, data["before_hash"]).value;
    OneLast(rows, data["before_hash"], i, k);
    LookupIs(rows, data["after_hash"]);
    var l :| LastWith(rows, l, data["after_hash"]) && rows[l] == Lookup(rows, data["after_hash"]).value;
    OneLast(rows, data["after_hash"], j, l);
    assert Supports(rows, i, j, r.data);
  }

  // ----- the ledger --------------------------------------------------------------------------

  datatype Verdict = Verdict(valid: bool, records: nat, head: Option<string>)

  /** `rows` is what the file holds; nothing is assumed about it, so it may have been tampered with. */
  class EvidenceStore {
    var rows: seq<Record>
    const m: Measures

    constructor (m: Measures)
      ensures this.m == m && rows == [] && Loadable(m, rows)
    {
      this.m := m;
      rows := [];
    }

    method Load() returns (loaded: Option<seq<Record>>)
      ensures loaded == if Loadable(m, rows) then Some(rows) else None
      ensures loaded.Some? <==> TotalSize(m, rows) <= 8_000_000 && |rows| <= 10_000
                                && forall i: nat :: i < |rows| ==> RowIsGood(m, rows, i)
    {
      ChainedIff(m, rows);
      if TotalSize(m, rows) > MAX_LEDGER_BYTES || |rows| > MAX_RECORDS {
        return None;
      }
      var previous := m.zero;
      for i := 0 to |rows|
        invariant Chained(m, rows[..i])
        invariant previous == Head(m, rows[..i])
      {
        assert rows[..i + 1][..i] == rows[..i];
        if !Links(m, rows[i], i + 1, previous) {
          if Chained(m, rows) {
            PrefixChained(m, rows, i + 1);
          }
          return None;
        }
        previous := rows[i].hash;
      }
      assert rows[..|rows|] == rows;
      return Some(rows);
    }

    /** Valid exactly when the file loads and, if a head is expected, has that head. */
    method Verify(expectedHead: Option<string>) returns (v: Verdict)
      ensures v.valid <==> Loadable(m, rows) && (expectedHead.Some? ==> Head(m, rows) == expectedHead.value)
      ensures Loadable(m, rows) ==> v.records == |rows| && v.head == Some(Head(m, rows))
      ensures !Loadable(m, rows) ==> v.records == 0 && v.head == None
    {
      var loaded := Load();
      if loaded == None {
        return Verdict(false, 0, None);
      }
      var head := Head(m, loaded.value);
      return Verdict(expectedHead == None || expectedHead.value == head, |loaded.value|, Some(head));
    }

    /** Either the file is untouched, or it held a loadable journal and now holds the same journal with one more record,
        still loadable; a remediation is recorded only if the journal supports it. */
    method Append(kind: string, data: Data, createdAt: string) returns (added: Option<Record>)
      requires Formatted(m)
      modifies this`rows
      ensures added == None ==> rows == old(rows)
      ensures added.Some? ==>
                && Loadable(m, old(rows)) && rows == old(rows) + [added.value] && Loadable(m, rows)
                && Head(m, rows) == added.value.hash && added.value.kind == kind && added.value.createdAt == createdAt
                && (kind != "remediation_verification" ==> added.value.data == data)
                && Supported(old(rows), added.value)
      ensures AllSupported(old(rows)) ==> AllSupported(rows)
      ensures added.Some? <==>
                KindFormat(kind) && Loadable(m, old(rows)) && |old(rows)| < 10_000
                && (kind == "remediation_verification" ==> exists i, j :: Supports(old(rows), i, j, data))
                && (var record := Sealed(m, old(rows), kind, Recorded(old(rows), kind, data), createdAt);
                    m.bounded(record) && TotalSize(m, old(rows) + [record]) <= 8_000_000)
    {
      var loaded := Load();
      if !KindFormat(kind) || loaded == None {
        return None;
      }
      var cleaned := Prepared(rows, kind, data);
      RemediationIff(rows, data);
      if cleaned == None || |rows| >= MAX_RECORDS {
        return None;
      }
      var record := Sealed(m, rows, kind, cleaned.value, createdAt);
      if !HasRoom(m, rows, record) {
        return None;
      }
      if kind == REMEDIATION {
        RemediationIsSupported(rows, data, record);
      }
      SealedLinks(m, rows, kind, cleaned.value, createdAt);
      SupportedKept(rows, record);
      rows := rows + [record];
      return Some(record);
    }
  }

  /** The data to record; a remediation must be supported by the journal. */
  function Prepared(rows: seq<Record>, kind: string, data: Data): Option<Data> {
    if kind == REMEDIATION then Remediation(rows, data) else Some(data)
  }

  function Recorded(rows: seq<Record>, kind: string, data: Data): Data {
    var prepared := Prepared(rows, kind, data);
    if prepared == None then data else prepared.value
  }

  predicate HasRoom(m: Measures, rows: seq<Record>, r: Record) {
    m.bounded(r) && TotalSize(m, rows + [r]) <= MAX_LEDGER_BYTES
  }

  /** The next record of a journal, with its hash. */
  function Sealed(m: Measures, rows: seq<Record>, kind: string, data: Data, createdAt: string): Record {
    Record(1, |rows| + 1, createdAt, kind, data, Head(m, rows),
           m.digest(Unsigned(1, |rows| + 1, createdAt, kind, data, Head(m, rows))))
  }

  lemma SealedLinks(m: Measures, rows: seq<Record>, kind: string, data: Data, createdAt: string)
    requires Formatted(m) && Chained(m, rows) && KindFormat(kind) && m.bounded(Sealed(m, rows, kind, data, createdAt))
    ensures var next := rows + [Sealed(m, rows, kind, data, createdAt)];
            Chained(m, next) && Head(m, next) == next[|rows|].hash
  {
    var r := Sealed(m, rows, kind, data, createdAt);
    assert (rows + [r])[..|rows|] == rows;
    assert UnsignedOf(r) == Unsigned(1, |rows| + 1, createdAt, kind, data, Head(m, rows));
  }

  lemma SupportedKept(rows: seq<Record>, r: Record)
    requires Supported(rows, r)
    ensures AllSupported(rows) ==> AllSupported(rows + [r])
  {
    var all := rows + [r];
    assert all[..|rows|] == rows;
    if AllSupported(rows) {
      forall k | 0 <= k < |all| ensures Supported(all[..k], all[k]) {
        assert k < |rows| ==> all[..k] == rows[..k];
      }
    }
  }

  /** A verification against a head recorded earlier certifies the whole history: unless the records at hand collide, the
      file has that head exactly if it is the journal that had it, record for record. */
  lemma VerifiedHistory(m: Measures, recorded: seq<Record>, found: seq<Record>)
    requires Loadable(m, recorded) && Loadable(m, found) && !Collides(m, recorded, found)
    ensures Head(m, found) == Head(m, recorded) <==> found == recorded
  {
    if Head(m, found) == Head(m, recorded) {
      HeadFixesHistory(m, recorded, found);
    }
  }

  function Hash(c: char): string {
    seq(64, i => c)
  }

  /** A digest that tells the records at hand apart by their time. */
  const BY_TIME := Measures((u: Unsigned) => if u.createdAt == "now" then Hash('1') else Hash('2'),
                            (_: Record) => true, (_: Record) => 0, Hash('0'))

  lemma OneRecordLoads(createdAt: string)
    ensures Loadable(BY_TIME, [Sealed(BY_TIME, [], "note", map[], createdAt)])
    ensures Head(BY_TIME, [Sealed(BY_TIME, [], "note", map[], createdAt)]) == Hash(if createdAt == "now" then '1' else '2')
  {
    var r := Sealed(BY_TIME, [], "note", map[], createdAt);
    SealedLinks(BY_TIME, [], "note", map[], createdAt);
    assert [] + [r] == [r] && [r][..0] == [];
    assert TotalSize(BY_TIME, []) == 0;
  }

  /** Journals that differ, load and do not collide: what a verification assumes can be met, and then it tells them apart. */
  lemma VerificationCanFail() returns (recorded: seq<Record>, found: seq<Record>)
    ensures Formatted(BY_TIME) && Loadable(BY_TIME, recorded) && Loadable(BY_TIME, found)
    ensures recorded != found && !Collides(BY_TIME, recorded, found) && Head(BY_TIME, recorded) != Head(BY_TIME, found)
  {
    recorded, found := [Sealed(BY_TIME, [], "note", map[], "now")], [Sealed(BY_TIME, [], "note", map[], "later")];
    OneRecordLoads("now");
    OneRecordLoads("later");
    assert Hash('0')[0] == '0' && Hash('1')[0] == '1' && Hash('2')[0] == '2';
  }

  // ----- the engagement journal --------------------------------------------------------------

  const MAX_EVENTS := 500
  const MAX_ENGAGEMENT_BYTES := 5_000_000
  const HTTP_ATTEMPT := "http_attempt"

  datatype Event = Event(id: string, timestamp: string, kind: string, data: Data, previous: string, sha256: string)
  datatype Body = Body(id: string, timestamp: string, kind: string, data: Data, previous: string)

  function BodyOf(e: Event): Body {
    Body(e.id, e.timestamp, e.kind, e.data, e.previous)
  }

  datatype Engagement = Engagement(id: string, activeHttp: bool, maxRequests: nat, requestsUsed: nat, events: seq<Event>)

  /** Two of the events at hand are different and have the same digest, or one of them has an empty one. */
  ghost predicate EventsCollide(digest: Body -> string, a: seq<Event>, b: seq<Event>) {
    || (exists x, y :: x in a && y in b && BodyOf(x) != BodyOf(y) && digest(BodyOf(x)) == digest(BodyOf(y)))
    || (exists x :: (x in a || x in b) && digest(BodyOf(x)) == "")
  }

  function LastHash(events: seq<Event>): string {
    if events == [] then "" else events[|events| - 1].sha256
  }

  predicate EventsChained(digest: Body -> string, events: seq<Event>) {
    events == []
    || (var front, last := events[..|events| - 1], events[|events| - 1];
        EventsChained(digest, front) && last.previous == LastHash(front) && last.sha256 == digest(BodyOf(last)))
  }

  lemma LargerEventsCollide(digest: Body -> string, a: seq<Event>, b: seq<Event>, k: nat, l: nat)
    requires k <= |a| && l <= |b| && EventsCollide(digest, a[..k], b[..l])
    ensures EventsCollide(digest, a, b)
  {
    if x, y :| x in a[..k] && y in b[..l] && BodyOf(x) != BodyOf(y) && digest(BodyOf(x)) == digest(BodyOf(y)) {
      assert x in a && y in b;
    } else {
      var x :| (x in a[..k] || x in b[..l]) && digest(BodyOf(x)) == "";
      assert x in a || x in b;
    }
  }

  /** Without an index the last hash still fixes the whole event list, unless two of the events collide. */
  lemma {:induction false} LastHashFixesEvents(digest: Body -> string, a: seq<Event>, b: seq<Event>)
    requires EventsChained(digest, a) && EventsChained(digest, b) && LastHash(a) == LastHash(b)
    ensures a == b || EventsCollide(digest, a, b)
    decreases |a|
  {
    if a == [] || b == [] {
      assert a != [] ==> a[|a| - 1] in a;
      assert b != [] ==> b[|b| - 1] in b;
    } else {
      var x, y := a[|a| - 1], b[|b| - 1];
      assert x in a && y in b;
      if BodyOf(x) == BodyOf(y) {
        LastHashFixesEvents(digest, a[..|a| - 1], b[..|b| - 1]);
        if a[..|a| - 1] == b[..|b| - 1] {
          assert a == a[..|a| - 1] + [x] && b == b[..|b| - 1] + [y];
        } else {
          LargerEventsCollide(digest, a, b, |a| - 1, |b| - 1);
        }
      }
    }
  }

  lemma {:induction false} EventsPrefixChained(digest: Body -> string, events: seq<Event>, n: nat)
    requires EventsChained(digest, events) && n <= |events|
    ensures EventsChained(digest, events[..n])
    decreases |events|
  {
    if n == |events| {
      assert events[..n] == events;
    } else {
      EventsPrefixChained(digest, events[..|events| - 1], n);
      assert events[..|events| - 1][..n] == events[..n];
    }
  }

  function Attempts(events: seq<Event>): nat {
    if events == [] then 0
    else Attempts(events[..|events| - 1]) + (if events[|events| - 1].kind == HTTP_ATTEMPT then 1 else 0)
  }

  /** Every request granted is within the budget and journaled. */
  ghost predicate Accounted(e: Engagement) {
    e.requestsUsed <= e.maxRequests && e.requestsUsed <= Attempts(e.events)
  }

  function Appended(digest: Body -> string, events: seq<Event>, id: string, timestamp: string, kind: string, data: Data)
    : seq<Event>
  {
    events + [Event(id, timestamp, kind, data, LastHash(events), digest(Body(id, timestamp, kind, data, LastHash(events))))]
  }

  lemma AppendedChains(digest: Body -> string, events: seq<Event>, id: string, timestamp: string, kind: string, data: Data)
    requires EventsChained(digest, events)
    ensures var next := Appended(digest, events, id, timestamp, kind, data);
            && EventsChained(digest, next) && next[..|events|] == events
            && Attempts(next) == Attempts(events) + (if kind == HTTP_ATTEMPT then 1 else 0)
  {
    var next := Appended(digest, events, id, timestamp, kind, data);
    assert next[..|next| - 1] == events;
    assert BodyOf(next[|events|]) == Body(id, timestamp, kind, data, LastHash(events));
  }

  /** One more request counted, and journaled. */
  function Granted(digest: Body -> string, e: Engagement, eventId: string, timestamp: string, data: Data): Engagement {
    e.(requestsUsed := e.requestsUsed + 1, events := Appended(digest, e.events, eventId, timestamp, HTTP_ATTEMPT, data))
  }

  /** The journal has one more event, and nothing before it has changed. */
  predicate OneMore(before: Engagement, after: Engagement, kind: string, data: Data) {
    && |after.events| == |before.events| + 1 && after.events[..|before.events|] == before.events
    && after.events[|before.events|].kind == kind && after.events[|before.events|].data == data
    && after.maxRequests == before.maxRequests && after.id == before.id
  }

  /** `stored` is the engagement file. Each update loads it, changes a copy and writes the copy back, so an update that
      fails on the way leaves the file as it was. */
  class EngagementStore {
    var stored: Engagement
    const digest: Body -> string
    const size: Engagement -> nat

    constructor (digest: Body -> string, size: Engagement -> nat, e: Engagement)
      ensures this.digest == digest && this.size == size && stored == e
    {
      this.digest, this.size, stored := digest, size, e;
    }

    predicate Readable(identity: string)
      reads this
    {
      size(stored) <= MAX_ENGAGEMENT_BYTES && stored.id == identity && EventsChained(digest, stored.events)
    }

    method Load(identity: string) returns (record: Option<Engagement>)
      ensures record == if Readable(identity) then Some(stored) else None
    {
      if size(stored) > MAX_ENGAGEMENT_BYTES || stored.id != identity {
        return None;
      }
      var previous := "";
      var events := stored.events;
      for i := 0 to |events|
        invariant EventsChained(digest, events[..i])
        invariant previous == LastHash(events[..i])
      {
        assert events[..i + 1][..i] == events[..i];
        var content := digest(BodyOf(events[i]));
        if events[i].previous != previous || events[i].sha256 != content {
          if EventsChained(digest, events) {
            EventsPrefixChained(digest, events, i + 1);
          }
          return None;
        }
        previous := content;
      }
      assert events[..|events|] == events;
      return Some(stored);
    }

    /** Writes a changed copy if it is not too large. */
    method Write(record: Engagement) returns (ok: bool)
      modifies this`stored
      ensures ok <==> size(record) <= MAX_ENGAGEMENT_BYTES
      ensures stored == if ok then record else old(stored)
    {
      ok := size(record) <= MAX_ENGAGEMENT_BYTES;
      if ok {
        stored := record;
      }
    }

    /** Adds one event; a journal that loaded still loads, and only grows. */
    method Evidence(identity: string, eventId: string, timestamp: string, kind: string, data: Data) returns (ok: bool)
      modifies this`stored
      ensures ok <==> old(Readable(identity)) && |old(stored).events| < 500
                      && size(old(stored).(events := Appended(digest, old(stored).events, eventId, timestamp, kind, data)))
                         <= 5_000_000
      ensures !ok ==> stored == old(stored)
      ensures ok ==> Readable(identity)
                     && stored == old(stored).(events := Appended(digest, old(stored).events, eventId, timestamp, kind, data))
                     && |stored.events| <= 500 && OneMore(old(stored), stored, kind, data)
      ensures Accounted(old(stored)) && old(Readable(identity)) ==> Accounted(stored)
    {
      var record := Load(identity);
      if record == None || |record.value.events| >= MAX_EVENTS {
        return false;
      }
      AppendedChains(digest, stored.events, eventId, timestamp, kind, data);
      ok := Write(record.value.(events := Appended(digest, record.value.events, eventId, timestamp, kind, data)));
    }

    /** Grants a request only within the budget, and never without journaling it: a reservation whose event cannot be
        added is not counted either. `inScope` is the outcome of the scope check on the address. */
    method ReserveRequest(identity: string, inScope: bool, eventId: string, timestamp: string, data: Data) returns (ok: bool)
      modifies this`stored
      ensures ok <==> old(Readable(identity)) && old(stored).activeHttp && inScope
                      && old(stored).requestsUsed < old(stored).maxRequests && |old(stored).events| < 500
                      && size(Granted(digest, old(stored), eventId, timestamp, data)) <= 5_000_000
      ensures stored == if ok then Granted(digest, old(stored), eventId, timestamp, data) else old(stored)
      ensures ok ==> Readable(identity) && stored.requestsUsed <= stored.maxRequests
                     && stored.requestsUsed == old(stored).requestsUsed + 1
                     && OneMore(old(stored), stored, "http_attempt", data)
      ensures Accounted(old(stored)) && old(Readable(identity)) ==> Accounted(stored)
    {
      var record := Load(identity);
      if record == None || !record.value.activeHttp || !inScope || record.value.requestsUsed >= record.value.maxRequests {
        return false;
      }
      var counted := record.value.(requestsUsed := record.value.requestsUsed + 1);
      if |counted.events| >= MAX_EVENTS {
        return false;
      }
      AppendedChains(digest, stored.events, eventId, timestamp, HTTP_ATTEMPT, data);
      ok := Write(counted.(events := Appended(digest, counted.events, eventId, timestamp, HTTP_ATTEMPT, data)));
    }
  }
}
