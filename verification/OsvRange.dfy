/** OSV event ranges as intervals, against the scan of the OSV Schema. */
module OsvRange {
  // The program turns the events of a range into sorted, disjoint intervals; the schema scans the events in version
  // order. Versions are the points of any strict total order.

  import opened Wrappers
  import opened SemVer
  import opened VersionOrder

  // ----- the evaluation of the OSV Schema ----------------------------------------------------

  datatype Kind = Introduced | Fixed | LastAffected

  /** An event of a range; an introduction without a point lies before every version. */
  datatype Mark<T> = Mark(kind: Kind, point: Option<T>)

  predicate Fires<T>(less: (T, T) -> bool, m: Mark<T>, v: T) {
    match m.point
    case None => true
    case Some(p) => if m.kind.LastAffected? then less(p, v) else !less(v, p)
  }

  function Scan<T>(less: (T, T) -> bool, ms: seq<Mark<T>>, v: T, affected: bool): bool {
    if ms == [] then affected
    else Scan(less, ms[1..], v, if Fires(less, ms[0], v) then ms[0].kind.Introduced? else affected)
  }

  function Rank(k: Kind): nat {
    match k
    case Fixed => 0
    case Introduced => 1
    case LastAffected => 2
  }

  /** Version order; at the same version a fix comes before an introduction, and that before a last affected. */
  predicate Before<T(==)>(less: (T, T) -> bool, a: Mark<T>, b: Mark<T>) {
    match (a.point, b.point)
    case (Some(p), Some(q)) => less(p, q) || (p == q && Rank(a.kind) < Rank(b.kind))
    case (None, Some(_)) => true
    case (Some(_), None) => false
    case (None, None) => Rank(a.kind) < Rank(b.kind)
  }

  ghost predicate InVersionOrder<T>(less: (T, T) -> bool, ms: seq<Mark<T>>) {
    forall i, j :: 0 <= i < j < |ms| ==> !Before(less, ms[j], ms[i])
  }

  // ----- how it is evaluated -----------------------------------------------------------------

  datatype Event<T> = Introduce(from: Option<T>) | Close(last: bool, at: T) | Limit(bound: Option<T>)

  datatype Interval<T> = Interval(low: Option<T>, high: Option<T>, inclusive: bool)

  datatype Reading<T> = Reading(done: seq<Interval<T>>, isOpen: bool, start: Option<T>, limits: seq<T>, modes: set<bool>)

  function Start<T>(): Reading<T> {
    Reading([], false, None, [], {})
  }

  function Read<T(==)>(less: (T, T) -> bool, r: Reading<T>, e: Event<T>): Option<Reading<T>> {
    match e
    case Limit(None) => Some(r)
    case Limit(Some(p)) => Some(r.(limits := r.limits + [p]))
    case Introduce(from) => if r.isOpen then None else Some(r.(start := from, isOpen := true))
    case Close(last, at) =>
      if !r.isOpen || (r.start.Some? && (less(at, r.start.value) || (at == r.start.value && !last))) then None
      else Some(r.(modes := r.modes + {last}, isOpen := false,
                   done := r.done + [Interval(r.start, Some(at), last)]))
  }

  function ReadAll<T(==)>(less: (T, T) -> bool, r: Reading<T>, es: seq<Event<T>>): Option<Reading<T>>
    decreases |es|
  {
    if es == [] then Some(r)
    else match Read(less, r, es[0])
      case None => None
      case Some(next) => ReadAll(less, next, es[1..])
  }

  predicate StartsBefore<T>(less: (T, T) -> bool, a: Interval<T>, b: Interval<T>) {
    b.low.Some? && (a.low == None || less(a.low.value, b.low.value))
  }

  function Insert<T>(less: (T, T) -> bool, x: Interval<T>, sorted: seq<Interval<T>>): seq<Interval<T>> {
    if sorted == [] || !StartsBefore(less, sorted[0], x) then [x] + sorted
    else [sorted[0]] + Insert(less, x, sorted[1..])
  }

  function SortByStart<T>(less: (T, T) -> bool, ivs: seq<Interval<T>>): seq<Interval<T>> {
    if ivs == [] then [] else Insert(less, ivs[0], SortByStart(less, ivs[1..]))
  }

  predicate Apart<T(==)>(less: (T, T) -> bool, left: Interval<T>, right: Interval<T>) {
    && left.high.Some? && right.low.Some?
    && !less(right.low.value, left.high.value)
    && !(left.high.value == right.low.value && left.inclusive)
  }

  predicate Separated<T(==)>(less: (T, T) -> bool, ivs: seq<Interval<T>>) {
    forall i :: 0 <= i < |ivs| - 1 ==> Apart(less, ivs[i], ivs[i + 1])
  }

  predicate Inside<T(==)>(less: (T, T) -> bool, iv: Interval<T>, v: T) {
    && (iv.low == None || !less(v, iv.low.value))
    && (iv.high == None || less(v, iv.high.value) || (iv.inclusive && v == iv.high.value))
  }

  function Intervals<T>(r: Reading<T>): seq<Interval<T>> {
    if r.isOpen then r.done + [Interval(r.start, None, false)] else r.done
  }

  predicate HasIntroduction<T>(es: seq<Event<T>>) {
    exists i :: 0 <= i < |es| && es[i].Introduce?
  }

  predicate Accepted<T(==)>(less: (T, T) -> bool, es: seq<Event<T>>) {
    && ReadAll(less, Start(), es).Some?
    && |ReadAll(less, Start(), es).value.modes| <= 1
    && HasIntroduction(es)
    && Separated(less, SortByStart(less, Intervals(ReadAll(less, Start(), es).value)))
  }

  // ----- sorting -----------------------------------------------------------------------------

  lemma {:induction false} InsertKeeps<T>(less: (T, T) -> bool, x: Interval<T>, sorted: seq<Interval<T>>)
    ensures multiset(Insert(less, x, sorted)) == multiset([x] + sorted)
  {
    if sorted != [] && StartsBefore(less, sorted[0], x) {
      InsertKeeps(less, x, sorted[1..]);
      assert sorted == [sorted[0]] + sorted[1..];
    }
  }

  lemma {:induction false} SortKeeps<T>(less: (T, T) -> bool, ivs: seq<Interval<T>>)
    ensures multiset(SortByStart(less, ivs)) == multiset(ivs)
  {
    if ivs != [] {
      SortKeeps(less, ivs[1..]);
      InsertKeeps(less, ivs[0], SortByStart(less, ivs[1..]));
      assert ivs == [ivs[0]] + ivs[1..];
    }
  }

  // ----- intervals and events ----------------------------------------------------------------

  function Closing(last: bool): Kind {
    if last then LastAffected else Fixed
  }

  function MarksOf<T>(iv: Interval<T>): seq<Mark<T>> {
    [Mark(Introduced, iv.low)]
    + (if iv.high == None then [] else [Mark(Closing(iv.inclusive), iv.high)])
  }

  function Flat<T>(ivs: seq<Interval<T>>): seq<Mark<T>> {
    if ivs == [] then [] else MarksOf(ivs[0]) + Flat(ivs[1..])
  }

  function Marks<T>(es: seq<Event<T>>): seq<Mark<T>> {
    if es == [] then []
    else (match es[0]
          case Introduce(from) => [Mark(Introduced, from)]
          case Close(last, at) => [Mark(Closing(last), Some(at))]
          case Limit(_) => []) + Marks(es[1..])
  }

  /** An interval that ends, ends after it starts, or where it starts if its end is included. */
  predicate Proper<T(==)>(less: (T, T) -> bool, iv: Interval<T>) {
    iv.low.Some? && iv.high.Some? ==>
      less(iv.low.value, iv.high.value) || (iv.low == iv.high && iv.inclusive)
  }

  lemma {:induction false} FlatAppend<T>(ivs: seq<Interval<T>>, iv: Interval<T>)
    ensures Flat(ivs + [iv]) == Flat(ivs) + MarksOf(iv)
  {
    if ivs == [] {
      assert [iv][1..] == [];
    } else {
      assert (ivs + [iv])[1..] == ivs[1..] + [iv];
      FlatAppend(ivs[1..], iv);
    }
  }

  lemma {:induction false} FlatConcat<T>(a: seq<Interval<T>>, b: seq<Interval<T>>)
    ensures Flat(a + b) == Flat(a) + Flat(b)
  {
    if a == [] {
      assert a + b == b;
    } else {
      assert (a + b)[1..] == a[1..] + b;
      FlatConcat(a[1..], b);
    }
  }

  lemma {:induction false} FlatPermutes<T>(a: seq<Interval<T>>, b: seq<Interval<T>>)
    requires multiset(a) == multiset(b)
    ensures multiset(Flat(a)) == multiset(Flat(b))
    decreases |a|
  {
    if a == [] {
      assert |b| == |multiset(b)| == 0;
    } else {
      assert a[0] in multiset(b);
      var i :| 0 <= i < |b| && b[i] == a[0];
      var rest := b[..i] + b[i + 1..];
      assert b == b[..i] + [b[i]] + b[i + 1..];
      assert a == [a[0]] + a[1..];
      assert multiset(a[1..]) == multiset(rest) by {
        assert multiset(a[1..]) == multiset(a) - multiset([a[0]]);
        assert multiset(rest) == multiset(b[..i]) + multiset(b[i + 1..]);
        assert multiset(b) == multiset(b[..i] + [b[i]]) + multiset(b[i + 1..]);
        assert multiset(rest) == multiset(b) - multiset([b[i]]);
      }
      FlatPermutes(a[1..], rest);
      FlatConcat(b[..i] + [b[i]], b[i + 1..]);
      FlatAppend(b[..i], b[i]);
      FlatConcat(b[..i], b[i + 1..]);
    }
  }

  /** The marks of the intervals read so far. */
  function Held<T>(r: Reading<T>): seq<Mark<T>> {
    Flat(r.done) + (if r.isOpen then [Mark(Introduced, r.start)] else [])
  }

  ghost predicate Sound<T>(less: (T, T) -> bool, r: Reading<T>) {
    && (forall iv :: iv in r.done ==> iv.high.Some? && Proper(less, iv))
  }

  lemma ReadKeepsSound<T(!new)>(less: (T, T) -> bool, r: Reading<T>, e: Event<T>)
    requires StrictTotal(less) && Sound(less, r) && Read(less, r, e).Some?
    ensures Sound(less, Read(less, r, e).value)
  {
    if e.Close? && r.start.Some? {
      assert e.at == r.start.value || less(r.start.value, e.at);
    }
  }

  lemma OneMark<T>(e: Event<T>)
    ensures Marks([e]) == match e
                          case Introduce(from) => [Mark(Introduced, from)]
                          case Close(last, at) => [Mark(Closing(last), Some(at))]
                          case Limit(_) => []
  {
    assert Marks([e][1..]) == [];
  }

  lemma ReadKeepsMarks<T>(less: (T, T) -> bool, r: Reading<T>, e: Event<T>)
    requires Read(less, r, e).Some?
    ensures Held(Read(less, r, e).value) == Held(r) + Marks([e])
  {
    OneMark(e);
    match e
    case Limit(_) =>
    case Introduce(_) =>
    case Close(last, at) => FlatAppend(r.done, Interval(r.start, Some(at), last));
  }

  lemma MarksCons<T>(es: seq<Event<T>>)
    requires es != []
    ensures Marks(es) == Marks([es[0]]) + Marks(es[1..])
  {
    assert [es[0]][1..] == [];
  }

  lemma {:induction false} ReadAllKeeps<T(!new)>(less: (T, T) -> bool, r: Reading<T>, es: seq<Event<T>>)
    requires StrictTotal(less) && Sound(less, r) && ReadAll(less, r, es).Some?
    ensures Sound(less, ReadAll(less, r, es).value)
    ensures multiset(Held(ReadAll(less, r, es).value)) == multiset(Held(r)) + multiset(Marks(es))
    decreases |es|
  {
    if es != [] {
      ReadKeepsSound(less, r, es[0]);
      ReadKeepsMarks(less, r, es[0]);
      MarksCons(es);
      ReadAllKeeps(less, Read(less, r, es[0]).value, es[1..]);
    }
  }

  // ----- separated intervals are already in version order ------------------------------------

  ghost predicate AllProper<T>(less: (T, T) -> bool, ivs: seq<Interval<T>>) {
    forall iv :: iv in ivs ==> Proper(less, iv)
  }

  /** Every mark of the intervals is at or above a point, and above it if `strictly`. */
  ghost predicate AllFrom<T>(less: (T, T) -> bool, ms: seq<Mark<T>>, p: T, strictly: bool) {
    forall m :: m in ms ==>
      m.point.Some? && !less(m.point.value, p) && (m.point.value == p ==> !strictly && !m.kind.Fixed?)
  }

  lemma {:induction false} FollowersAreAbove<T(!new)>(less: (T, T) -> bool, left: Interval<T>, ivs: seq<Interval<T>>)
    requires StrictTotal(less) && AllProper(less, ivs) && Proper(less, left) && Separated(less, [left] + ivs) && ivs != []
    ensures left.high.Some? && AllFrom(less, Flat(ivs), left.high.value, left.inclusive)
    decreases |ivs|
  {
    var all := [left] + ivs;
    assert Apart(less, all[0], all[1]);
    var right := ivs[0];
    assert right in ivs;
    if |ivs| > 1 {
      assert [right] + ivs[1..] == ivs;
      forall i | 0 <= i < |ivs| - 1 ensures Apart(less, ivs[i], ivs[i + 1]) {
        assert Apart(less, all[i + 1], all[i + 2]);
      }
      FollowersAreAbove(less, right, ivs[1..]);
    } else {
      assert ivs[1..] == [];
    }
  }

  lemma BeforeTrichotomy<T(!new)>(less: (T, T) -> bool, a: Mark<T>, b: Mark<T>)
    requires StrictTotal(less) && !Before(less, a, b) && !Before(less, b, a)
    ensures a == b
  {
  }

  lemma SameTails<T>(a: seq<T>, b: seq<T>)
    requires multiset(a) == multiset(b) && a != [] && b != [] && a[0] == b[0]
    ensures multiset(a[1..]) == multiset(b[1..])
  {
    assert a == [a[0]] + a[1..] && b == [b[0]] + b[1..];
    assert multiset(a[1..]) == multiset(a) - multiset([a[0]]) == multiset(b[1..]);
  }

  /** The marks of a list have one version order only. */
  lemma {:induction false} OrderIsUnique<T(!new)>(less: (T, T) -> bool, a: seq<Mark<T>>, b: seq<Mark<T>>)
    requires StrictTotal(less) && multiset(a) == multiset(b) && InVersionOrder(less, a) && InVersionOrder(less, b)
    ensures a == b
    decreases |a|
  {
    assert |a| == |multiset(a)| == |multiset(b)| == |b|;
    if a != [] {
      assert a[0] in multiset(b) && b[0] in multiset(a);
      var i :| 0 <= i < |a| && a[i] == b[0];
      var j :| 0 <= j < |b| && b[j] == a[0];
      if i > 0 && j > 0 {
        BeforeTrichotomy(less, a[0], b[0]);
      }
      SameTails(a, b);
      OrderIsUnique(less, a[1..], b[1..]);
    }
  }

  lemma HeadBeforeTail<T(!new)>(less: (T, T) -> bool, h: Interval<T>, m: Mark<T>)
    requires StrictTotal(less) && Proper(less, h) && h.high.Some?
    requires m.point.Some? && !less(m.point.value, h.high.value)
    requires m.point.value == h.high.value ==> !h.inclusive && !m.kind.Fixed?
    ensures forall x :: x in MarksOf(h) ==> !Before(less, m, x)
  {
    var p, high := m.point.value, h.high.value;
    assert p == high || less(high, p);
    if h.low.Some? {
      var low := h.low.value;
      assert low == high || less(low, high);
      assert less(p, low) ==> less(p, high) || p == high;
      assert less(low, high) && less(high, p) ==> less(low, p);
      assert less(low, p) && less(p, low) ==> less(p, p);
    }
  }

  lemma {:induction false} SeparatedInOrder<T(!new)>(less: (T, T) -> bool, ivs: seq<Interval<T>>)
    requires StrictTotal(less) && AllProper(less, ivs) && Separated(less, ivs)
    ensures InVersionOrder(less, Flat(ivs))
  {
    if ivs != [] {
      var h, tail := ivs[0], ivs[1..];
      assert ivs == [h] + tail;
      TailSeparated(less, ivs);
      SeparatedInOrder(less, tail);
      var first, rest := MarksOf(h), Flat(tail);
      if tail != [] {
        FollowersAreAbove(less, h, tail);
      }
      forall i, j | 0 <= i < j < |first + rest|
        ensures !Before(less, (first + rest)[j], (first + rest)[i])
      {
        if j >= |first| && i < |first| {
          assert rest[j - |first|] in rest;
          HeadBeforeTail(less, h, rest[j - |first|]);
          assert first[i] in first;
        } else if j < |first| {
          assert Proper(less, h);
        } else {
          assert !Before(less, rest[j - |first|], rest[i - |first|]);
        }
      }
    }
  }

  lemma TailSeparated<T>(less: (T, T) -> bool, ivs: seq<Interval<T>>)
    requires ivs != [] && Separated(less, ivs) && AllProper(less, ivs)
    ensures Separated(less, ivs[1..]) && AllProper(less, ivs[1..])
  {
    forall i | 0 <= i < |ivs[1..]| - 1 ensures Apart(less, ivs[1..][i], ivs[1..][i + 1]) {
      assert Apart(less, ivs[i + 1], ivs[i + 2]);
    }
  }

  // ----- scanning separated intervals --------------------------------------------------------

  lemma {:induction false} ScanBelow<T(!new)>(less: (T, T) -> bool, ms: seq<Mark<T>>, p: T, strictly: bool, v: T, b: bool)
    requires StrictTotal(less) && AllFrom(less, ms, p, strictly) && (less(v, p) || (v == p && strictly))
    ensures Scan(less, ms, v, b) == b
    decreases |ms|
  {
    if ms != [] {
      var m := ms[0];
      assert m in ms;
      var q := m.point.value;
      assert q == p || less(p, q);
      assert less(v, q);
      assert less(q, v) && less(v, q) ==> less(q, q);
      ScanBelow(less, ms[1..], p, strictly, v, b);
    }
  }

  lemma {:induction false} ScanConcat<T>(less: (T, T) -> bool, a: seq<Mark<T>>, c: seq<Mark<T>>, v: T, b: bool)
    ensures Scan(less, a + c, v, b) == Scan(less, c, v, Scan(less, a, v, b))
  {
    if a == [] {
      assert a + c == c;
    } else {
      assert (a + c)[1..] == a[1..] + c;
      ScanConcat(less, a[1..], c, v, if Fires(less, a[0], v) then a[0].kind.Introduced? else b);
    }
  }

  /** Scanning the marks of one interval tells whether the version is inside. */
  lemma ScanOne<T(!new)>(less: (T, T) -> bool, h: Interval<T>, v: T)
    requires StrictTotal(less) && Proper(less, h)
    ensures Scan(less, MarksOf(h), v, false) == Inside(less, h, v)
  {
    var ms := MarksOf(h);
    if h.high.Some? {
      var high := h.high.value;
      assert ms[1..] == [ms[1]] && [ms[1]][1..] == [];
      var entered := Fires(less, ms[0], v);
      assert Scan(less, ms, v, false) == Scan(less, [ms[1]], v, entered);
      assert Scan(less, [ms[1]], v, entered) == (entered && !Fires(less, ms[1], v));
      assert v == high || less(v, high) || less(high, v);
      assert less(v, high) && less(high, v) ==> less(v, v);
      if h.low.Some? {
        var low := h.low.value;
        assert less(v, low) && less(low, high) ==> less(v, high);
      }
    } else {
      assert ms[1..] == [];
    }
  }

  lemma {:induction false} ScanSeparated<T(!new)>(less: (T, T) -> bool, ivs: seq<Interval<T>>, v: T)
    requires StrictTotal(less) && AllProper(less, ivs) && Separated(less, ivs)
    ensures Scan(less, Flat(ivs), v, false) <==> exists iv :: iv in ivs && Inside(less, iv, v)
  {
    if ivs != [] {
      var h, tail := ivs[0], ivs[1..];
      assert ivs == [h] + tail;
      TailSeparated(less, ivs);
      ScanSeparated(less, tail, v);
      ScanConcat(less, MarksOf(h), Flat(tail), v, false);
      ScanOne(less, h, v);
      if Inside(less, h, v) && tail != [] {
        FollowersAreAbove(less, h, tail);
        ScanBelow(less, Flat(tail), h.high.value, h.inclusive, v, true);
      }
    }
  }

  // ----- the answer --------------------------------------------------------------------------

  lemma IntervalsHoldTheMarks<T(!new)>(less: (T, T) -> bool, es: seq<Event<T>>)
    requires StrictTotal(less) && ReadAll(less, Start(), es).Some?
    ensures var r := ReadAll(less, Start(), es).value;
            AllProper(less, Intervals(r)) && multiset(Flat(Intervals(r))) == multiset(Marks(es))
  {
    hide ReadAll, StrictTotal, Marks;
    ReadAllKeeps(less, Start(), es);
    var r := ReadAll(less, Start(), es).value;
    assert Held(Start<T>()) == [];
    if r.isOpen {
      var last := Interval(r.start, None, false);
      FlatAppend(r.done, last);
      assert MarksOf(last) == [Mark(Introduced, r.start)];
    }
    assert Flat(Intervals(r)) == Held(r);
  }

  /** For every accepted list of events, whatever order it was written in, the disjoint intervals contain a version
      exactly when the scan of the events in version order says it is affected. */
  lemma IntervalsAreTheScan<T(!new)>(less: (T, T) -> bool, es: seq<Event<T>>, ordered: seq<Mark<T>>, v: T)
    requires StrictTotal(less) && Accepted(less, es)
    requires multiset(ordered) == multiset(Marks(es)) && InVersionOrder(less, ordered)
    ensures (exists iv :: iv in Intervals(ReadAll(less, Start(), es).value) && Inside(less, iv, v))
            <==> Scan(less, ordered, v, false)
  {
    var ivs := Intervals(ReadAll(less, Start(), es).value);
    var sorted := SortByStart(less, ivs);
    IntervalsHoldTheMarks(less, es);
    SortKeeps(less, ivs);
    SameMembers(sorted, ivs);
    FlatPermutes(sorted, ivs);
    SeparatedInOrder(less, sorted);
    OrderIsUnique(less, ordered, Flat(sorted));
    ScanSeparated(less, sorted, v);
  }

  lemma SameMembers<T>(a: seq<T>, b: seq<T>)
    requires multiset(a) == multiset(b)
    ensures forall x :: x in a <==> x in b
  {
    forall x ensures x in a <==> x in b {
      assert x in a <==> x in multiset(a);
      assert x in b <==> x in multiset(b);
    }
  }

  // ----- acceptance --------------------------------------------------------------------------

  ghost predicate SortedByStart<T>(less: (T, T) -> bool, ivs: seq<Interval<T>>) {
    forall i, j :: 0 <= i < j < |ivs| ==> !StartsBefore(less, ivs[j], ivs[i])
  }

  lemma {:induction false} InsertSorts<T(!new)>(less: (T, T) -> bool, x: Interval<T>, sorted: seq<Interval<T>>)
    requires StrictTotal(less) && SortedByStart(less, sorted)
    ensures SortedByStart(less, Insert(less, x, sorted))
  {
    if sorted != [] && StartsBefore(less, sorted[0], x) {
      InsertSorts(less, x, sorted[1..]);
      InsertKeeps(less, x, sorted[1..]);
      var tail := Insert(less, x, sorted[1..]);
      FirstStaysFirst(less, x, sorted, tail);
      assert Insert(less, x, sorted) == [sorted[0]] + tail;
      hide Insert, StartsBefore, StrictTotal;
    }
  }

  lemma FirstStaysFirst<T(!new)>(less: (T, T) -> bool, x: Interval<T>, sorted: seq<Interval<T>>, tail: seq<Interval<T>>)
    requires StrictTotal(less) && SortedByStart(less, sorted) && sorted != [] && StartsBefore(less, sorted[0], x)
    requires multiset(tail) == multiset([x] + sorted[1..])
    ensures forall j :: 0 <= j < |tail| ==> !StartsBefore(less, tail[j], sorted[0])
  {
    forall j | 0 <= j < |tail| ensures !StartsBefore(less, tail[j], sorted[0]) {
      assert tail[j] in multiset([x] + sorted[1..]);
      if tail[j] != x {
        var i :| 0 <= i < |sorted[1..]| && sorted[1..][i] == tail[j];
        assert tail[j] == sorted[i + 1];
      }
    }
  }

  lemma {:induction false} SortSorts<T(!new)>(less: (T, T) -> bool, ivs: seq<Interval<T>>)
    requires StrictTotal(less)
    ensures SortedByStart(less, SortByStart(less, ivs))
  {
    if ivs != [] {
      SortSorts(less, ivs[1..]);
      InsertSorts(less, ivs[0], SortByStart(less, ivs[1..]));
    }
  }

  lemma {:induction false} StartsIncrease<T(!new)>(less: (T, T) -> bool, ivs: seq<Interval<T>>, i: nat, j: nat)
    requires StrictTotal(less) && AllProper(less, ivs) && Separated(less, ivs) && i < j < |ivs|
    ensures StartsBefore(less, ivs[i], ivs[j])
    decreases j
  {
    var left, right := ivs[j - 1], ivs[j];
    assert Apart(less, ivs[j - 1], ivs[j - 1 + 1]) && Proper(less, left);
    var p, q := left.high.value, right.low.value;
    assert p == q || less(p, q);
    assert StartsBefore(less, left, right);
    if i < j - 1 {
      StartsIncrease(less, ivs, i, j - 1);
    }
  }

  lemma SameFirst<T(!new)>(less: (T, T) -> bool, a: seq<Interval<T>>, sorted: seq<Interval<T>>)
    requires a != [] && sorted != [] && multiset(a) == multiset(sorted) && SortedByStart(less, sorted)
    requires forall i, j :: 0 <= i < j < |a| ==> StartsBefore(less, a[i], a[j])
    ensures a[0] == sorted[0]
  {
    assert a[0] in multiset(sorted) && sorted[0] in multiset(a);
    var i :| 0 <= i < |a| && a[i] == sorted[0];
    var j :| 0 <= j < |sorted| && sorted[j] == a[0];
  }

  lemma {:induction false} SortFindsTheOrder<T(!new)>(less: (T, T) -> bool, a: seq<Interval<T>>, sorted: seq<Interval<T>>)
    requires StrictTotal(less) && multiset(a) == multiset(sorted) && SortedByStart(less, sorted)
    requires forall i, j :: 0 <= i < j < |a| ==> StartsBefore(less, a[i], a[j])
    ensures a == sorted
    decreases |a|
  {
    assert |a| == |multiset(a)| == |multiset(sorted)| == |sorted|;
    if a != [] {
      SameFirst(less, a, sorted);
      SameTails(a, sorted);
      forall i, j | 0 <= i < j < |a[1..]| ensures StartsBefore(less, a[1..][i], a[1..][j]) {
        assert StartsBefore(less, a[i + 1], a[j + 1]);
      }
      forall i, j | 0 <= i < j < |sorted[1..]| ensures !StartsBefore(less, sorted[1..][j], sorted[1..][i]) {
        assert !StartsBefore(less, sorted[j + 1], sorted[i + 1]);
      }
      SortFindsTheOrder(less, a[1..], sorted[1..]);
      assert a == [a[0]] + a[1..] && sorted == [sorted[0]] + sorted[1..];
    }
  }

  /** The sort never loses an acceptable list: the sorted intervals are disjoint exactly when the intervals can be
      arranged so that each ends before the next begins. */
  lemma SeparatedIffArrangeable<T(!new)>(less: (T, T) -> bool, ivs: seq<Interval<T>>)
    requires StrictTotal(less) && AllProper(less, ivs)
    ensures Separated(less, SortByStart(less, ivs)) <==>
              exists a :: multiset(a) == multiset(ivs) && Separated(less, a)
  {
    SortKeeps(less, ivs);
    SortSorts(less, ivs);
    forall a | multiset(a) == multiset(ivs) && Separated(less, a)
      ensures a == SortByStart(less, ivs)
    {
      SameMembers(a, ivs);
      forall i: nat, j: nat | i < j < |a| ensures StartsBefore(less, a[i], a[j]) {
        StartsIncrease(less, a, i, j);
      }
      SortFindsTheOrder(less, a, SortByStart(less, ivs));
    }
  }

  // ----- acceptance, on the marks as they are listed -----------------------------------------

  /** The end lies after the start; a last affected version may be the start itself. */
  predicate EndsAfter<T(==)>(less: (T, T) -> bool, from: Mark<T>, to: Mark<T>) {
    to.point.Some? && (from.point == None || less(from.point.value, to.point.value)
                       || (from.point == to.point && to.kind.LastAffected?))
  }

  /** Introductions and ends alternate, an introduction first, and each end lies after its introduction. */
  predicate ListedInPairs<T(==)>(less: (T, T) -> bool, ms: seq<Mark<T>>) {
    if ms == [] then true
    else if |ms| == 1 then ms[0].kind.Introduced?
    else ms[0].kind.Introduced? && !ms[1].kind.Introduced? && EndsAfter(less, ms[0], ms[1]) && ListedInPairs(less, ms[2..])
  }

  /** From each introduction to the end that follows it in the list. */
  function Spans<T>(ms: seq<Mark<T>>): seq<Interval<T>> {
    if ms == [] then []
    else if |ms| == 1 then [Interval(ms[0].point, None, false)]
    else [Interval(ms[0].point, ms[1].point, ms[1].kind.LastAffected?)] + Spans(ms[2..])
  }

  predicate EndsBefore<T(==)>(less: (T, T) -> bool, a: Interval<T>, b: Interval<T>) {
    && a.high.Some? && b.low.Some?
    && (less(a.high.value, b.low.value) || (a.high == b.low && !a.inclusive))
  }

  /** Of any two intervals one ends before the other starts. */
  ghost predicate Disjoint<T>(less: (T, T) -> bool, ivs: seq<Interval<T>>) {
    forall i, j :: 0 <= i < j < |ivs| ==> EndsBefore(less, ivs[i], ivs[j]) || EndsBefore(less, ivs[j], ivs[i])
  }

  ghost predicate OneKindOfEnd<T>(ms: seq<Mark<T>>) {
    forall a, b :: a in ms && b in ms && !a.kind.Introduced? && !b.kind.Introduced? ==> a.kind == b.kind
  }

  /** What the events of a range must be like, for any order they are listed in. */
  ghost predicate WellListed<T>(less: (T, T) -> bool, ms: seq<Mark<T>>) {
    ms != [] && ListedInPairs(less, ms) && OneKindOfEnd(ms) && Disjoint(less, Spans(ms))
  }

  function Waiting<T>(r: Reading<T>): seq<Mark<T>> {
    if r.isOpen then [Mark(Introduced, r.start)] else []
  }

  ghost predicate EndsOf<T>(modes: set<bool>, ms: seq<Mark<T>>) {
    forall last :: last in modes <==> exists m :: m in ms && m.kind == Closing(last)
  }

  lemma ReadIff<T(!new)>(less: (T, T) -> bool, r: Reading<T>, e: Event<T>)
    requires StrictTotal(less)
    ensures match e
            case Limit(_) => Read(less, r, e).Some? && Waiting(Read(less, r, e).value) == Waiting(r)
            case Introduce(from) =>
              (Read(less, r, e).Some? <==> !r.isOpen)
              && (!r.isOpen ==> Waiting(Read(less, r, e).value) == [Mark(Introduced, from)])
            case Close(last, at) =>
              (Read(less, r, e).Some? <==> r.isOpen && EndsAfter(less, Mark(Introduced, r.start), Mark(Closing(last), Some(at))))
              && (Read(less, r, e).Some? ==> Waiting(Read(less, r, e).value) == [])
  {
    if e.Close? && r.isOpen && r.start.Some? {
      var at, from := e.at, r.start.value;
      assert at == from || less(at, from) || less(from, at);
      assert less(at, from) && less(from, at) ==> less(at, at);
    }
  }

  lemma PairFirst<T>(less: (T, T) -> bool, a: Mark<T>, b: Mark<T>, rest: seq<Mark<T>>)
    ensures ListedInPairs(less, [a, b] + rest) <==>
              a.kind.Introduced? && !b.kind.Introduced? && EndsAfter(less, a, b) && ListedInPairs(less, rest)
    ensures Spans([a, b] + rest) == [Interval(a.point, b.point, b.kind.LastAffected?)] + Spans(rest)
  {
    assert ([a, b] + rest)[2..] == rest;
  }

  lemma EndFirst<T>(less: (T, T) -> bool, m: Mark<T>, rest: seq<Mark<T>>)
    requires !m.kind.Introduced?
    ensures !ListedInPairs(less, [m] + rest)
  {
  }

  /** Reading the events accepts exactly the lists in pairs, and gives the intervals from each introduction to its end. */
  lemma {:induction false} ReadAllIff<T(!new)>(less: (T, T) -> bool, r: Reading<T>, es: seq<Event<T>>)
    requires StrictTotal(less)
    ensures ReadAll(less, r, es).Some? <==> ListedInPairs(less, Waiting(r) + Marks(es))
    ensures ReadAll(less, r, es).Some? ==> Intervals(ReadAll(less, r, es).value) == r.done + Spans(Waiting(r) + Marks(es))
    decreases |es|
  {
    if es == [] {
      assert Waiting(r) + [] == Waiting(r);
    } else if Read(less, r, es[0]).Some? {
      ReadAllIff(less, Read(less, r, es[0]).value, es[1..]);
      OneEventRead(less, r, es[0], Marks(es[1..]));
      MarksCons(es);
      hide ListedInPairs, Spans, Read, Waiting, Marks, StrictTotal, Intervals;
    } else {
      OneEventRefused(less, r, es[0], Marks(es[1..]));
      MarksCons(es);
      hide ListedInPairs, Spans, Read, Waiting, Marks, StrictTotal, Intervals;
    }
  }

  lemma OneEventRead<T(!new)>(less: (T, T) -> bool, r: Reading<T>, e: Event<T>, later: seq<Mark<T>>)
    requires StrictTotal(less) && Read(less, r, e).Some?
    ensures var next := Read(less, r, e).value;
            && (ListedInPairs(less, Waiting(r) + (Marks([e]) + later)) <==> ListedInPairs(less, Waiting(next) + later))
            && r.done + Spans(Waiting(r) + (Marks([e]) + later)) == next.done + Spans(Waiting(next) + later)
  {
    ReadIff(less, r, e);
    OneMark(e);
    hide StrictTotal, EndsAfter;
    var next := Read(less, r, e).value;
    match e
    case Limit(_) => assert Waiting(r) + ([] + later) == Waiting(next) + later;
    case Introduce(from) => assert Waiting(r) + ([Mark(Introduced, from)] + later) == Waiting(next) + later;
    case Close(last, at) =>
      CloseRead(less, r, last, at, later);
      assert Waiting(next) + later == later;
  }

  lemma CloseRead<T(!new)>(less: (T, T) -> bool, r: Reading<T>, last: bool, at: T, later: seq<Mark<T>>)
    requires r.isOpen && EndsAfter(less, Mark(Introduced, r.start), Mark(Closing(last), Some(at)))
    ensures var ms := Waiting(r) + ([Mark(Closing(last), Some(at))] + later);
            && (ListedInPairs(less, ms) <==> ListedInPairs(less, later))
            && r.done + Spans(ms) == (r.done + [Interval(r.start, Some(at), last)]) + Spans(later)
  {
    var m := Mark(Closing(last), Some(at));
    assert Waiting(r) + ([m] + later) == [Mark(Introduced, r.start), m] + later;
    PairFirst(less, Mark(Introduced, r.start), m, later);
    hide ListedInPairs, Spans, EndsAfter;
  }

  lemma OneEventRefused<T(!new)>(less: (T, T) -> bool, r: Reading<T>, e: Event<T>, later: seq<Mark<T>>)
    requires StrictTotal(less) && Read(less, r, e) == None
    ensures !ListedInPairs(less, Waiting(r) + (Marks([e]) + later))
  {
    ReadIff(less, r, e);
    OneMark(e);
    hide StrictTotal, EndsAfter;
    var m := Marks([e])[0];
    if r.isOpen {
      assert Waiting(r) + ([m] + later) == [Mark(Introduced, r.start), m] + later;
      PairFirst(less, Mark(Introduced, r.start), m, later);
    } else {
      assert Waiting(r) + ([m] + later) == [m] + later;
      EndFirst(less, m, later);
    }
  }

  lemma {:induction false} ReadAllModes<T>(less: (T, T) -> bool, r: Reading<T>, es: seq<Event<T>>, before: seq<Mark<T>>)
    requires ReadAll(less, r, es).Some? && EndsOf(r.modes, before)
    ensures EndsOf(ReadAll(less, r, es).value.modes, before + Marks(es))
    decreases |es|
  {
    if es == [] {
      assert before + [] == before;
    } else {
      var e := es[0];
      MarksCons(es);
      OneMark(e);
      assert before + Marks(es) == (before + Marks([e])) + Marks(es[1..]);
      assert EndsOf(Read(less, r, e).value.modes, before + Marks([e]));
      ReadAllModes(less, Read(less, r, e).value, es[1..], before + Marks([e]));
    }
  }

  lemma OneModeIff<T>(modes: set<bool>, ms: seq<Mark<T>>)
    requires EndsOf(modes, ms)
    ensures |modes| <= 1 <==> OneKindOfEnd(ms)
  {
    if |modes| > 1 {
      forall last: bool ensures last in modes {
        if last !in modes {
          forall b | b in modes ensures b in {!last} {
          }
          SubsetIsSmaller(modes, {!last});
        }
      }
      var a :| a in ms && a.kind == Closing(true);
      var b :| b in ms && b.kind == Closing(false);
    } else {
      forall a, b | a in ms && b in ms && !a.kind.Introduced? && !b.kind.Introduced? ensures a.kind == b.kind {
        assert a.kind == Closing(a.kind.LastAffected?) && b.kind == Closing(b.kind.LastAffected?);
        if a.kind != b.kind {
          assert {true, false} <= modes;
          SubsetIsSmaller({true, false}, modes);
        }
      }
    }
  }

  lemma SubsetIsSmaller<T>(a: set<T>, b: set<T>)
    requires a <= b
    ensures |a| <= |b|
  {
    assert b == a + (b - a);
  }

  predicate Clear<T(==)>(less: (T, T) -> bool, a: Interval<T>, b: Interval<T>) {
    EndsBefore(less, a, b) || EndsBefore(less, b, a)
  }

  ghost predicate ClearOfAll<T>(less: (T, T) -> bool, x: Interval<T>, ivs: seq<Interval<T>>) {
    forall y :: y in ivs ==> Clear(less, x, y)
  }

  lemma ClearOfCons<T>(less: (T, T) -> bool, x: Interval<T>, first: Interval<T>, rest: seq<Interval<T>>)
    ensures ClearOfAll(less, x, [first] + rest) <==> Clear(less, x, first) && ClearOfAll(less, x, rest)
  {
    hide Clear;
    assert first in [first] + rest && forall y :: y in rest ==> y in [first] + rest;
  }

  lemma ClearOfPermuted<T>(less: (T, T) -> bool, x: Interval<T>, a: seq<Interval<T>>, b: seq<Interval<T>>)
    requires multiset(a) == multiset(b)
    ensures ClearOfAll(less, x, a) <==> ClearOfAll(less, x, b)
  {
    hide Clear;
    SameMembers(a, b);
  }

  lemma DisjointFirst<T>(less: (T, T) -> bool, x: Interval<T>, rest: seq<Interval<T>>)
    ensures Disjoint(less, [x] + rest) <==> Disjoint(less, rest) && ClearOfAll(less, x, rest)
  {
    var all := [x] + rest;
    if Disjoint(less, all) {
      forall i, j | 0 <= i < j < |rest| ensures Clear(less, rest[i], rest[j]) {
        assert Clear(less, all[i + 1], all[j + 1]);
      }
      forall y | y in rest ensures Clear(less, x, y) {
        var j :| 0 <= j < |rest| && rest[j] == y;
        assert Clear(less, all[0], all[j + 1]);
      }
    }
    if Disjoint(less, rest) && ClearOfAll(less, x, rest) {
      forall i, j | 0 <= i < j < |all| ensures Clear(less, all[i], all[j]) {
        assert all[j] == rest[j - 1] && (i > 0 ==> all[i] == rest[i - 1]);
      }
    }
  }

  lemma {:induction false} InsertKeepsDisjoint<T(!new)>(less: (T, T) -> bool, x: Interval<T>, sorted: seq<Interval<T>>)
    ensures Disjoint(less, Insert(less, x, sorted)) <==> Disjoint(less, [x] + sorted)
  {
    if sorted != [] && StartsBefore(less, sorted[0], x) {
      var first, rest := sorted[0], sorted[1..];
      var tail := Insert(less, x, rest);
      InsertKeepsDisjoint(less, x, rest);
      InsertKeeps(less, x, rest);
      assert sorted == [first] + rest && Insert(less, x, sorted) == [first] + tail;
      assert Clear(less, first, x) <==> Clear(less, x, first);
      hide Clear, ClearOfAll, Disjoint, Insert;
      ClearOfPermuted(less, first, tail, [x] + rest);
      ClearOfCons(less, first, x, rest);
      ClearOfCons(less, x, first, rest);
      DisjointFirst(less, first, tail);
      DisjointFirst(less, x, sorted);
      DisjointFirst(less, x, rest);
      DisjointFirst(less, first, rest);
    }
  }

  lemma {:induction false} SortKeepsDisjoint<T(!new)>(less: (T, T) -> bool, ivs: seq<Interval<T>>)
    ensures Disjoint(less, SortByStart(less, ivs)) <==> Disjoint(less, ivs)
  {
    if ivs != [] {
      var first, rest := ivs[0], ivs[1..];
      var tail := SortByStart(less, rest);
      SortKeepsDisjoint(less, rest);
      SortKeeps(less, rest);
      InsertKeepsDisjoint(less, first, tail);
      assert ivs == [first] + rest && SortByStart(less, ivs) == Insert(less, first, tail);
      hide Disjoint, Insert, ClearOfAll, SortByStart;
      ClearOfPermuted(less, first, tail, rest);
      DisjointFirst(less, first, tail);
      DisjointFirst(less, first, rest);
    }
  }

  lemma ApartIff<T(!new)>(less: (T, T) -> bool, a: Interval<T>, b: Interval<T>)
    requires StrictTotal(less)
    ensures Apart(less, a, b) <==> EndsBefore(less, a, b)
  {
    if a.high.Some? && b.low.Some? {
      var p, q := a.high.value, b.low.value;
      assert p == q || less(p, q) || less(q, p);
      assert less(p, q) && less(q, p) ==> less(p, p);
    }
  }

  lemma {:induction false} SeparatedAreDisjoint<T(!new)>(less: (T, T) -> bool, ivs: seq<Interval<T>>, i: nat, j: nat)
    requires StrictTotal(less) && AllProper(less, ivs) && Separated(less, ivs) && i < j < |ivs|
    ensures EndsBefore(less, ivs[i], ivs[j])
    decreases j
  {
    assert Apart(less, ivs[j - 1], ivs[j - 1 + 1]);
    ApartIff(less, ivs[j - 1], ivs[j]);
    if i < j - 1 {
      SeparatedAreDisjoint(less, ivs, i, j - 1);
      assert Proper(less, ivs[j - 1]);
    }
  }

  /** Sorted by their starts, intervals are separated one after the other exactly if any two are disjoint. */
  lemma SeparatedIffDisjoint<T(!new)>(less: (T, T) -> bool, ivs: seq<Interval<T>>)
    requires StrictTotal(less) && AllProper(less, ivs) && SortedByStart(less, ivs)
    ensures Separated(less, ivs) <==> Disjoint(less, ivs)
  {
    if Separated(less, ivs) {
      forall i, j | 0 <= i < j < |ivs| ensures EndsBefore(less, ivs[i], ivs[j]) {
        SeparatedAreDisjoint(less, ivs, i, j);
      }
    }
    if Disjoint(less, ivs) {
      forall i | 0 <= i < |ivs| - 1 ensures Apart(less, ivs[i], ivs[i + 1]) {
        var a, b := ivs[i], ivs[i + 1];
        assert Proper(less, a) && Proper(less, b) && !StartsBefore(less, b, a);
        assert EndsBefore(less, a, b) || EndsBefore(less, b, a);
        ApartIff(less, a, b);
      }
    }
  }

  lemma {:induction false} SomeMark<T>(es: seq<Event<T>>)
    ensures HasIntroduction(es) <==> exists m :: m in Marks(es) && m.kind.Introduced?
  {
    if es != [] {
      MarksCons(es);
      OneMark(es[0]);
      SomeMark(es[1..]);
      assert HasIntroduction(es) <==> es[0].Introduce? || HasIntroduction(es[1..]) by {
        assert forall i :: 0 <= i < |es| - 1 ==> es[1..][i] == es[i + 1];
        if i :| 0 <= i < |es| && es[i].Introduce? && i > 0 { assert es[1..][i - 1].Introduce?; }
        if i :| 0 <= i < |es[1..]| && es[1..][i].Introduce? { assert es[i + 1].Introduce?; }
      }
    }
  }

  /** The program accepts exactly the lists of events that a reader would: introductions and ends in pairs, all ends of one
      kind, and no two of the spans they describe overlapping. */
  lemma AcceptedIff<T(!new)>(less: (T, T) -> bool, es: seq<Event<T>>)
    requires StrictTotal(less)
    ensures Accepted(less, es) <==> WellListed(less, Marks(es))
  {
    ReadAllIff(less, Start(), es);
    SomeMark(es);
    assert Waiting(Start<T>()) + Marks(es) == Marks(es);
    if ReadAll(less, Start(), es).Some? {
      var r := ReadAll(less, Start(), es).value;
      assert EndsOf<T>({}, []);
      ReadAllModes(less, Start(), es, []);
      assert [] + Marks(es) == Marks(es);
      OneModeIff(r.modes, Marks(es));
      IntervalsHoldTheMarks(less, es);
      assert Intervals(r) == Spans(Marks(es));
      SortKeeps(less, Intervals(r));
      SameMembers(SortByStart(less, Intervals(r)), Intervals(r));
      SortSorts(less, Intervals(r));
      SeparatedIffDisjoint(less, SortByStart(less, Intervals(r)));
      SortKeepsDisjoint(less, Intervals(r));
    }
  }

  // ----- limits ------------------------------------------------------------------------------

  /** Every finite limit lies above the version. */
  predicate BelowAllLimits<T>(less: (T, T) -> bool, es: seq<Event<T>>, v: T) {
    forall i :: 0 <= i < |es| && es[i].Limit? && es[i].bound.Some? ==> less(v, es[i].bound.value)
  }

  predicate PassesLimit<T>(less: (T, T) -> bool, e: Event<T>, v: T) {
    e.Limit? && (e.bound == None || less(v, e.bound.value))
  }

  /** The schema's own test: there is no limit, or some limit lies above the version. */
  predicate BeforeLimits<T>(less: (T, T) -> bool, es: seq<Event<T>>, v: T) {
    (forall i :: 0 <= i < |es| ==> !es[i].Limit?) || exists i :: 0 <= i < |es| && PassesLimit(less, es[i], v)
  }

  predicate AtMostOneLimit<T>(es: seq<Event<T>>) {
    forall i, j :: 0 <= i < |es| && 0 <= j < |es| && es[i].Limit? && es[j].Limit? ==> i == j
  }

  /** The code asks for all limits where the schema asks for one: they disagree exactly when some limits lie above
      the version and some do not, which takes at least two limits. */
  lemma LimitsAgreeIff<T>(less: (T, T) -> bool, es: seq<Event<T>>, v: T)
    ensures BelowAllLimits(less, es, v) == BeforeLimits(less, es, v) <==>
              !((exists i :: 0 <= i < |es| && PassesLimit(less, es[i], v))
                && (exists j :: 0 <= j < |es| && es[j].Limit? && !PassesLimit(less, es[j], v)))
    ensures AtMostOneLimit(es) ==> BelowAllLimits(less, es, v) == BeforeLimits(less, es, v)
  {
  }

  /** A version above one limit and below another: out of the range for the program, and in it for the schema. */
  lemma TwoLimitsDisagree()
    ensures var less := (a: int, b: int) => a < b;
            var es := [Introduce(None), Limit(Some(2)), Limit(Some(5))];
            !BelowAllLimits(less, es, 3) && BeforeLimits(less, es, 3)
  {
    var less := (a: int, b: int) => a < b;
    var es := [Introduce(None), Limit(Some(2)), Limit(Some(5))];
    assert es[1].Limit? && !less(3, es[1].bound.value);
    assert PassesLimit(less, es[2], 3);
  }
}
